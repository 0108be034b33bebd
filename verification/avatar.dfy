/** The avatar component's state and its per-frame lip-sync loop: the head's
    and the teeth's morph-target influence arrays, which the frame updates in
    place, the current script and the current animation clip. */
module AvatarModel {
  import opened Wrappers
  import opened Visemes
  import opened LipSync
  import opened AnimationArbiter

  /** The script played when none is given, and the one the greeting starts. */
  const HelloScript: string := "HelloGalax"

  /** The lip-sync peaks: the head opens fully, the teeth to 0.8. */
  const HeadPeak: real := 1.0
  const TeethPeak: real := 0.8

  class Avatar {
    /** `Wolf3D_Head.morphTargetDictionary`, also used to index the teeth. */
    const headDict: map<string, nat>
    /** `Wolf3D_Teeth.morphTargetDictionary`, used only to open the lips. */
    const teethDict: map<string, nat>
    /** `morphTargetInfluences` of the head and of the teeth. */
    const head: array<real>
    const teeth: array<real>
    var script: string
    var animation: Clip
    /** Every command issued to the animation mixer so far, oldest first. */
    var mixer: seq<Command>

    /** The two meshes have their own arrays, every index the dictionaries
        give (the head's, for both arrays) is in range, and exactly the current
        clip is engaged in the mixer. */
    ghost predicate Valid()
      reads this
    {
      && head != teeth
      && IndexesIn(headDict, head.Length)
      && IndexesIn(headDict, teeth.Length)
      && IndexesIn(teethDict, teeth.Length)
      && Engaged(mixer) == {animation}
    }

    /** Mounting: `scriptProp || "HelloGalax"`, the state `"Idle"`, and the
        first run of the animation effect, which starts Idle. `None` and the
        empty string stand for JavaScript's falsy props. */
    constructor (headDict: map<string, nat>, teethDict: map<string, nat>,
                 head: array<real>, teeth: array<real>, scriptProp: Option<string>)
      requires head != teeth
      requires IndexesIn(headDict, head.Length) && IndexesIn(headDict, teeth.Length)
      requires IndexesIn(teethDict, teeth.Length)
      ensures Valid()
      ensures this.headDict == headDict && this.teethDict == teethDict
      ensures this.head == head && this.teeth == teeth
      ensures script == (if scriptProp.Some? && scriptProp.value != "" then scriptProp.value else HelloScript)
      ensures animation == Idle && mixer == Start(Idle)
    {
      this.headDict := headDict;
      this.teethDict := teethDict;
      this.head := head;
      this.teeth := teeth;
      script := if scriptProp.Some? && scriptProp.value != "" then scriptProp.value else HelloScript;
      animation := Idle;
      mixer := Start(Idle);
      new;
      MountEngagesIdle();
    }

    /** `setAnimation(next)` together with the effect keyed on `animation`. */
    method SetAnimation(next: Clip)
      requires Valid()
      modifies this`animation, this`mixer
      ensures Valid()
      ensures animation == next
      ensures mixer == old(mixer) + Transition(old(animation), next)
    {
      TransitionKeepsOneEngaged(mixer, animation, next);
      mixer := mixer + Transition(animation, next);
      animation := next;
    }

    /** The effect keyed on the `triggerHello` prop: a truthy trigger selects
        the greeting script and clip. */
    method TriggerHello(trigger: bool)
      requires Valid()
      modifies this`script, this`animation, this`mixer
      ensures Valid()
      ensures trigger ==> script == HelloScript && animation == Greeting
      ensures trigger ==> mixer == old(mixer) + Transition(old(animation), Greeting)
      ensures !trigger ==> script == old(script) && animation == old(animation) && mixer == old(mixer)
    {
      if trigger {
        script := HelloScript;
        SetAnimation(Greeting);
      }
    }

    /** The mount effect that opens the lips: "viseme_I" set to 1 on the head
        and on the teeth, each through its own dictionary. */
    method OpenLips()
      requires Valid()
      modifies head, teeth
      ensures "viseme_I" in headDict ==> head[..] == old(head[..])[headDict["viseme_I"] := 1.0]
      ensures "viseme_I" !in headDict ==> head[..] == old(head[..])
      ensures "viseme_I" in teethDict ==> teeth[..] == old(teeth[..])[teethDict["viseme_I"] := 1.0]
      ensures "viseme_I" !in teethDict ==> teeth[..] == old(teeth[..])
    {
      if "viseme_I" in headDict {
        head[headDict["viseme_I"]] := 1.0;
      }
      if "viseme_I" in teethDict {
        teeth[teethDict["viseme_I"]] := 1.0;
      }
    }

    /** One frame of the lip-sync loop. `f` stands for `1 - exp(-100 * delta)`,
        `time` for `audio.currentTime`; `paused` and `ended` are the audio
        element's flags. While audio plays, both arrays become the lip-sync
        pass of their old contents; otherwise they are left alone and the
        clip returns to Idle. */
    method Frame(cues: seq<MouthCue>, time: real, f: real, paused: bool, ended: bool)
      requires Valid()
      modifies head, teeth, this`animation, this`mixer
      ensures Valid()
      ensures !paused && !ended ==>
        && head[..] == LipSyncPass(old(head[..]), headDict, cues, time, f, HeadPeak)
        && teeth[..] == LipSyncPass(old(teeth[..]), headDict, cues, time, f, TeethPeak)
        && animation == old(animation) && mixer == old(mixer)
      ensures paused || ended ==>
        && head[..] == old(head[..]) && teeth[..] == old(teeth[..])
        && animation == Idle && mixer == old(mixer) + Transition(old(animation), Idle)
    {
      if !paused && !ended {
        Decay(f);
        Attack(cues, time, f);
      } else {
        SetAnimation(Idle);
      }
    }

    /** The decay `forEach` of the frame: every table value, in order, pulls
        its channel toward 0 on both arrays, indexed by the head's
        dictionary. */
    method Decay(f: real)
      requires Valid()
      modifies head, teeth
      ensures head[..] == DecayAll(old(head[..]), headDict, TableValues, f)
      ensures teeth[..] == DecayAll(old(teeth[..]), headDict, TableValues, f)
    {
      var j := 0;
      while j < |TableValues|
        invariant 0 <= j <= |TableValues|
        invariant head[..] == DecayAll(old(head[..]), headDict, TableValues[..j], f)
        invariant teeth[..] == DecayAll(old(teeth[..]), headDict, TableValues[..j], f)
      {
        var value := TableValues[j];
        assert TableValues[..j + 1][..j] == TableValues[..j];
        if value in headDict {
          var index := headDict[value];
          head[index] := Lerp(head[index], 0.0, f);
          teeth[index] := Lerp(teeth[index], 0.0, f);
        }
        j := j + 1;
      }
      assert TableValues[..j] == TableValues;
    }

    /** The cue search of the frame: the first cue holding `time` pulls its
        channel toward the peak (1 on the head, 0.8 on the teeth) and stops the
        search. */
    method Attack(cues: seq<MouthCue>, time: real, f: real)
      requires Valid()
      modifies head, teeth
      ensures head[..] == Pull(old(head[..]), Resolve(headDict, Target(cues, time)), HeadPeak, f)
      ensures teeth[..] == Pull(old(teeth[..]), Resolve(headDict, Target(cues, time)), TeethPeak, f)
    {
      var i := 0;
      while i < |cues|
        invariant 0 <= i <= |cues|
        invariant forall c :: 0 <= c < i ==> !Contains(cues[c], time)
        invariant head[..] == old(head[..]) && teeth[..] == old(teeth[..])
      {
        var cue := cues[i];
        if time >= cue.start && time <= cue.end {
          assert ActiveCue(cues, time) == Some(i);
          var targetValue := Corresponding(cue.value);
          if targetValue.Some? && targetValue.value in headDict {
            var index := headDict[targetValue.value];
            head[index] := Lerp(head[index], HeadPeak, f);
            teeth[index] := Lerp(teeth[index], TeethPeak, f);
          }
          return;
        }
        i := i + 1;
      }
    }
  }
}
