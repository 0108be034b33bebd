/** The particle layer of the avatar: nine mesh parts (body, outfit bottom,
    footwear, outfit top, hair, head, teeth, left eye, right eye, in that
    order), the baseline copies of their position buffers, and the three
    operations on them: densifying the body once, taking the baselines, and
    the per-frame breathing write. */
module AvatarParticles {
  import opened Densify
  import opened Breathing

  const PartCount: nat := 9

  /** `geometry.attributes.position` of one part: `setAttribute` can replace
      the buffer, the breathing pass writes into it. */
  class Geometry {
    var position: array<real>

    constructor (position: array<real>)
      ensures this.position == position
    {
      this.position := position;
    }
  }

  class Particles {
    /** The parts in the order above; `parts[0]` is the body. */
    const parts: seq<Geometry>
    /** `particlesRef.current`: one baseline per part, or none yet. */
    var baselines: seq<seq<real>>

    /** Nine distinct parts, each with its own buffer. */
    ghost predicate PartsValid()
      reads this, parts
    {
      && |parts| == PartCount
      && forall i, j :: 0 <= i < j < |parts| ==> parts[i] != parts[j] && parts[i].position != parts[j].position
    }

    /** Every baseline is the size of its part's current buffer. */
    ghost predicate Synced()
      reads this, parts
    {
      && |baselines| == |parts|
      && forall i :: 0 <= i < |parts| ==> |baselines[i]| == parts[i].position.Length
    }

    ghost predicate Valid()
      reads this, parts
    {
      PartsValid() && (baselines == [] || Synced())
    }

    constructor (parts: seq<Geometry>)
      requires |parts| == PartCount
      requires forall i, j :: 0 <= i < j < |parts| ==> parts[i] != parts[j] && parts[i].position != parts[j].position
      ensures Valid() && this.parts == parts && baselines == []
    {
      this.parts := parts;
      baselines := [];
    }

    /** The baseline effect: `particlesRef.current` becomes a copy (`slice()`)
        of every part's buffer. */
    method Snapshot()
      requires PartsValid()
      modifies this`baselines
      ensures Valid() && Synced()
      ensures forall i :: 0 <= i < |parts| ==> baselines[i] == parts[i].position[..]
    {
      var copies: seq<seq<real>> := [];
      var i := 0;
      while i < |parts|
        invariant 0 <= i <= |parts| && |copies| == i
        invariant forall k :: 0 <= k < i ==> copies[k] == parts[k].position[..]
      {
        copies := copies + [parts[i].position[..]];
        i := i + 1;
      }
      baselines := copies;
    }

    /** The two effects keyed on the loaded nodes, in declaration order:
        the body is densified, then the baselines are taken. */
    method OnNodes(draws: seq<real>)
      requires Valid() && baselines == []
      requires parts[0].position.Length % 3 == 0
      requires |Copies(parts[0].position[..], parts[0].position.Length / 3)| <= |draws|
      modifies parts[0], this`baselines
      ensures Valid() && Synced()
      ensures fresh(parts[0].position)
      ensures parts[0].position[..] == Densified(old(parts[0].position[..]), draws)
      ensures forall i :: 1 <= i < |parts| ==> parts[i].position == old(parts[i].position)
      ensures forall i :: 0 <= i < |parts| ==> baselines[i] == parts[i].position[..]
    {
      var body := parts[0];
      var densified := DensifyPositions(body.position, draws);
      body.position := densified;
      Snapshot();
    }

    /** The breathing frame: every part that has a baseline is breathed from
        it; the baselines themselves are only read. */
    method Frame(time: real, sin: real -> real)
      requires Valid()
      modifies set i | 0 <= i < |parts| :: parts[i].position
      ensures Valid()
      ensures forall i :: 0 <= i < |parts| ==> parts[i].position == old(parts[i].position)
      ensures baselines == [] ==> forall i :: 0 <= i < |parts| ==> parts[i].position[..] == old(parts[i].position[..])
      ensures baselines != [] ==> forall i :: 0 <= i < |parts| ==>
        parts[i].position[..] == Breathed(old(parts[i].position[..]), baselines[i], time, sin)
    {
      var idx := 0;
      while idx < |baselines|
        invariant 0 <= idx <= |baselines|
        invariant forall i :: 0 <= i < |parts| ==>
          parts[i].position[..] == if i < idx then Breathed(old(parts[i].position[..]), baselines[i], time, sin)
                                   else old(parts[i].position[..])
      {
        BreathePart(parts[idx].position, baselines[idx], time, sin);
        idx := idx + 1;
      }
    }
  }
}
