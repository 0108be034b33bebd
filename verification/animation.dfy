/** The body-clip arbiter: the avatar holds one current clip name, and the
    effect keyed on it fades the previous clip out and the new one in. The
    mixer itself is not modelled, only the commands it receives. */
module AnimationArbiter {

  /** The three clips the avatar names: "Idle", "Angry" and "Greeting". */
  datatype Clip = Idle | Angry | Greeting

  /** A call on an animation action of the mixer. */
  datatype Command =
    | Reset(clip: Clip)
    | FadeIn(clip: Clip, seconds: real)
    | Play(clip: Clip)
    | FadeOut(clip: Clip, seconds: real)

  /** The fade time of both directions of a cross-fade. */
  const FadeSeconds: real := 0.5

  /** The effect body `actions[clip].reset().fadeIn(0.5).play()`. */
  function Start(clip: Clip): seq<Command>
  {
    [Reset(clip), FadeIn(clip, FadeSeconds), Play(clip)]
  }

  /** What `setAnimation(next)` issues while `current` is the state: nothing
      when the value does not change (the effect is not re-run); otherwise the
      previous run's cleanup, `actions[current].fadeOut(0.5)`, and then the
      new run's body. */
  function Transition(current: Clip, next: Clip): (r: seq<Command>)
    ensures current == next <==> r == []
    ensures r != [] ==> r[0] == FadeOut(current, FadeSeconds) && r[|r| - 1] == Play(next)
  {
    if current == next then [] else [FadeOut(current, FadeSeconds)] + Start(next)
  }

  /** The effect of one command on the set of engaged clips. */
  function Apply(engaged: set<Clip>, c: Command): set<Clip>
  {
    match c
    case Play(k) => engaged + {k}
    case FadeOut(k, _) => engaged - {k}
    case _ => engaged
  }

  /** The clips a command log leaves engaged: played and not faded out since. */
  function Engaged(log: seq<Command>): set<Clip>
    decreases |log|
  {
    if log == [] then {} else Apply(Engaged(log[..|log| - 1]), log[|log| - 1])
  }

  /** Appending one command updates the engaged set by that command alone. */
  lemma EngagedSnoc(log: seq<Command>, c: Command)
    ensures Engaged(log + [c]) == Apply(Engaged(log), c)
  {
    assert (log + [c])[..|log|] == log;
  }

  /** Mounting leaves exactly the initial clip, Idle, engaged. */
  lemma MountEngagesIdle()
    ensures Engaged(Start(Idle)) == {Idle}
  {
    EngagedSnoc([], Reset(Idle));
    EngagedSnoc([Reset(Idle)], FadeIn(Idle, FadeSeconds));
    EngagedSnoc([Reset(Idle), FadeIn(Idle, FadeSeconds)], Play(Idle));
  }

  /** A transition keeps exactly one clip engaged: the one it moves to. A
      change of clip fades the old one out before the new one is started;
      setting the current clip again issues nothing. */
  lemma TransitionKeepsOneEngaged(log: seq<Command>, current: Clip, next: Clip)
    requires Engaged(log) == {current}
    ensures Engaged(log + Transition(current, next)) == {next}
    ensures current == next <==> Transition(current, next) == []
  {
    if current != next {
      var l1 := log + [FadeOut(current, FadeSeconds)];
      var l2 := l1 + [Reset(next)];
      var l3 := l2 + [FadeIn(next, FadeSeconds)];
      EngagedSnoc(log, FadeOut(current, FadeSeconds));
      EngagedSnoc(l1, Reset(next));
      EngagedSnoc(l2, FadeIn(next, FadeSeconds));
      EngagedSnoc(l3, Play(next));
      assert log + Transition(current, next) == l3 + [Play(next)];
    } else {
      assert log + Transition(current, next) == log;
    }
  }
}
