/** What one frame of lip-sync does to an array of morph-target influences,
    stated on sequences: first every table channel is pulled toward 0, then the
    channel of the active cue is pulled toward its peak. The class in
    avatar.dfy runs this in place on the head and teeth arrays. */
module LipSync {
  import opened Wrappers
  import opened Visemes

  /** One entry of a cue track: `{start, end, value}` in seconds and a symbol. */
  datatype MouthCue = MouthCue(start: real, end: real, value: string)

  /** The cue test of the frame loop: both ends of the interval are inclusive. */
  predicate Contains(cue: MouthCue, t: real)
  {
    cue.start <= t <= cue.end
  }

  /** The cue the `for ... break` loop stops at: the first one, in track order,
      whose interval holds `t`; `None` when no cue does. */
  function ActiveCue(cues: seq<MouthCue>, t: real): (r: Option<nat>)
    ensures r.Some? ==> r.value < |cues| && Contains(cues[r.value], t)
    ensures r.Some? ==> forall j :: 0 <= j < r.value ==> !Contains(cues[j], t)
    ensures r.None? <==> forall j :: 0 <= j < |cues| ==> !Contains(cues[j], t)
  {
    if cues == [] then None
    else if Contains(cues[0], t) then Some(0)
    else match ActiveCue(cues[1..], t)
      case None => None
      case Some(k) => Some(k + 1)
  }

  /** The channel name the active cue asks for: `corresponding[cue.value]`,
      `None` when no cue is active or the symbol is not in the table. */
  function Target(cues: seq<MouthCue>, t: real): Option<string>
  {
    match ActiveCue(cues, t)
    case None => None
    case Some(i) => Corresponding(cues[i].value)
  }

  /** `THREE.MathUtils.lerp`. */
  function Lerp(a: real, b: real, f: real): (r: real)
    ensures f == 0.0 ==> r == a
    ensures f == 1.0 ==> r == b
    ensures a == b ==> r == a
  {
    a + (b - a) * f
  }

  /** `f` is the abstraction of `1 - exp(-100 * delta)`, which lies in [0, 1]
      for a non-negative `delta` (the seconds since the clock was last read):
      the lerp then stays between its ends, does nothing at `f = 0` and
      reaches the target at `f = 1`. */
  lemma LerpBetween(a: real, b: real, f: real)
    requires 0.0 <= f <= 1.0
    ensures a <= b ==> a <= Lerp(a, b, f) <= b
    ensures b <= a ==> b <= Lerp(a, b, f) <= a
    ensures f == 0.0 ==> Lerp(a, b, f) == a
    ensures f == 1.0 ==> Lerp(a, b, f) == b
  {
    var d := b - a;
    assert Lerp(a, b, f) == a + d * f;
    if d >= 0.0 {
      ScaleBetween(d, f);
      assert a <= a + d * f <= a + d;
    } else {
      ScaleBetween(-d, f);
      assert (-d) * f == -(d * f);
      assert a + d <= a + d * f <= a;
    }
  }

  /** Scaling a non-negative amount by a factor in [0, 1] keeps it between 0
      and itself. */
  lemma ScaleBetween(d: real, f: real)
    requires d >= 0.0 && 0.0 <= f <= 1.0
    ensures 0.0 <= d * f <= d
  {
    assert d - d * f == d * (1.0 - f);
    assert d * (1.0 - f) >= 0.0;
  }

  /** Every index a morph-target dictionary yields is inside an array of
      length `n`. */
  predicate IndexesIn(dict: map<string, nat>, n: nat)
  {
    forall name :: name in dict ==> dict[name] < n
  }

  /** `morphTargetDictionary[name]`; a missing name or a missing channel gives
      `None` (in the source, an `undefined` index, which addresses no entry). */
  function Resolve(dict: map<string, nat>, name: Option<string>): Option<nat>
  {
    if name.Some? && name.value in dict then Some(dict[name.value]) else None
  }

  /** One `influences[index] = lerp(influences[index], target, f)` statement. */
  function Pull(s: seq<real>, index: Option<nat>, target: real, f: real): (r: seq<real>)
    requires index.Some? ==> index.value < |s|
    ensures |r| == |s|
  {
    if index.None? then s else s[index.value := Lerp(s[index.value], target, f)]
  }

  /** The decay `forEach`: each name of `names`, in order, pulls its channel
      toward 0. */
  function DecayAll(s: seq<real>, dict: map<string, nat>, names: seq<string>, f: real): (r: seq<real>)
    requires IndexesIn(dict, |s|)
    ensures |r| == |s|
    decreases |names|
  {
    if names == [] then s
    else Pull(DecayAll(s, dict, names[..|names| - 1], f), Resolve(dict, Some(names[|names| - 1])), 0.0, f)
  }

  /** One lip-sync frame on one influence array, with `peak` 1 for the head and
      0.8 for the teeth; both use the head's dictionary. */
  function LipSyncPass(s: seq<real>, dict: map<string, nat>, cues: seq<MouthCue>, t: real, f: real, peak: real): (r: seq<real>)
    requires IndexesIn(dict, |s|)
    ensures |r| == |s|
  {
    Pull(DecayAll(s, dict, TableValues, f), Resolve(dict, Target(cues, t)), peak, f)
  }

  function Pow(x: real, n: nat): real
  {
    if n == 0 then 1.0 else x * Pow(x, n - 1)
  }

  /** How many of `names` resolve to index `k`. */
  function Hits(dict: map<string, nat>, names: seq<string>, k: nat): nat
    decreases |names|
  {
    if names == [] then 0
    else Hits(dict, names[..|names| - 1], k) + (if Resolve(dict, Some(names[|names| - 1])) == Some(k) then 1 else 0)
  }

  /** The indices the table's names resolve to: the only entries a frame may
      touch. */
  function TableIndices(dict: map<string, nat>): set<nat>
  {
    set v | v in TableValues && v in dict :: dict[v]
  }

  predicate InUnit(s: seq<real>)
  {
    forall i :: 0 <= i < |s| ==> 0.0 <= s[i] <= 1.0
  }

  /** The decay pass multiplies entry `k` by `1 - f` once for every name that
      resolves to `k`, and leaves it alone when none does. */
  lemma {:induction false} DecayAllAt(s: seq<real>, dict: map<string, nat>, names: seq<string>, f: real, k: nat)
    requires IndexesIn(dict, |s|) && k < |s|
    ensures DecayAll(s, dict, names, f)[k] == s[k] * Pow(1.0 - f, Hits(dict, names, k))
    decreases |names|
  {
    if names != [] {
      DecayAllAt(s, dict, names[..|names| - 1], f, k);
      DecayLastAt(s, dict, names, f, k);
    }
  }

  /** The inductive step of `DecayAllAt`: if the claim holds for all names
      but the last, it holds for all of them. */
  lemma DecayLastAt(s: seq<real>, dict: map<string, nat>, names: seq<string>, f: real, k: nat)
    requires IndexesIn(dict, |s|) && k < |s| && names != []
    requires var init := names[..|names| - 1];
      DecayAll(s, dict, init, f)[k] == s[k] * Pow(1.0 - f, Hits(dict, init, k))
    ensures DecayAll(s, dict, names, f)[k] == s[k] * Pow(1.0 - f, Hits(dict, names, k))
  {
    var init := names[..|names| - 1];
    var hit := Resolve(dict, Some(names[|names| - 1])) == Some(k);
    var before, after := DecayAll(s, dict, init, f)[k], DecayAll(s, dict, names, f)[k];
    var h, h' := Hits(dict, init, k), Hits(dict, names, k);
    assert after == (if hit then Lerp(before, 0.0, f) else before) && h' == h + (if hit then 1 else 0) by {
      DecayLast(s, dict, names, f, k);
    }
    DecayStep(s[k], before, after, f, h, h', hit);
  }

  /** The last name of a non-empty list pulls entry `k` toward 0 when it
      resolves to `k`, and leaves it alone otherwise. */
  lemma DecayLast(s: seq<real>, dict: map<string, nat>, names: seq<string>, f: real, k: nat)
    requires IndexesIn(dict, |s|) && k < |s| && names != []
    ensures var init := names[..|names| - 1];
      var hit := Resolve(dict, Some(names[|names| - 1])) == Some(k);
      var before := DecayAll(s, dict, init, f)[k];
      && DecayAll(s, dict, names, f)[k] == (if hit then Lerp(before, 0.0, f) else before)
      && Hits(dict, names, k) == Hits(dict, init, k) + (if hit then 1 else 0)
  {
  }

  /** A pull toward 0 adds one factor `1 - f` to the decay of an entry, and
      skipping it adds none. */
  lemma DecayStep(a: real, before: real, after: real, f: real, h: nat, h': nat, hit: bool)
    requires before == a * Pow(1.0 - f, h)
    requires after == (if hit then Lerp(before, 0.0, f) else before)
    requires h' == h + (if hit then 1 else 0)
    ensures after == a * Pow(1.0 - f, h')
  {
    if hit {
      var q := 1.0 - f;
      var p := Pow(q, h);
      assert Lerp(before, 0.0, f) == before * q;
      assert Pow(q, h + 1) == q * p;
      assert (a * p) * q == a * (q * p);
    }
  }


  /** When `v` is the only name of `names` that resolves to `k`, entry `k` is
      hit once per occurrence of `v`. */
  lemma {:induction false} HitsOfOnlyName(dict: map<string, nat>, names: seq<string>, v: string, k: nat)
    requires v in dict && dict[v] == k
    requires forall w :: w in names && w != v && w in dict ==> dict[w] != k
    ensures Hits(dict, names, k) == multiset(names)[v]
    decreases |names|
  {
    if names != [] {
      var init := names[..|names| - 1];
      assert names == init + [names[|names| - 1]];
      HitsOfOnlyName(dict, init, v, k);
    }
  }

  /** "viseme_PP" is listed for both A and X, so, when no other table name
      shares its index, a playing frame decays it twice: by `(1 - f)^2`. */
  lemma PPDecayedTwice(s: seq<real>, dict: map<string, nat>, f: real)
    requires IndexesIn(dict, |s|) && "viseme_PP" in dict
    requires forall w :: w in TableValues && w != "viseme_PP" && w in dict ==> dict[w] != dict["viseme_PP"]
    ensures DecayAll(s, dict, TableValues, f)[dict["viseme_PP"]] == s[dict["viseme_PP"]] * (1.0 - f) * (1.0 - f)
  {
    var k := dict["viseme_PP"];
    DecayAllAt(s, dict, TableValues, f, k);
    assert Hits(dict, TableValues, k) == 2 by {
      HitsOfOnlyName(dict, TableValues, "viseme_PP", k);
      ValueMultiplicities();
    }
    SquareFactor(s[k], 1.0 - f);
  }

  lemma SquareFactor(a: real, x: real)
    ensures a * Pow(x, 2) == a * x * x
  {
    assert Pow(x, 1) == x;
    assert Pow(x, 2) == x * x;
    assert a * (x * x) == a * x * x;
  }

  /** An index no table name resolves to is hit zero times. */
  lemma {:induction false} NoHitsOutsideTable(dict: map<string, nat>, names: seq<string>, k: nat)
    requires forall w :: w in names && w in dict ==> dict[w] != k
    ensures Hits(dict, names, k) == 0
    decreases |names|
  {
    if names != [] {
      NoHitsOutsideTable(dict, names[..|names| - 1], k);
    }
  }

  /** The active cue's channel, if it resolves, is pulled toward `peak` after
      the decay; every other entry keeps its decayed value. With no active
      cue, or an unknown symbol, only the decay pass has an effect. */
  lemma AttackAfterDecay(s: seq<real>, dict: map<string, nat>, cues: seq<MouthCue>, t: real, f: real, peak: real)
    requires IndexesIn(dict, |s|)
    ensures var d := DecayAll(s, dict, TableValues, f);
      var r := LipSyncPass(s, dict, cues, t, f, peak);
      match Resolve(dict, Target(cues, t))
      case None => r == d
      case Some(k) => r[k] == Lerp(d[k], peak, f) && forall j :: 0 <= j < |s| && j != k ==> r[j] == d[j]
  {
  }

  /** The channel a cue asks for is always one of the table's values. */
  lemma TargetIsTableValue(cues: seq<MouthCue>, t: real)
    ensures Target(cues, t).Some? ==> Target(cues, t).value in TableValues
  {
  }

  /** Entries whose index no table name resolves to are never modified. */
  lemma UntouchedOutsideTable(s: seq<real>, dict: map<string, nat>, cues: seq<MouthCue>, t: real, f: real, peak: real, k: nat)
    requires IndexesIn(dict, |s|) && k < |s| && k !in TableIndices(dict)
    ensures LipSyncPass(s, dict, cues, t, f, peak)[k] == s[k]
  {
    NoHitsOutsideTable(dict, TableValues, k);
    DecayAllAt(s, dict, TableValues, f, k);
    TargetIsTableValue(cues, t);
  }

  lemma {:induction false} DecayAllInUnit(s: seq<real>, dict: map<string, nat>, names: seq<string>, f: real)
    requires IndexesIn(dict, |s|) && InUnit(s) && 0.0 <= f <= 1.0
    ensures InUnit(DecayAll(s, dict, names, f))
    decreases |names|
  {
    if names != [] {
      var before := DecayAll(s, dict, names[..|names| - 1], f);
      DecayAllInUnit(s, dict, names[..|names| - 1], f);
      var index := Resolve(dict, Some(names[|names| - 1]));
      if index.Some? {
        LerpBetween(before[index.value], 0.0, f);
      }
    }
  }

  /** Influences that start in [0, 1] stay in [0, 1], for either peak the
      frame uses (1 and 0.8). */
  lemma LipSyncInUnit(s: seq<real>, dict: map<string, nat>, cues: seq<MouthCue>, t: real, f: real, peak: real)
    requires IndexesIn(dict, |s|) && InUnit(s) && 0.0 <= f <= 1.0 && 0.0 <= peak <= 1.0
    ensures InUnit(LipSyncPass(s, dict, cues, t, f, peak))
  {
    DecayAllInUnit(s, dict, TableValues, f);
    var d := DecayAll(s, dict, TableValues, f);
    var index := Resolve(dict, Target(cues, t));
    if index.Some? {
      LerpBetween(d[index.value], peak, f);
    }
  }

  lemma {:induction false} DecayAllZeroFactor(s: seq<real>, dict: map<string, nat>, names: seq<string>)
    requires IndexesIn(dict, |s|)
    ensures DecayAll(s, dict, names, 0.0) == s
    decreases |names|
  {
    if names != [] {
      DecayAllZeroFactor(s, dict, names[..|names| - 1]);
    }
  }

  /** A zero lerp factor (a zero `delta`) changes nothing. */
  lemma LipSyncZeroFactor(s: seq<real>, dict: map<string, nat>, cues: seq<MouthCue>, t: real, peak: real)
    requires IndexesIn(dict, |s|)
    ensures LipSyncPass(s, dict, cues, t, 0.0, peak) == s
  {
    DecayAllZeroFactor(s, dict, TableValues);
  }

  /** At a boundary two cues share, the earlier cue wins; inside the middle
      cue of a B, D, X track, D is active and its channel is "viseme_AA". */
  lemma SharedBoundary()
    ensures var cues := [MouthCue(0.0, 0.3, "B"), MouthCue(0.3, 0.6, "D"), MouthCue(0.6, 0.9, "X")];
      ActiveCue(cues, 0.3) == Some(0) && Target(cues, 0.3) == Some("viseme_kk") &&
      ActiveCue(cues, 0.45) == Some(1) && Target(cues, 0.45) == Some("viseme_AA") &&
      Target(cues, 1.0) == None
  {
  }
}
