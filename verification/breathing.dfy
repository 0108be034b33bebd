/** The per-frame breathing write on one part's position buffer: for
    i = 0, 10, 20, ... the entries i, i + 1 and i + 2 are set to their baseline
    value plus `0.002 * sin(time + 0.01 * i)`. The stride is 10, so the written
    triples do not line up with vertices. `sin` is a parameter standing for
    `Math.sin`; the buffer is a typed array, so writes past its end are
    dropped. */
module Breathing {

  const Amplitude: real := 0.002
  const PhaseScale: real := 0.01
  const Stride: nat := 10

  /** The offset written from start index `i`. */
  function Offset(sin: real -> real, time: real, i: nat): real
  {
    Amplitude * sin(time + (i as real) * PhaseScale)
  }

  /** Entry `k` is one of the three written from a start index. */
  predicate Written(k: nat)
  {
    k % Stride < 3
  }

  /** The start index whose offset entry `k` receives. */
  function StartOf(k: nat): nat
  {
    k - k % Stride
  }

  /** Within the `block`-th block of ten entries, every entry takes its
      offset from the block's first index, and the first three are the
      written ones. */
  lemma StrideBlock(block: nat, k: nat)
    requires Stride * block <= k < Stride * block + Stride
    ensures StartOf(k) == Stride * block && (Written(k) <==> k < Stride * block + 3)
  {
    assert k == Stride * block + (k - Stride * block);
    assert k % Stride == k - Stride * block;
  }

  /** The buffer after one breathing pass from `current` with baseline `base`. */
  function Breathed(current: seq<real>, base: seq<real>, time: real, sin: real -> real): (r: seq<real>)
    requires |base| == |current|
    ensures |r| == |current|
  {
    seq(|current|, k requires 0 <= k < |current| =>
      if Written(k) then base[k] + Offset(sin, time, StartOf(k)) else current[k])
  }

  ghost predicate IsSine(sin: real -> real)
  {
    forall x :: -1.0 <= sin(x) <= 1.0
  }

  /** Only entries `k` with `k mod 10` in {0, 1, 2} change; the length is kept. */
  lemma OnlyStrideEntriesChange(current: seq<real>, base: seq<real>, time: real, sin: real -> real)
    requires |base| == |current|
    ensures |Breathed(current, base, time, sin)| == |current|
    ensures forall k :: 0 <= k < |current| && k % Stride >= 3 ==> Breathed(current, base, time, sin)[k] == current[k]
  {
  }

  /** A written entry is within 0.002 of its baseline value. */
  lemma BreathedBound(current: seq<real>, base: seq<real>, time: real, sin: real -> real)
    requires |base| == |current| && IsSine(sin)
    ensures forall k :: 0 <= k < |current| ==> -Amplitude <= Breathed(current, base, time, sin)[k] - base[k] <= Amplitude || !Written(k)
  {
    forall k | 0 <= k < |current| && Written(k)
      ensures -Amplitude <= Breathed(current, base, time, sin)[k] - base[k] <= Amplitude
    {
      var x := time + (StartOf(k) as real) * PhaseScale;
      assert -1.0 <= sin(x) <= 1.0;
    }
  }

  /** The three entries written from one start index get the same offset. */
  lemma SameOffsetPerStart(current: seq<real>, base: seq<real>, time: real, sin: real -> real, i: nat)
    requires |base| == |current| && i % Stride == 0 && i + 2 < |current|
    ensures var r := Breathed(current, base, time, sin);
      r[i] - base[i] == r[i + 1] - base[i + 1] == r[i + 2] - base[i + 2] == Offset(sin, time, i)
  {
    StrideBlock(i / Stride, i);
    StrideBlock(i / Stride, i + 1);
    StrideBlock(i / Stride, i + 2);
  }

  /** Written entries depend only on the baseline and the time, so a second
      pass with the same time changes nothing. */
  lemma BreathedIdempotent(current: seq<real>, base: seq<real>, time: real, sin: real -> real)
    requires |base| == |current|
    ensures Breathed(Breathed(current, base, time, sin), base, time, sin) == Breathed(current, base, time, sin)
  {
  }

  /** The `for (i = 0; i < length; i += 10)` loop on one buffer. */
  method BreathePart(positions: array<real>, original: seq<real>, time: real, sin: real -> real)
    requires |original| == positions.Length
    modifies positions
    ensures positions[..] == Breathed(old(positions[..]), original, time, sin)
  {
    var i := 0;
    ghost var block: nat := 0;
    while i < positions.Length
      invariant i == Stride * block
      invariant i <= positions.Length + Stride
      invariant forall k :: 0 <= k < positions.Length ==>
        positions[k] == if k < i && Written(k) then original[k] + Offset(sin, time, StartOf(k)) else old(positions[k])
    {
      var offset := Offset(sin, time, i);
      positions[i] := original[i] + offset;
      if i + 1 < positions.Length {
        positions[i + 1] := original[i + 1] + offset;
      }
      if i + 2 < positions.Length {
        positions[i + 2] := original[i + 2] + offset;
      }
      forall k | i <= k < i + Stride
        ensures StartOf(k) == i && (Written(k) <==> k < i + 3)
      {
        StrideBlock(block, k);
      }
      i := i + Stride;
      block := block + 1;
    }
  }
}
