/** The one-time densification of the body's point cloud: every vertex above
    the chest line is copied three times with a small random jitter, and the
    copies are appended to the position buffer. A position buffer is a flat
    sequence x0, y0, z0, x1, y1, z1, ...; `Math.random()` is a stream of draws
    in [0, 1), one per pushed coordinate, in push order. */
module Densify {

  /** A vertex is copied when its y exceeds this. */
  const Threshold: real := 0.05
  /** The jitter is `(draw - 0.5) * Spread`. */
  const Spread: real := 0.003
  /** Half the spread: the largest offset of a copy from its source. */
  const MaxJitter: real := 0.0015

  function Jitter(draw: real): real
  {
    (draw - 0.5) * Spread
  }

  /** Vertex `v` lies above the threshold. */
  predicate IsUpper(s: seq<real>, v: nat)
    requires 3 * v + 3 <= |s|
  {
    s[3 * v + 1] > Threshold
  }

  /** The three unjittered copies of vertex `v`, in push order. */
  function Triplicate(s: seq<real>, v: nat): seq<real>
    requires 3 * v + 3 <= |s|
  {
    var x, y, z := s[3 * v], s[3 * v + 1], s[3 * v + 2];
    [x, y, z, x, y, z, x, y, z]
  }

  /** The coordinates the loop pushes for the first `n` vertices, before
      jitter. */
  function Copies(s: seq<real>, n: nat): seq<real>
    requires 3 * n <= |s|
  {
    if n == 0 then []
    else Copies(s, n - 1) + (if IsUpper(s, n - 1) then Triplicate(s, n - 1) else [])
  }

  /** How many of the first `n` vertices lie above the threshold. */
  function UpperCount(s: seq<real>, n: nat): nat
    requires 3 * n <= |s|
  {
    if n == 0 then 0 else UpperCount(s, n - 1) + (if IsUpper(s, n - 1) then 1 else 0)
  }

  /** Coordinate `p` of the pushed list gets draw `p`. */
  function Jittered(c: seq<real>, draws: seq<real>): (r: seq<real>)
    requires |c| <= |draws|
    ensures |r| == |c|
  {
    seq(|c|, p requires 0 <= p < |c| => c[p] + Jitter(draws[p]))
  }

  /** `[...original, ...upperPoints]`: at most three copies per vertex, so
      the buffer at most quadruples. */
  function Densified(s: seq<real>, draws: seq<real>): (r: seq<real>)
    requires |s| % 3 == 0 && |Copies(s, |s| / 3)| <= |draws|
    ensures |s| <= |r| <= 4 * |s| && r[..|s|] == s
  {
    CopiesBound(s, |s| / 3);
    assert 9 * (|s| / 3) == 3 * |s|;
    s + Jittered(Copies(s, |s| / 3), draws)
  }

  predicate AreDraws(draws: seq<real>)
  {
    forall p :: 0 <= p < |draws| ==> 0.0 <= draws[p] < 1.0
  }

  /** Nine coordinates are added per vertex above the threshold and none for
      a vertex at or below it. */
  lemma {:induction false} CopiesLength(s: seq<real>, n: nat)
    requires 3 * n <= |s|
    ensures |Copies(s, n)| == 9 * UpperCount(s, n)
  {
    if n > 0 {
      CopiesLength(s, n - 1);
    }
  }

  /** Each vertex adds at most nine coordinates. */
  lemma {:induction false} CopiesBound(s: seq<real>, n: nat)
    requires 3 * n <= |s|
    ensures |Copies(s, n)| <= 9 * n
  {
    if n > 0 {
      CopiesBound(s, n - 1);
    }
  }

  /** Processing more vertices only appends: the copies of a prefix of the
      vertices are a prefix of the copies of all of them. */
  lemma {:induction false} CopiesPrefix(s: seq<real>, m: nat, n: nat)
    requires m <= n && 3 * n <= |s|
    ensures |Copies(s, m)| <= |Copies(s, n)| && Copies(s, n)[..|Copies(s, m)|] == Copies(s, m)
    decreases n
  {
    if m < n {
      CopiesPrefix(s, m, n - 1);
      var c := Copies(s, n - 1);
      assert Copies(s, n)[..|c|] == c;
    }
  }

  /** The copies come three per source vertex, in source-vertex order: the
      copies of the `k`-th vertex above the threshold occupy positions `9k`
      to `9k + 8`. */
  lemma CopiesInVertexOrder(s: seq<real>, n: nat, v: nat)
    requires v < n && 3 * n <= |s| && IsUpper(s, v)
    ensures 9 * UpperCount(s, v) + 9 <= |Copies(s, n)|
    ensures Copies(s, n)[9 * UpperCount(s, v) .. 9 * UpperCount(s, v) + 9] == Triplicate(s, v)
  {
    var before, all, t := Copies(s, v), Copies(s, n), Triplicate(s, v);
    assert |before| == 9 * UpperCount(s, v) by { CopiesLength(s, v); }
    assert |t| == 9;
    assert |before + t| <= |all| && all[..|before + t|] == before + t by {
      assert Copies(s, v + 1) == before + t;
      CopiesPrefix(s, v + 1, n);
    }
    PrefixPart(all, before, t);
  }

  /** When `b + c` is a prefix of `a`, `c` sits in `a` right after `b`. */
  lemma PrefixPart<T>(a: seq<T>, b: seq<T>, c: seq<T>)
    requires |b + c| <= |a| && a[..|b + c|] == b + c
    ensures a[|b|..|b| + |c|] == c
  {
    forall k | 0 <= k < |c|
      ensures a[|b|..|b| + |c|][k] == c[k]
    {
      assert a[|b| + k] == a[..|b + c|][|b| + k];
    }
  }

  /** Each added coordinate lies within 0.0015 of the source coordinate it
      copies, and the original buffer is the unchanged prefix. */
  lemma DensifiedNear(s: seq<real>, draws: seq<real>)
    requires |s| % 3 == 0 && |Copies(s, |s| / 3)| <= |draws| && AreDraws(draws)
    ensures Densified(s, draws)[..|s|] == s
    ensures var c := Copies(s, |s| / 3);
      |Densified(s, draws)| == |s| + |c| &&
      forall p :: 0 <= p < |c| ==> -MaxJitter <= Densified(s, draws)[|s| + p] - c[p] < MaxJitter
  {
    var c := Copies(s, |s| / 3);
    forall p | 0 <= p < |c|
      ensures -MaxJitter <= Densified(s, draws)[|s| + p] - c[p] < MaxJitter
    {
      assert Densified(s, draws)[|s| + p] - c[p] == Jitter(draws[p]);
    }
  }

  /** Appending one vertex's three copies appends their jittered values, each
      taking the next draws. */
  lemma JitteredSnoc(c: seq<real>, x: real, y: real, z: real, draws: seq<real>)
    requires |c| + 3 <= |draws|
    ensures Jittered(c + [x, y, z], draws) ==
      Jittered(c, draws) + [x + Jitter(draws[|c|]), y + Jitter(draws[|c| + 1]), z + Jitter(draws[|c| + 2])]
  {
  }

  /** One more vertex, read as (x, y, z), adds its three copies when y is
      above the threshold and nothing otherwise; the copies so far still fit
      the draws of all vertices. */
  lemma CopiesStep(s: seq<real>, v: nat, n: nat, x: real, y: real, z: real)
    requires v < n && 3 * n <= |s|
    requires x == s[3 * v] && y == s[3 * v + 1] && z == s[3 * v + 2]
    ensures y > Threshold ==> Copies(s, v + 1) == Copies(s, v) + [x, y, z, x, y, z, x, y, z]
    ensures y <= Threshold ==> Copies(s, v + 1) == Copies(s, v)
    ensures |Copies(s, v + 1)| <= |Copies(s, n)|
  {
    CopiesPrefix(s, v + 1, n);
    if !IsUpper(s, v) {
      assert Copies(s, v) + [] == Copies(s, v);
    }
  }

  /** The inner `for (j = 0; j < 3; j++)` loop: three jittered copies of
      the vertex (x, y, z) pushed onto `upperPoints`, the jittered form of the
      unjittered coordinates `done`. */
  method PushCopies(upperPoints: seq<real>, x: real, y: real, z: real, draws: seq<real>, ghost done: seq<real>, ghost next: seq<real>)
    returns (pushed: seq<real>)
    requires next == done + [x, y, z, x, y, z, x, y, z]
    requires |next| <= |draws| && upperPoints == Jittered(done, draws)
    ensures pushed == Jittered(next, draws)
  {
    ghost var t := [x, y, z, x, y, z, x, y, z];
    pushed := upperPoints;
    var j := 0;
    while j < 3
      invariant 0 <= j <= 3
      invariant pushed == Jittered(done + t[..3 * j], draws)
    {
      ghost var prefix := done + t[..3 * j];
      assert done + t[..3 * (j + 1)] == prefix + [x, y, z];
      JitteredSnoc(prefix, x, y, z, draws);
      pushed := pushed + [x + Jitter(draws[|pushed|]), y + Jitter(draws[|pushed| + 1]), z + Jitter(draws[|pushed| + 2])];
      j := j + 1;
    }
    assert t[..9] == t;
  }

  /** The outer loop of the densifying effect over the vertices, returning the
      new buffer `[...original, ...upperPoints]`. */
  method DensifyPositions(original: array<real>, draws: seq<real>) returns (positions: array<real>)
    requires original.Length % 3 == 0 && |Copies(original[..], original.Length / 3)| <= |draws|
    ensures fresh(positions)
    ensures positions[..] == Densified(original[..], draws)
  {
    ghost var s := original[..];
    ghost var n := original.Length / 3;
    assert 3 * n == original.Length;
    var upperPoints: seq<real> := [];
    var i := 0;
    ghost var v: nat := 0;
    while i < original.Length
      invariant 0 <= v <= n && i == 3 * v && i <= original.Length
      invariant |Copies(s, v)| <= |draws|
      invariant upperPoints == Jittered(Copies(s, v), draws)
    {
      var x, y, z := original[i], original[i + 1], original[i + 2];
      CopiesStep(s, v, n, x, y, z);
      if y > Threshold {
        upperPoints := PushCopies(upperPoints, x, y, z, draws, Copies(s, v), Copies(s, v + 1));
      }
      i := i + 3;
      v := v + 1;
    }
    assert v == n;
    positions := NewBuffer(original[..] + upperPoints);
  }

  /** `new Float32Array([...])`: a fresh typed array holding the given values. */
  method NewBuffer(values: seq<real>) returns (buffer: array<real>)
    ensures fresh(buffer) && buffer[..] == values
  {
    buffer := new real[|values|](k requires 0 <= k < |values| => values[k]);
  }
}
