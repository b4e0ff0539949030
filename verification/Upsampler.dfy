/**
 * The 2x upsampler of interleaved stereo, over the reals: originals at even frames,
 * cubic midpoints inside, linear midpoints at both ends. Frame k occupies the two
 * places 2k and 2k + 1.
 */
module Upsampler {

  function Linear(a: real, b: real): real { (a + b) * 0.5 }

  function Cubic(before: real, a: real, b: real, after: real): real {
    (9.0 * (a + b) - (before + after)) * 0.0625
  }

  /** The midpoint between frames k and k + 1 of one channel c. */
  function Midpoint(x: seq<real>, n: nat, k: nat, c: nat): real
    requires n >= 2 && |x| >= 2 * n && k + 1 < n && c < 2
  {
    if k == 0 || k + 2 == n then Linear(x[2 * k + c], x[2 * (k + 1) + c])
    else Cubic(x[2 * (k - 1) + c], x[2 * k + c], x[2 * (k + 1) + c], x[2 * (k + 2) + c])
  }

  /** Output frames 2k are the input frames. */
  ghost predicate EvenDone(out: seq<real>, x: seq<real>, k: nat)
    requires 2 * k + 1 < |x| && 4 * k + 1 < |out|
  {
    out[4 * k] == x[2 * k] && out[4 * k + 1] == x[2 * k + 1]
  }

  /** Output frames 2k + 1 are the midpoints. */
  ghost predicate OddDone(out: seq<real>, x: seq<real>, n: nat, k: nat)
    requires n >= 2 && |x| >= 2 * n && k + 1 < n && 4 * k + 3 < |out|
  {
    out[4 * k + 2] == Midpoint(x, n, k, 0) && out[4 * k + 3] == Midpoint(x, n, k, 1)
  }

  /** All originals and the first m midpoints are in place; the last frame slot is untouched. */
  ghost predicate Filled(out: seq<real>, was: seq<real>, x: seq<real>, n: nat, m: nat)
    requires n >= 2 && |x| >= 2 * n && m < n
  {
    && |out| == |was| >= 4 * n
    && (forall k :: 0 <= k < n ==> EvenDone(out, x, k))
    && (forall k :: 0 <= k < m ==> OddDone(out, x, n, k))
    && out[4 * n - 2..] == was[4 * n - 2..]
  }

  /** Writing midpoint m after the first m. */
  method PutMidpoint(out: array<real>, ghost was: seq<real>, ghost x: seq<real>, n: nat, m: nat, l: real, r: real)
    requires n >= 2 && |x| >= 2 * n && m + 1 < n && Filled(out[..], was, x, n, m)
    requires l == Midpoint(x, n, m, 0) && r == Midpoint(x, n, m, 1)
    modifies out
    ensures Filled(out[..], was, x, n, m + 1)
  {
    ghost var before := out[..];
    var i := 2 * m + 1;
    out[i * 2] := l;
    out[i * 2 + 1] := r;
    ghost var after := out[..];
    assert after == before[4 * m + 2 := l][4 * m + 3 := r];
    forall k | 0 <= k < n ensures EvenDone(after, x, k) {
      assert EvenDone(before, x, k);
      assert after[4 * k] == before[4 * k] && after[4 * k + 1] == before[4 * k + 1];
    }
    forall k | 0 <= k < m + 1 ensures OddDone(after, x, n, k) {
      if k < m {
        assert OddDone(before, x, n, k);
        assert after[4 * k + 2] == before[4 * k + 2] && after[4 * k + 3] == before[4 * k + 3];
      }
    }
  }

  /** Pass 1: even output frames. */
  method CopyOriginals(input: array<real>, n: nat, out: array<real>)
    requires n >= 2 && input != out && input.Length >= 2 * n && out.Length >= 4 * n
    modifies out
    ensures Filled(out[..], old(out[..]), input[..], n, 0)
  {
    for k := 0 to n
      invariant forall j :: 0 <= j < k ==> out[4 * j] == input[2 * j] && out[4 * j + 1] == input[2 * j + 1]
      invariant out[4 * n - 2..] == old(out[4 * n - 2..])
    {
      out[k * 4] := input[k * 2];
      out[k * 4 + 1] := input[k * 2 + 1];
    }
    assert forall k :: 0 <= k < n ==> EvenDone(out[..], input[..], k);
  }

  /** All 2n - 1 claimed frames are written as specified, and nothing beyond them. */
  method Upsample(input: array<real>, n: nat, out: array<real>, cap: nat) returns (frames: nat)
    requires input != out && input.Length >= 2 * n && out.Length >= 2 * cap
    modifies out
    ensures frames == if n < 2 || cap < n * 2 then 0 else 2 * n - 1
    ensures frames > 0 ==> Filled(out[..], old(out[..]), input[..], n, n - 1)
    ensures frames == 0 ==> out[..] == old(out[..])
    ensures frames > 0 ==>
              && (forall k :: 0 <= k < n ==> out[4 * k] == input[2 * k] && out[4 * k + 1] == input[2 * k + 1])
              && (forall i :: 4 * n - 2 <= i < out.Length ==> out[i] == old(out[i]))
              && out[2] == (input[0] + input[2]) / 2.0 && out[3] == (input[1] + input[3]) / 2.0
              && out[4 * n - 6] == (input[2 * n - 4] + input[2 * n - 2]) / 2.0
              && out[4 * n - 5] == (input[2 * n - 3] + input[2 * n - 1]) / 2.0
    ensures frames > 0 ==> forall k :: 0 < k < n - 2 ==>
      && 16.0 * out[4 * k + 2] ==
           9.0 * (input[2 * k] + input[2 * k + 2]) - (input[2 * k - 2] + input[2 * k + 4])
      && 16.0 * out[4 * k + 3] ==
           9.0 * (input[2 * k + 1] + input[2 * k + 3]) - (input[2 * k - 1] + input[2 * k + 5])
  {
    if n < 2 { return 0; }
    if cap < n * 2 { return 0; }
    ghost var was, x := out[..], input[..];
    CopyOriginals(input, n, out);
    PutMidpoint(out, was, x, n, 0, Linear(input[0], input[2]), Linear(input[1], input[3]));
    var k := 1;
    while k + 2 < n
      invariant 1 <= k && k + 2 <= n + 1 && (n > 2 ==> k + 2 <= n)
      invariant Filled(out[..], was, x, n, k)
    {
      var l := Cubic(input[2 * (k - 1)], input[2 * k], input[2 * (k + 1)], input[2 * (k + 2)]);
      var r := Cubic(input[2 * (k - 1) + 1], input[2 * k + 1], input[2 * (k + 1) + 1], input[2 * (k + 2) + 1]);
      PutMidpoint(out, was, x, n, k, l, r);
      k := k + 1;
    }
    if n >= 3 {
      PutMidpoint(out, was, x, n, n - 2,
                  Linear(input[2 * (n - 2)], input[2 * (n - 1)]),
                  Linear(input[2 * (n - 2) + 1], input[2 * (n - 1) + 1]));
    }
    frames := 2 * n - 1;
    FilledMeans(out[..], was, x, n);
    assert forall i :: 4 * n - 2 <= i < out.Length ==> out[i] == out[4 * n - 2..][i - (4 * n - 2)];
  }

  /** The samples of a finished output, one formula per kind of place. */
  lemma FilledMeans(out: seq<real>, was: seq<real>, x: seq<real>, n: nat)
    requires n >= 2 && |x| >= 2 * n && Filled(out, was, x, n, n - 1)
    ensures forall k :: 0 <= k < n ==> out[4 * k] == x[2 * k] && out[4 * k + 1] == x[2 * k + 1]
    ensures out[2] == (x[0] + x[2]) / 2.0 && out[3] == (x[1] + x[3]) / 2.0
    ensures out[4 * n - 6] == (x[2 * n - 4] + x[2 * n - 2]) / 2.0
    ensures out[4 * n - 5] == (x[2 * n - 3] + x[2 * n - 1]) / 2.0
    ensures forall k :: 0 < k < n - 2 ==>
              && 16.0 * out[4 * k + 2] == 9.0 * (x[2 * k] + x[2 * k + 2]) - (x[2 * k - 2] + x[2 * k + 4])
              && 16.0 * out[4 * k + 3] == 9.0 * (x[2 * k + 1] + x[2 * k + 3]) - (x[2 * k - 1] + x[2 * k + 5])
  {
    forall k | 0 <= k < n ensures out[4 * k] == x[2 * k] && out[4 * k + 1] == x[2 * k + 1] {
      assert EvenDone(out, x, k);
    }
    assert OddDone(out, x, n, 0) && OddDone(out, x, n, n - 2);
    forall k | 0 < k < n - 2
      ensures 16.0 * out[4 * k + 2] == 9.0 * (x[2 * k] + x[2 * k + 2]) - (x[2 * k - 2] + x[2 * k + 4])
      ensures 16.0 * out[4 * k + 3] == 9.0 * (x[2 * k + 1] + x[2 * k + 3]) - (x[2 * k - 1] + x[2 * k + 5])
    {
      assert OddDone(out, x, n, k);
    }
  }

  // ---- what the interpolation is good for ----

  function Poly(a: real, b: real, c: real, d: real, t: real): real {
    a + b * t + c * (t * t) + d * (t * t * t)
  }

  /** Moving the argument of a cubic by h, written out in powers of t. */
  lemma PolyShift(a: real, b: real, c: real, d: real, t: real, h: real)
    ensures Poly(a, b, c, d, t + h)
         == Poly(a, b, c, d, t) + h * b + h * (2.0 * (c * t)) + h * h * c
            + h * (3.0 * (d * (t * t))) + h * h * (3.0 * (d * t)) + h * h * h * d
  {
  }

  /** The cubic midpoint is exact for every cubic polynomial. */
  lemma CubicIsExact(a: real, b: real, c: real, d: real, t: real)
    ensures Cubic(Poly(a, b, c, d, t - 1.0), Poly(a, b, c, d, t),
                  Poly(a, b, c, d, t + 1.0), Poly(a, b, c, d, t + 2.0))
         == Poly(a, b, c, d, t + 0.5)
  {
    PolyShift(a, b, c, d, t, -1.0);
    PolyShift(a, b, c, d, t, 1.0);
    PolyShift(a, b, c, d, t, 2.0);
    PolyShift(a, b, c, d, t, 0.5);
  }

  /** On a channel that samples a cubic, interior midpoints are exact; on an affine one, all are. */
  lemma MidpointIsExact(x: seq<real>, n: nat, k: nat, ch: nat, a: real, b: real, c: real, d: real)
    requires n >= 2 && |x| >= 2 * n && k + 1 < n && ch < 2
    requires forall i: nat :: i < n ==> x[2 * i + ch] == Poly(a, b, c, d, i as real)
    requires (0 < k && k + 2 < n) || (c == 0.0 && d == 0.0)
    ensures Midpoint(x, n, k, ch) == Poly(a, b, c, d, k as real + 0.5)
  {
    var t := k as real;
    assert x[2 * k + ch] == Poly(a, b, c, d, t);
    assert x[2 * (k + 1) + ch] == Poly(a, b, c, d, (k + 1) as real);
    if 0 < k && k + 2 < n {
      assert x[2 * (k - 1) + ch] == Poly(a, b, c, d, (k - 1) as real);
      assert x[2 * (k + 2) + ch] == Poly(a, b, c, d, (k + 2) as real);
      CubicIsExact(a, b, c, d, t);
    } else {
      PolyShift(a, b, c, d, t, 1.0);
      PolyShift(a, b, c, d, t, 0.5);
    }
  }

  /** No midpoint exceeds 1.25 times the input's peak, and that gain is reached. */
  lemma GainBound(x: seq<real>, n: nat, k: nat, ch: nat, peak: real)
    requires n >= 2 && |x| >= 2 * n && k + 1 < n && ch < 2
    requires forall i :: 0 <= i < |x| ==> -peak <= x[i] <= peak
    ensures -1.25 * peak <= Midpoint(x, n, k, ch) <= 1.25 * peak
    ensures Cubic(-peak, peak, peak, -peak) == 1.25 * peak
  {
  }
}
