/**
 * The fixed-point downmix of 16-bit multichannel frames to stereo, for 16-bit and
 * for 32-bit encoders. C divisions truncate toward zero.
 */
module Downmix {

  type int16 = x: int | -32768 <= x < 32768

  const MAX32: int := 0x7fff_ffff
  const MIN32: int := -0x8000_0000

  function Trunc(x: int, d: int): int
    requires d > 0
  {
    if x >= 0 then x / d else -((-x) / d)
  }

  function Clamp(x: int, lo: int, hi: int): int
    requires lo <= hi
  {
    if x > hi then hi else if x < lo then lo else x
  }

  /** Channel i of a frame, absent channels being silent. */
  function Channel(frame: seq<int16>, i: nat): int { if i < |frame| then frame[i] else 0 }

  /** Front channel, centre, the sum of the two surrounds, and bass, at a given scale. */
  function Mix(front: int, centre: int, rear: int, bass: int): int {
    front + Trunc(centre * 707, 1000) + Trunc(rear * 707, 1000) + Trunc(bass * 500, 1000)
  }

  /** side 0 is left, 1 is right. */
  function Side16(frame: seq<int16>, side: nat): int {
    Clamp(Mix(Channel(frame, side), Channel(frame, 2),
              Channel(frame, 4 + side) + Channel(frame, 6 + side), Channel(frame, 3)), -32768, 32767)
  }

  function Side32(frame: seq<int16>, side: nat): int {
    Clamp(Mix(Channel(frame, side) * 65536, Channel(frame, 2) * 65536,
              Channel(frame, 4 + side) * 65536 + Channel(frame, 6 + side) * 65536, Channel(frame, 3) * 65536),
          MIN32, MAX32)
  }

  /** The two paths agree to less than four 16-bit units, saturation included, and both stay in range. */
  lemma PathsAgree(frame: seq<int16>, side: nat)
    requires side < 2
    ensures -4 * 65536 < Side32(frame, side) - 65536 * Side16(frame, side) < 4 * 65536
    ensures -32768 <= Side16(frame, side) <= 32767
    ensures MIN32 <= Side32(frame, side) <= MAX32
  {
    MixScales(Channel(frame, side), Channel(frame, 2),
              Channel(frame, 4 + side), Channel(frame, 6 + side), Channel(frame, 3));
  }

  /** Scaling by 2^16 before the divisions keeps less than one 16-bit unit of extra fraction in each. */
  lemma MixScales(f: int, c: int, s: int, t: int, b: int)
    ensures -3 * 65536 < Mix(f * 65536, c * 65536, s * 65536 + t * 65536, b * 65536)
                         - 65536 * Mix(f, c, s + t, b) < 3 * 65536
  {
  }

  /** Division toward zero: a remainder smaller than the divisor, and the same for both signs. */
  lemma TruncTowardZero(x: nat, d: int)
    requires d > 0
    ensures d * Trunc(x, d) <= x < d * Trunc(x, d) + d
    ensures Trunc(0 - x, d) == 0 - Trunc(x, d)
  {
  }

  /**
   * Each channel's own share, rounded on its own: front whole, centre and surrounds at
   * 707, bass at 500 thousandths, and the shares add up.
   */
  lemma Shares(f: int, c: int, s: int, b: int)
    ensures Mix(f, 0, 0, 0) == f
    ensures Mix(0, c, 0, 0) == Trunc(707 * c, 1000)
    ensures Mix(0, 0, s, 0) == Trunc(707 * s, 1000)
    ensures Mix(0, 0, 0, b) == Trunc(500 * b, 1000)
    ensures Mix(f, c, s, b) == Mix(f, 0, 0, 0) + Mix(0, c, 0, 0) + Mix(0, 0, s, 0) + Mix(0, 0, 0, b)
  {
  }

  /** Three truncations cost less than three units. */
  lemma MixIsClose(f: int, c: int, s: int, b: int)
    ensures -3000 < 1000 * Mix(f, c, s, b) - (1000 * f + 707 * c + 707 * s + 500 * b) < 3000
  {
  }

  predicate InInt32(x: int) { MIN32 <= x <= MAX32 }

  predicate InInt64(x: int) { -0x8000_0000_0000_0000 <= x <= 0x7fff_ffff_ffff_ffff }

  /** No intermediate value of the 16-bit path leaves int32_t. */
  lemma NoOverflow(frame: seq<int16>, side: nat)
    requires side < 2
    ensures var f, c, b := Channel(frame, side), Channel(frame, 2), Channel(frame, 3);
            var s := Channel(frame, 4 + side) + Channel(frame, 6 + side);
            && InInt32(c * 707) && InInt32(s) && InInt32(s * 707) && InInt32(b * 500)
            && InInt32(f + Trunc(c * 707, 1000))
            && InInt32(f + Trunc(c * 707, 1000) + Trunc(s * 707, 1000))
            && InInt32(Mix(f, c, s, b))
  {
  }

  /** In the 32-bit path the shifted samples are int32_t, and no product or sum leaves int64_t. */
  lemma NoWideOverflow(frame: seq<int16>, side: nat)
    requires side < 2
    ensures forall i: nat :: InInt32(Channel(frame, i) * 65536)
    ensures var f, c, b := Channel(frame, side) * 65536, Channel(frame, 2) * 65536, Channel(frame, 3) * 65536;
            var s := Channel(frame, 4 + side) * 65536 + Channel(frame, 6 + side) * 65536;
            && InInt64(c * 707) && InInt64(s) && InInt64(s * 707) && InInt64(b * 500)
            && InInt64(f + Trunc(c * 707, 1000))
            && InInt64(f + Trunc(c * 707, 1000) + Trunc(s * 707, 1000))
            && InInt64(Mix(f, c, s, b))
  {
  }

  method Saturate(x: int, lo: int, hi: int) returns (y: int)
    requires lo <= hi
    ensures y == Clamp(x, lo, hi)
  {
    y := x;
    if y > hi { y := hi; }
    if y < lo { y := lo; }
  }

  /**
   * What a sample of either path has to do with a level given in thousandths of a unit:
   * less than three units off, cut at the ends of its range.
   */
  predicate Renders(y: int, level: int, lo: int, hi: int) {
    && lo <= y <= hi
    && (y > lo ==> 1000 * y < level + 3000)
    && (y < hi ==> 1000 * y > level - 3000)
  }

  /** Saturation: unchanged inside the range, the nearer end outside. */
  lemma ClampIs(x: int, lo: int, hi: int)
    requires lo <= hi
    ensures lo <= x <= hi ==> Clamp(x, lo, hi) == x
    ensures x > hi ==> Clamp(x, lo, hi) == hi
    ensures x < lo ==> Clamp(x, lo, hi) == lo
  {
  }

  /** A channel's sample, silence if the frame has no such channel. */
  lemma ChannelIs(frame: seq<int16>, i: nat)
    ensures i < |frame| ==> Channel(frame, i) == frame[i]
    ensures i >= |frame| ==> Channel(frame, i) == 0
  {
  }

  lemma ClampRenders(x: int, level: int, lo: int, hi: int)
    requires lo < hi && -3000 < 1000 * x - level < 3000
    ensures Renders(Clamp(x, lo, hi), level, lo, hi)
  {
  }

  /** The level of a side in thousandths: front, 0.707 of centre and of its two surrounds, half the bass. */
  function Level(frame: seq<int16>, side: nat): (r: int)
    requires side < 2
    ensures side == 0 ==> r == 1000 * Channel(frame, 0) + 707 * Channel(frame, 2)
                               + 707 * (Channel(frame, 4) + Channel(frame, 6)) + 500 * Channel(frame, 3)
    ensures side == 1 ==> r == 1000 * Channel(frame, 1) + 707 * Channel(frame, 2)
                               + 707 * (Channel(frame, 5) + Channel(frame, 7)) + 500 * Channel(frame, 3)
  {
    1000 * Channel(frame, side) + 707 * Channel(frame, 2)
    + 707 * (Channel(frame, 4 + side) + Channel(frame, 6 + side)) + 500 * Channel(frame, 3)
  }

  lemma Side16Renders(frame: seq<int16>, side: nat)
    requires side < 2
    ensures Renders(Side16(frame, side), Level(frame, side), -32768, 32767)
  {
    var f, c, b := Channel(frame, side), Channel(frame, 2), Channel(frame, 3);
    var s := Channel(frame, 4 + side) + Channel(frame, 6 + side);
    MixIsClose(f, c, s, b);
    ClampRenders(Mix(f, c, s, b), Level(frame, side), -32768, 32767);
  }

  lemma Side32Renders(frame: seq<int16>, side: nat)
    requires side < 2
    ensures Renders(Side32(frame, side), 65536 * Level(frame, side), MIN32, MAX32)
  {
    var f, c, b := Channel(frame, side) * 65536, Channel(frame, 2) * 65536, Channel(frame, 3) * 65536;
    var s := Channel(frame, 4 + side) * 65536 + Channel(frame, 6 + side) * 65536;
    MixIsClose(f, c, s, b);
    ClampRenders(Mix(f, c, s, b), 65536 * Level(frame, side), MIN32, MAX32);
  }

  /** The same with each channel written out, for either path. */
  predicate FrameRendered(ch: seq<int16>, wide: bool, l: int, r: int) {
    if wide then Renders(l, 65536 * Level(ch, 0), MIN32, MAX32) && Renders(r, 65536 * Level(ch, 1), MIN32, MAX32)
    else Renders(l, Level(ch, 0), -32768, 32767) && Renders(r, Level(ch, 1), -32768, 32767)
  }

  lemma FrameRenders(ch: seq<int16>, wide: bool, l: int, r: int)
    requires l == (if wide then Side32(ch, 0) else Side16(ch, 0))
    requires r == (if wide then Side32(ch, 1) else Side16(ch, 1))
    ensures FrameRendered(ch, wide, l, r)
  {
    if wide {
      Side32Renders(ch, 0);
      Side32Renders(ch, 1);
    } else {
      Side16Renders(ch, 0);
      Side16Renders(ch, 1);
    }
  }

  /** One frame, each side in terms of its channels and of the levels they make. */
  method DownmixFrame(ch: seq<int16>, wide: bool) returns (l: int, r: int)
    ensures l == if wide then Side32(ch, 0) else Side16(ch, 0)
    ensures r == if wide then Side32(ch, 1) else Side16(ch, 1)
    ensures FrameRendered(ch, wide, l, r)
  {
    l, r := MixAndSaturate(ch, wide);
    FrameRenders(ch, wide, l, r);
  }

  method MixAndSaturate(ch: seq<int16>, wide: bool) returns (l: int, r: int)
    ensures l == if wide then Side32(ch, 0) else Side16(ch, 0)
    ensures r == if wide then Side32(ch, 1) else Side16(ch, 1)
  {
    var fl, fr, fc, lfe := Channel(ch, 0), Channel(ch, 1), Channel(ch, 2), Channel(ch, 3);
    var bl, br, sl, sr := Channel(ch, 4), Channel(ch, 5), Channel(ch, 6), Channel(ch, 7);
    var lo, hi := -32768, 32767;
    if wide {
      fl, fr, fc, lfe := fl * 65536, fr * 65536, fc * 65536, lfe * 65536;
      bl, br, sl, sr := bl * 65536, br * 65536, sl * 65536, sr * 65536;
      lo, hi := MIN32, MAX32;
    }
    l, r := Mix(fl, fc, bl + sl, lfe), Mix(fr, fc, br + sr, lfe);
    l := Saturate(l, lo, hi);
    r := Saturate(r, lo, hi);
  }

  /** The loop over frames, writing interleaved stereo for a 16-bit or (`wide`) a 32-bit encoder. */
  method DownmixFrames(src: seq<seq<int16>>, wide: bool, dst: array<int>)
    requires dst.Length >= 2 * |src|
    modifies dst
    ensures forall f :: 0 <= f < |src| ==>
              && dst[2 * f] == (if wide then Side32(src[f], 0) else Side16(src[f], 0))
              && dst[2 * f + 1] == (if wide then Side32(src[f], 1) else Side16(src[f], 1))
    ensures forall i :: 2 * |src| <= i < dst.Length ==> dst[i] == old(dst[i])
  {
    for f := 0 to |src|
      invariant forall g :: 0 <= g < f ==>
                  && dst[2 * g] == (if wide then Side32(src[g], 0) else Side16(src[g], 0))
                  && dst[2 * g + 1] == (if wide then Side32(src[g], 1) else Side16(src[g], 1))
      invariant forall i :: 2 * f <= i < dst.Length ==> dst[i] == old(dst[i])
    {
      var l, r := MixAndSaturate(src[f], wide);
      dst[2 * f] := l;
      dst[2 * f + 1] := r;
    }
  }
}
