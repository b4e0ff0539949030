/**
 * The byte protocol of the remote SSC encoder: little-endian headers, requests and
 * replies, and how much each reader asks for next.
 */
module SscWire {
  import opened Bytes

  const CMD_SHUTDOWN: nat := 0x44434853
  const DAEMON_MAX_SAMPLES: nat := 16384
  const HELPER_MAX_SAMPLES: nat := 8192
  const HELPER_MAX_BYTES: nat := 4096
  const C_DAEMON_MAX_BYTES: nat := 65536

  /** Least significant byte first. */
  function Le32(x: nat): (s: seq<byte>)
    requires x < WRAP32
    ensures |s| == 4
    ensures var (b0: int, b1: int, b2: int, b3: int) := (s[0], s[1], s[2], s[3]);
            x == b0 + 256 * b1 + 65536 * b2 + 16777216 * b3
  {
    LittleEndian(x);
    [x % 256, x / 256 % 256, x / 65536 % 256, x / 16777216]
  }

  function FromLe32(s: seq<byte>): (x: nat)
    requires |s| >= 4
    ensures x < WRAP32
  {
    var (b0: int, b1: int, b2: int, b3: int) := (s[0], s[1], s[2], s[3]);
    b0 + 256 * b1 + 65536 * b2 + 16777216 * b3
  }

  lemma LittleEndian(x: nat)
    requires x < WRAP32
    ensures x / 16777216 < 256
    ensures x == x % 256 + 256 * (x / 256 % 256) + 65536 * (x / 65536 % 256) + 16777216 * (x / 16777216)
  {
    var a, b, c := x / 256, x / 65536, x / 16777216;
    assert x == 256 * a + x % 256;
    assert b == a / 256 && a == 256 * b + a % 256;
    assert c == b / 256 && b == 256 * c + b % 256;
  }

  lemma Le32RoundTrip(x: nat)
    requires x < WRAP32
    ensures FromLe32(Le32(x)) == x
  {
  }

  /** The two's complement view of a 32-bit word and back. */
  function Unsigned(x: int32): (u: nat)
    ensures u < WRAP32 && (u == x || u == x + WRAP32)
  {
    if x < 0 then x + WRAP32 else x
  }

  function Signed(u: nat): (x: int32)
    requires u < WRAP32
    ensures x == u || x == u - WRAP32
  {
    if u < 0x8000_0000 then u else u - WRAP32
  }

  /** One `ssc_encode` call: its return value and the output buffer it left. */
  datatype Encoded = Encoded(ret: int32, out: seq<byte>)

  /** Any stateful encoder: the result for the last of all PCM frames given so far. */
  type SampleEncoder = seq<seq<byte>> -> Encoded

  /** The encoder keeps to the helper's 4096-byte buffer. */
  ghost predicate Bounded(enc: SampleEncoder) {
    forall h :: enc(h).ret <= HELPER_MAX_BYTES && |enc(h).out| == HELPER_MAX_BYTES
  }

  /** PCM of a whole number of frames the helper accepts. */
  predicate GoodFrame(pcm: seq<byte>, channels: nat) {
    channels > 0 && |pcm| % (4 * channels) == 0 && 1 <= |pcm| / (4 * channels) <= HELPER_MAX_SAMPLES
  }

  lemma Samples(n: nat, channels: nat, size: nat)
    requires channels > 0 && size == n * channels * 4
    ensures size / (4 * channels) == n
  {
    var d := 4 * channels;
    assert size == d * n + 0;
    DivModUnique(size, d, n, 0);
  }

  /** The frames the helper accepts: 1 to 8192 samples for each channel, four bytes a sample. */
  lemma GoodFrameIff(pcm: seq<byte>, channels: nat)
    ensures GoodFrame(pcm, channels) <==>
            channels > 0 && exists n :: 1 <= n <= 8192 && |pcm| == n * channels * 4
  {
    if GoodFrame(pcm, channels) {
      var n := |pcm| / (4 * channels);
      assert |pcm| == (4 * channels) * n;
      assert |pcm| == n * channels * 4;
    }
    if n :| channels > 0 && 1 <= n <= 8192 && |pcm| == n * channels * 4 {
      Samples(n, channels, |pcm|);
      var d := 4 * channels;
      assert |pcm| == d * n + 0;
      DivModUnique(|pcm|, d, n, 0);
    }
  }

  function Request(pcm: seq<byte>, channels: nat): seq<byte>
    requires GoodFrame(pcm, channels)
  {
    Le32(|pcm| / (4 * channels)) + pcm
  }

  function Body(r: Encoded): seq<byte> {
    if 0 < r.ret <= |r.out| then r.out[..r.ret] else []
  }

  function Reply(r: Encoded): seq<byte> {
    Le32(Unsigned(r.ret)) + Body(r)
  }

  /** What is on the wire: a request is its frame count and then the PCM as it is. */
  lemma RequestBytes(pcm: seq<byte>, channels: nat)
    requires GoodFrame(pcm, channels)
    ensures var w := Request(pcm, channels);
            && |w| == 4 + |pcm| && w[4..] == pcm
            && var (b0: int, b1: int, b2: int, b3: int) := (w[0], w[1], w[2], w[3]);
               (b0 + 256 * b1 + 65536 * b2 + 16777216 * b3) * 4 * channels == |pcm|
  {
    var n := |pcm| / (4 * channels);
    assert |pcm| == (4 * channels) * n;
    var head := Le32(n);
    assert Request(pcm, channels)[..4] == head;
    assert n * 4 * channels == |pcm|;
  }

  /** A reply is the signed result and then the first `ret` bytes of the output buffer, if any. */
  lemma ReplyBytes(r: Encoded)
    requires r.ret <= |r.out|
    ensures var w := Reply(r);
            && |w| >= 4 && w[..4] == Le32(if r.ret < 0 then r.ret + WRAP32 else r.ret)
            && w[4..] == (if r.ret > 0 then r.out[..r.ret] else [])
  {
  }

  /** How long the request being read will be, as far as the bytes read so far tell. */
  function RequestLength(got: seq<byte>, channels: nat): nat {
    if |got| < 4 then 4 else 4 + FromLe32(got) * 4 * channels
  }

  function ReplyLength(got: seq<byte>): nat {
    if |got| < 4 then 4 else 4 + if Signed(FromLe32(got)) > 0 then Signed(FromLe32(got)) else 0
  }

  lemma PrefixHeader(got: seq<byte>, whole: seq<byte>)
    requires got <= whole && |got| >= 4
    ensures FromLe32(got) == FromLe32(whole)
  {
  }

  lemma PartOfRequest(got: seq<byte>, head: seq<byte>, pcm: seq<byte>, n: nat, channels: nat)
    requires |head| == 4 && FromLe32(head) == n && n * 4 * channels == |pcm| && got <= head + pcm
    ensures RequestLength(got, channels) <= 4 + |pcm|
    ensures |got| >= 4 ==> FromLe32(got) == n
    ensures n > 0 && channels > 0 ==> (|got| == RequestLength(got, channels) <==> got == head + pcm)
    ensures |got| <= RequestLength(got, channels)
  {
    if |got| >= 4 {
      assert got[..4] == head;
      PrefixHeader(head, got);
    }
    if |got| == 4 + |pcm| { assert got == head + pcm; }
  }

  /** A reader that has part of a request asks for more of it and never for more than it. */
  lemma RequestFraming(got: seq<byte>, pcm: seq<byte>, channels: nat)
    requires GoodFrame(pcm, channels) && got <= Request(pcm, channels)
    ensures RequestLength(got, channels) <= |Request(pcm, channels)|
    ensures |got| >= 4 ==> FromLe32(got) == |pcm| / (4 * channels)
    ensures |got| == RequestLength(got, channels) <==> got == Request(pcm, channels)
    ensures |got| <= RequestLength(got, channels)
  {
    var n := |pcm| / (4 * channels);
    Le32RoundTrip(n);
    assert |pcm| == (4 * channels) * n;
    assert n * 4 * channels == |pcm|;
    PartOfRequest(got, Le32(n), pcm, n, channels);
  }

  lemma ReplyFraming(got: seq<byte>, r: Encoded)
    requires r.ret <= |r.out| && got <= Reply(r)
    ensures ReplyLength(got) <= |Reply(r)|
    ensures |got| >= 4 ==> Signed(FromLe32(got)) == r.ret
    ensures |got| >= 4 && |got| == ReplyLength(got) <==> got == Reply(r)
    ensures |got| <= ReplyLength(got)
  {
    var whole := Reply(r);
    Le32RoundTrip(Unsigned(r.ret));
    assert FromLe32(whole) == Unsigned(r.ret) by { assert whole[..4] == Le32(Unsigned(r.ret)); }
    if |got| >= 4 {
      PrefixHeader(got, whole);
    }
    if |got| == |whole| { assert got == whole; }
  }
}
