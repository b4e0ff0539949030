/**
 * SBC packets of the service path: the read cap and the residual bound how many frames
 * a packet can hold, so the 4-bit frame count of section 4.3.4 of A2DP v1.3 is exact.
 */
module SbcBounds {
  import opened Bytes
  import opened Packetiser
  import opened EncodePass
  import opened EncodeTimeline
  import opened MediaQueue

  /** PCM frames per SBC frame: 16 blocks of 8 subbands. */
  const SBC_PCM_FRAMES: nat := 128

  /** How many capture frames one pass reads: what is there, capped at about ten milliseconds. */
  function FramesToRead(avail: nat, frameBytes: nat, rate: nat): nat
    requires frameBytes > 0
  {
    var frames := avail / frameBytes;
    var cap := if rate / 100 < 128 then 128 else rate / 100;
    if rate > 0 && frames > cap then cap else frames
  }

  /** The frame length `SbcEncoder::init` computes, for a bitpool. */
  function SbcFrameLength(channels: nat, bitpool: nat): nat {
    var bits := if channels == 2 then 8 + 16 * bitpool else 16 * channels * bitpool;
    4 + 4 * 8 * channels / 8 + (bits + 7) / 8
  }

  /** The read is whole frames, the most there is up to ten milliseconds or 128 frames; no rate, no cap. */
  lemma ReadIsCapped(avail: nat, frameBytes: nat, rate: nat)
    requires frameBytes > 0
    ensures var frames := FramesToRead(avail, frameBytes, rate);
            && frames * frameBytes <= avail
            && (rate == 44100 ==> frames <= 441) && (rate == 48000 ==> frames <= 480)
            && (0 < rate ==> frames <= 128 || frames * 100 <= rate)
            && (rate == 0 || frames < 128 || (frames + 1) * 100 <= rate ==> avail < (frames + 1) * frameBytes)
  {
    var frames, whole := FramesToRead(avail, frameBytes, rate), avail / frameBytes;
    assert avail == whole * frameBytes + avail % frameBytes;
    assert (whole + 1) * frameBytes == whole * frameBytes + frameBytes;
    Shrinks(frames, whole, frameBytes);
  }

  lemma Shrinks(a: nat, b: nat, n: nat)
    requires a <= b
    ensures a * n <= b * n
  {
  }

  /** The frame lengths at the three bitpools, joint stereo and mono. */
  lemma FrameLengths()
    ensures SbcFrameLength(2, 19) == 51 && SbcFrameLength(2, 35) == 83 && SbcFrameLength(2, 53) == 119
    ensures SbcFrameLength(1, 19) == 46 && SbcFrameLength(1, 35) == 78 && SbcFrameLength(1, 53) == 114
  {
  }

  /** No quality makes a frame of more than 119 bytes, so four fit a queue slot with the header. */
  lemma FrameLengthBound(channels: nat, bitpool: nat)
    requires (channels == 1 || channels == 2) && bitpool in {19, 35, 53}
    ensures SbcFrameLength(channels, bitpool) <= 119
    ensures 4 * SbcFrameLength(channels, bitpool) + 1 <= SLOT_BYTES
  {
  }

  lemma Cancel(a: nat, b: nat, s: nat)
    requires a * s < b * s
    ensures a < b
  {
  }

  lemma FewBlocks(blocks: nat, s: nat, residual: nat, frames: nat)
    requires residual < 128 * s && frames <= 480
    requires blocks * (128 * s) <= residual + frames * s
    ensures blocks <= 4
  {
    assert frames * s <= 480 * s;
    assert blocks * (128 * s) == (blocks * 128) * s;
    Cancel(blocks * 128, 608, s);
  }

  /** A pass at 44.1 or 48 kHz cuts at most four blocks. */
  lemma AtMostFourBlocks(
      residual: seq<byte>, input: seq<byte>, frames: nat, sampleBytes: nat, avail: nat, frameBytes: nat, rate: nat)
    requires sampleBytes > 0 && frameBytes > 0 && (rate == 44100 || rate == 48000)
    requires frames == FramesToRead(avail, frameBytes, rate) && |input| == frames * sampleBytes
    requires |residual| < SBC_PCM_FRAMES * sampleBytes
    ensures |Blocks(residual + input, SBC_PCM_FRAMES * sampleBytes)| <= 4
  {
    var n := SBC_PCM_FRAMES * sampleBytes;
    CutConserves(residual + input, n);
    FewBlocks(|Blocks(residual + input, n)|, sampleBytes, |residual|, frames);
  }

  /** Each reply is one SBC frame of at most `limit` bytes, or nothing. */
  ghost predicate SbcReplies(rs: seq<Reply>, limit: nat) {
    forall i :: 0 <= i < |rs| && Effective(rs[i]) ==> rs[i].frames == 1 && |rs[i].bytes| <= limit
  }

  lemma {:induction false} SbcFrames(rs: seq<Reply>, i: nat, limit: nat)
    requires SbcReplies(rs, limit)
    ensures |Frames(rs, i)| <= |rs|
    ensures forall f :: f in Frames(rs, i) ==> f.frames == 1 && |f.bytes| <= limit
    decreases |rs|
  {
    if rs != [] {
      SbcFrames(rs[1..], i + 1, limit);
    }
  }

  lemma {:induction false} CountOfSingles(g: seq<Frame>)
    requires forall f :: f in g ==> f.frames == 1
    ensures Count(g) == |g|
  {
    if g != [] {
      CountOfSingles(g[1..]);
    }
  }

  lemma {:induction false} PartInside(gs: seq<seq<Frame>>, k: nat)
    requires k < |gs|
    ensures |gs[k]| <= |Flatten(gs)| && forall f :: f in gs[k] ==> f in Flatten(gs)
  {
    if k > 0 {
      PartInside(gs[1..], k - 1);
    }
  }

  /** The packet carries this group, and `send_media` builds an exact header for it. */
  ghost predicate Exact(p: Packet, g: seq<Frame>, mtu: nat) {
    var built := Build(p.payload, p.timestamp, p.frames, SBC);
    && 1 <= |g| <= 4 && p.frames == |g|
    && built.Fits? && |built.packet.data| <= mtu
    && built.packet.data[0] == |g|
  }

  lemma SmallGroupIsExact(p: Packet, g: seq<Frame>, mtu: nat)
    requires 1 <= |g| <= 4 && Size(g) + 1 <= mtu && Size(g) + 1 <= SLOT_BYTES && forall f :: f in g ==> f.frames == 1
    requires p.payload == Payload(g) && p.frames == Count(g) % 256
    ensures Exact(p, g, mtu)
  {
    CountOfSingles(g);
    SizeIsLength(g);
    NoWrap(|g|);
    HeaderIsExact(p.payload, p.timestamp, p.frames, mtu);
  }

  lemma NoWrap(n: nat)
    requires n < 256
    ensures n % 256 == n
  {
  }

  lemma HeaderIsExact(payload: seq<byte>, timestamp: nat, frames: byte, mtu: nat)
    requires 1 <= frames <= 4 && |payload| + 1 <= mtu && |payload| + 1 <= SLOT_BYTES
    ensures var built := Build(payload, timestamp, frames, SBC);
            built.Fits? && |built.packet.data| <= mtu && built.packet.data[0] == frames
  {
  }

  /** Four frames of the limit fit a queue slot, or the MTU itself does. */
  predicate SlotSuffices(limit: nat, mtu: nat) {
    limit + 1 <= mtu && (mtu <= SLOT_BYTES || 4 * limit + 1 <= SLOT_BYTES)
  }

  /**
   * With at most four calls and frames that fit MTU - 1, every packet `send_media` builds
   * carries the exact size of its greedy group in the 4-bit header and stays within the MTU.
   */
  lemma SbcPacketsFit(ts: nat, rs: seq<Reply>, limit: nat, mtu: nat, fpe: nat, k: nat)
    requires |rs| <= 4 && ts < WRAP32 && SlotSuffices(limit, mtu) && SbcReplies(rs, limit)
    requires k < |PassPackets(ts, rs, mtu - 1, fpe)|
    ensures var gs := Greedy([], Frames(rs, 0), mtu - 1);
            |gs| == |PassPackets(ts, rs, mtu - 1, fpe)| && Exact(PassPackets(ts, rs, mtu - 1, fpe)[k], gs[k], mtu)
  {
    var max, fs := mtu - 1, Frames(rs, 0);
    var gs := Greedy([], fs, max);
    SbcFrames(rs, 0, limit);
    WithinBoundIff(fs, max, max);
    forall i | 0 <= i < |gs| ensures Size(gs[i]) < SLOT_BYTES {
      GroupsAreSmall(fs, max, i);
      SizeBound(gs[i], limit);
    }
    OnePacketPerGroup(ts, rs, max, fpe);
    PacketAt(ts, rs, max, fpe, k);
    GroupsAreSmall(fs, max, k);
    SmallGroupIsExact(PassPackets(ts, rs, max, fpe)[k], gs[k], mtu);
  }

  lemma {:induction false} SizeBound(g: seq<Frame>, limit: nat)
    requires forall f :: f in g ==> |f.bytes| <= limit
    ensures |g| <= 4 ==> Size(g) <= 4 * limit
    ensures Size(g) <= |g| * limit
  {
    if g != [] {
      SizeBound(g[1..], limit);
      assert (|g| - 1) * limit + limit == |g| * limit;
    }
  }

  lemma GroupsAreSmall(fs: seq<Frame>, max: nat, k: nat)
    requires |fs| <= 4 && k < |Greedy([], fs, max)|
    ensures var g := Greedy([], fs, max)[k]; 1 <= |g| <= 4 && forall f :: f in g ==> f in fs
  {
    GreedyPartitions([], fs, max);
    NothingAdded(fs);
    PartInside(Greedy([], fs, max), k);
  }

  /**
   * Every packet of every SBC pass at 44.1 or 48 kHz: it holds one to four frames, its
   * header says how many, and header and payload stay within the MTU.
   */
  lemma ServicePacketsFit(
      c: Context, input: seq<byte>, enc: Encoder, s: nat, avail: nat, frameBytes: nat, rate: nat,
      limit: nat, mtu: nat, k: nat)
    requires s > 0 && frameBytes > 0 && (rate == 44100 || rate == 48000) && SlotSuffices(limit, mtu)
    requires |input| == FramesToRead(avail, frameBytes, rate) * s && |c.residual| < SBC_PCM_FRAMES * s
    requires c.timestamp < WRAP32
    requires SbcReplies(Replies(enc, c.encoded, Blocks(c.residual + input, SBC_PCM_FRAMES * s)), limit)
    requires |c.offered| <= k < |Pass(c, input, enc, SBC_PCM_FRAMES * s, SBC_PCM_FRAMES, mtu - 1).offered|
    ensures var p := Pass(c, input, enc, SBC_PCM_FRAMES * s, SBC_PCM_FRAMES, mtu - 1).offered[k];
            var built := Build(p.payload, p.timestamp, p.frames, SBC);
            && 1 <= p.frames <= 4
            && built.Fits? && |built.packet.data| <= mtu
            && built.packet.data[0] == p.frames
  {
    var blocks := Blocks(c.residual + input, SBC_PCM_FRAMES * s);
    var rs := Replies(enc, c.encoded, blocks);
    AtMostFourBlocks(c.residual, input, FramesToRead(avail, frameBytes, rate), s, avail, frameBytes, rate);
    OneReplyPerBlock(enc, c.encoded, blocks);
    SbcPacketsFit(c.timestamp, rs, limit, mtu, SBC_PCM_FRAMES, k - |c.offered|);
  }
}
