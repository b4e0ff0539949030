/**
 * What the encode passes promise over whole runs: conservation of PCM, independence
 * of how input was cut into passes, lossless and optimal packing, and the RTP
 * timeline of section 5.1 of RFC 3550.
 */
module EncodeTimeline {
  import opened Bytes
  import opened Packetiser
  import opened EncodePass

  /** The RTP timestamp `calls` encode calls after `t0`. */
  function Stamp(t0: nat, calls: nat, fpe: nat): nat {
    (t0 + calls * fpe) % WRAP32
  }

  lemma StampStep(t0: nat, calls: nat, k: nat, fpe: nat)
    ensures (Stamp(t0, calls, fpe) + k * fpe) % WRAP32 == Stamp(t0, calls + k, fpe)
  {
  }

  // ---- runs of passes ----

  function Passes(c: Context, inputs: seq<seq<byte>>, enc: Encoder, n: nat, fpe: nat, max: nat): Context
    requires n > 0
    decreases |inputs|
  {
    if inputs == [] then c else Passes(Pass(c, inputs[0], enc, n, fpe, max), inputs[1..], enc, n, fpe, max)
  }

  lemma {:induction false} ClockOfReplies(p: Packing, rs: seq<Reply>, t0: nat, i: nat, max: nat, fpe: nat)
    requires p.ts == Stamp(t0, i, fpe)
    ensures PackReplies(p, rs, max, fpe).ts == Stamp(t0, i + |rs|, fpe)
    decreases |rs|
  {
    if rs != [] {
      StampStep(t0, i, 1, fpe);
      ClockOfReplies(PackReply(p, rs[0], max, fpe), rs[1..], t0, i + 1, max, fpe);
    }
  }

  lemma {:induction false} OneReplyPerBlock(enc: Encoder, before: seq<Block>, blocks: seq<Block>)
    ensures |Replies(enc, before, blocks)| == |blocks|
    decreases |blocks|
  {
    if blocks != [] {
      OneReplyPerBlock(enc, before + [blocks[0]], blocks[1..]);
    }
  }

  /** The timestamp counts encode calls, whatever they returned. */
  lemma ClockOfPass(c: Context, input: seq<byte>, enc: Encoder, n: nat, fpe: nat, max: nat)
    requires n > 0 && c.timestamp < WRAP32
    ensures Pass(c, input, enc, n, fpe, max).timestamp
         == Stamp(c.timestamp, |Blocks(c.residual + input, n)|, fpe)
  {
    var blocks := Blocks(c.residual + input, n);
    OneReplyPerBlock(enc, c.encoded, blocks);
    ClockOfReplies(Begin(c.timestamp), Replies(enc, c.encoded, blocks), c.timestamp, 0, max, fpe);
  }

  /** Over any sequence of passes the encoder is given exactly the blocks of the concatenated input. */
  lemma {:induction false} RunOfPasses(c: Context, inputs: seq<seq<byte>>, enc: Encoder, n: nat, fpe: nat, max: nat)
    requires n > 0 && |c.residual| < n
    ensures var r := Passes(c, inputs, enc, n, fpe, max);
            && r.encoded == c.encoded + Blocks(c.residual + Flatten(inputs), n)
            && r.residual == Rest(c.residual + Flatten(inputs), n)
    decreases |inputs|
  {
    if inputs == [] {
      NothingAdded(c.residual);
      NothingAdded(c.encoded);
    } else {
      var d := Pass(c, inputs[0], enc, n, fpe, max);
      var whole, later := c.residual + inputs[0], Flatten(inputs[1..]);
      CutConserves(whole, n);
      RunOfPasses(d, inputs[1..], enc, n, fpe, max);
      CutInTwo(whole, later, n);
      Assoc(c.residual, inputs[0], later);
      Assoc(c.encoded, Blocks(whole, n), Blocks(Rest(whole, n) + later, n));
    }
  }

  /** The timestamp is the number of encode calls times the frames per call, in every run. */
  lemma {:induction false} ClockOfPasses(c: Context, inputs: seq<seq<byte>>, enc: Encoder, n: nat, fpe: nat, max: nat)
    requires n > 0 && c.timestamp < WRAP32
    ensures var r := Passes(c, inputs, enc, n, fpe, max);
            && |c.encoded| <= |r.encoded|
            && r.timestamp == Stamp(c.timestamp, |r.encoded| - |c.encoded|, fpe)
    decreases |inputs|
  {
    if inputs != [] {
      var d := Pass(c, inputs[0], enc, n, fpe, max);
      ClockOfPass(c, inputs[0], enc, n, fpe, max);
      ClockOfPasses(d, inputs[1..], enc, n, fpe, max);
      var r := Passes(d, inputs[1..], enc, n, fpe, max);
      StampStep(c.timestamp, |d.encoded| - |c.encoded|, |r.encoded| - |d.encoded|, fpe);
    }
  }

  /** Encoder input followed by the residual is the old residual followed by all input. */
  lemma PcmIsConserved(c: Context, inputs: seq<seq<byte>>, enc: Encoder, n: nat, fpe: nat, max: nat)
    requires n > 0 && |c.residual| < n
    ensures var r := Passes(c, inputs, enc, n, fpe, max);
            && c.encoded <= r.encoded
            && Flatten(r.encoded[|c.encoded|..]) + r.residual == c.residual + Flatten(inputs)
            && |r.residual| < n
            && forall i :: |c.encoded| <= i < |r.encoded| ==> |r.encoded[i]| == n
  {
    RunOfPasses(c, inputs, enc, n, fpe, max);
    var whole := c.residual + Flatten(inputs);
    CutConserves(whole, n);
    var r := Passes(c, inputs, enc, n, fpe, max);
    assert r.encoded[|c.encoded|..] == Blocks(whole, n);
  }

  /** How the input was cut into passes is invisible to the encoder and to the clock. */
  lemma CutsDoNotMatter(c: Context, xs: seq<seq<byte>>, ys: seq<seq<byte>>, enc: Encoder, n: nat, fpe: nat, max: nat)
    requires n > 0 && |c.residual| < n && c.timestamp < WRAP32
    requires Flatten(xs) == Flatten(ys)
    ensures var a, b := Passes(c, xs, enc, n, fpe, max), Passes(c, ys, enc, n, fpe, max);
            a.encoded == b.encoded && a.residual == b.residual && a.timestamp == b.timestamp
  {
    RunOfPasses(c, xs, enc, n, fpe, max);
    RunOfPasses(c, ys, enc, n, fpe, max);
    ClockOfPasses(c, xs, enc, n, fpe, max);
    ClockOfPasses(c, ys, enc, n, fpe, max);
  }

  // ---- packing against the greedy reference ----

  /** The frames a run of encode calls produced, with the call that produced each. */
  function Frames(rs: seq<Reply>, i: nat): seq<Frame>
    decreases |rs|
  {
    if rs == [] then []
    else if Effective(rs[0]) then [Frame(rs[0].bytes, rs[0].frames, i)] + Frames(rs[1..], i + 1)
    else Frames(rs[1..], i + 1)
  }

  /** Call k is given the blocks up to its own, on top of those given before. */
  lemma {:induction false} ReplyAt(enc: Encoder, before: seq<Block>, blocks: seq<Block>, k: nat)
    requires k < |blocks|
    ensures |Replies(enc, before, blocks)| == |blocks|
    ensures Replies(enc, before, blocks)[k] == enc(before + blocks[..k + 1])
    decreases |blocks|
  {
    OneReplyPerBlock(enc, before, blocks);
    if k == 0 {
      assert blocks[..1] == [blocks[0]];
    } else {
      ReplyAt(enc, before + [blocks[0]], blocks[1..], k - 1);
      assert before + blocks[..k + 1] == before + [blocks[0]] + blocks[1..][..k];
    }
  }

  /** A frame is a successful nonempty reply, with its bytes, its count and its call. */
  lemma {:induction false} FrameIsReply(rs: seq<Reply>, i: nat, k: nat) returns (j: nat)
    requires k < |Frames(rs, i)|
    ensures j < |rs| && rs[j].ok && rs[j].bytes != []
    ensures Frames(rs, i)[k] == Frame(rs[j].bytes, rs[j].frames, i + j)
    decreases |rs|
  {
    if Effective(rs[0]) && k == 0 {
      j := 0;
    } else {
      j := FrameIsReply(rs[1..], i + 1, if Effective(rs[0]) then k - 1 else k);
      j := j + 1;
    }
  }

  /** Every successful nonempty reply is a frame. */
  lemma {:induction false} ReplyIsFrame(rs: seq<Reply>, i: nat, j: nat) returns (k: nat)
    requires j < |rs| && rs[j].ok && rs[j].bytes != []
    ensures k < |Frames(rs, i)| && Frames(rs, i)[k] == Frame(rs[j].bytes, rs[j].frames, i + j)
    decreases |rs|
  {
    if j == 0 {
      k := 0;
    } else {
      k := ReplyIsFrame(rs[1..], i + 1, j - 1);
      k := if Effective(rs[0]) then k + 1 else k;
    }
  }

  /** In the order of the calls. */
  lemma {:induction false} FramesInOrder(rs: seq<Reply>, i: nat, a: nat, b: nat)
    requires a < b < |Frames(rs, i)|
    ensures i <= Frames(rs, i)[a].call < Frames(rs, i)[b].call
    decreases |rs|
  {
    if !Effective(rs[0]) {
      FramesInOrder(rs[1..], i + 1, a, b);
    } else if a > 0 {
      FramesInOrder(rs[1..], i + 1, a - 1, b - 1);
    } else {
      var j := FrameIsReply(rs[1..], i + 1, b - 1);
    }
  }

  function Count(g: seq<Frame>): nat {
    if g == [] then 0 else g[0].frames + Count(g[1..])
  }

  /** The frame count is the sum of what the calls reported. */
  lemma CountIsSum(g: seq<Frame>, f: Frame)
    ensures Count([]) == 0 && Count([f]) == f.frames && Count(g + [f]) == Count(g) + f.frames
  {
    CountSnoc(g, f);
    CountSnoc([], f);
    assert [] + [f] == [f];
  }

  lemma {:induction false} CountSnoc(g: seq<Frame>, f: Frame)
    ensures Count(g + [f]) == Count(g) + f.frames
  {
    if g == [] {
      assert g + [f] == [f] && [f][1..] == [];
    } else {
      CountSnoc(g[1..], f);
      assert (g + [f])[1..] == g[1..] + [f];
    }
  }

  /** An encoder that returns bytes returns at least one frame. */
  ghost predicate Tidy(rs: seq<Reply>) {
    forall i :: 0 <= i < |rs| && Effective(rs[i]) ==> rs[i].frames >= 1
  }

  /** No reply was turned away by the 2048-byte accumulator. */
  ghost predicate NoDrop(p: Packing, rs: seq<Reply>, max: nat, fpe: nat)
    decreases |rs|
  {
    rs == [] ||
    (&& (Effective(rs[0]) ==> |MadeRoom(p, rs[0], max).accum| + |rs[0].bytes| <= ACCUM_BYTES)
     && NoDrop(PackReply(p, rs[0], max, fpe), rs[1..], max, fpe))
  }

  /** The accumulator holds exactly the frames of the open group. */
  ghost predicate Matches(p: Packing, open: seq<Frame>) {
    && p.accum == Payload(open)
    && |p.accum| == Size(open)
    && p.accumFrames == Count(open)
    && (open == [] <==> p.accumFrames == 0)
  }

  /** The group left open after a frame, and the reference's view of the step. */
  function NextOpen(open: seq<Frame>, f: Frame, max: nat): seq<Frame> {
    if open != [] && Size(open) + |f.bytes| > max then [f] else open + [f]
  }

  lemma MatchesStep(p: Packing, open: seq<Frame>, r: Reply, i: nat, max: nat, fpe: nat)
    requires Matches(p, open) && Effective(r) && r.frames >= 1
    requires |MadeRoom(p, r, max).accum| + |r.bytes| <= ACCUM_BYTES
    ensures Matches(PackReply(p, r, max, fpe), NextOpen(open, Frame(r.bytes, r.frames, i), max))
  {
    var f := Frame(r.bytes, r.frames, i);
    PayloadSnoc(open, f);
    CountSnoc(open, f);
    PayloadSnoc([], f);
    CountSnoc([], f);
    assert [] + [f] == [f];
  }

  /** One packet per group: the first carries `first`, the others their own first call's stamp. */
  function PacketsOf(first: nat, gs: seq<seq<Frame>>, t0: nat, fpe: nat): seq<Packet>
    decreases |gs|
  {
    if gs == [] then []
    else
      var next := if |gs| > 1 && gs[1] != [] then Stamp(t0, gs[1][0].call, fpe) else 0;
      [Packet(Payload(gs[0]), first, Count(gs[0]) % 256)] + PacketsOf(next, gs[1..], t0, fpe)
  }

  lemma PacketsOfCons(first: nat, g: seq<Frame>, gs: seq<seq<Frame>>, t0: nat, fpe: nat)
    requires gs != [] && gs[0] != []
    ensures PacketsOf(first, [g] + gs, t0, fpe)
         == [Packet(Payload(g), first, Count(g) % 256)] + PacketsOf(Stamp(t0, gs[0][0].call, fpe), gs, t0, fpe)
  {
    assert ([g] + gs)[1..] == gs;
  }

  /** Without a drop, the pass's packets are the greedy groups of its frames. */
  lemma {:induction false} PackingIsGreedy(
      p: Packing, open: seq<Frame>, rs: seq<Reply>, i: nat, t0: nat, max: nat, fpe: nat)
    requires Matches(p, open) && Tidy(rs) && NoDrop(p, rs, max, fpe) && p.ts == Stamp(t0, i, fpe)
    ensures Finished(PackReplies(p, rs, max, fpe))
         == p.sent + PacketsOf(p.firstTs, Greedy(open, Frames(rs, i), max), t0, fpe)
    decreases |rs|
  {
    if rs == [] {
      assert open == [] || PacketsOf(p.firstTs, [open], t0, fpe)
                        == [Packet(p.accum, p.firstTs, p.accumFrames % 256)];
    } else {
      var q := PackReply(p, rs[0], max, fpe);
      StampStep(t0, i, 1, fpe);
      if Effective(rs[0]) {
        var f := Frame(rs[0].bytes, rs[0].frames, i);
        var fs := Frames(rs[1..], i + 1);
        assert ([f] + fs)[1..] == fs;
        MatchesStep(p, open, rs[0], i, max, fpe);
        PackingIsGreedy(q, NextOpen(open, f, max), rs[1..], i + 1, t0, max, fpe);
        if open != [] && Size(open) + |f.bytes| > max {
          GreedyFirst([f], fs, max);
          var gs := Greedy([f], fs, max);
          PacketsOfCons(p.firstTs, open, gs, t0, fpe);
          Assoc(p.sent, [Packet(p.accum, p.firstTs, p.accumFrames % 256)], PacketsOf(p.ts, gs, t0, fpe));
        }
      } else {
        PackingIsGreedy(q, open, rs[1..], i + 1, t0, max, fpe);
      }
    }
  }

  function Payloads(ps: seq<Packet>): seq<byte> {
    if ps == [] then [] else ps[0].payload + Payloads(ps[1..])
  }

  lemma {:induction false} PayloadsSnoc(ps: seq<Packet>, p: Packet)
    ensures Payloads(ps + [p]) == Payloads(ps) + p.payload
  {
    if ps == [] {
      assert ps + [p] == [p] && [p][1..] == [];
    } else {
      PayloadsSnoc(ps[1..], p);
      assert (ps + [p])[1..] == ps[1..] + [p];
    }
  }

  /** Every dropped reply is missing from the payload, byte for byte in the total. */
  lemma {:induction false} DropsAreMissing(p: Packing, rs: seq<Reply>, i: nat, max: nat, fpe: nat)
    requires Tidy(rs) && (p.accum == [] <==> p.accumFrames == 0)
    ensures var got := Payloads(Finished(PackReplies(p, rs, max, fpe)));
            var all := Payloads(p.sent) + p.accum + Payload(Frames(rs, i));
            && (NoDrop(p, rs, max, fpe) ==> got == all)
            && (!NoDrop(p, rs, max, fpe) ==> |got| < |all|)
            && |got| <= |all|
    decreases |rs|
  {
    if rs == [] {
      PayloadsSnoc(p.sent, Packet(p.accum, p.firstTs, p.accumFrames % 256));
      NothingAdded(Payloads(p.sent) + p.accum);
    } else {
      var q := PackReply(p, rs[0], max, fpe);
      BytesOfReply(p, rs[0], max, fpe);
      DropsAreMissing(q, rs[1..], i + 1, max, fpe);
      if Effective(rs[0]) {
        FramesCons(rs, i);
        Assoc(Payloads(p.sent) + p.accum, rs[0].bytes, Payload(Frames(rs[1..], i + 1)));
      }
    }
  }

  /** One reply adds its bytes to what was sent and accumulated, or is dropped. */
  lemma BytesOfReply(p: Packing, r: Reply, max: nat, fpe: nat)
    ensures var q := PackReply(p, r, max, fpe);
            Payloads(q.sent) + q.accum ==
              if Effective(r) && |MadeRoom(p, r, max).accum| + |r.bytes| <= ACCUM_BYTES
              then Payloads(p.sent) + p.accum + r.bytes
              else Payloads(p.sent) + p.accum
  {
    PayloadsSnoc(p.sent, Packet(p.accum, p.firstTs, p.accumFrames % 256));
    var m := MadeRoom(p, r, max);
    if Effective(r) {
      NothingAdded(Payloads(m.sent));
      Assoc(Payloads(m.sent), m.accum, r.bytes);
    }
  }

  lemma FramesCons(rs: seq<Reply>, i: nat)
    requires rs != [] && Effective(rs[0])
    ensures Payload(Frames(rs, i)) == rs[0].bytes + Payload(Frames(rs[1..], i + 1))
  {
  }

  /** The accumulator turns a reply away exactly when a greedy group outgrows it. */
  lemma {:induction false} DropIffGroupTooLarge(
      p: Packing, open: seq<Frame>, rs: seq<Reply>, i: nat, max: nat, fpe: nat)
    requires Matches(p, open) && Tidy(rs) && Size(open) <= ACCUM_BYTES
    ensures NoDrop(p, rs, max, fpe) <==> AllWithin(Greedy(open, Frames(rs, i), max), ACCUM_BYTES)
    decreases |rs|
  {
    if rs != [] {
      var q := PackReply(p, rs[0], max, fpe);
      if Effective(rs[0]) {
        var f := Frame(rs[0].bytes, rs[0].frames, i);
        var fs := Frames(rs[1..], i + 1);
        assert ([f] + fs)[1..] == fs;
        var next := NextOpen(open, f, max);
        NextOpenSize(open, f, max);
        var gs := Greedy(next, fs, max);
        assert Greedy(open, [f] + fs, max) == (if next == [f] && open != [] then [open] else []) + gs;
        if |MadeRoom(p, rs[0], max).accum| + |f.bytes| <= ACCUM_BYTES {
          MatchesStep(p, open, rs[0], i, max, fpe);
          DropIffGroupTooLarge(q, next, rs[1..], i + 1, max, fpe);
          WithinCons(open, gs, ACCUM_BYTES);
        } else {
          FirstGroupGrows(next, fs, max);
          var all := Greedy(open, [f] + fs, max);
          assert all[|all| - |gs|] == gs[0];
        }
      } else {
        DropIffGroupTooLarge(q, open, rs[1..], i + 1, max, fpe);
      }
    }
  }

  lemma WithinCons(g: seq<Frame>, gs: seq<seq<Frame>>, bound: nat)
    requires Size(g) <= bound
    ensures AllWithin([g] + gs, bound) <==> AllWithin(gs, bound)
    ensures [] + gs == gs
  {
    assert forall k :: 0 <= k < |gs| ==> ([g] + gs)[k + 1] == gs[k];
  }

  lemma NextOpenSize(open: seq<Frame>, f: Frame, max: nat)
    ensures NextOpen(open, f, max) != []
    ensures Size(NextOpen(open, f, max))
         == (if open != [] && Size(open) + |f.bytes| > max then 0 else Size(open)) + |f.bytes|
    ensures open != [] && NextOpen(open, f, max) == [f] ==> Size(open) + |f.bytes| > max
  {
    PayloadSnoc(open, f);
    PayloadSnoc([], f);
    assert [] + [f] == [f];
    if open != [] {
      assert |open + [f]| > 1;
    }
  }

  lemma {:induction false} FirstGroupGrows(open: seq<Frame>, fs: seq<Frame>, max: nat)
    requires open != []
    ensures var gs := Greedy(open, fs, max); gs != [] && Size(gs[0]) >= Size(open)
    decreases |fs|
  {
    if fs != [] && Size(open) + |fs[0].bytes| <= max {
      PayloadSnoc(open, fs[0]);
      FirstGroupGrows(open + [fs[0]], fs[1..], max);
    }
  }

  // ---- the packetiser's promises ----

  function PassPackets(ts: nat, rs: seq<Reply>, max: nat, fpe: nat): seq<Packet> {
    Finished(PackReplies(Begin(ts), rs, max, fpe))
  }

  /**
   * Exactly when a pass loses nothing: when no greedy group outgrows the accumulator,
   * which for limits up to its size means that no single frame does.
   */
  lemma LosslessIff(ts: nat, rs: seq<Reply>, max: nat, fpe: nat)
    requires Tidy(rs)
    ensures Payloads(PassPackets(ts, rs, max, fpe)) == Payload(Frames(rs, 0))
       <==> AllWithin(Greedy([], Frames(rs, 0), max), ACCUM_BYTES)
    ensures max <= ACCUM_BYTES ==>
              (Payloads(PassPackets(ts, rs, max, fpe)) == Payload(Frames(rs, 0))
               <==> forall f :: f in Frames(rs, 0) ==> |f.bytes| <= ACCUM_BYTES)
  {
    DropsAreMissing(Begin(ts), rs, 0, max, fpe);
    DropIffGroupTooLarge(Begin(ts), [], rs, 0, max, fpe);
    if max <= ACCUM_BYTES {
      WithinBoundIff(Frames(rs, 0), max, ACCUM_BYTES);
    }
  }

  /** A limit above 2048: two frames of 1025 bytes share a packet and the second is lost. */
  lemma LargeLimitLoses(ts: nat, a: Reply, max: nat, fpe: nat)
    requires a.ok && |a.bytes| == 1025 && a.frames >= 1 && max >= 2050
    ensures Payloads(PassPackets(ts, [a, a], max, fpe)) != Payload(Frames([a, a], 0))
  {
    var rs := [a, a];
    assert rs[1..] == [a] && [a][1..] == [];
    var f, g := Frame(a.bytes, a.frames, 0), Frame(a.bytes, a.frames, 1);
    assert Frames([a], 1) == [g] + Frames([], 2);
    assert Frames(rs, 0) == [f, g];
    assert [f, g][1..] == [g] && [g][1..] == [] && [] + [f] == [f] && [f] + [g] == [f, g];
    PayloadSnoc([], f);
    PayloadSnoc([f], g);
    assert Greedy([f], [g], max) == Greedy([f, g], [], max) == [[f, g]];
    assert Greedy([], [f, g], max) == [[f, g]];
    LosslessIff(ts, rs, max, fpe);
    assert Size([[f, g]][0]) > ACCUM_BYTES;
  }

  lemma {:induction false} PacketsOfAt(first: nat, gs: seq<seq<Frame>>, t0: nat, fpe: nat, k: nat)
    requires k < |gs| && forall i :: 0 <= i < |gs| ==> gs[i] != []
    ensures |PacketsOf(first, gs, t0, fpe)| == |gs|
    ensures PacketsOf(first, gs, t0, fpe)[k]
         == Packet(Payload(gs[k]), if k == 0 then first else Stamp(t0, gs[k][0].call, fpe), Count(gs[k]) % 256)
    decreases |gs|
  {
    if |gs| > 1 {
      var next := Stamp(t0, gs[1][0].call, fpe);
      PacketsOfAt(next, gs[1..], t0, fpe, if k == 0 then 0 else k - 1);
    }
  }

  /**
   * The packets of a pass, one by one: a greedy group's bytes and frame count, stamped
   * with the time of the group's first block, except that the first packet is stamped
   * with the start of the pass.
   */
  lemma PacketAt(ts: nat, rs: seq<Reply>, max: nat, fpe: nat, k: nat)
    requires Tidy(rs) && ts < WRAP32
    requires AllWithin(Greedy([], Frames(rs, 0), max), ACCUM_BYTES)
    requires k < |Greedy([], Frames(rs, 0), max)|
    ensures var gs, ps := Greedy([], Frames(rs, 0), max), PassPackets(ts, rs, max, fpe);
            && |ps| == |gs| && gs[k] != []
            && ps[k].payload == Payload(gs[k])
            && ps[k].frames == Count(gs[k]) % 256
            && ps[k].timestamp == (if k == 0 then ts else Stamp(ts, gs[k][0].call, fpe))
  {
    var fs := Frames(rs, 0);
    DropIffGroupTooLarge(Begin(ts), [], rs, 0, max, fpe);
    PackingIsGreedy(Begin(ts), [], rs, 0, ts, max, fpe);
    GreedyPartitions([], fs, max);
    PacketsOfAt(ts, Greedy([], fs, max), ts, fpe, k);
  }

  /**
   * The first packet of a pass carries its first block's time if and only if the calls
   * before that block advanced the clock by whole laps; with none, it always does.
   */
  lemma FirstStampIff(ts: nat, rs: seq<Reply>, max: nat, fpe: nat)
    requires Tidy(rs) && ts < WRAP32 && Frames(rs, 0) != []
    requires AllWithin(Greedy([], Frames(rs, 0), max), ACCUM_BYTES)
    ensures var ps, first := PassPackets(ts, rs, max, fpe), Frames(rs, 0)[0];
            ps != [] &&
            (ps[0].timestamp == Stamp(ts, first.call, fpe) <==> (first.call * fpe) % WRAP32 == 0)
  {
    var fs := Frames(rs, 0);
    GreedyPartitions([], fs, max);
    PacketAt(ts, rs, max, fpe, 0);
    WholeLaps(ts, fs[0].call * fpe);
  }

  lemma WholeLaps(t: nat, x: nat)
    requires t < WRAP32
    ensures (t + x) % WRAP32 == t <==> x % WRAP32 == 0
  {
  }

  /** One failed call, then one good: the packet carries the time of the failed block. */
  lemma FailedCallShiftsStamp()
    ensures var rs := [Reply(false, [], 0), Reply(true, [7], 1)];
            PassPackets(0, rs, 679, 128) == [Packet([7], 0, 1)] && Frames(rs, 0) == [Frame([7], 1, 1)]
            && Stamp(0, 1, 128) == 128
  {
    var bad, good := Reply(false, [], 0), Reply(true, [7], 1);
    var p := PackReply(Begin(0), bad, 679, 128);
    var q := PackReply(p, good, 679, 128);
    assert [bad, good][1..] == [good] && [good][1..] == [] && [] + [7] == [7];
    assert PackReplies(Begin(0), [bad, good], 679, 128) == PackReplies(p, [good], 679, 128) == q;
    assert Frames([good], 1) == [Frame([7], 1, 1)] + Frames([], 2);
  }

  /** Lossless, within the limit and with as few packets as possible. */
  lemma PacketiserIsOptimal(ts: nat, rs: seq<Reply>, max: nat, fpe: nat, gs: seq<seq<Frame>>)
    requires Tidy(rs) && ts < WRAP32 && max <= ACCUM_BYTES
    requires forall f :: f in Frames(rs, 0) ==> |f.bytes| <= max
    requires Flatten(gs) == Frames(rs, 0) && AllWithin(gs, max)
    ensures var ps := PassPackets(ts, rs, max, fpe);
            && Payloads(ps) == Payload(Frames(rs, 0))
            && (forall k :: 0 <= k < |ps| ==> |ps[k].payload| <= max)
            && |ps| <= |gs|
  {
    var fs := Frames(rs, 0);
    WithinBoundIff(fs, max, max);
    LosslessIff(ts, rs, max, fpe);
    GreedyIsOptimal(fs, gs, max);
    OnePacketPerGroup(ts, rs, max, fpe);
    forall k | 0 <= k < |Greedy([], fs, max)| ensures |PassPackets(ts, rs, max, fpe)[k].payload| <= max {
      PacketAt(ts, rs, max, fpe, k);
      SizeIsLength(Greedy([], fs, max)[k]);
    }
  }

  lemma OnePacketPerGroup(ts: nat, rs: seq<Reply>, max: nat, fpe: nat)
    requires Tidy(rs) && ts < WRAP32
    requires AllWithin(Greedy([], Frames(rs, 0), max), ACCUM_BYTES)
    ensures |PassPackets(ts, rs, max, fpe)| == |Greedy([], Frames(rs, 0), max)|
  {
    var best := Greedy([], Frames(rs, 0), max);
    if best == [] {
      DropIffGroupTooLarge(Begin(ts), [], rs, 0, max, fpe);
      PackingIsGreedy(Begin(ts), [], rs, 0, ts, max, fpe);
    } else {
      PacketAt(ts, rs, max, fpe, 0);
    }
  }

  // ---- the timeline when every call succeeds ----

  lemma {:induction false} CallsAreConsecutive(rs: seq<Reply>, i: nat)
    requires forall k :: 0 <= k < |rs| ==> Effective(rs[k])
    ensures |Frames(rs, i)| == |rs|
    ensures forall k :: 0 <= k < |rs| ==> Frames(rs, i)[k].call == i + k
    decreases |rs|
  {
    if rs != [] {
      CallsAreConsecutive(rs[1..], i + 1);
    }
  }

  /** Where group k starts in the flattened sequence, and where it ends. */
  lemma {:induction false} GroupStarts(gs: seq<seq<Frame>>, c: nat, k: nat)
    requires k < |gs| && forall i :: 0 <= i < |gs| ==> gs[i] != []
    requires forall j :: 0 <= j < |Flatten(gs)| ==> Flatten(gs)[j].call == c + j
    ensures k + 1 < |gs| ==> gs[k + 1][0].call == gs[k][0].call + |gs[k]|
    ensures k + 1 == |gs| ==> gs[k][0].call + |gs[k]| == c + |Flatten(gs)|
    ensures k == 0 ==> gs[0][0].call == c
    decreases |gs|
  {
    var all, rest := Flatten(gs), Flatten(gs[1..]);
    assert all == gs[0] + rest;
    assert all[0] == gs[0][0];
    forall j | 0 <= j < |rest| ensures rest[j].call == c + |gs[0]| + j {
      assert all[|gs[0]| + j] == rest[j];
    }
    if k > 0 {
      GroupStarts(gs[1..], c + |gs[0]|, k - 1);
    } else if |gs| > 1 {
      assert rest == gs[1] + Flatten(gs[1..][1..]);
      assert rest[0] == gs[1][0];
    }
  }

  lemma GroupsTileTheCalls(rs: seq<Reply>, max: nat, k: nat)
    requires forall i :: 0 <= i < |rs| ==> Effective(rs[i])
    requires k < |Greedy([], Frames(rs, 0), max)|
    ensures var gs := Greedy([], Frames(rs, 0), max);
            && (forall i :: 0 <= i < |gs| ==> gs[i] != [])
            && (k == 0 ==> gs[0][0].call == 0)
            && gs[k][0].call + |gs[k]| == (if k + 1 < |gs| then gs[k + 1][0].call else |rs|)
  {
    var gs := Greedy([], Frames(rs, 0), max);
    GreedyPartitions([], Frames(rs, 0), max);
    assert Flatten(gs) == Frames(rs, 0);
    CallsAreConsecutive(rs, 0);
    GroupStarts(gs, 0, k);
  }

  lemma PacketOnTime(ts: nat, rs: seq<Reply>, max: nat, fpe: nat, k: nat)
    requires Tidy(rs) && ts < WRAP32 && (forall i :: 0 <= i < |rs| ==> Effective(rs[i]))
    requires AllWithin(Greedy([], Frames(rs, 0), max), ACCUM_BYTES)
    requires k < |Greedy([], Frames(rs, 0), max)|
    ensures var gs, ps := Greedy([], Frames(rs, 0), max), PassPackets(ts, rs, max, fpe);
            |ps| == |gs| && gs[k] != [] && ps[k].timestamp == Stamp(ts, gs[k][0].call, fpe)
  {
    PacketAt(ts, rs, max, fpe, k);
    if k == 0 {
      GroupsTileTheCalls(rs, max, 0);
    }
  }

  /** A time that is `d` calls after another. */
  lemma StampNext(t0: nat, c: nat, d: nat, e: nat, fpe: nat)
    requires c + d == e
    ensures (Stamp(t0, c, fpe) + d * fpe) % WRAP32 == Stamp(t0, e, fpe)
  {
    StampStep(t0, c, d, fpe);
  }

  /** Packet k ends where group `next` starts, or where the pass ends. */
  lemma PacketEnds(ts: nat, rs: seq<Reply>, max: nat, fpe: nat, k: nat, next: nat)
    requires Tidy(rs) && ts < WRAP32 && (forall i :: 0 <= i < |rs| ==> Effective(rs[i]))
    requires AllWithin(Greedy([], Frames(rs, 0), max), ACCUM_BYTES)
    requires var gs := Greedy([], Frames(rs, 0), max);
             k < |gs| && gs[k] != [] && gs[k][0].call + |gs[k]| == next
    ensures var gs, ps := Greedy([], Frames(rs, 0), max), PassPackets(ts, rs, max, fpe);
            |ps| == |gs| && (ps[k].timestamp + |gs[k]| * fpe) % WRAP32 == Stamp(ts, next, fpe)
  {
    PacketOnTime(ts, rs, max, fpe, k);
    var g: seq<Frame> := Greedy([], Frames(rs, 0), max)[k];
    StampNext(ts, g[0].call, |g|, next, fpe);
  }

  /**
   * When every encode call succeeds, each packet carries its first block's time, each
   * packet starts where the previous one ended, and the last one ends at the timestamp
   * with which the next pass begins.
   */
  lemma PacketsAbut(ts: nat, rs: seq<Reply>, max: nat, fpe: nat, k: nat)
    requires Tidy(rs) && ts < WRAP32 && (forall i :: 0 <= i < |rs| ==> Effective(rs[i]))
    requires AllWithin(Greedy([], Frames(rs, 0), max), ACCUM_BYTES)
    requires k < |Greedy([], Frames(rs, 0), max)|
    ensures var gs, ps := Greedy([], Frames(rs, 0), max), PassPackets(ts, rs, max, fpe);
            && |ps| == |gs| && gs[k] != []
            && ps[k].timestamp == Stamp(ts, gs[k][0].call, fpe)
            && (ps[k].timestamp + |gs[k]| * fpe) % WRAP32
               == (if k + 1 < |ps| then ps[k + 1].timestamp
                   else PackReplies(Begin(ts), rs, max, fpe).ts)
  {
    GroupsTileTheCalls(rs, max, k);
    PacketOnTime(ts, rs, max, fpe, k);
    var gs: seq<seq<Frame>> := Greedy([], Frames(rs, 0), max);
    if k + 1 < |gs| {
      PacketOnTime(ts, rs, max, fpe, k + 1);
      PacketEnds(ts, rs, max, fpe, k, gs[k + 1][0].call);
    } else {
      ClockOfReplies(Begin(ts), rs, ts, 0, max, fpe);
      PacketEnds(ts, rs, max, fpe, k, |rs|);
    }
  }
}
