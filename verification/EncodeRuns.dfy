/**
 * The packets of a whole run of passes: what they carry and when, however the input was
 * cut, with no reference to where one pass ends and the next begins.
 */
module EncodeRuns {
  import opened Bytes
  import opened Packetiser
  import opened EncodePass
  import opened EncodeTimeline

  lemma {:induction false} RepliesConcat(enc: Encoder, before: seq<Block>, a: seq<Block>, b: seq<Block>)
    ensures Replies(enc, before, a + b) == Replies(enc, before, a) + Replies(enc, before + a, b)
    decreases |a|
  {
    if a == [] {
      NothingAdded(before);
      NothingAdded(b);
    } else {
      var first := before + [a[0]];
      assert (a + b)[1..] == a[1..] + b;
      assert first + a[1..] == before + a;
      RepliesConcat(enc, first, a[1..], b);
    }
  }

  lemma {:induction false} FramesConcat(a: seq<Reply>, b: seq<Reply>, i: nat)
    ensures Frames(a + b, i) == Frames(a, i) + Frames(b, i + |a|)
    decreases |a|
  {
    if a == [] {
      assert a + b == b;
    } else {
      assert (a + b)[1..] == a[1..] + b;
      FramesConcat(a[1..], b, i + 1);
    }
  }

  lemma {:induction false} ReplyOfFrame(rs: seq<Reply>, i: nat, f: Frame) returns (j: nat)
    requires f in Frames(rs, i)
    ensures j < |rs| && Effective(rs[j]) && f.bytes == rs[j].bytes
    decreases |rs|
  {
    if Effective(rs[0]) && f == Frame(rs[0].bytes, rs[0].frames, i) {
      j := 0;
    } else {
      j := ReplyOfFrame(rs[1..], i + 1, f);
      j := j + 1;
    }
  }

  /** The encoder keeps to the accumulator and reports at least one frame with its bytes. */
  ghost predicate Packable(rs: seq<Reply>) {
    Tidy(rs) && forall i :: 0 <= i < |rs| && Effective(rs[i]) ==> |rs[i].bytes| <= ACCUM_BYTES
  }

  ghost predicate AllEffective(rs: seq<Reply>) {
    forall i :: 0 <= i < |rs| ==> Effective(rs[i])
  }

  /** The packet carries the group; `onTime` asks for the time of its first block as well. */
  ghost predicate Carries(p: Packet, g: seq<Frame>, t0: nat, fpe: nat, onTime: bool) {
    && g != []
    && p.payload == Payload(g)
    && p.frames == Count(g) % 256
    && (onTime ==> p.timestamp == Stamp(t0, g[0].call, fpe))
  }

  ghost predicate CarriesAll(ps: seq<Packet>, gs: seq<seq<Frame>>, t0: nat, fpe: nat, onTime: bool) {
    |ps| == |gs| && forall k :: 0 <= k < |gs| ==> Carries(ps[k], gs[k], t0, fpe, onTime)
  }

  /** One pass that starts `calls` encode calls after time t0. */
  lemma PassCarries(t0: nat, calls: nat, rs: seq<Reply>, max: nat, fpe: nat)
    requires Packable(rs) && max <= ACCUM_BYTES
    ensures CarriesAll(PassPackets(Stamp(t0, calls, fpe), rs, max, fpe), Greedy([], Frames(rs, calls), max),
                       t0, fpe, AllEffective(rs))
  {
    var ts, fs := Stamp(t0, calls, fpe), Frames(rs, calls);
    var gs := Greedy([], fs, max);
    forall f | f in fs ensures |f.bytes| <= ACCUM_BYTES {
      var j := ReplyOfFrame(rs, calls, f);
    }
    WithinBoundIff(fs, max, ACCUM_BYTES);
    DropIffGroupTooLarge(Begin(ts), [], rs, calls, max, fpe);
    PackingIsGreedy(Begin(ts), [], rs, calls, t0, max, fpe);
    GreedyPartitions([], fs, max);
    if AllEffective(rs) && gs != [] {
      FirstCall(rs, calls, gs);
    }
    GroupsCarried(ts, gs, t0, fpe, AllEffective(rs));
  }

  lemma GroupsCarried(first: nat, gs: seq<seq<Frame>>, t0: nat, fpe: nat, onTime: bool)
    requires forall k :: 0 <= k < |gs| ==> gs[k] != []
    requires onTime && gs != [] ==> first == Stamp(t0, gs[0][0].call, fpe)
    ensures CarriesAll(PacketsOf(first, gs, t0, fpe), gs, t0, fpe, onTime)
  {
    var ps := PacketsOf(first, gs, t0, fpe);
    if gs != [] {
      PacketsOfAt(first, gs, t0, fpe, 0);
    }
    forall k | 0 <= k < |gs| ensures Carries(ps[k], gs[k], t0, fpe, onTime) {
      PacketsOfAt(first, gs, t0, fpe, k);
    }
  }

  lemma FirstCall(rs: seq<Reply>, calls: nat, gs: seq<seq<Frame>>)
    requires AllEffective(rs) && Flatten(gs) == [] + Frames(rs, calls) && gs != [] && gs[0] != []
    ensures gs[0][0].call == calls
  {
    CallsAreConsecutive(rs, calls);
    assert Flatten(gs)[0] == gs[0][0];
  }

  /**
   * Any run of passes: its packets carry, in order and without loss, the frames of the
   * whole block sequence; and if every call succeeded, each at its first block's time.
   */
  lemma {:induction false} RunCarries(
      c: Context, inputs: seq<seq<byte>>, enc: Encoder, n: nat, fpe: nat, max: nat, t0: nat, calls: nat)
    returns (gs: seq<seq<Frame>>)
    requires n > 0 && |c.residual| < n && max <= ACCUM_BYTES && c.timestamp == Stamp(t0, calls, fpe)
    requires Packable(Replies(enc, c.encoded, Blocks(c.residual + Flatten(inputs), n)))
    ensures var rs := Replies(enc, c.encoded, Blocks(c.residual + Flatten(inputs), n));
            var r := Passes(c, inputs, enc, n, fpe, max);
            Sends(c.offered, r.offered, rs, calls, gs, t0, fpe)
    decreases |inputs|
  {
    if inputs == [] {
      NothingAdded(c.residual);
      gs := [];
    } else {
      var d := Pass(c, inputs[0], enc, n, fpe, max);
      var rs1, rs2 := FirstPass(c, inputs, enc, n, fpe, max, t0, calls);
      SplitReplies(rs1, rs2);
      var g1 := PassSends(c.offered, t0, calls, rs1, max, fpe);
      var g2 := RunCarries(d, inputs[1..], enc, n, fpe, max, t0, calls + |rs1|);
      gs := g1 + g2;
      SendsThenSends(c.offered, d.offered, Passes(c, inputs, enc, n, fpe, max).offered,
                     rs1, rs2, calls, g1, g2, t0, fpe);
    }
  }

  /** What was handed over between `before` and `after` carries the frames of these replies. */
  ghost predicate Sends(
      before: seq<Packet>, after: seq<Packet>, rs: seq<Reply>, calls: nat, gs: seq<seq<Frame>>, t0: nat, fpe: nat)
  {
    && Flatten(gs) == Frames(rs, calls)
    && before <= after
    && CarriesAll(after[|before|..], gs, t0, fpe, AllEffective(rs))
  }

  lemma PassSends(before: seq<Packet>, t0: nat, calls: nat, rs: seq<Reply>, max: nat, fpe: nat)
    returns (gs: seq<seq<Frame>>)
    requires Packable(rs) && max <= ACCUM_BYTES
    ensures Sends(before, before + PassPackets(Stamp(t0, calls, fpe), rs, max, fpe), rs, calls, gs, t0, fpe)
  {
    gs := Greedy([], Frames(rs, calls), max);
    GreedyPartitions([], Frames(rs, calls), max);
    PassCarries(t0, calls, rs, max, fpe);
    var ps := PassPackets(Stamp(t0, calls, fpe), rs, max, fpe);
    assert (before + ps)[|before|..] == ps;
  }

  lemma SendsThenSends(
      before: seq<Packet>, middle: seq<Packet>, after: seq<Packet>, rs1: seq<Reply>, rs2: seq<Reply>, calls: nat,
      g1: seq<seq<Frame>>, g2: seq<seq<Frame>>, t0: nat, fpe: nat)
    requires Sends(before, middle, rs1, calls, g1, t0, fpe)
    requires Sends(middle, after, rs2, calls + |rs1|, g2, t0, fpe)
    ensures Sends(before, after, rs1 + rs2, calls, g1 + g2, t0, fpe)
  {
    SplitReplies(rs1, rs2);
    FramesConcat(rs1, rs2, calls);
    FlattenConcat(g1, g2);
    var ps := middle[|before|..];
    assert middle == before + ps;
    JoinPackets(before, ps, after, g1, g2, t0, fpe, AllEffective(rs1), AllEffective(rs2));
  }

  /** The replies of a run are those of its first pass and then those of the rest. */
  lemma FirstPass(c: Context, inputs: seq<seq<byte>>, enc: Encoder, n: nat, fpe: nat, max: nat, t0: nat, calls: nat)
    returns (rs1: seq<Reply>, rs2: seq<Reply>)
    requires n > 0 && |c.residual| < n && c.timestamp == Stamp(t0, calls, fpe) && inputs != []
    ensures var d := Pass(c, inputs[0], enc, n, fpe, max);
            && rs1 == Replies(enc, c.encoded, Blocks(c.residual + inputs[0], n))
            && rs2 == Replies(enc, d.encoded, Blocks(d.residual + Flatten(inputs[1..]), n))
            && Replies(enc, c.encoded, Blocks(c.residual + Flatten(inputs), n)) == rs1 + rs2
            && |d.residual| < n && d.timestamp == Stamp(t0, calls + |rs1|, fpe)
            && d.offered == c.offered + PassPackets(c.timestamp, rs1, max, fpe)
  {
    var d, part, later := Pass(c, inputs[0], enc, n, fpe, max), c.residual + inputs[0], Flatten(inputs[1..]);
    Assoc(c.residual, inputs[0], later);
    CutInTwo(part, later, n);
    CutConserves(part, n);
    var first, second := Blocks(part, n), Blocks(d.residual + later, n);
    RepliesConcat(enc, c.encoded, first, second);
    rs1, rs2 := Replies(enc, c.encoded, first), Replies(enc, d.encoded, second);
    OneReplyPerBlock(enc, c.encoded, first);
    ClockOfPass(c, inputs[0], enc, n, fpe, max);
    StampStep(t0, calls, |first|, fpe);
  }

  lemma SplitReplies(a: seq<Reply>, b: seq<Reply>)
    ensures Packable(a + b) <==> Packable(a) && Packable(b)
    ensures AllEffective(a + b) <==> AllEffective(a) && AllEffective(b)
  {
    var ab := a + b;
    assert forall i :: 0 <= i < |a| ==> a[i] == ab[i];
    assert forall i :: 0 <= i < |b| ==> b[i] == ab[|a| + i];
  }

  lemma JoinPackets(
      before: seq<Packet>, ps: seq<Packet>, all: seq<Packet>,
      g1: seq<seq<Frame>>, g2: seq<seq<Frame>>, t0: nat, fpe: nat, e1: bool, e2: bool)
    requires before + ps <= all
    requires CarriesAll(ps, g1, t0, fpe, e1) && CarriesAll(all[|before + ps|..], g2, t0, fpe, e2)
    ensures before <= all && CarriesAll(all[|before|..], g1 + g2, t0, fpe, e1 && e2)
  {
    var mine, late := all[|before|..], all[|before + ps|..];
    assert mine == ps + late;
    forall k | 0 <= k < |g1 + g2| ensures Carries(mine[k], (g1 + g2)[k], t0, fpe, e1 && e2) {
      if k < |g1| {
        assert Carries(ps[k], g1[k], t0, fpe, e1);
      } else {
        assert Carries(late[k - |g1|], g2[k - |g1|], t0, fpe, e2);
      }
    }
  }

  lemma {:induction false} PayloadsOfGroups(ps: seq<Packet>, gs: seq<seq<Frame>>, t0: nat, fpe: nat, onTime: bool)
    requires CarriesAll(ps, gs, t0, fpe, onTime)
    ensures Payloads(ps) == Payload(Flatten(gs))
    decreases |gs|
  {
    if gs != [] {
      assert Carries(ps[0], gs[0], t0, fpe, onTime);
      PayloadConcat(gs[0], Flatten(gs[1..]));
      PayloadsOfGroups(ps[1..], gs[1..], t0, fpe, onTime);
    }
  }

  /** Over any run the packet payloads concatenate to exactly the encoder's outputs. */
  lemma RunIsLossless(c: Context, inputs: seq<seq<byte>>, enc: Encoder, n: nat, fpe: nat, max: nat)
    requires n > 0 && |c.residual| < n && max <= ACCUM_BYTES && c.timestamp < WRAP32
    requires Packable(Replies(enc, c.encoded, Blocks(c.residual + Flatten(inputs), n)))
    ensures var rs := Replies(enc, c.encoded, Blocks(c.residual + Flatten(inputs), n));
            var r := Passes(c, inputs, enc, n, fpe, max);
            && c.offered <= r.offered
            && Payloads(r.offered[|c.offered|..]) == Payload(Frames(rs, 0))
  {
    var rs := Replies(enc, c.encoded, Blocks(c.residual + Flatten(inputs), n));
    var gs := RunCarries(c, inputs, enc, n, fpe, max, c.timestamp, 0);
    var r := Passes(c, inputs, enc, n, fpe, max);
    PayloadsOfGroups(r.offered[|c.offered|..], gs, c.timestamp, fpe, AllEffective(rs));
  }

  /**
   * When every call succeeds the packets of a run tile the timeline, across passes too:
   * each lasts for the blocks it carries, the next starts where it ends, and the last one
   * ends at the clock the run leaves behind.
   */
  lemma RunAbuts(c: Context, inputs: seq<seq<byte>>, enc: Encoder, n: nat, fpe: nat, max: nat)
    returns (gs: seq<seq<Frame>>)
    requires n > 0 && |c.residual| < n && max <= ACCUM_BYTES && c.timestamp < WRAP32
    requires Packable(Replies(enc, c.encoded, Blocks(c.residual + Flatten(inputs), n)))
    requires AllEffective(Replies(enc, c.encoded, Blocks(c.residual + Flatten(inputs), n)))
    ensures var r := Passes(c, inputs, enc, n, fpe, max);
            c.offered <= r.offered && Tiles(r.offered[|c.offered|..], gs, c.timestamp, r.timestamp, fpe)
  {
    var rs := Replies(enc, c.encoded, Blocks(c.residual + Flatten(inputs), n));
    gs := RunCarries(c, inputs, enc, n, fpe, max, c.timestamp, 0);
    CallsAreConsecutive(rs, 0);
    RunClock(c, inputs, enc, n, fpe, max);
    GroupsTile(Passes(c, inputs, enc, n, fpe, max).offered[|c.offered|..], gs, c.timestamp, fpe);
  }

  lemma RunClock(c: Context, inputs: seq<seq<byte>>, enc: Encoder, n: nat, fpe: nat, max: nat)
    requires n > 0 && |c.residual| < n && c.timestamp < WRAP32
    ensures Passes(c, inputs, enc, n, fpe, max).timestamp
         == Stamp(c.timestamp, |Replies(enc, c.encoded, Blocks(c.residual + Flatten(inputs), n))|, fpe)
  {
    RunOfPasses(c, inputs, enc, n, fpe, max);
    ClockOfPasses(c, inputs, enc, n, fpe, max);
    OneReplyPerBlock(enc, c.encoded, Blocks(c.residual + Flatten(inputs), n));
  }

  /** Packet k lasts for the blocks it carries and ends where the next starts, the last one at t1. */
  ghost predicate AbutsAt(ps: seq<Packet>, gs: seq<seq<Frame>>, t1: nat, fpe: nat, k: nat)
    requires k < |ps| == |gs|
  {
    (ps[k].timestamp + |gs[k]| * fpe) % WRAP32 == if k + 1 < |ps| then ps[k + 1].timestamp else t1
  }

  /** From time t0 to time t1 without gap or overlap. */
  ghost predicate Tiles(ps: seq<Packet>, gs: seq<seq<Frame>>, t0: nat, t1: nat, fpe: nat) {
    && CarriesAll(ps, gs, t0, fpe, true)
    && (if ps == [] then t0 == t1 else ps[0].timestamp == t0)
    && forall k :: 0 <= k < |ps| ==> AbutsAt(ps, gs, t1, fpe, k)
  }

  lemma GroupAbuts(ps: seq<Packet>, gs: seq<seq<Frame>>, t0: nat, fpe: nat, k: nat)
    requires CarriesAll(ps, gs, t0, fpe, true) && k < |ps|
    requires forall j :: 0 <= j < |Flatten(gs)| ==> Flatten(gs)[j].call == j
    ensures AbutsAt(ps, gs, Stamp(t0, |Flatten(gs)|, fpe), fpe, k)
    ensures k == 0 ==> ps[0].timestamp == Stamp(t0, 0, fpe)
  {
    assert forall i :: 0 <= i < |gs| ==> Carries(ps[i], gs[i], t0, fpe, true);
    GroupStarts(gs, 0, k);
    var call := gs[k][0].call;
    StampStep(t0, call, |gs[k]|, fpe);
    assert Carries(ps[k], gs[k], t0, fpe, true);
    assert k + 1 < |gs| ==> Carries(ps[k + 1], gs[k + 1], t0, fpe, true);
  }

  lemma StampAtStart(t0: nat, fpe: nat)
    requires t0 < WRAP32
    ensures Stamp(t0, 0, fpe) == t0
  {
  }

  lemma AllAbut(ps: seq<Packet>, gs: seq<seq<Frame>>, t0: nat, t1: nat, fpe: nat)
    requires CarriesAll(ps, gs, t0, fpe, true) && t1 == Stamp(t0, |Flatten(gs)|, fpe)
    requires forall j :: 0 <= j < |Flatten(gs)| ==> Flatten(gs)[j].call == j
    ensures forall k :: 0 <= k < |ps| ==> AbutsAt(ps, gs, t1, fpe, k)
  {
    forall k | 0 <= k < |ps| ensures AbutsAt(ps, gs, t1, fpe, k) {
      GroupAbuts(ps, gs, t0, fpe, k);
    }
  }

  lemma GroupsTile(ps: seq<Packet>, gs: seq<seq<Frame>>, t0: nat, fpe: nat)
    requires CarriesAll(ps, gs, t0, fpe, true) && t0 < WRAP32
    requires forall j :: 0 <= j < |Flatten(gs)| ==> Flatten(gs)[j].call == j
    ensures Tiles(ps, gs, t0, Stamp(t0, |Flatten(gs)|, fpe), fpe)
  {
    StampAtStart(t0, fpe);
    var t1 := Stamp(t0, |Flatten(gs)|, fpe);
    AllAbut(ps, gs, t0, t1, fpe);
    if gs != [] {
      GroupAbuts(ps, gs, t0, fpe, 0);
    }
  }
}
