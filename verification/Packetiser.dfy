/**
 * Greedy packing of encoded frames into media packets, as a reference on its own:
 * frames in order, a group is closed when the next frame would exceed the limit.
 */
module Packetiser {
  import opened Bytes

  /** An encoded frame: its bytes, the codec frames it counts for, and the encode call that made it. */
  datatype Frame = Frame(bytes: seq<byte>, frames: nat, call: nat)

  function Payload(g: seq<Frame>): seq<byte> {
    if g == [] then [] else g[0].bytes + Payload(g[1..])
  }

  function Size(g: seq<Frame>): nat {
    if g == [] then 0 else |g[0].bytes| + Size(g[1..])
  }

  function Greedy(open: seq<Frame>, fs: seq<Frame>, max: nat): seq<seq<Frame>>
    decreases |fs|
  {
    if fs == [] then
      if open == [] then [] else [open]
    else if open != [] && Size(open) + |fs[0].bytes| > max then
      [open] + Greedy([fs[0]], fs[1..], max)
    else
      Greedy(open + [fs[0]], fs[1..], max)
  }

  lemma {:induction false} PayloadConcat(a: seq<Frame>, b: seq<Frame>)
    ensures Payload(a + b) == Payload(a) + Payload(b)
    ensures Size(a + b) == Size(a) + Size(b)
  {
    if a == [] {
      assert a + b == b;
    } else {
      var ab, rest := a + b, a[1..];
      assert ab[0] == a[0] && ab[1..] == rest + b;
      PayloadConcat(rest, b);
      assert Payload(ab) == a[0].bytes + (Payload(rest) + Payload(b));
    }
  }

  lemma PayloadSnoc(a: seq<Frame>, f: Frame)
    ensures Payload(a + [f]) == Payload(a) + f.bytes
    ensures Size(a + [f]) == Size(a) + |f.bytes|
  {
    PayloadConcat(a, [f]);
    assert [f][1..] == [];
  }

  lemma {:induction false} SizeIsLength(g: seq<Frame>)
    ensures |Payload(g)| == Size(g)
  {
    if g != [] {
      SizeIsLength(g[1..]);
    }
  }

  /** Grouping keeps every frame, in order, and makes no empty packet. */
  lemma {:induction false} GreedyPartitions(open: seq<Frame>, fs: seq<Frame>, max: nat)
    ensures Flatten(Greedy(open, fs, max)) == open + fs
    ensures forall i :: 0 <= i < |Greedy(open, fs, max)| ==> Greedy(open, fs, max)[i] != []
    decreases |fs|
  {
    if fs == [] {
      assert [open][1..] == [];
      assert open == [] || Flatten([open]) == open;
    } else if open != [] && Size(open) + |fs[0].bytes| > max {
      GreedyPartitions([fs[0]], fs[1..], max);
      var rest := Greedy([fs[0]], fs[1..], max);
      assert ([open] + rest)[1..] == rest;
      assert [fs[0]] + fs[1..] == fs;
    } else {
      GreedyPartitions(open + [fs[0]], fs[1..], max);
      assert open + [fs[0]] + fs[1..] == open + fs;
    }
  }

  ghost predicate AllWithin(gs: seq<seq<Frame>>, max: nat) {
    forall i :: 0 <= i < |gs| ==> Size(gs[i]) <= max
  }

  lemma {:induction false} MemberFits(g: seq<Frame>, f: Frame)
    requires f in g
    ensures |f.bytes| <= Size(g)
  {
    if f != g[0] {
      MemberFits(g[1..], f);
    }
  }

  lemma {:induction false} InSomePart(gs: seq<seq<Frame>>, f: Frame) returns (i: nat)
    requires f in Flatten(gs)
    ensures i < |gs| && f in gs[i]
  {
    if f in gs[0] {
      i := 0;
    } else {
      i := InSomePart(gs[1..], f);
      i := i + 1;
    }
  }

  /** Under any bound not below the limit: a group is one frame or fits the limit. */
  lemma {:induction false} SmallFramesFit(open: seq<Frame>, fs: seq<Frame>, max: nat, bound: nat)
    requires max <= bound && Size(open) <= bound && forall f :: f in fs ==> |f.bytes| <= bound
    ensures AllWithin(Greedy(open, fs, max), bound)
    decreases |fs|
  {
    if fs != [] {
      PayloadSnoc(open, fs[0]);
      PayloadSnoc([], fs[0]);
      assert [] + [fs[0]] == [fs[0]];
      if open != [] && Size(open) + |fs[0].bytes| > max {
        SmallFramesFit([fs[0]], fs[1..], max, bound);
      } else {
        SmallFramesFit(open + [fs[0]], fs[1..], max, bound);
      }
    }
  }

  /** No packet exceeds the bound if and only if no single frame does. */
  lemma WithinBoundIff(fs: seq<Frame>, max: nat, bound: nat)
    requires max <= bound
    ensures AllWithin(Greedy([], fs, max), bound) <==> forall f :: f in fs ==> |f.bytes| <= bound
  {
    var gs := Greedy([], fs, max);
    if AllWithin(gs, bound) {
      GreedyPartitions([], fs, max);
      assert Flatten(gs) == fs;
      PartsBoundFrames(gs, bound);
    } else if forall f :: f in fs ==> |f.bytes| <= bound {
      SmallFramesFit([], fs, max, bound);
    }
  }

  lemma {:induction false} GreedyFirst(open: seq<Frame>, fs: seq<Frame>, max: nat)
    requires open != []
    ensures var gs := Greedy(open, fs, max); gs != [] && gs[0] != [] && gs[0][0] == open[0]
    decreases |fs|
  {
    if fs != [] && Size(open) + |fs[0].bytes| <= max {
      GreedyFirst(open + [fs[0]], fs[1..], max);
    }
  }

  /** A group is closed only when the next frame would take it above the limit. */
  lemma {:induction false} GreedyIsMaximal(open: seq<Frame>, fs: seq<Frame>, max: nat, k: nat)
    requires k + 1 < |Greedy(open, fs, max)|
    ensures var gs := Greedy(open, fs, max); gs[k + 1] != [] && Size(gs[k]) + |gs[k + 1][0].bytes| > max
    decreases |fs|
  {
    if open != [] && Size(open) + |fs[0].bytes| > max {
      var gs := Greedy([fs[0]], fs[1..], max);
      if k == 0 {
        GreedyFirst([fs[0]], fs[1..], max);
        assert ([open] + gs)[1] == gs[0];
      } else {
        GreedyIsMaximal([fs[0]], fs[1..], max, k - 1);
        assert ([open] + gs)[k] == gs[k - 1] && ([open] + gs)[k + 1] == gs[k];
      }
    } else {
      GreedyIsMaximal(open + [fs[0]], fs[1..], max, k);
    }
  }

  /** A group above the limit is a single frame. */
  lemma {:induction false} OversizeIsAlone(open: seq<Frame>, fs: seq<Frame>, max: nat, k: nat)
    requires (|open| > 1 ==> Size(open) <= max) && k < |Greedy(open, fs, max)|
    ensures |Greedy(open, fs, max)[k]| > 1 ==> Size(Greedy(open, fs, max)[k]) <= max
    decreases |fs|
  {
    if fs != [] {
      PayloadSnoc(open, fs[0]);
      if open != [] && Size(open) + |fs[0].bytes| > max {
        if k > 0 {
          OversizeIsAlone([fs[0]], fs[1..], max, k - 1);
          var gs := Greedy([fs[0]], fs[1..], max);
          assert ([open] + gs)[k] == gs[k - 1];
        }
      } else {
        OversizeIsAlone(open + [fs[0]], fs[1..], max, k);
      }
    }
  }

  // ---- optimality ----

  /** Groups opened after the current one, when `used` bytes of it are taken. */
  function Further(used: nat, fs: seq<Frame>, max: nat): nat
    decreases |fs|
  {
    if fs == [] then 0
    else if used + |fs[0].bytes| > max then 1 + Further(|fs[0].bytes|, fs[1..], max)
    else Further(used + |fs[0].bytes|, fs[1..], max)
  }

  lemma {:induction false} GreedyCount(open: seq<Frame>, fs: seq<Frame>, max: nat)
    requires open != []
    ensures |Greedy(open, fs, max)| == 1 + Further(Size(open), fs, max)
    decreases |fs|
  {
    if fs != [] {
      PayloadSnoc(open, fs[0]);
      PayloadSnoc([], fs[0]);
      assert [] + [fs[0]] == [fs[0]];
      if Size(open) + |fs[0].bytes| > max {
        GreedyCount([fs[0]], fs[1..], max);
      } else {
        GreedyCount(open + [fs[0]], fs[1..], max);
      }
    }
  }

  /** A fuller open group costs at least as many further groups, and at most one more. */
  lemma {:induction false} FurtherMonotone(u: nat, v: nat, fs: seq<Frame>, max: nat)
    requires u <= v && forall f :: f in fs ==> |f.bytes| <= max
    ensures Further(u, fs, max) <= Further(v, fs, max) <= Further(u, fs, max) + 1
    decreases |fs|
  {
    if fs != [] {
      var f := |fs[0].bytes|;
      if u + f <= max < v + f {
        FurtherMonotone(f, u + f, fs[1..], max);
      } else if v + f <= max {
        FurtherMonotone(u + f, v + f, fs[1..], max);
      }
    }
  }

  /** A group that fits is swallowed without opening another. */
  lemma {:induction false} FurtherSwallows(u: nat, g: seq<Frame>, fs: seq<Frame>, max: nat)
    requires u + Size(g) <= max
    ensures Further(u, g + fs, max) == Further(u + Size(g), fs, max)
    decreases |g|
  {
    if g == [] {
      assert g + fs == fs;
    } else {
      assert (g + fs)[1..] == g[1..] + fs;
      FurtherSwallows(u + |g[0].bytes|, g[1..], fs, max);
    }
  }

  lemma PartsBoundFrames(gs: seq<seq<Frame>>, max: nat)
    requires AllWithin(gs, max)
    ensures forall f :: f in Flatten(gs) ==> |f.bytes| <= max
  {
    forall f | f in Flatten(gs) ensures |f.bytes| <= max {
      var i := InSomePart(gs, f);
      MemberFits(gs[i], f);
    }
  }

  lemma {:induction false} FurtherBelowPartition(u: nat, gs: seq<seq<Frame>>, max: nat)
    requires AllWithin(gs, max)
    ensures Further(u, Flatten(gs), max) <= |gs|
    ensures gs != [] ==> Further(0, Flatten(gs), max) < |gs|
    decreases |gs|
  {
    if gs != [] {
      PartsBoundFrames(gs, max);
      FurtherMonotone(0, u, Flatten(gs), max);
      FurtherSwallows(0, gs[0], Flatten(gs[1..]), max);
      FurtherBelowPartition(Size(gs[0]), gs[1..], max);
    }
  }

  /** No order-preserving partition under the limit has fewer groups. */
  lemma GreedyIsOptimal(fs: seq<Frame>, gs: seq<seq<Frame>>, max: nat)
    requires Flatten(gs) == fs && AllWithin(gs, max)
    ensures |Greedy([], fs, max)| <= |gs|
  {
    if fs != [] {
      assert fs[0] in Flatten(gs) && gs != [];
      PartsBoundFrames(gs, max);
      FurtherBelowPartition(0, gs, max);
      CountFromEmpty(fs, max);
    }
  }

  lemma CountFromEmpty(fs: seq<Frame>, max: nat)
    requires fs != [] && |fs[0].bytes| <= max
    ensures |Greedy([], fs, max)| == 1 + Further(0, fs, max)
  {
    var first := [] + [fs[0]];
    PayloadSnoc([], fs[0]);
    assert Greedy([], fs, max) == Greedy(first, fs[1..], max);
    GreedyCount(first, fs[1..], max);
  }
}
