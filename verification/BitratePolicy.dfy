/** SSC bitrate selection: the mode tables, snapping, and what `SscEncoder::init` hands the backend. */
module BitratePolicy {

  import opened Bytes

  datatype Quality = High | Standard | Mobile

  const BASIC: seq<nat> := [88000, 96000, 128000, 192000, 229000, 256000, 328000]
  const UHQ: seq<nat> := [152000, 250000, 291000, 308000, 442000, 584000, 886000]

  predicate IsUhqRate(rate: nat) { rate == 88200 || rate == 96000 }

  function Table(rate: nat): seq<nat> { if IsUhqRate(rate) then UHQ else BASIC }

  function Distance(a: nat, b: nat): nat { if a > b then a - b else b - a }

  /** The nearest table entry, the lower of two equally near ones. */
  ghost predicate IsSnap(s: nat, bps: nat, table: seq<nat>) {
    && s in table
    && (forall i :: 0 <= i < |table| ==> Distance(bps, s) <= Distance(bps, table[i]))
    && (forall i :: 0 <= i < |table| && Distance(bps, table[i]) == Distance(bps, s) ==> s <= table[i])
  }

  /** `snap_bitrate_bps` */
  method SnapBitrate(bps: nat, rate: nat) returns (best: nat)
    requires bps < WRAP32
    ensures IsSnap(best, bps, Table(rate))
  {
    var list := Table(rate);
    TableSorted(rate);
    best := list[0];
    var bestDiff := Distance(bps, best);
    ghost var at := 0;
    for i := 1 to |list|
      invariant 0 <= at < i && best == list[at] && bestDiff == Distance(bps, best)
      invariant forall j :: 0 <= j < i ==> bestDiff <= Distance(bps, list[j])
      invariant forall j :: 0 <= j < i && Distance(bps, list[j]) == bestDiff ==> best <= list[j]
    {
      var diff := Distance(bps, list[i]);
      if diff < bestDiff {
        bestDiff, best, at := diff, list[i], i;
      }
    }
  }

  lemma TableSorted(rate: nat)
    ensures |Table(rate)| == 7
    ensures forall i, j :: 0 <= i < j < |Table(rate)| ==> Table(rate)[i] < Table(rate)[j]
  {
  }

  /** Snapping is a function, never decreases as the request grows, and leaves table entries alone. */
  lemma SnapIsMonotone(s1: nat, b1: nat, s2: nat, b2: nat, table: seq<nat>)
    requires IsSnap(s1, b1, table) && IsSnap(s2, b2, table) && b1 <= b2
    ensures s1 <= s2
    ensures b1 == b2 ==> s1 == s2
  {
  }

  lemma SnapIsIdempotent(s: nat, bps: nat, again: nat, table: seq<nat>)
    requires IsSnap(s, bps, table) && IsSnap(again, s, table)
    ensures again == s
  {
  }

  /** `pick_bitrate_bps` */
  function Pick(q: Quality, rate: nat): nat {
    match q
    case High => if IsUhqRate(rate) then 584000 else 229000
    case Standard => if IsUhqRate(rate) then 442000 else 192000
    case Mobile => if IsUhqRate(rate) then 250000 else 128000
  }

  /** The two mode tables, by rate. */
  lemma TableIs(rate: nat)
    ensures rate == 88200 || rate == 96000 ==>
              Table(rate) == [152000, 250000, 291000, 308000, 442000, 584000, 886000]
    ensures rate != 88200 && rate != 96000 ==>
              Table(rate) == [88000, 96000, 128000, 192000, 229000, 256000, 328000]
  {
  }

  /** The six automatic bitrates: they rise with quality and belong to the rate's table. */
  lemma PickTable(rate: nat)
    ensures IsUhqRate(rate) ==>
              Pick(Mobile, rate) == 250000 && Pick(Standard, rate) == 442000 && Pick(High, rate) == 584000
    ensures !IsUhqRate(rate) ==>
              Pick(Mobile, rate) == 128000 && Pick(Standard, rate) == 192000 && Pick(High, rate) == 229000
    ensures Pick(Mobile, rate) < Pick(Standard, rate) < Pick(High, rate)
    ensures rate == 88200 || rate == 96000 <==> IsUhqRate(rate)
  {
  }

  /**
   * The rate and bitrate `SscEncoder::init` passes on: always a bitrate of the table of
   * the rate passed on, whatever the quality, override and requested rate.
   */
  method ChooseBitrate(q: Quality, overrideKbps: nat, sampleRate: nat) returns (rate: nat, br: nat)
    requires overrideKbps < WRAP32
    ensures rate == if sampleRate == 0 then 48000 else sampleRate
    ensures br in Table(rate)
    ensures overrideKbps > 0 ==> IsSnap(br, overrideKbps * 1000 % WRAP32, Table(rate))
    ensures overrideKbps == 0 ==> br == Pick(q, rate)
  {
    rate := if sampleRate == 0 then 48000 else sampleRate;
    if overrideKbps > 0 {
      br := SnapBitrate(overrideKbps * 1000 % WRAP32, rate);
    } else {
      br := Pick(q, sampleRate);
      assert br in BASIC || br in UHQ by {
        assert BASIC[2] == 128000 && BASIC[3] == 192000 && BASIC[4] == 229000;
        assert UHQ[1] == 250000 && UHQ[4] == 442000 && UHQ[5] == 584000;
      }
    }
  }
}
