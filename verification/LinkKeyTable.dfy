/**
 * The link key database: a 32-entry array kept as an insertion-ordered map that
 * evicts its oldest entry, written to its file after every change.
 */
module LinkKeyTable {
  import opened Bytes
  import opened LinkKeyFile

  // ---- the table as a sequence ----

  /** Index of the first entry for an address, or -1. */
  function Find(t: seq<Entry>, a: Address): (i: int)
    ensures -1 <= i < |t|
    ensures i >= 0 ==> t[i].addr == a && forall j :: 0 <= j < i ==> t[j].addr != a
    ensures i < 0 ==> forall j :: 0 <= j < |t| ==> t[j].addr != a
  {
    if t == [] then -1
    else if t[0].addr == a then 0
    else
      var i := Find(t[1..], a);
      if i < 0 then -1 else i + 1
  }

  ghost predicate Distinct(t: seq<Entry>) {
    forall i, j :: 0 <= i < j < |t| ==> t[i].addr != t[j].addr
  }

  function Put(t: seq<Entry>, e: Entry): seq<Entry> {
    var i := Find(t, e.addr);
    if i >= 0 then t[i := e]
    else (if |t| >= MAX_LINK_KEYS then t[1..] else t) + [e]
  }

  function Remove<T>(t: seq<T>, i: nat): seq<T>
    requires i < |t|
  {
    t[..i] + t[i + 1..]
  }

  function Delete(t: seq<Entry>, a: Address): seq<Entry> {
    var i := Find(t, a);
    if i < 0 then t else Remove(t, i)
  }

  function Get(t: seq<Entry>, a: Address): (r: Option<(LinkKey, int32)>)
    ensures r.None? <==> forall j :: 0 <= j < |t| ==> t[j].addr != a
    ensures r.Some? ==> exists i :: 0 <= i < |t| && t[i].addr == a && r.value == (t[i].key, t[i].kind)
  {
    var i := Find(t, a);
    if i < 0 then None else Some((t[i].key, t[i].kind))
  }

  // ---- the table as an insertion-ordered map ----

  /** Addresses, oldest first. */
  function Order(t: seq<Entry>): seq<Address> {
    seq(|t|, i requires 0 <= i < |t| => t[i].addr)
  }

  lemma FindUnique(t: seq<Entry>, i: nat)
    requires Distinct(t) && i < |t|
    ensures Find(t, t[i].addr) == i
  {
  }

  function PutOrder(order: seq<Address>, a: Address): seq<Address> {
    if a in order then order else (if |order| >= MAX_LINK_KEYS then order[1..] else order) + [a]
  }

  lemma PutKeepsDistinct(t: seq<Entry>, e: Entry)
    requires Distinct(t) && |t| <= MAX_LINK_KEYS
    ensures Distinct(Put(t, e)) && |Put(t, e)| <= MAX_LINK_KEYS
  {
  }

  /** An update keeps its place; a new address goes last, and into a full table at the oldest one's cost. */
  lemma PutKeepsOrder(t: seq<Entry>, e: Entry)
    requires Distinct(t) && |t| <= MAX_LINK_KEYS
    ensures Order(Put(t, e)) == PutOrder(Order(t), e.addr)
  {
    var order, k := Order(t), Find(t, e.addr);
    if k >= 0 {
      assert order[k] == e.addr;
    }
    assert Order(Put(t, e)) == PutOrder(order, e.addr);
  }

  /** A put changes what one address maps to and drops at most the oldest one. */
  lemma PutGet(t: seq<Entry>, e: Entry, a: Address)
    requires Distinct(t) && |t| <= MAX_LINK_KEYS
    ensures Get(Put(t, e), a) ==
              if a == e.addr then Some((e.key, e.kind))
              else if Find(t, e.addr) < 0 && |t| == MAX_LINK_KEYS && a == t[0].addr then None
              else Get(t, a)
  {
    PutKeepsDistinct(t, e);
    var r, k := Put(t, e), Find(t, e.addr);
    if a == e.addr {
      var at := if k >= 0 then k else |r| - 1;
      assert r[at] == e;
      FindUnique(r, at);
    } else if k >= 0 {
      UpdateGet(t, k, e, a);
    } else {
      InsertGet(t, e, a);
    }
  }

  lemma UpdateGet(t: seq<Entry>, k: nat, e: Entry, a: Address)
    requires k < |t| && t[k].addr == e.addr && Distinct(t) && a != e.addr
    ensures Get(t[k := e], a) == Get(t, a)
  {
    var i, r := Find(t, a), t[k := e];
    if i >= 0 {
      assert r[i] == t[i];
      FindUnique(r, i);
    }
  }

  lemma AppendGet(t: seq<Entry>, e: Entry, a: Address)
    requires a != e.addr
    ensures Get(t + [e], a) == Get(t, a)
  {
    var i, j := Find(t, a), Find(t + [e], a);
    if i >= 0 {
      assert (t + [e])[i] == t[i];
    }
    assert j >= 0 ==> j < |t| && (t + [e])[j] == t[j];
  }

  lemma TailGet(t: seq<Entry>, a: Address)
    requires t != [] && Distinct(t)
    ensures Get(t[1..], a) == if a == t[0].addr then None else Get(t, a)
  {
  }

  lemma InsertGet(t: seq<Entry>, e: Entry, a: Address)
    requires Distinct(t) && |t| <= MAX_LINK_KEYS && Find(t, e.addr) < 0 && a != e.addr
    ensures Get(Put(t, e), a) == if |t| == MAX_LINK_KEYS && a == t[0].addr then None else Get(t, a)
  {
    AppendGet(t, e, a);
    if |t| == MAX_LINK_KEYS {
      TailGet(t, a);
      AppendGet(t[1..], e, a);
    }
  }

  lemma RemoveKeepsDistinct(t: seq<Entry>, i: nat)
    requires i < |t| && Distinct(t)
    ensures Distinct(Remove(t, i)) && Order(Remove(t, i)) == Remove(Order(t), i)
    ensures forall j :: 0 <= j < |t| - 1 ==> Remove(t, i)[j] == t[if j < i then j else j + 1]
  {
  }

  /** A delete leaves the other entries in their order. */
  lemma DeleteKeepsOrder(t: seq<Entry>, d: Address)
    requires Distinct(t)
    ensures Distinct(Delete(t, d)) && |Delete(t, d)| <= |t|
    ensures Order(Delete(t, d)) == if Find(t, d) < 0 then Order(t) else Remove(Order(t), Find(t, d))
  {
    if Find(t, d) >= 0 {
      RemoveKeepsDistinct(t, Find(t, d));
    }
  }

  lemma RemoveGet(t: seq<Entry>, k: nat, a: Address)
    requires k < |t| && Distinct(t)
    ensures Get(Remove(t, k), a) == if a == t[k].addr then None else Get(t, a)
  {
    RemoveKeepsDistinct(t, k);
    var r, i := Remove(t, k), Find(t, a);
    if a == t[k].addr {
      assert forall j :: 0 <= j < |r| ==> r[j].addr != a;
    } else if i >= 0 {
      var at := if i < k then i else i - 1;
      assert r[at] == t[i];
      FindUnique(r, at);
    }
  }

  /** A delete removes its own address only. */
  lemma DeleteGet(t: seq<Entry>, d: Address, a: Address)
    requires Distinct(t)
    ensures Get(Delete(t, d), a) == if a == d then None else Get(t, a)
  {
    if Find(t, d) >= 0 {
      RemoveGet(t, Find(t, d), a);
    }
  }

  /**
   * What a put leaves: the new key found, in its old place or last, every other address as
   * before except that the oldest of 32 makes room for a new one.
   */
  ghost predicate PutDone(before: seq<Entry>, after: seq<Entry>, e: Entry) {
    var known := exists i :: 0 <= i < |before| && before[i].addr == e.addr;
    && Distinct(after) && |after| <= 32
    && Get(after, e.addr) == Some((e.key, e.kind))
    && (known ==> |after| == |before|)
    && (known ==> forall i :: 0 <= i < |before| ==> after[i] == if before[i].addr == e.addr then e else before[i])
    && (!known && |before| < 32 ==> after == before + [e])
    && (!known && |before| == 32 ==> after == before[1..] + [e])
    && (forall a: Address :: a != e.addr ==>
          Get(after, a) == if !known && |before| == 32 && a == before[0].addr then None else Get(before, a))
  }

  lemma PutIsDone(t: seq<Entry>, e: Entry)
    requires Distinct(t) && |t| <= MAX_LINK_KEYS
    ensures PutDone(t, Put(t, e), e)
  {
    PutKeepsDistinct(t, e);
    forall a: Address
      ensures Get(Put(t, e), a) ==
                if a == e.addr then Some((e.key, e.kind))
                else if Find(t, e.addr) < 0 && |t| == MAX_LINK_KEYS && a == t[0].addr then None
                else Get(t, a)
    {
      PutGet(t, e, a);
    }
  }

  /** What a delete leaves: the address unknown, every other one as before and in its order. */
  ghost predicate DeleteDone(before: seq<Entry>, after: seq<Entry>, d: Address) {
    && Distinct(after)
    && Get(after, d) == None
    && (forall a: Address :: a != d ==> Get(after, a) == Get(before, a))
    && (after == before ||
        exists i :: 0 <= i < |before| && before[i].addr == d && after == before[..i] + before[i + 1..])
  }

  lemma DeleteIsDone(t: seq<Entry>, d: Address)
    requires Distinct(t)
    ensures DeleteDone(t, Delete(t, d), d)
  {
    DeleteKeepsOrder(t, d);
    forall a: Address ensures Get(Delete(t, d), a) == if a == d then None else Get(t, a) {
      DeleteGet(t, d, a);
    }
  }

  // ---- runs of operations, with the file ----

  datatype Op = PutOp(e: Entry, written: bool) | DeleteOp(a: Address, written: bool)

  /** The in-memory table and the text of the file; a failed open leaves the file alone. */
  datatype Db = Db(table: seq<Entry>, file: string)

  function Saved(t: seq<Entry>, file: string, written: bool): Db {
    Db(t, if written then Print(t) else file)
  }

  function ApplyOp(d: Db, op: Op): Db {
    match op
    case PutOp(e, written) => Saved(Put(d.table, e), d.file, written)
    case DeleteOp(a, written) =>
      if Find(d.table, a) < 0 then d else Saved(Delete(d.table, a), d.file, written)
  }

  function RunOps(d: Db, ops: seq<Op>): Db
    decreases |ops|
  {
    if ops == [] then d else RunOps(ApplyOp(d, ops[0]), ops[1..])
  }

  /** A run ends with its last operation. */
  lemma {:induction false} RunOpsSnoc(d: Db, ops: seq<Op>, op: Op)
    ensures RunOps(d, []) == d
    ensures RunOps(d, ops + [op]) == ApplyOp(RunOps(d, ops), op)
    decreases |ops|
  {
    if ops == [] {
      assert ops + [op] == [op] && [op][1..] == [];
    } else {
      assert (ops + [op])[1..] == ops[1..] + [op];
      RunOpsSnoc(ApplyOp(d, ops[0]), ops[1..], op);
    }
  }

  ghost predicate Good(d: Db) {
    Distinct(d.table) && |d.table| <= MAX_LINK_KEYS
  }

  ghost predicate Synced(d: Db) {
    Parse(d.file, MAX_LINK_KEYS) == d.table
  }

  /**
   * Any run of puts and deletes keeps addresses distinct and the table within 32; and if
   * every write succeeded, loading the file gives the table in memory.
   */
  lemma {:induction false} FileFollowsTable(d: Db, ops: seq<Op>)
    requires Good(d)
    ensures Good(RunOps(d, ops))
    ensures Synced(d) && (forall i :: 0 <= i < |ops| ==> ops[i].written) ==> Synced(RunOps(d, ops))
    decreases |ops|
  {
    if ops != [] {
      match ops[0] {
        case PutOp(e, _) => PutKeepsDistinct(d.table, e);
        case DeleteOp(a, _) => DeleteKeepsOrder(d.table, a);
      }
      var next := ApplyOp(d, ops[0]);
      LoadAfterSave(next.table);
      FileFollowsTable(next, ops[1..]);
    }
  }

  // ---- the database object ----

  class LinkKeyDb {
    const entries: array<Entry>
    var n: nat
    var file: string

    ghost predicate Valid()
      reads this, entries
    {
      entries.Length == MAX_LINK_KEYS && n <= MAX_LINK_KEYS
    }

    ghost function Table(): seq<Entry>
      reads this, entries
      requires Valid()
    {
      entries[..n]
    }

    constructor (file: string)
      ensures Valid() && fresh(entries) && n == 0 && this.file == file
    {
      entries := new Entry[MAX_LINK_KEYS](_ =>
        Entry([0, 0, 0, 0, 0, 0], [0, 0, 0, 0, 0, 0, 0, 0, 0, 0, 0, 0, 0, 0, 0, 0], 0));
      n := 0;
      this.file := file;
    }

    /** One turn of the load loop: a line is skipped or becomes the next entry. */
    method LoadLine(text: string) returns (rest: string)
      requires Valid() && text != [] && n < MAX_LINK_KEYS
      modifies this`n, entries
      ensures Valid() && |rest| < |text|
      ensures Table() + Parse(rest, MAX_LINK_KEYS - n) == old(Table() + Parse(text, MAX_LINK_KEYS - n))
    {
      var k := LineLength(text, LINE_CHARS);
      var parsed := ParseLine(text[..k]);
      rest := text[k..];
      ParseTurn(text, MAX_LINK_KEYS - n);
      if parsed.Some? {
        Assoc(Table(), [parsed.value], Parse(rest, MAX_LINK_KEYS - n - 1));
        Append(parsed.value);
      }
    }

    /** `load_from_file`. */
    method Open()
      requires Valid()
      modifies this`n, entries
      ensures Valid() && Table() == Parse(file, MAX_LINK_KEYS)
    {
      n := 0;
      var text := file;
      while text != [] && n < MAX_LINK_KEYS
        invariant Valid()
        invariant Parse(file, MAX_LINK_KEYS) == Table() + Parse(text, MAX_LINK_KEYS - n)
        decreases |text|
      {
        text := LoadLine(text);
      }
    }

    method Append(e: Entry)
      requires Valid() && n < MAX_LINK_KEYS
      modifies this`n, entries
      ensures Valid() && n == old(n) + 1 && Table() == old(Table()) + [e]
    {
      entries[n] := e;
      n := n + 1;
    }

    /** `save_to_file`; `writable` is false when the temporary file cannot be opened. */
    method Save(writable: bool)
      requires Valid()
      modifies this`file
      ensures Db(Table(), file) == Saved(old(Table()), old(file), writable)
      ensures Table() == old(Table()) && file == if writable then Print(Table()) else old(file)
    {
      if !writable { return; }
      var text := "";
      for i := 0 to n
        invariant text == Lines(entries[..i])
      {
        assert entries[..i + 1] == entries[..i] + [entries[i]];
        LinesSnoc(entries[..i], entries[i]);
        text := text + Line(entries[i]);
      }
      file := Header() + "\n" + text;
    }

    /** `find_entry`. */
    method FindEntry(a: Address) returns (i: int)
      requires Valid()
      ensures i == Find(Table(), a)
    {
      i := 0;
      while i < n
        invariant 0 <= i <= n
        invariant forall j :: 0 <= j < i ==> entries[j].addr != a
      {
        if entries[i].addr == a { return; }
        i := i + 1;
      }
      i := -1;
    }

    /** The memmove that closes a gap. */
    method ShiftDown(from: nat)
      requires Valid() && from < n
      modifies entries
      ensures entries[..n - 1] == Remove(old(entries[..n]), from)
    {
      for i := from to n - 1
        invariant forall j :: 0 <= j < n ==>
                    entries[j] == old(entries[if from <= j < i then j + 1 else j])
      {
        entries[i] := entries[i + 1];
      }
      ghost var was := old(entries[..n]);
      assert forall j :: 0 <= j < n - 1 ==> entries[j] == was[if from <= j then j + 1 else j];
    }

    method Drop(i: nat)
      requires Valid() && i < n
      modifies this`n, entries
      ensures Valid() && Table() == Remove(old(Table()), i)
    {
      ShiftDown(i);
      n := n - 1;
    }

    method DropAddress(a: Address) returns (found: bool)
      requires Valid()
      modifies this`n, entries
      ensures Valid() && Table() == Delete(old(Table()), a)
      ensures found <==> Find(old(Table()), a) >= 0
    {
      var i := FindEntry(a);
      found := i >= 0;
      if found {
        Drop(i);
      }
    }

    method GetLinkKey(a: Address) returns (r: Option<(LinkKey, int32)>)
      requires Valid()
      ensures r == Get(Table(), a)
    {
      var i := FindEntry(a);
      if i < 0 { return None; }
      return Some((entries[i].key, entries[i].kind));
    }

    /** The table change of a put: overwrite, or append after making room. */
    method Place(e: Entry)
      requires Valid()
      modifies this`n, entries
      ensures Valid() && Table() == Put(old(Table()), e)
    {
      var i := FindEntry(e.addr);
      if i >= 0 {
        entries[i] := e;
        assert Table() == old(Table())[i := e];
        return;
      }
      if n >= MAX_LINK_KEYS {
        Drop(0);
        assert Table() == old(Table())[1..];
      }
      Append(e);
    }

    method PutLinkKey(e: Entry, writable: bool)
      requires Valid()
      modifies this`n, this`file, entries
      ensures Valid()
      ensures Db(Table(), file) == ApplyOp(old(Db(Table(), file)), PutOp(e, writable))
      ensures file == if writable then Print(Table()) else old(file)
      ensures writable ==> Parse(file, MAX_LINK_KEYS) == Table()
      ensures Distinct(old(Table())) ==> PutDone(old(Table()), Table(), e)
    {
      ghost var t := Table();
      Place(e);
      Save(writable);
      LoadAfterSave(Table());
      if Distinct(t) {
        PutIsDone(t, e);
      }
    }

    method DeleteLinkKey(a: Address, writable: bool)
      requires Valid()
      modifies this`n, this`file, entries
      ensures Valid()
      ensures Db(Table(), file) == ApplyOp(old(Db(Table(), file)), DeleteOp(a, writable))
      ensures var known := exists i :: 0 <= i < |old(Table())| && old(Table())[i].addr == a;
              && file == (if known && writable then Print(Table()) else old(file))
              && (known && writable ==> Parse(file, MAX_LINK_KEYS) == Table())
      ensures Distinct(old(Table())) ==> DeleteDone(old(Table()), Table(), a)
    {
      ghost var t := Table();
      var found := DropAddress(a);
      if found {
        Save(writable);
        LoadAfterSave(Table());
      }
      if Distinct(t) {
        DeleteIsDone(t, a);
      }
    }

    /** The iterator run to its end: every entry once, oldest first. */
    method Iterate() returns (seen: seq<Entry>)
      requires Valid()
      ensures seen == Table()
    {
      seen := [];
      var index := 0;
      while index < n
        invariant 0 <= index <= n && seen == entries[..index]
      {
        seen := seen + [entries[index]];
        index := index + 1;
      }
    }

    /** `seed_link_key`: the address arrives least significant byte first. */
    method SeedLinkKey(addr: Address, hex: string, kind: int32, writable: bool) returns (ok: bool)
      requires Valid()
      modifies this`n, this`file, entries
      ensures Valid()
      ensures ok <==> |hex| == 32 && SeedBytes(hex).Some?
      ensures !ok ==> Db(Table(), file) == old(Db(Table(), file))
      ensures ok ==>
                && |SeedBytes(hex).value| == 16
                && var e := Entry(Reversed(addr), SeedBytes(hex).value, kind);
                   Db(Table(), file) == ApplyOp(old(Db(Table(), file)), PutOp(e, writable))
      ensures ok && AllLowerHex(hex) && Distinct(old(Table())) ==>
                Distinct(Table()) &&
                exists key: LinkKey :: KeyText(key) == hex
                  && Get(Table(), [addr[5], addr[4], addr[3], addr[2], addr[1], addr[0]]) == Some((key, kind))
    {
      if |hex| != 32 { return false; }
      var parsed := SeedBytes(hex);
      if parsed.None? { return false; }
      SeedLength(hex);
      SeedReadback(hex);
      var key: LinkKey := parsed.value;
      var e := Entry(Reversed(addr), key, kind);
      ghost var t := Table();
      PutLinkKey(e, writable);
      if Distinct(t) {
        PutKeepsDistinct(t, e);
        PutGet(t, e, e.addr);
      }
      return true;
    }

    /** `get_link_key_hex`. */
    method GetLinkKeyHex(addr: Address) returns (r: Option<(string, int32)>)
      requires Valid()
      ensures var found := Get(Table(), [addr[5], addr[4], addr[3], addr[2], addr[1], addr[0]]);
              r == if found.None? then None else Some((KeyText(found.value.0), found.value.1))
    {
      var found := GetLinkKey(Reversed(addr));
      if found.None? { return None; }
      return Some((KeyText(found.value.0), found.value.1));
    }
  }

  function Reversed(a: Address): (r: Address)
    ensures forall i :: 0 <= i < 6 ==> r[i] == a[5 - i]
  {
    [a[5], a[4], a[3], a[2], a[1], a[0]]
  }

  /** Seeding a lower-case key and reading it back returns the very string, and its type. */
  method SeedThenRead(db: LinkKeyDb, addr: Address, hex: string, kind: int32, writable: bool)
    returns (r: Option<(string, int32)>)
    requires db.Valid() && Distinct(db.Table())
    requires |hex| == 32 && AllLowerHex(hex)
    modifies db`n, db`file, db.entries
    ensures r == Some((hex, kind))
  {
    SeedReadback(hex);
    var ok := db.SeedLinkKey(addr, hex, kind, writable);
    r := db.GetLinkKeyHex(addr);
  }
}
