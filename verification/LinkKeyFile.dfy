/**
 * The text format of the link key file: what `save_to_file` prints and what
 * `load_from_file` makes of any text. Text is a string of bytes.
 */
module LinkKeyFile {
  import opened Bytes

  type Address = a: seq<byte> | |a| == 6 witness [0, 0, 0, 0, 0, 0]
  type LinkKey = k: seq<byte> | |k| == 16 witness [0, 0, 0, 0, 0, 0, 0, 0, 0, 0, 0, 0, 0, 0, 0, 0]

  datatype Entry = Entry(addr: Address, key: LinkKey, kind: int32)

  datatype Option<+T> = None | Some(value: T)

  const MAX_LINK_KEYS: nat := 32
  const LINE_CHARS: nat := 127     // fgets into char line[128]
  const KEY_AT: nat := 18
  const KEY_CHARS: nat := 32

  // ---- printing ----

  function LowerDigit(n: nat): char
    requires n < 16
  {
    if n < 10 then (48 + n) as char else (87 + n) as char
  }

  function UpperDigit(n: nat): char
    requires n < 16
  {
    if n < 10 then (48 + n) as char else (55 + n) as char
  }

  /** "%02x" */
  function Hex(b: byte): string { [LowerDigit(b / 16), LowerDigit(b % 16)] }

  function KeyText(key: seq<byte>): (s: string)
    ensures |s| == 2 * |key|
  {
    if key == [] then "" else Hex(key[0]) + KeyText(key[1..])
  }

  /** "%02X" */
  function UpperPair(b: byte): string { [UpperDigit(b / 16), UpperDigit(b % 16)] }

  /** `bd_addr_to_str_with_delimiter`: upper-case pairs joined by dashes. */
  function AddressText(addr: seq<byte>): (s: string)
    ensures |s| == if addr == [] then 0 else 3 * |addr| - 1
  {
    if addr == [] then ""
    else if |addr| == 1 then UpperPair(addr[0])
    else UpperPair(addr[0]) + "-" + AddressText(addr[1..])
  }

  function Digits(n: nat): (s: string)
    ensures |s| > 0
  {
    if n < 10 then [(48 + n) as char] else Digits(n / 10) + [(48 + n % 10) as char]
  }

  /** "%d" */
  function Decimal(n: int): string { if n < 0 then "-" + Digits(-n) else Digits(n) }

  function Line(e: Entry): string {
    AddressText(e.addr) + " " + KeyText(e.key) + " " + Decimal(e.kind) + "\n"
  }

  function LineList(t: seq<Entry>): seq<string> {
    seq(|t|, i requires 0 <= i < |t| => Line(t[i]))
  }

  function Lines(t: seq<Entry>): string { Flatten(LineList(t)) }

  /** The comment line; the dash is its three UTF-8 bytes. */
  function Header(): string {
    "# BTstack link " + "key database " + "\U{E2}\U{80}\U{94} do not " + "edit while app " + "is running"
  }

  function Print(t: seq<Entry>): string { Header() + "\n" + Lines(t) }

  // ---- scanning ----

  /** `nibble_for_char` */
  function Nibble(c: char): Option<nat> {
    if '0' <= c <= '9' then Some(c as int - 48)
    else if 'a' <= c <= 'f' then Some(c as int - 87)
    else if 'A' <= c <= 'F' then Some(c as int - 55)
    else None
  }

  predicate IsSpace(c: char) {
    c == ' ' || ('\t' <= c <= '\r')
  }

  function SkipSpace(s: string): string {
    if s != [] && IsSpace(s[0]) then SkipSpace(s[1..]) else s
  }

  /** sscanf "%2x": blanks, then at most two characters, the first of which may be a sign. */
  function ScanHex(s: string): Option<int> {
    var t := SkipSpace(s);
    if t == [] then None
    else
      var second := if |t| >= 2 then Nibble(t[1]) else None;
      if t[0] == '+' || t[0] == '-' then
        match second
        case None => None
        case Some(d) => if t[0] == '-' then var v: int := d; Some(-v) else Some(d)
      else
        match Nibble(t[0])
        case None => None
        case Some(hi) =>
          match second
          case Some(lo) => Some(16 * hi + lo)
          case None => if t[0] == '0' && |t| >= 2 && (t[1] == 'x' || t[1] == 'X') then None else Some(hi)
  }

  function Cons(b: byte, tail: Option<seq<byte>>): Option<seq<byte>> {
    if tail.None? then None else Some([b] + tail.value)
  }

  function SkipSeparator(s: string): (r: string)
    ensures |r| <= |s|
  {
    if s != [] && (s[0] == ':' || s[0] == '-' || s[0] == ' ') then s[1..] else s
  }

  /** `sscanf_bd_addr`: pairs of digits, each but the last followed by an optional separator. */
  function ScanAddress(s: string, pairs: nat): Option<seq<byte>>
    decreases |s|, pairs
  {
    if pairs == 0 then Some([])
    else if |s| < 2 then None
    else
      match (Nibble(s[0]), Nibble(s[1]))
      case (Some(hi), Some(lo)) =>
        var b: byte := 16 * hi + lo;
        Cons(b, ScanAddress(if pairs > 1 then SkipSeparator(s[2..]) else s[2..], pairs - 1))
      case _ => None
  }

  /** The loop over the key's sixteen pairs, two characters apart whatever was scanned. */
  function ScanKey(s: string, pairs: nat): Option<seq<byte>>
    decreases |s|, pairs
  {
    if pairs == 0 then Some([])
    else
      match ScanHex(s)
      case None => None
      case Some(b) =>
        if b < 0 then None
        else
          var c: byte := b % 256;
          Cons(c, ScanKey(if |s| >= 2 then s[2..] else [], pairs - 1))
  }

  predicate IsDigit(c: char) { '0' <= c <= '9' }

  function ScanDigits(s: string, sofar: nat): nat {
    if s == [] || !IsDigit(s[0]) then sofar else ScanDigits(s[1..], 10 * sofar + (s[0] as int - 48))
  }

  /** sscanf "%d" */
  function ScanInt(s: string): Option<int> {
    var t := SkipSpace(s);
    if t == [] then None
    else
      var signed := t[0] == '-' || t[0] == '+';
      var u := if signed then t[1..] else t;
      if u == [] || !IsDigit(u[0]) then None
      else if t[0] == '-' then Some(0 - ScanDigits(u, 0)) else Some(ScanDigits(u, 0))
  }

  /** What one line contributes; a type outside int is undefined in C and skipped here. */
  function ParseLine(line: string): Option<Entry>
    requires line != []
  {
    if line[0] == '#' || line[0] == '\n' || line[0] == '\r' then None
    else
      match ScanAddress(line, 6)
      case None => None
      case Some(addr) =>
        if |line| < KEY_AT + KEY_CHARS + 2 then None
        else
          match (ScanKey(line[KEY_AT..], 16), ScanInt(line[KEY_AT + KEY_CHARS + 1..]))
          case (Some(key), Some(kind)) =>
            if |addr| == 6 && |key| == 16 && -0x8000_0000 <= kind < 0x8000_0000 then
              var a: Address, k: LinkKey := addr, key;
              Some(Entry(a, k, kind))
            else None
          case _ => None
  }

  /** How many characters the next fgets takes. */
  function LineLength(s: string, room: nat): (n: nat)
    ensures n <= |s| && (s != [] && room > 0 ==> n > 0)
  {
    if s == [] || room == 0 then 0
    else if s[0] == '\n' then 1
    else 1 + LineLength(s[1..], room - 1)
  }

  /** `load_from_file`: at most `room` entries. */
  function Parse(text: string, room: nat): seq<Entry>
    decreases |text|
  {
    if text == [] || room == 0 then []
    else
      var n := LineLength(text, LINE_CHARS);
      match ParseLine(text[..n])
      case None => Parse(text[n..], room)
      case Some(e) => [e] + Parse(text[n..], room - 1)
  }

  // ---- the format, place by place ----

  predicate IsUpperHex(c: char) { '0' <= c <= '9' || 'A' <= c <= 'F' }

  lemma AddressTextHead(b: byte, more: seq<byte>)
    ensures var s := AddressText([b] + more);
            && |s| >= 2 && s[..2] == UpperPair(b)
            && (more != [] ==> |s| > 2 && s[2] == '-' && s[3..] == AddressText(more))
  {
    AddressTextCons(b, more, "");
    var s, t := AddressText([b] + more), AddressText(more);
    assert s + "" == s && t + "" == t;
  }

  lemma UpperPairDigits(b: byte)
    ensures var s := UpperPair(b);
            && IsUpperHex(s[0]) && Nibble(s[0]) == Some(b / 16)
            && IsUpperHex(s[1]) && Nibble(s[1]) == Some(b % 16)
  {
    DigitsScan(b / 16);
    DigitsScan(b % 16);
  }

  lemma {:induction false} AddressTextPair(addr: seq<byte>, i: nat)
    requires i < |addr|
    ensures 3 * i + 2 <= |AddressText(addr)| && AddressText(addr)[3 * i..3 * i + 2] == UpperPair(addr[i])
    ensures i + 1 < |addr| ==> 3 * i + 2 < |AddressText(addr)| && AddressText(addr)[3 * i + 2] == '-'
  {
    var b, more := addr[0], addr[1..];
    assert addr == [b] + more;
    AddressTextHead(b, more);
    if i > 0 {
      AddressTextPair(more, i - 1);
      var s, t := AddressText(addr), AddressText(more);
      assert s[3..][3 * i - 3..3 * i - 1] == s[3 * i..3 * i + 2];
    }
  }

  /** An address is upper-case pairs joined by dashes, its bytes in order. */
  lemma AddressTextAt(addr: seq<byte>, i: nat)
    requires i < |addr|
    ensures |AddressText(addr)| == 3 * |addr| - 1
    ensures var s := AddressText(addr);
            && IsUpperHex(s[3 * i]) && Nibble(s[3 * i]) == Some(addr[i] / 16)
            && IsUpperHex(s[3 * i + 1]) && Nibble(s[3 * i + 1]) == Some(addr[i] % 16)
            && (i + 1 < |addr| ==> s[3 * i + 2] == '-')
  {
    AddressTextPair(addr, i);
    UpperPairDigits(addr[i]);
    var s := AddressText(addr);
    assert s[3 * i] == s[3 * i..3 * i + 2][0] && s[3 * i + 1] == s[3 * i..3 * i + 2][1];
  }

  /** A key is lower-case pairs, its bytes in order. */
  lemma {:induction false} KeyTextAt(key: seq<byte>, i: nat)
    requires i < |key|
    ensures |KeyText(key)| == 2 * |key|
    ensures var s := KeyText(key);
            && IsLowerHex(s[2 * i]) && Nibble(s[2 * i]) == Some(key[i] / 16)
            && IsLowerHex(s[2 * i + 1]) && Nibble(s[2 * i + 1]) == Some(key[i] % 16)
  {
    DigitsScan(key[0] / 16);
    DigitsScan(key[0] % 16);
    if i > 0 {
      KeyTextAt(key[1..], i - 1);
      var s, t := KeyText(key), KeyText(key[1..]);
      assert s[2 * i] == t[2 * (i - 1)] && s[2 * i + 1] == t[2 * (i - 1) + 1];
    }
  }

  /** A type is printed without leading zeros or plus sign; a negative one behind a dash. */
  lemma {:induction false} DigitsShape(n: nat)
    ensures forall k :: 0 <= k < |Digits(n)| ==> IsDigit(Digits(n)[k])
    ensures n > 0 ==> Digits(n)[0] != '0'
    ensures n == 0 ==> Digits(n) == "0"
  {
    if n >= 10 {
      DigitsShape(n / 10);
    }
  }

  lemma DecimalShape(n: int)
    ensures n >= 0 ==> Decimal(n) == Digits(n)
    ensures n < 0 ==> Decimal(n) == ['-'] + Digits(0 - n)
  {
  }

  /** The blanks of scanf. */
  lemma SpaceIs(c: char)
    ensures IsSpace(c) <==> c in [' ', '\t', '\n', '\U{0B}', '\U{0C}', '\r']
  {
  }

  /** A line: address, blank, key, blank, decimal type, newline. */
  lemma LineLayout(e: Entry)
    ensures var l := Line(e);
            && |l| > 52 && l[..17] == AddressText(e.addr) && l[17] == ' '
            && l[18..50] == KeyText(e.key) && l[50] == ' '
            && l[51..|l| - 1] == Decimal(e.kind) && l[|l| - 1] == '\n'
  {
  }

  /** What the loader passes over: comments, empty lines, and lines too short for a key and a type. */
  lemma LineIsSkipped(line: string)
    requires line != []
    ensures line[0] == '#' || line[0] == '\n' || line[0] == '\r' ==> ParseLine(line) == None
    ensures |line| < 52 ==> ParseLine(line) == None
    ensures ScanAddress(line, 6).None? ==> ParseLine(line) == None
  {
  }

  /** A line is taken up to its newline, or 127 characters of it, or the end of the file. */
  lemma {:induction false} LineLengthIs(s: string, room: nat)
    ensures var n := LineLength(s, room);
            && n <= room && n <= |s|
            && (forall k :: 0 <= k < n - 1 ==> s[k] != '\n')
            && (n == room || n == |s| || (n > 0 && s[n - 1] == '\n'))
    decreases |s|
  {
    if s != [] && room > 0 && s[0] != '\n' {
      LineLengthIs(s[1..], room - 1);
      var n := LineLength(s, room);
      assert forall k :: 1 <= k < n ==> s[k] == s[1..][k - 1];
    }
  }

  /** At most 32 entries are taken, those of the first lines that parse. */
  lemma {:induction false} ParseIsBounded(text: string, room: nat)
    ensures |Parse(text, room)| <= room
    decreases |text|
  {
    if text != [] && room > 0 {
      var n := LineLength(text, LINE_CHARS);
      match ParseLine(text[..n])
      case None => ParseIsBounded(text[n..], room);
      case Some(_) => ParseIsBounded(text[n..], room - 1);
    }
  }

  /** The scan of a pair: blanks and a sign are let through, one digit is enough, letters of both cases. */
  lemma ScanHexCases(a: char, b: char)
    requires !IsSpace(a)
    ensures Nibble(a).Some? && Nibble(b).Some? ==>
              ScanHex([a, b]) == Some(16 * Nibble(a).value + Nibble(b).value)
    ensures Nibble(a).Some? && Nibble(b).None? && !(a == '0' && (b == 'x' || b == 'X')) ==>
              ScanHex([a, b]) == Some(Nibble(a).value)
    ensures a == '0' && (b == 'x' || b == 'X') ==> ScanHex([a, b]) == None
    ensures a == '+' && Nibble(b).Some? ==> ScanHex([a, b]) == Some(Nibble(b).value)
    ensures a == '-' && Nibble(b).Some? ==> ScanHex([a, b]) == Some(0 - Nibble(b).value)
    ensures Nibble(a).None? && a != '+' && a != '-' ==> ScanHex([a, b]) == None
    ensures forall s :: ScanHex([' '] + s) == ScanHex(s)
    ensures ScanHex("") == None
  {
    assert SkipSpace([a, b]) == [a, b];
    forall s ensures ScanHex([' '] + s) == ScanHex(s) {
      assert ([' '] + s)[1..] == s;
      assert SkipSpace([' '] + s) == SkipSpace(s);
    }
  }

  /** Between pairs of an address one colon, dash or blank may stand, or none. */
  lemma SeparatorIsOptional(s: string)
    ensures SkipSeparator(":" + s) == SkipSeparator("-" + s) == SkipSeparator(" " + s) == s
    ensures s == [] || (s[0] != ':' && s[0] != '-' && s[0] != ' ') ==> SkipSeparator(s) == s
  {
    assert (":" + s)[1..] == s && ("-" + s)[1..] == s && (" " + s)[1..] == s;
  }

  // ---- loading what was saved ----

  lemma DigitsScan(n: nat)
    requires n < 16
    ensures Nibble(LowerDigit(n)) == Nibble(UpperDigit(n)) == Some(n)
    ensures !IsSpace(LowerDigit(n)) && LowerDigit(n) != '+' && LowerDigit(n) != '-'
    ensures LowerDigit(n) != '\n' && UpperDigit(n) != '\n' && UpperDigit(n) != '#' && UpperDigit(n) != '\r'
  {
  }

  lemma HexScans(b: byte, rest: string)
    ensures ScanHex(Hex(b) + rest) == Some(b)
  {
  }

  lemma {:induction false} KeyScans(key: seq<byte>, rest: string)
    ensures ScanKey(KeyText(key) + rest, |key|) == Some(key)
  {
    if key != [] {
      var more := KeyText(key[1..]) + rest;
      assert KeyText(key) + rest == Hex(key[0]) + more;
      HexScans(key[0], more);
      assert (Hex(key[0]) + more)[2..] == more;
      KeyScans(key[1..], rest);
      assert [key[0]] + key[1..] == key;
    }
  }

  lemma PairScans(b: byte, rest: string, pairs: nat)
    requires pairs > 0
    ensures ScanAddress(UpperPair(b) + rest, pairs)
         == Cons(b, ScanAddress(if pairs > 1 then SkipSeparator(rest) else rest, pairs - 1))
  {
    DigitsScan(b / 16);
    DigitsScan(b % 16);
    var s := UpperPair(b) + rest;
    assert s[0] == UpperDigit(b / 16) && s[1] == UpperDigit(b % 16) && s[2..] == rest;
  }

  lemma AddressTextCons(b: byte, more: seq<byte>, rest: string)
    ensures AddressText([b] + more) + rest
         == UpperPair(b) + (if more == [] then rest else "-" + (AddressText(more) + rest))
  {
  }

  lemma {:induction false} AddressScans(addr: seq<byte>, rest: string)
    ensures ScanAddress(AddressText(addr) + rest, |addr|) == Some(addr)
  {
    if addr == [] {
      assert AddressText(addr) + rest == rest;
    } else {
      var b, more := addr[0], addr[1..];
      var tail := AddressText(more) + rest;
      var after := if more == [] then rest else "-" + tail;
      assert addr == [b] + more;
      AddressTextCons(b, more, rest);
      PairScans(b, after, |addr|);
      AddressScans(more, rest);
      assert (if |addr| > 1 then SkipSeparator(after) else after) == tail;
    }
  }

  lemma {:induction false} DecimalScans(n: nat, rest: string)
    ensures ScanDigits(Digits(n) + rest, 0) == ScanDigits(rest, n)
    ensures IsDigit(Digits(n)[0])
  {
    if n < 10 {
      assert (Digits(n) + rest)[1..] == rest;
    } else {
      var last := [(48 + n % 10) as char];
      DecimalScans(n / 10, last + rest);
      assert Digits(n) + rest == Digits(n / 10) + (last + rest);
      assert (last + rest)[1..] == rest;
    }
  }

  lemma IntScans(n: int, rest: string)
    requires rest != [] && !IsDigit(rest[0])
    ensures ScanInt(Decimal(n) + rest) == Some(n)
  {
    var m: nat := if n < 0 then -n else n;
    DecimalScans(m, rest);
    if n < 0 {
      assert (Decimal(n) + rest)[1..] == Digits(m) + rest;
    }
  }

  lemma {:induction false} DigitsFit(n: nat, k: nat, bound: nat)
    requires n < bound && bound == Pow10(k) && k > 0
    ensures |Digits(n)| <= k && '\n' !in Digits(n)
  {
    if n >= 10 {
      assert Pow10(k) == 10 * Pow10(k - 1);
      DigitsFit(n / 10, k - 1, Pow10(k - 1));
    }
  }

  function Pow10(k: nat): nat { if k == 0 then 1 else 10 * Pow10(k - 1) }

  lemma {:induction false} KeyHasNoNewline(key: seq<byte>)
    ensures '\n' !in KeyText(key)
  {
    if key != [] {
      DigitsScan(key[0] / 16);
      DigitsScan(key[0] % 16);
      KeyHasNoNewline(key[1..]);
    }
  }

  lemma {:induction false} AddressHasNoNewline(addr: seq<byte>)
    ensures '\n' !in AddressText(addr)
  {
    if addr != [] {
      DigitsScan(addr[0] / 16);
      DigitsScan(addr[0] % 16);
      AddressHasNoNewline(addr[1..]);
    }
  }

  /** Everything of the line before its newline. */
  function LineText(e: Entry): string {
    AddressText(e.addr) + " " + KeyText(e.key) + " " + Decimal(e.kind)
  }

  lemma LineTextFits(e: Entry)
    ensures '\n' !in LineText(e) && 52 <= |LineText(e)| <= 62
  {
    var kind: int := e.kind;
    var m: nat := if kind < 0 then -kind else kind;
    assert Pow10(10) == 10_000_000_000 by {
      assert Pow10(5) == 100_000;
    }
    DigitsFit(m, 10, Pow10(10));
    KeyHasNoNewline(e.key);
    AddressHasNoNewline(e.addr);
  }

  /** fgets takes a short line whole. */
  lemma {:induction false} LineTaken(l: string, rest: string, room: nat)
    requires '\n' !in l && |l| < room
    ensures LineLength(l + "\n" + rest, room) == |l| + 1
  {
    var s := l + "\n" + rest;
    if l != [] {
      assert s[1..] == l[1..] + "\n" + rest;
      LineTaken(l[1..], rest, room - 1);
    }
  }

  lemma FieldsParse(line: string, e: Entry)
    requires line != [] && line[0] != '#' && line[0] != '\n' && line[0] != '\r'
    requires |line| >= KEY_AT + KEY_CHARS + 2
    requires ScanAddress(line, 6) == Some(e.addr)
    requires ScanKey(line[KEY_AT..], 16) == Some(e.key)
    requires ScanInt(line[KEY_AT + KEY_CHARS + 1..]) == Some(e.kind)
    ensures ParseLine(line) == Some(e)
  {
  }

  lemma LineStart(e: Entry)
    ensures Line(e) != [] && Line(e)[0] != '#' && Line(e)[0] != '\n' && Line(e)[0] != '\r'
  {
  }

  lemma LineSplit(e: Entry) returns (rest: string)
    ensures Line(e) == AddressText(e.addr) + rest
  {
    rest := " " + KeyText(e.key) + " " + Decimal(e.kind) + "\n";
  }

  lemma AddressField(e: Entry)
    ensures ScanAddress(Line(e), 6) == Some(e.addr)
  {
    var rest := LineSplit(e);
    AddressScans(e.addr, rest);
  }

  lemma KeyField(e: Entry)
    ensures |Line(e)| >= KEY_AT && ScanKey(Line(e)[KEY_AT..], 16) == Some(e.key)
  {
    var rest := " " + Decimal(e.kind) + "\n";
    assert Line(e)[KEY_AT..] == KeyText(e.key) + rest;
    KeyScans(e.key, rest);
  }

  lemma KindField(e: Entry)
    ensures |Line(e)| >= KEY_AT + KEY_CHARS + 2
    ensures ScanInt(Line(e)[KEY_AT + KEY_CHARS + 1..]) == Some(e.kind)
  {
    assert Line(e)[KEY_AT + KEY_CHARS + 1..] == Decimal(e.kind) + "\n";
    IntScans(e.kind, "\n");
  }

  lemma LineParses(e: Entry)
    ensures ParseLine(Line(e)) == Some(e)
  {
    LineStart(e);
    AddressField(e);
    KeyField(e);
    KindField(e);
    FieldsParse(Line(e), e);
  }

  lemma LineThenRest(l: string, rest: string, room: nat)
    requires '\n' !in l && |l| < LINE_CHARS && room > 0
    ensures Parse(l + "\n" + rest, room) ==
              match ParseLine(l + "\n")
              case None => Parse(rest, room)
              case Some(e) => [e] + Parse(rest, room - 1)
  {
    var s := l + "\n" + rest;
    LineTaken(l, rest, LINE_CHARS);
    assert s[..|l| + 1] == l + "\n";
    assert s[|l| + 1..] == rest;
  }

  lemma EntryThenRest(e: Entry, rest: string, room: nat)
    requires room > 0
    ensures Parse(Line(e) + rest, room) == [e] + Parse(rest, room - 1)
  {
    LineTextFits(e);
    LineParses(e);
    LineThenRest(LineText(e), rest, room);
  }

  lemma LinesSnoc(t: seq<Entry>, e: Entry)
    ensures Lines(t + [e]) == Lines(t) + Line(e)
  {
    assert LineList(t + [e]) == LineList(t) + [Line(e)];
    FlattenSnoc(LineList(t), Line(e));
  }

  /** Whatever follows, the line is read as this entry. */
  ghost predicate ReadsAs(line: string, e: Entry) {
    forall rest: string, room: nat :: room > 0 ==> Parse(line + rest, room) == [e] + Parse(rest, room - 1)
  }

  lemma LineReads(e: Entry)
    ensures ReadsAs(Line(e), e)
  {
    forall rest: string, room: nat | room > 0
      ensures Parse(Line(e) + rest, room) == [e] + Parse(rest, room - 1)
    {
      EntryThenRest(e, rest, room);
    }
  }

  lemma {:induction false} JoinedParse(lines: seq<string>, t: seq<Entry>, room: nat)
    requires |lines| == |t| <= room
    requires forall i :: 0 <= i < |t| ==> ReadsAs(lines[i], t[i])
    ensures Parse(Flatten(lines), room) == t
    decreases |t|
  {
    if t != [] {
      var rest := Flatten(lines[1..]);
      assert ReadsAs(lines[0], t[0]);
      calc {
        Parse(Flatten(lines), room);
      ==
        Parse(lines[0] + rest, room);
      ==
        [t[0]] + Parse(rest, room - 1);
      ==  { JoinedParse(lines[1..], t[1..], room - 1); }
        [t[0]] + t[1..];
      ==
        t;
      }
    }
  }

  lemma LinesParse(t: seq<Entry>, room: nat)
    requires |t| <= room
    ensures Parse(Lines(t), room) == t
  {
    forall i | 0 <= i < |t| ensures ReadsAs(LineList(t)[i], t[i]) {
      LineReads(t[i]);
    }
    JoinedParse(LineList(t), t, room);
  }

  /** Loading what was saved gives back every table the database can hold. */
  lemma LoadAfterSave(t: seq<Entry>)
    requires |t| <= MAX_LINK_KEYS
    ensures Parse(Print(t), MAX_LINK_KEYS) == t
  {
    HeaderIsComment();
    LineThenRest(Header(), Lines(t), MAX_LINK_KEYS);
    LinesParse(t, MAX_LINK_KEYS);
  }

  lemma HeaderIsComment()
    ensures |Header()| < LINE_CHARS && Header()[0] == '#' && '\n' !in Header()
  {
    var a, b, c := "# BTstack link ", "key database ", "\U{E2}\U{80}\U{94} do not ";
    var d, e := "edit while app ", "is running";
    assert '\n' !in a && '\n' !in b;
    assert '\n' !in c && '\n' !in d && '\n' !in e;
    assert '\n' !in a + b + c + d + e;
  }

  // ---- seeding and reading back a key as hex text ----

  /** `seed_link_key`'s loop: sscanf "%02x" on each pair, stored as a byte without a sign test. */
  function SeedBytes(hex: string): Option<seq<byte>> {
    if |hex| < 2 then Some([]) else SeedByte(ScanHex(hex[..2]), SeedBytes(hex[2..]))
  }

  function SeedByte(scanned: Option<int>, tail: Option<seq<byte>>): Option<seq<byte>> {
    if scanned.None? then None else Cons(scanned.value % 256, tail)
  }

  predicate IsLowerHex(c: char) { '0' <= c <= '9' || 'a' <= c <= 'f' }

  predicate AllLowerHex(s: string) { forall i :: 0 <= i < |s| ==> IsLowerHex(s[i]) }

  lemma {:induction false} SeedLength(hex: string)
    requires |hex| % 2 == 0
    ensures SeedBytes(hex).Some? ==> 2 * |SeedBytes(hex).value| == |hex|
    decreases |hex|
  {
    if |hex| >= 2 {
      SeedLength(hex[2..]);
    }
  }

  lemma {:induction false} KeyTextIsLowerHex(key: seq<byte>)
    ensures AllLowerHex(KeyText(key))
  {
    if key != [] {
      KeyTextIsLowerHex(key[1..]);
    }
  }

  lemma LowerPair(a: char, b: char)
    requires IsLowerHex(a) && IsLowerHex(b)
    ensures ScanHex([a, b]).Some? && 0 <= ScanHex([a, b]).value < 256
    ensures Hex(ScanHex([a, b]).value) == [a, b]
  {
    assert !IsSpace(a) && Nibble(a).Some? && Nibble(b).Some?;
    var hi, lo := Nibble(a).value, Nibble(b).value;
    assert ScanHex([a, b]) == Some(16 * hi + lo);
    assert LowerDigit(hi) == a && LowerDigit(lo) == b;
    assert (16 * hi + lo) / 16 == hi && (16 * hi + lo) % 16 == lo;
  }

  lemma SeedCons(hex: string, b: byte)
    requires |hex| >= 2 && ScanHex(hex[..2]) == Some(b)
    ensures SeedBytes(hex) == Cons(b, SeedBytes(hex[2..]))
  {
    SeedOneByte(b, SeedBytes(hex[2..]));
  }

  lemma SeedOneByte(b: byte, tail: Option<seq<byte>>)
    ensures SeedByte(Some(b), tail) == Cons(b, tail)
  {
  }

  lemma KeyTextCons(b: byte, tail: seq<byte>)
    ensures KeyText([b] + tail) == Hex(b) + KeyText(tail)
  {
  }

  lemma {:induction false} LowerHexSeeds(hex: string)
    requires |hex| % 2 == 0 && AllLowerHex(hex)
    ensures SeedBytes(hex).Some? && KeyText(SeedBytes(hex).value) == hex
    decreases |hex|
  {
    if |hex| >= 2 {
      var pair, rest := hex[..2], hex[2..];
      LowerHexSeeds(rest);
      assert pair == [hex[0], hex[1]];
      LowerPair(hex[0], hex[1]);
      var b: byte, tail := ScanHex(pair).value, SeedBytes(rest).value;
      SeedCons(hex, b);
      KeyTextCons(b, tail);
      assert hex == pair + rest;
    }
  }

  /** Seeding and reading back returns the same text if and only if it was lower-case hex. */
  lemma SeedReadback(hex: string)
    requires |hex| % 2 == 0
    ensures AllLowerHex(hex) ==> SeedBytes(hex).Some?
    ensures SeedBytes(hex).Some? ==> (KeyText(SeedBytes(hex).value) == hex <==> AllLowerHex(hex))
  {
    if AllLowerHex(hex) {
      LowerHexSeeds(hex);
    } else if SeedBytes(hex).Some? {
      KeyTextIsLowerHex(SeedBytes(hex).value);
    }
  }

  /** An upper-case digit is accepted and comes back as a lower-case one. */
  lemma UpperCaseComesBackLower(rest: string)
    requires |rest| % 2 == 0 && AllLowerHex(rest)
    ensures SeedBytes("0A" + rest).Some? && KeyText(SeedBytes("0A" + rest).value) == "0a" + rest
    ensures "0a" + rest != "0A" + rest
  {
    var hex := "0A" + rest;
    assert hex[..2] == "0A" && hex[2..] == rest;
    LowerHexSeeds(rest);
    TenScans();
    SeedCons(hex, 10);
    KeyTextCons(10, SeedBytes(rest).value);
    assert Hex(10) == "0a";
    assert ("0a" + rest)[1] != ("0A" + rest)[1];
  }

  lemma TenScans()
    ensures ScanHex("0A") == Some(10)
  {
    assert Nibble('0') == Some(0) && Nibble('A') == Some(10) && !IsSpace('0');
  }

  /** One turn of the load loop. */
  lemma ParseTurn(text: string, room: nat)
    requires text != [] && room > 0
    ensures var k := LineLength(text, LINE_CHARS);
            var parsed := ParseLine(text[..k]);
            Parse(text, room) == if parsed.None? then Parse(text[k..], room)
                                 else [parsed.value] + Parse(text[k..], room - 1)
  {
  }
}
