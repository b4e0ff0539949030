/**
 * Client, daemon and helper as three processes joined by four bounded byte streams.
 * Every read and every write moves an arbitrary nonempty piece, so each run is one
 * schedule of short reads and partial writes.
 */
module SscSystem {
  import opened Bytes
  import opened SscWire

  datatype Client = Idle | Sending(rest: seq<byte>) | Waiting(got: seq<byte>)

  datatype Daemon =
    | Reading(got: seq<byte>)        // a request from the client
    | Forwarding(rest: seq<byte>)    // the request to the helper
    | Awaiting(got: seq<byte>)       // the helper's reply
    | Replying(rest: seq<byte>)      // the reply to the client
    | Stopped(shutdown: bool)

  datatype Helper = Listening(got: seq<byte>) | Answering(rest: seq<byte>) | Exited

  /** What one client call returned. */
  datatype Outcome = Failed | Frame(bytes: seq<byte>)

  /** The fixed parts of a run: the calls the client will make, the encoder, channel count, pipe capacity. */
  datatype Setup = Setup(calls: seq<seq<byte>>, enc: SampleEncoder, channels: nat, capacity: nat)

  ghost predicate GoodSetup(z: Setup) {
    && Bounded(z.enc) && z.capacity > 0
    && forall i :: 0 <= i < |z.calls| ==> GoodFrame(z.calls[i], z.channels)
  }

  datatype State = State(
    client: Client, daemon: Daemon, helper: Helper,
    c2d: seq<byte>, d2h: seq<byte>, h2d: seq<byte>, d2c: seq<byte>,
    history: seq<seq<byte>>,     // the frames the helper has encoded
    outcomes: seq<Outcome>)      // the client's results so far

  datatype Step =
    | BeginCall
    | ClientSends(n: nat)
    | DaemonReads(n: nat)
    | DaemonForwards(n: nat)
    | HelperReads(n: nat)
    | HelperWrites(n: nat)
    | DaemonAwaits(n: nat)
    | DaemonReplies(n: nat)
    | ClientReceives(n: nat)

  /** A read of n bytes: no more than are there, no more than were asked for. */
  predicate CanRead(n: nat, stream: seq<byte>, got: seq<byte>, wanted: nat) {
    1 <= n <= |stream| && |got| + n <= wanted
  }

  predicate CanWrite(n: nat, rest: seq<byte>, stream: seq<byte>, capacity: nat) {
    1 <= n <= |rest| && |stream| + n <= capacity
  }

  predicate Enabled(z: Setup, s: State, e: Step) {
    match e
    case BeginCall => s.client.Idle? && |s.outcomes| < |z.calls| && GoodFrame(z.calls[|s.outcomes|], z.channels)
    case ClientSends(n) => s.client.Sending? && CanWrite(n, s.client.rest, s.c2d, z.capacity)
    case DaemonReads(n) =>
      s.daemon.Reading? && CanRead(n, s.c2d, s.daemon.got, RequestLength(s.daemon.got, z.channels))
    case DaemonForwards(n) => s.daemon.Forwarding? && CanWrite(n, s.daemon.rest, s.d2h, z.capacity)
    case HelperReads(n) =>
      s.helper.Listening? && CanRead(n, s.d2h, s.helper.got, RequestLength(s.helper.got, z.channels))
    case HelperWrites(n) => s.helper.Answering? && CanWrite(n, s.helper.rest, s.h2d, z.capacity)
    case DaemonAwaits(n) => s.daemon.Awaiting? && CanRead(n, s.h2d, s.daemon.got, ReplyLength(s.daemon.got))
    case DaemonReplies(n) => s.daemon.Replying? && CanWrite(n, s.daemon.rest, s.d2c, z.capacity)
    case ClientReceives(n) => s.client.Waiting? && CanRead(n, s.d2c, s.client.got, ReplyLength(s.client.got))
  }

  /** What the daemon does with the request bytes it has. */
  function DaemonNext(got: seq<byte>, channels: nat): Daemon {
    if |got| < 4 then Reading(got)
    else if FromLe32(got) == CMD_SHUTDOWN then Stopped(true)
    else if FromLe32(got) == 0 || FromLe32(got) > DAEMON_MAX_SAMPLES then Stopped(false)
    else if |got| < RequestLength(got, channels) then Reading(got)
    else Forwarding(got)
  }

  /** The helper's side: encode when the frame is complete. */
  function HelperNext(z: Setup, s: State, got: seq<byte>): State {
    if |got| < 4 then s.(helper := Listening(got))
    else if FromLe32(got) == 0 || FromLe32(got) > HELPER_MAX_SAMPLES then s.(helper := Exited)
    else if |got| < RequestLength(got, z.channels) then s.(helper := Listening(got))
    else
      var history := s.history + [got[4..]];
      s.(helper := Answering(Reply(z.enc(history))), history := history)
  }

  predicate Complete(got: seq<byte>) {
    |got| >= 4 && |got| == ReplyLength(got)
  }

  function Result(got: seq<byte>): Outcome
    requires |got| >= 4
  {
    if Signed(FromLe32(got)) <= 0 || Signed(FromLe32(got)) > HELPER_MAX_BYTES then Failed else Frame(got[4..])
  }

  function Apply(z: Setup, s: State, e: Step): State
    requires Enabled(z, s, e)
  {
    match e
    case BeginCall => s.(client := Sending(Request(z.calls[|s.outcomes|], z.channels)))
    case ClientSends(n) =>
      var rest := s.client.rest[n..];
      s.(c2d := s.c2d + s.client.rest[..n], client := if rest == [] then Waiting([]) else Sending(rest))
    case DaemonReads(n) =>
      s.(daemon := DaemonNext(s.daemon.got + s.c2d[..n], z.channels), c2d := s.c2d[n..])
    case DaemonForwards(n) =>
      var rest := s.daemon.rest[n..];
      s.(d2h := s.d2h + s.daemon.rest[..n], daemon := if rest == [] then Awaiting([]) else Forwarding(rest))
    case HelperReads(n) => HelperNext(z, s, s.helper.got + s.d2h[..n]).(d2h := s.d2h[n..])
    case HelperWrites(n) =>
      var rest := s.helper.rest[n..];
      s.(h2d := s.h2d + s.helper.rest[..n], helper := if rest == [] then Listening([]) else Answering(rest))
    case DaemonAwaits(n) =>
      var got := s.daemon.got + s.h2d[..n];
      s.(h2d := s.h2d[n..], daemon := if Complete(got) then Replying(got) else Awaiting(got))
    case DaemonReplies(n) =>
      var rest := s.daemon.rest[n..];
      s.(d2c := s.d2c + s.daemon.rest[..n], daemon := if rest == [] then Reading([]) else Replying(rest))
    case ClientReceives(n) =>
      var got := s.client.got + s.d2c[..n];
      if Complete(got)
      then s.(d2c := s.d2c[n..], client := Idle, outcomes := s.outcomes + [Result(got)])
      else s.(d2c := s.d2c[n..], client := Waiting(got))
  }

  /** The daemon's decision at a header: stop on the magic, give up on a bad count, otherwise go on. */
  lemma DaemonAtHeader(got: seq<byte>, channels: nat)
    requires |got| == 4 && channels > 0
    ensures var (b0: int, b1: int, b2: int, b3: int) := (got[0], got[1], got[2], got[3]);
            var n := b0 + 256 * b1 + 65536 * b2 + 16777216 * b3;
            && (n == 0x4443_4853 ==> DaemonNext(got, channels) == Stopped(true))
            && (n != 0x4443_4853 && (n == 0 || n > 16384) ==> DaemonNext(got, channels) == Stopped(false))
            && (n != 0x4443_4853 && 1 <= n <= 16384 ==> DaemonNext(got, channels) == Reading(got))
  {
    var n := FromLe32(got);
    Product(n, channels);
  }

  lemma Product(n: nat, channels: nat)
    requires channels > 0
    ensures n > 0 ==> n * 4 * channels > 0
  {
  }

  /** The helper's: exit on a bad count, otherwise go on. */
  lemma HelperAtHeader(z: Setup, s: State, got: seq<byte>)
    requires |got| == 4 && z.channels > 0
    ensures var (b0: int, b1: int, b2: int, b3: int) := (got[0], got[1], got[2], got[3]);
            var n := b0 + 256 * b1 + 65536 * b2 + 16777216 * b3;
            && (n == 0 || n > 8192 ==> HelperNext(z, s, got) == s.(helper := Exited))
            && (1 <= n <= 8192 ==> HelperNext(z, s, got) == s.(helper := Listening(got)))
  {
    Product(FromLe32(got), z.channels);
  }

  /** Any nonempty piece of what is there and still wanted may be read, any that there is room for written. */
  lemma AnyPieceMoves(n: nat, stream: seq<byte>, got: seq<byte>, wanted: nat, rest: seq<byte>, capacity: nat)
    requires n >= 1
    ensures CanRead(n, stream, got, wanted) <==> n <= |stream| && n <= wanted - |got|
    ensures CanWrite(n, rest, stream, capacity) <==> n <= |rest| && n <= capacity - |stream|
  {
  }

  // ---- what local encoding would give ----

  function Local(z: Setup, k: nat): Outcome
    requires k < |z.calls|
  {
    var r := z.enc(z.calls[..k + 1]);
    if r.ret <= 0 || r.ret > |r.out| then Failed else Frame(r.out[..r.ret])
  }

  ghost predicate SameAsLocal(z: Setup, s: State) {
    |s.outcomes| <= |z.calls| && forall k :: 0 <= k < |s.outcomes| ==> s.outcomes[k] == Local(z, k)
  }

  // ---- the five phases of a call ----

  function Unsent(c: Client): seq<byte> { if c.Sending? then c.rest else [] }

  function Pending(s: State): seq<byte> {
    match s.daemon
    case Forwarding(rest) => rest
    case Replying(rest) => rest
    case _ => []
  }

  ghost predicate Quiet(s: State) {
    s.c2d == [] && s.d2h == [] && s.h2d == [] && s.d2c == []
  }

  /** Between calls: nothing in flight, everybody back at the start of a message. */
  ghost predicate Boundary(z: Setup, s: State)
    requires |s.outcomes| <= |z.calls|
  {
    && s.client.Idle? && s.daemon == Reading([]) && s.helper == Listening([]) && Quiet(s)
    && s.history == z.calls[..|s.outcomes|]
  }

  ghost predicate Asking(z: Setup, s: State, req: seq<byte>)
    requires |s.outcomes| < |z.calls|
  {
    && (s.client == Waiting([]) || (s.client.Sending? && s.client.rest != []))
    && s.daemon.Reading? && |s.daemon.got| < |req|
    && s.daemon.got + s.c2d + Unsent(s.client) == req
    && s.helper == Listening([]) && s.d2h == [] && s.h2d == [] && s.d2c == []
    && s.history == z.calls[..|s.outcomes|]
  }

  ghost predicate Relaying(z: Setup, s: State, req: seq<byte>)
    requires |s.outcomes| < |z.calls|
  {
    && s.client == Waiting([]) && s.c2d == [] && s.h2d == [] && s.d2c == []
    && (s.daemon == Awaiting([]) || (s.daemon.Forwarding? && s.daemon.rest != []))
    && s.helper.Listening? && |s.helper.got| < |req|
    && s.helper.got + s.d2h + Pending(s) == req
    && s.history == z.calls[..|s.outcomes|]
  }

  ghost predicate Returning(z: Setup, s: State, rep: seq<byte>)
    requires |s.outcomes| < |z.calls|
  {
    && s.client == Waiting([]) && s.c2d == [] && s.d2h == [] && s.d2c == []
    && s.daemon.Awaiting? && |s.daemon.got| < |rep|
    && (s.helper == Listening([]) || (s.helper.Answering? && s.helper.rest != []))
    && s.daemon.got + s.h2d + (if s.helper.Answering? then s.helper.rest else []) == rep
    && s.history == z.calls[..|s.outcomes| + 1]
  }

  ghost predicate Delivering(z: Setup, s: State, rep: seq<byte>)
    requires |s.outcomes| < |z.calls|
  {
    && s.client.Waiting? && |s.client.got| < |rep|
    && (s.daemon == Reading([]) || (s.daemon.Replying? && s.daemon.rest != []))
    && s.client.got + s.d2c + Pending(s) == rep
    && s.helper == Listening([]) && s.c2d == [] && s.d2h == [] && s.h2d == []
    && s.history == z.calls[..|s.outcomes| + 1]
  }

  function Req(z: Setup, s: State): seq<byte>
    requires |s.outcomes| < |z.calls| && GoodFrame(z.calls[|s.outcomes|], z.channels)
  {
    Request(z.calls[|s.outcomes|], z.channels)
  }

  function Rep(z: Setup, s: State): seq<byte>
    requires |s.outcomes| < |z.calls|
  {
    Reply(z.enc(z.calls[..|s.outcomes| + 1]))
  }

  ghost predicate InCall(z: Setup, s: State)
    requires GoodSetup(z)
  {
    && |s.outcomes| < |z.calls|
    && (Asking(z, s, Req(z, s)) || Relaying(z, s, Req(z, s)) ||
        Returning(z, s, Rep(z, s)) || Delivering(z, s, Rep(z, s)))
  }

  /** Lockstep: at most one message is under way, and all its bytes are accounted for. */
  ghost predicate Lockstep(z: Setup, s: State)
    requires GoodSetup(z)
  {
    SameAsLocal(z, s) && (Boundary(z, s) || InCall(z, s))
  }

  /** Byte moves left in a call with messages of l and r bytes: two per byte per hop. */
  ghost function Moves(s: State, l: nat, r: nat): nat {
    if s.client.Idle? then 0
    else if |s.history| == |s.outcomes| then
      if s.daemon.Reading? then 2 * |Unsent(s.client)| + |s.c2d| + 2 * l + 4 * r
      else 2 * |Pending(s)| + |s.d2h| + 4 * r
    else
      if s.daemon.Awaiting? then 2 * (if s.helper.Answering? then |s.helper.rest| else 0) + |s.h2d| + 2 * r
      else 2 * |Pending(s)| + |s.d2c|
  }

  ghost function Work(z: Setup, s: State): nat
    requires GoodSetup(z)
  {
    if |s.outcomes| >= |z.calls| then 0 else Moves(s, |Req(z, s)|, |Rep(z, s)|)
  }

  // ---- one step ----

  lemma Shift(g: seq<byte>, c: seq<byte>, u: seq<byte>, n: nat)
    requires n <= |c|
    ensures g + c[..n] + c[n..] + u == g + c + u
    ensures g + c[..n] <= g + c + u
  {
  }

  lemma AskingWrite(z: Setup, s: State, req: seq<byte>, n: nat, l: nat, m: nat)
    requires |s.outcomes| < |z.calls|
    requires Asking(z, s, req) && Enabled(z, s, ClientSends(n))
    ensures var r := Apply(z, s, ClientSends(n));
            r.outcomes == s.outcomes && Asking(z, r, req) && Moves(r, l, m) < Moves(s, l, m)
  {
  }

  lemma AskingRead(z: Setup, s: State, n: nat)
    requires GoodSetup(z) && |s.outcomes| < |z.calls|
    requires Asking(z, s, Req(z, s)) && Enabled(z, s, DaemonReads(n))
    ensures var r := Apply(z, s, DaemonReads(n));
            r.outcomes == s.outcomes && (Asking(z, r, Req(z, s)) || Relaying(z, r, Req(z, s)))
            && Moves(r, |Req(z, s)|, |Rep(z, s)|) < Moves(s, |Req(z, s)|, |Rep(z, s)|)
  {
    var req, r, k := Req(z, s), Apply(z, s, DaemonReads(n)), |s.outcomes|;
    var got := s.daemon.got + s.c2d[..n];
    var unsent := Unsent(s.client);
    Shift(s.daemon.got, s.c2d, unsent, n);
    RequestFraming(got, z.calls[k], z.channels);
    if got == req {
      assert r.c2d == [] && unsent == [];
    }
  }

  lemma AskingStep(z: Setup, s: State, e: Step)
    requires GoodSetup(z) && SameAsLocal(z, s) && |s.outcomes| < |z.calls|
    requires Asking(z, s, Req(z, s)) && Enabled(z, s, e)
    ensures Lockstep(z, Apply(z, s, e))
    ensures Work(z, Apply(z, s, e)) < Work(z, s)
  {
    match e
    case ClientSends(n) => AskingWrite(z, s, Req(z, s), n, |Req(z, s)|, |Rep(z, s)|);
    case DaemonReads(n) => AskingRead(z, s, n);
  }

  lemma RelayingWrite(z: Setup, s: State, req: seq<byte>, n: nat, l: nat, m: nat)
    requires |s.outcomes| < |z.calls|
    requires Relaying(z, s, req) && Enabled(z, s, DaemonForwards(n))
    ensures var r := Apply(z, s, DaemonForwards(n));
            r.outcomes == s.outcomes && Relaying(z, r, req) && Moves(r, l, m) < Moves(s, l, m)
  {
  }

  lemma RelayingRead(z: Setup, s: State, n: nat)
    requires GoodSetup(z) && |s.outcomes| < |z.calls|
    requires Relaying(z, s, Req(z, s)) && Enabled(z, s, HelperReads(n))
    ensures var r := Apply(z, s, HelperReads(n));
            r.outcomes == s.outcomes && (Relaying(z, r, Req(z, s)) || Returning(z, r, Rep(z, s)))
            && Moves(r, |Req(z, s)|, |Rep(z, s)|) < Moves(s, |Req(z, s)|, |Rep(z, s)|)
  {
    var req, r, k := Req(z, s), Apply(z, s, HelperReads(n)), |s.outcomes|;
    var got := s.helper.got + s.d2h[..n];
    var unsent := Pending(s);
    Shift(s.helper.got, s.d2h, unsent, n);
    RequestFraming(got, z.calls[k], z.channels);
    if got == req {
      assert r.d2h == [] && unsent == [];
      assert got[4..] == z.calls[k];
      assert z.calls[..k] + [z.calls[k]] == z.calls[..k + 1];
    }
  }

  lemma RelayingStep(z: Setup, s: State, e: Step)
    requires GoodSetup(z) && SameAsLocal(z, s) && |s.outcomes| < |z.calls|
    requires Relaying(z, s, Req(z, s)) && Enabled(z, s, e)
    ensures Lockstep(z, Apply(z, s, e))
    ensures Work(z, Apply(z, s, e)) < Work(z, s)
  {
    match e
    case DaemonForwards(n) => RelayingWrite(z, s, Req(z, s), n, |Req(z, s)|, |Rep(z, s)|);
    case HelperReads(n) => RelayingRead(z, s, n);
  }

  lemma ReturningWrite(z: Setup, s: State, rep: seq<byte>, n: nat, l: nat, m: nat)
    requires |s.outcomes| < |z.calls|
    requires Returning(z, s, rep) && Enabled(z, s, HelperWrites(n))
    ensures var r := Apply(z, s, HelperWrites(n));
            r.outcomes == s.outcomes && Returning(z, r, rep) && Moves(r, l, m) < Moves(s, l, m)
  {
  }

  /** Whether the reply is complete can be told from the bytes that came. */
  ghost predicate Tells(got: seq<byte>, rep: seq<byte>) {
    got <= rep ==> (Complete(got) <==> got == rep)
  }

  lemma ReplyTells(z: Setup, s: State, got: seq<byte>)
    requires GoodSetup(z) && |s.outcomes| < |z.calls|
    ensures Tells(got, Rep(z, s))
  {
    if got <= Rep(z, s) {
      ReplyFraming(got, z.enc(z.calls[..|s.outcomes| + 1]));
    }
  }

  lemma ReturningRead(z: Setup, s: State, rep: seq<byte>, n: nat, l: nat)
    requires |s.outcomes| < |z.calls|
    requires Returning(z, s, rep) && Enabled(z, s, DaemonAwaits(n)) && Tells(s.daemon.got + s.h2d[..n], rep)
    ensures var r := Apply(z, s, DaemonAwaits(n));
            r.outcomes == s.outcomes && (Returning(z, r, rep) || Delivering(z, r, rep))
            && Moves(r, l, |rep|) < Moves(s, l, |rep|)
  {
    var r, got := Apply(z, s, DaemonAwaits(n)), s.daemon.got + s.h2d[..n];
    var unsent := if s.helper.Answering? then s.helper.rest else [];
    Shift(s.daemon.got, s.h2d, unsent, n);
    if got == rep {
      assert r.h2d == [] && unsent == [];
    }
  }

  lemma ReturningStep(z: Setup, s: State, e: Step)
    requires GoodSetup(z) && SameAsLocal(z, s) && |s.outcomes| < |z.calls|
    requires Returning(z, s, Rep(z, s)) && Enabled(z, s, e)
    ensures Lockstep(z, Apply(z, s, e))
    ensures Work(z, Apply(z, s, e)) < Work(z, s)
  {
    match e
    case HelperWrites(n) => ReturningWrite(z, s, Rep(z, s), n, |Req(z, s)|, |Rep(z, s)|);
    case DaemonAwaits(n) =>
      ReplyTells(z, s, s.daemon.got + s.h2d[..n]);
      ReturningRead(z, s, Rep(z, s), n, |Req(z, s)|);
  }

  lemma DeliveringWrite(z: Setup, s: State, rep: seq<byte>, n: nat, l: nat, m: nat)
    requires |s.outcomes| < |z.calls|
    requires Delivering(z, s, rep) && Enabled(z, s, DaemonReplies(n))
    ensures var r := Apply(z, s, DaemonReplies(n));
            r.outcomes == s.outcomes && Delivering(z, r, rep) && Moves(r, l, m) < Moves(s, l, m)
  {
  }

  lemma DeliveringRead(z: Setup, s: State, rep: seq<byte>, n: nat, l: nat)
    requires |s.outcomes| < |z.calls|
    requires Delivering(z, s, rep) && Enabled(z, s, ClientReceives(n)) && Tells(s.client.got + s.d2c[..n], rep)
    ensures var r := Apply(z, s, ClientReceives(n));
            ((r.outcomes == s.outcomes && Delivering(z, r, rep)) ||
             (|rep| >= 4 && r.outcomes == s.outcomes + [Result(rep)] && Boundary(z, r)))
            && Moves(r, l, |rep|) < Moves(s, l, |rep|)
  {
    var r, got := Apply(z, s, ClientReceives(n)), s.client.got + s.d2c[..n];
    var unsent := Pending(s);
    Shift(s.client.got, s.d2c, unsent, n);
    if got == rep {
      assert r.d2c == [] && unsent == [];
    }
  }

  lemma ReplyIsLocal(z: Setup, k: nat)
    requires GoodSetup(z) && k < |z.calls|
    ensures var rep := Reply(z.enc(z.calls[..k + 1])); |rep| >= 4 && Result(rep) == Local(z, k)
  {
    var r := z.enc(z.calls[..k + 1]);
    ReplyFraming(Reply(r), r);
    ReplyBytes(r);
  }

  lemma StillLocal(z: Setup, s: State, r: State)
    requires SameAsLocal(z, s) && |s.outcomes| < |z.calls|
    requires r.outcomes == s.outcomes || r.outcomes == s.outcomes + [Local(z, |s.outcomes|)]
    ensures SameAsLocal(z, r)
  {
  }

  lemma DeliveringStep(z: Setup, s: State, e: Step)
    requires GoodSetup(z) && SameAsLocal(z, s) && |s.outcomes| < |z.calls|
    requires Delivering(z, s, Rep(z, s)) && Enabled(z, s, e)
    ensures Lockstep(z, Apply(z, s, e))
    ensures Work(z, Apply(z, s, e)) < Work(z, s)
  {
    match e
    case DaemonReplies(n) => DeliveringWrite(z, s, Rep(z, s), n, |Req(z, s)|, |Rep(z, s)|);
    case ClientReceives(n) =>
      ReplyTells(z, s, s.client.got + s.d2c[..n]);
      ReplyIsLocal(z, |s.outcomes|);
      DeliveringRead(z, s, Rep(z, s), n, |Req(z, s)|);
      StillLocal(z, s, Apply(z, s, e));
  }

  /** Every step of a call keeps lockstep and brings the end of the call closer. */
  lemma CallStep(z: Setup, s: State, e: Step)
    requires GoodSetup(z) && Lockstep(z, s) && !Boundary(z, s) && Enabled(z, s, e)
    ensures Lockstep(z, Apply(z, s, e))
    ensures Work(z, Apply(z, s, e)) < Work(z, s)
  {
    if Asking(z, s, Req(z, s)) {
      AskingStep(z, s, e);
    } else if Relaying(z, s, Req(z, s)) {
      RelayingStep(z, s, e);
    } else if Returning(z, s, Rep(z, s)) {
      ReturningStep(z, s, e);
    } else {
      DeliveringStep(z, s, e);
    }
  }

  lemma LockstepStep(z: Setup, s: State, e: Step)
    requires GoodSetup(z) && Lockstep(z, s) && Enabled(z, s, e)
    ensures Lockstep(z, Apply(z, s, e))
  {
    if Boundary(z, s) {
      assert e.BeginCall?;
      var r := Apply(z, s, e);
      assert [] + [] + Unsent(r.client) == Req(z, s);
      assert Asking(z, r, Req(z, s));
    } else {
      CallStep(z, s, e);
    }
  }

  // ---- progress ----

  lemma AskingMoves(z: Setup, s: State, pcm: seq<byte>) returns (e: Step)
    requires z.capacity > 0 && |s.outcomes| < |z.calls| && GoodFrame(pcm, z.channels)
    requires Asking(z, s, Request(pcm, z.channels))
    ensures Enabled(z, s, e)
  {
    RequestFraming(s.daemon.got, pcm, z.channels);
    e := if s.c2d != [] then DaemonReads(1) else ClientSends(1);
  }

  lemma RelayingMoves(z: Setup, s: State, pcm: seq<byte>) returns (e: Step)
    requires z.capacity > 0 && |s.outcomes| < |z.calls| && GoodFrame(pcm, z.channels)
    requires Relaying(z, s, Request(pcm, z.channels))
    ensures Enabled(z, s, e)
  {
    RequestFraming(s.helper.got, pcm, z.channels);
    e := if s.d2h != [] then HelperReads(1) else DaemonForwards(1);
  }

  lemma ReturningMoves(z: Setup, s: State, r: Encoded) returns (e: Step)
    requires z.capacity > 0 && |s.outcomes| < |z.calls| && r.ret <= |r.out|
    requires Returning(z, s, Reply(r))
    ensures Enabled(z, s, e)
  {
    ReplyFraming(s.daemon.got, r);
    e := if s.h2d != [] then DaemonAwaits(1) else HelperWrites(1);
  }

  lemma DeliveringMoves(z: Setup, s: State, r: Encoded) returns (e: Step)
    requires z.capacity > 0 && |s.outcomes| < |z.calls| && r.ret <= |r.out|
    requires Delivering(z, s, Reply(r))
    ensures Enabled(z, s, e)
  {
    ReplyFraming(s.client.got, r);
    e := if s.d2c != [] then ClientReceives(1) else DaemonReplies(1);
  }

  /** In a call somebody can always move: no schedule deadlocks, however small the pipes. */
  lemma NeverDeadlocked(z: Setup, s: State) returns (e: Step)
    requires GoodSetup(z) && Lockstep(z, s)
    requires InCall(z, s) || |s.outcomes| < |z.calls|
    ensures Enabled(z, s, e)
  {
    if Boundary(z, s) {
      return BeginCall;
    }
    var pcm, r := z.calls[|s.outcomes|], z.enc(z.calls[..|s.outcomes| + 1]);
    if Asking(z, s, Req(z, s)) {
      e := AskingMoves(z, s, pcm);
    } else if Relaying(z, s, Req(z, s)) {
      e := RelayingMoves(z, s, pcm);
    } else if Returning(z, s, Rep(z, s)) {
      e := ReturningMoves(z, s, r);
    } else {
      e := DeliveringMoves(z, s, r);
    }
  }

  // ---- whole runs ----

  ghost predicate Start(s: State) {
    && s.client.Idle? && s.daemon == Reading([]) && s.helper == Listening([]) && Quiet(s)
    && s.history == [] && s.outcomes == []
  }

  predicate Run(z: Setup, s: State, es: seq<Step>)
    decreases |es|
  {
    es == [] || (Enabled(z, s, es[0]) && Run(z, Apply(z, s, es[0]), es[1..]))
  }

  function After(z: Setup, s: State, es: seq<Step>): State
    requires Run(z, s, es)
    decreases |es|
  {
    if es == [] then s else After(z, Apply(z, s, es[0]), es[1..])
  }

  lemma RunCons(z: Setup, s: State, e: Step, es: seq<Step>)
    requires Enabled(z, s, e)
    ensures Run(z, s, []) && After(z, s, []) == s
    ensures Run(z, s, [e] + es) <==> Run(z, Apply(z, s, e), es)
    ensures Run(z, s, [e] + es) ==> After(z, s, [e] + es) == After(z, Apply(z, s, e), es)
  {
    assert ([e] + es)[1..] == es;
  }

  lemma {:induction false} RunKeepsLockstep(z: Setup, s: State, es: seq<Step>)
    requires GoodSetup(z) && Lockstep(z, s) && Run(z, s, es)
    ensures Lockstep(z, After(z, s, es))
    decreases |es|
  {
    if es != [] {
      LockstepStep(z, s, es[0]);
      RunKeepsLockstep(z, Apply(z, s, es[0]), es[1..]);
    }
  }

  /**
   * Remote encoding is local encoding: under every schedule the k-th call returns what
   * the encoder gives for the k-th frame after the frames before it, and whenever the
   * client is between calls no byte is left unread anywhere.
   */
  lemma RemoteIsLocal(z: Setup, s: State, es: seq<Step>)
    requires GoodSetup(z) && Start(s) && Run(z, s, es)
    ensures var r := After(z, s, es);
            && |r.outcomes| <= |z.calls|
            && (forall k :: 0 <= k < |r.outcomes| ==>
                  var e := z.enc(z.calls[..k + 1]);
                  && (e.ret <= 0 ==> r.outcomes[k] == Failed)
                  && (e.ret > 0 ==> e.ret <= |e.out| && r.outcomes[k] == Frame(e.out[..e.ret])))
            && (r.client.Idle? ==> Quiet(r) && r.daemon == Reading([]) && r.helper == Listening([])
                                   && r.history == z.calls[..|r.outcomes|])
  {
    assert Lockstep(z, s);
    RunKeepsLockstep(z, s, es);
    LocalMeans(z, After(z, s, es));
  }

  lemma LocalMeans(z: Setup, r: State)
    requires GoodSetup(z) && SameAsLocal(z, r)
    ensures forall k :: 0 <= k < |r.outcomes| ==>
              var e := z.enc(z.calls[..k + 1]);
              && (e.ret <= 0 ==> r.outcomes[k] == Failed)
              && (e.ret > 0 ==> e.ret <= |e.out| && r.outcomes[k] == Frame(e.out[..e.ret]))
  {
    forall k | 0 <= k < |r.outcomes|
      ensures var e := z.enc(z.calls[..k + 1]);
              && (e.ret <= 0 ==> r.outcomes[k] == Failed)
              && (e.ret > 0 ==> e.ret <= |e.out| && r.outcomes[k] == Frame(e.out[..e.ret]))
    {
      assert r.outcomes[k] == Local(z, k);
    }
  }

  /** Every call completes: from any state of a call some schedule, of bounded length, ends it. */
  lemma {:induction false} CallCompletes(z: Setup, s: State) returns (es: seq<Step>)
    requires GoodSetup(z) && Lockstep(z, s)
    ensures Run(z, s, es) && |es| <= Work(z, s)
    ensures After(z, s, es).client.Idle? && Lockstep(z, After(z, s, es))
    decreases Work(z, s)
  {
    if Boundary(z, s) {
      es := [];
    } else {
      var e := NeverDeadlocked(z, s);
      CallStep(z, s, e);
      var rest := CallCompletes(z, Apply(z, s, e));
      es := [e] + rest;
      assert es[1..] == rest;
    }
  }
}
