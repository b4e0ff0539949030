/**
 * One client session of the daemon, in its C and its Python version: all bytes the
 * client sends in, all bytes it gets back, and how the session ended.
 */
module SscSession {
  import opened Bytes
  import opened SscWire

  /**
   * How a session ends: the connection is closed, the daemon was told to exit, or the
   * helper exited under a request. The last differs by daemon: the C daemon closes, or
   * is killed by SIGPIPE if it is still writing; the Python daemon, which holds both ends
   * of its pipes, waits for ever.
   */
  datatype Ending = Closed | Stop | HelperGone

  /** What the session wrote to the client, and how it ended. */
  datatype Session = Session(reply: seq<byte>, ending: Ending)

  function Answered(first: seq<byte>, rest: Session): Session {
    rest.(reply := first + rest.reply)
  }

  /** What a daemon finds at the head of the client's bytes. */
  datatype Heading = Ended | Shutdown | Bad | Call(pcm: seq<byte>, rest: seq<byte>)

  /** Header first: the bytes of a PCM frame are never looked at as a header. */
  function ReadHeading(input: seq<byte>, channels: nat): (h: Heading)
    requires channels > 0
    ensures h.Call? ==> |h.rest| < |input|
  {
    if |input| < 4 then Ended
    else
      var n := FromLe32(input);
      if n == CMD_SHUTDOWN then Shutdown
      else if n == 0 || n > DAEMON_MAX_SAMPLES then Bad
      else
        var size := n * channels * 4;
        if |input| < 4 + size then Ended else Call(input[4..4 + size], input[4 + size..])
  }

  /** A call takes its PCM and leaves the rest, as the header says, for up to 16384 samples. */
  lemma HeadingOfCall(n: nat, pcm: seq<byte>, rest: seq<byte>, channels: nat)
    requires channels > 0 && 1 <= n <= 16384 && |pcm| == n * channels * 4
    ensures ReadHeading(Le32(n) + pcm + rest, channels) == Call(pcm, rest)
    ensures forall k :: 0 <= k < 4 + |pcm| ==> ReadHeading((Le32(n) + pcm)[..k], channels) == Ended
  {
    var whole := Le32(n) + pcm;
    assert (whole + rest)[..4] == Le32(n);
    PrefixHeader(Le32(n), whole + rest);
    Le32RoundTrip(n);
    assert (whole + rest)[4..4 + |pcm|] == pcm && (whole + rest)[4 + |pcm|..] == rest;
    forall k | 0 <= k < 4 + |pcm| ensures ReadHeading(whole[..k], channels) == Ended {
      if k >= 4 {
        assert whole[..k][..4] == Le32(n);
        PrefixHeader(Le32(n), whole[..k]);
      }
    }
  }

  /** Every other header word ends the session: the magic with the command to exit, a bad count without. */
  lemma HeadingOfWord(word: nat, rest: seq<byte>, channels: nat)
    requires channels > 0 && word < WRAP32
    ensures word == 0x4443_4853 ==> ReadHeading(Le32(word) + rest, channels) == Shutdown
    ensures word != 0x4443_4853 && (word == 0 || word > 16384) ==> ReadHeading(Le32(word) + rest, channels) == Bad
  {
    assert (Le32(word) + rest)[..4] == Le32(word);
    PrefixHeader(Le32(word), Le32(word) + rest);
    Le32RoundTrip(word);
  }

  /** What the helper writes back for a frame; it exits on a frame or a result too large for it. */
  datatype HelperRun = HelperRun(output: seq<byte>, alive: bool)

  function RunHelper(r: Encoded, pcm: seq<byte>, channels: nat): HelperRun
    requires channels > 0
  {
    if TooManySamples(pcm, channels) then HelperRun([], false)
    else if r.ret > HELPER_MAX_BYTES then HelperRun(Le32(Unsigned(r.ret)), false)
    else HelperRun(Reply(r), true)
  }

  predicate TooManySamples(pcm: seq<byte>, channels: nat)
    requires channels > 0
  {
    |pcm| / (4 * channels) > HELPER_MAX_SAMPLES
  }

  /** `service_client` of sscblobd.c; `alive` is false once the helper has exited. */
  function CSession(input: seq<byte>, history: seq<seq<byte>>, alive: bool, enc: SampleEncoder, channels: nat): Session
    requires channels > 0
    decreases |input|
  {
    match ReadHeading(input, channels)
    case Ended => Session([], Closed)
    case Shutdown => Session([], Stop)
    case Bad => Session([], Closed)
    case Call(pcm, rest) =>
      var r := enc(history + [pcm]);
      if !alive || TooManySamples(pcm, channels) then Session([], HelperGone)
      else if r.ret > C_DAEMON_MAX_BYTES then
        Answered(Le32(0), CSession(rest, history + [pcm], false, enc, channels))
      else if r.ret > HELPER_MAX_BYTES then Session([], Closed)
      else Answered(Reply(r), CSession(rest, history + [pcm], true, enc, channels))
  }

  /** `service_client` of sscblobd.py: any result outside 1..4096 raises and ends the session. */
  function PySession(input: seq<byte>, history: seq<seq<byte>>, enc: SampleEncoder, channels: nat): Session
    requires channels > 0
    decreases |input|
  {
    match ReadHeading(input, channels)
    case Ended => Session([], Closed)
    case Shutdown => Session([], Stop)
    case Bad => Session([], Closed)
    case Call(pcm, rest) =>
      var r := enc(history + [pcm]);
      if TooManySamples(pcm, channels) then Session([], HelperGone)
      else if r.ret <= 0 || r.ret > HELPER_MAX_BYTES then Session([], Closed)
      else Answered(Le32(r.ret) + Body(r), PySession(rest, history + [pcm], enc, channels))
  }

  /** One C call, by its result: the bytes answered and whether the session goes on. */
  lemma COneCall(history: seq<seq<byte>>, pcm: seq<byte>, rest: seq<byte>, enc: SampleEncoder, channels: nat)
    requires GoodFrame(pcm, channels) && |enc(history + [pcm]).out| == HELPER_MAX_BYTES
    ensures var h, r := history + [pcm], enc(history + [pcm]);
            var s := CSession(Request(pcm, channels) + rest, history, true, enc, channels);
            var t, u := CSession(rest, h, true, enc, channels), CSession(rest, h, false, enc, channels);
            && (r.ret <= 0 ==> s == Session(Le32(if r.ret < 0 then r.ret + WRAP32 else 0) + t.reply, t.ending))
            && (0 < r.ret <= 4096 ==> s == Session(Le32(r.ret) + r.out[..r.ret] + t.reply, t.ending))
            && (4096 < r.ret <= 65536 ==> s == Session([], Closed))
            && (65536 < r.ret ==> s == Session(Le32(0) + u.reply, u.ending))
  {
    HeadingOfRequest(pcm, rest, channels);
    var r := enc(history + [pcm]);
    if r.ret <= 4096 {
      NothingAdded(Le32(Unsigned(r.ret)));
    }
  }

  /** One Python call. */
  lemma PyOneCall(history: seq<seq<byte>>, pcm: seq<byte>, rest: seq<byte>, enc: SampleEncoder, channels: nat)
    requires GoodFrame(pcm, channels) && |enc(history + [pcm]).out| == HELPER_MAX_BYTES
    ensures var h, r := history + [pcm], enc(history + [pcm]);
            var s := PySession(Request(pcm, channels) + rest, history, enc, channels);
            var t := PySession(rest, h, enc, channels);
            if 0 < r.ret <= 4096 then s == Session(Le32(r.ret) + r.out[..r.ret] + t.reply, t.ending)
            else s == Session([], Closed)
  {
    HeadingOfRequest(pcm, rest, channels);
  }

  /** Without a helper, or with a frame too large for it, a call ends either session with the helper gone. */
  lemma NoHelperNoAnswer(
      history: seq<seq<byte>>, n: nat, pcm: seq<byte>, rest: seq<byte>, enc: SampleEncoder, channels: nat)
    requires channels > 0 && 1 <= n <= 16384 && |pcm| == n * channels * 4
    ensures var s := Le32(n) + pcm + rest;
            && CSession(s, history, false, enc, channels) == Session([], HelperGone)
            && (n > 8192 ==> CSession(s, history, true, enc, channels) == Session([], HelperGone)
                             && PySession(s, history, enc, channels) == Session([], HelperGone))
  {
    HeadingOfCall(n, pcm, rest, channels);
    Samples(n, channels, |pcm|);
  }

  /** No result the session reaches is one the C daemon answers and the Python daemon does not. */
  ghost predicate NoOddResult(input: seq<byte>, history: seq<seq<byte>>, enc: SampleEncoder, channels: nat)
    requires channels > 0
    decreases |input|
  {
    match ReadHeading(input, channels)
    case Call(pcm, rest) =>
      var r := enc(history + [pcm]);
      TooManySamples(pcm, channels) ||
      (0 < r.ret <= C_DAEMON_MAX_BYTES &&
       (r.ret > HELPER_MAX_BYTES || NoOddResult(rest, history + [pcm], enc, channels)))
    case _ => true
  }

  /** Nor does it reach a frame of more samples than the helper takes, while results stay within 4096. */
  ghost predicate NoHugeFrame(input: seq<byte>, history: seq<seq<byte>>, enc: SampleEncoder, channels: nat)
    requires channels > 0
    decreases |input|
  {
    match ReadHeading(input, channels)
    case Call(pcm, rest) =>
      !TooManySamples(pcm, channels) &&
      (enc(history + [pcm]).ret > HELPER_MAX_BYTES || NoHugeFrame(rest, history + [pcm], enc, channels))
    case _ => true
  }

  /**
   * The two daemons write the same bytes exactly on the sessions without an odd result;
   * on every other the C daemon writes more. They end alike, with the helper still
   * there, exactly when there is no frame above 8192 samples either.
   */
  lemma {:induction false} DropInIff(input: seq<byte>, history: seq<seq<byte>>, enc: SampleEncoder, channels: nat)
    requires channels > 0
    ensures var c, py := CSession(input, history, true, enc, channels), PySession(input, history, enc, channels);
            && (NoOddResult(input, history, enc, channels) <==> c.reply == py.reply)
            && (!NoOddResult(input, history, enc, channels) ==> |c.reply| > |py.reply|)
            && (NoOddResult(input, history, enc, channels) && NoHugeFrame(input, history, enc, channels)
                <==> c == py && c.ending != HelperGone)
    decreases |input|
  {
    match ReadHeading(input, channels)
    case Call(pcm, rest) => DropInIff(rest, history + [pcm], enc, channels);
    case _ =>
  }

  /** A result of 0: the C daemon passes it on, the Python daemon closes. */
  lemma ZeroResultDiffers(pcm: seq<byte>, enc: SampleEncoder, channels: nat)
    requires GoodFrame(pcm, channels) && enc([pcm]).ret == 0
    ensures CSession(Request(pcm, channels), [], true, enc, channels) == Session(Le32(0), Closed)
    ensures PySession(Request(pcm, channels), [], enc, channels) == Session([], Closed)
  {
    HeadingOfRequest(pcm, [], channels);
    NothingAdded(Request(pcm, channels));
    assert [] + [pcm] == [pcm];
    NothingAdded(Le32(0));
  }

  // ---- sessions of well-formed calls ----

  function Requests(frames: seq<seq<byte>>, channels: nat): seq<byte>
    requires forall i :: 0 <= i < |frames| ==> GoodFrame(frames[i], channels)
  {
    if frames == [] then [] else Request(frames[0], channels) + Requests(frames[1..], channels)
  }

  function Answers(history: seq<seq<byte>>, frames: seq<seq<byte>>, enc: SampleEncoder): seq<byte>
    decreases |frames|
  {
    if frames == [] then []
    else Reply(enc(history + [frames[0]])) + Answers(history + [frames[0]], frames[1..], enc)
  }

  lemma {:induction false} AnswersAppend(
      history: seq<seq<byte>>, frames: seq<seq<byte>>, pcm: seq<byte>, enc: SampleEncoder)
    ensures Answers(history, frames + [pcm], enc)
         == Answers(history, frames, enc) + Reply(enc(history + (frames + [pcm])))
    decreases |frames|
  {
    var reply := Reply(enc(history + (frames + [pcm])));
    if frames == [] {
      assert frames + [pcm] == [pcm] && [pcm][1..] == [];
      NothingAdded(reply);
    } else {
      var first := history + [frames[0]];
      assert (frames + [pcm])[1..] == frames[1..] + [pcm];
      assert first + (frames[1..] + [pcm]) == history + (frames + [pcm]);
      AnswersAppend(first, frames[1..], pcm, enc);
      Assoc(Reply(enc(first)), Answers(first, frames[1..], enc), reply);
    }
  }

  /** The answers call by call: the signed result, and the first `ret` bytes of the output if there are any. */
  lemma AnswersSnoc(history: seq<seq<byte>>, frames: seq<seq<byte>>, pcm: seq<byte>, enc: SampleEncoder)
    requires Bounded(enc)
    ensures var r := enc(history + (frames + [pcm]));
            && |r.out| == 4096 && r.ret <= 4096
            && Answers(history, frames + [pcm], enc)
               == Answers(history, frames, enc)
                  + (Le32(if r.ret < 0 then r.ret + WRAP32 else r.ret) + (if r.ret > 0 then r.out[..r.ret] else []))
  {
    var r := enc(history + (frames + [pcm]));
    AnswersAppend(history, frames, pcm, enc);
    ReplyBytes(r);
    CutAt(Reply(r), 4);
  }

  lemma HeadingOfRequest(pcm: seq<byte>, rest: seq<byte>, channels: nat)
    requires GoodFrame(pcm, channels)
    ensures ReadHeading(Request(pcm, channels) + rest, channels) == Call(pcm, rest)
    ensures !TooManySamples(pcm, channels)
  {
    var n := |pcm| / (4 * channels);
    assert |pcm| == (4 * channels) * n;
    assert n * channels * 4 == |pcm|;
    HeadingOfCall(n, pcm, rest, channels);
  }

  /**
   * After any well-formed calls, whatever bytes their PCM contains -- the shutdown magic
   * included -- the session has answered each and is back at a header position.
   */
  lemma {:induction false} CallsThenRest(
      history: seq<seq<byte>>, frames: seq<seq<byte>>, rest: seq<byte>, enc: SampleEncoder, channels: nat)
    requires channels > 0 && Bounded(enc)
    requires forall i :: 0 <= i < |frames| ==> GoodFrame(frames[i], channels)
    ensures CSession(Requests(frames, channels) + rest, history, true, enc, channels)
         == Answered(Answers(history, frames, enc), CSession(rest, history + frames, true, enc, channels))
    decreases |frames|
  {
    if frames == [] {
      assert history + frames == history && Requests(frames, channels) + rest == rest;
    } else {
      var h, more := history + [frames[0]], Requests(frames[1..], channels) + rest;
      var tail := CSession(rest, history + frames, true, enc, channels);
      assert Requests(frames, channels) + rest == Request(frames[0], channels) + more;
      assert h + frames[1..] == history + frames;
      calc {
        CSession(Requests(frames, channels) + rest, history, true, enc, channels);
      ==
        CSession(Request(frames[0], channels) + more, history, true, enc, channels);
      ==  { OneCall(history, frames[0], more, enc, channels); }
        Answered(Reply(enc(h)), CSession(more, h, true, enc, channels));
      ==  { CallsThenRest(h, frames[1..], rest, enc, channels); }
        Answered(Reply(enc(h)), Answered(Answers(h, frames[1..], enc), tail));
      ==  { AnsweredTwice(Reply(enc(h)), Answers(h, frames[1..], enc), tail); }
        Answered(Answers(history, frames, enc), tail);
      }
    }
  }

  lemma AnsweredTwice(a: seq<byte>, b: seq<byte>, s: Session)
    ensures Answered(a, Answered(b, s)) == Answered(a + b, s)
  {
  }

  lemma OneCall(history: seq<seq<byte>>, pcm: seq<byte>, rest: seq<byte>, enc: SampleEncoder, channels: nat)
    requires Bounded(enc) && GoodFrame(pcm, channels)
    ensures CSession(Request(pcm, channels) + rest, history, true, enc, channels)
         == Answered(Reply(enc(history + [pcm])), CSession(rest, history + [pcm], true, enc, channels))
  {
    HeadingOfRequest(pcm, rest, channels);
  }

  /** The daemon stops if and only if the four bytes after the calls are the magic. */
  lemma ShutdownOnlyAtHeader(frames: seq<seq<byte>>, word: nat, enc: SampleEncoder, channels: nat)
    requires channels > 0 && Bounded(enc) && word < WRAP32
    requires forall i :: 0 <= i < |frames| ==> GoodFrame(frames[i], channels)
    ensures CSession(Requests(frames, channels) + Le32(word), [], true, enc, channels)
         == Session(Answers([], frames, enc), if word == CMD_SHUTDOWN then Stop else Closed)
    ensures CSession(Requests(frames, channels), [], true, enc, channels)
         == Session(Answers([], frames, enc), Closed)
  {
    var sent := Answers([], frames, enc);
    assert [] + frames == frames && sent + [] == sent;
    LastWord(frames, word, enc, channels);
    CallsThenRest([], frames, Le32(word), enc, channels);
    CallsThenRest([], frames, [], enc, channels);
    assert Requests(frames, channels) + [] == Requests(frames, channels);
  }

  lemma LastWord(history: seq<seq<byte>>, word: nat, enc: SampleEncoder, channels: nat)
    requires channels > 0 && word < WRAP32
    ensures CSession(Le32(word), history, true, enc, channels)
         == Session([], if word == CMD_SHUTDOWN then Stop else Closed)
    ensures CSession([], history, true, enc, channels) == Session([], Closed)
  {
    Le32RoundTrip(word);
    assert word > 0 ==> word * channels * 4 > 0;
  }

  lemma {:induction false} NothingOddInCalls(
      history: seq<seq<byte>>, frames: seq<seq<byte>>, rest: seq<byte>, enc: SampleEncoder, channels: nat)
    requires channels > 0 && (forall h :: 1 <= enc(h).ret <= HELPER_MAX_BYTES)
    requires forall i :: 0 <= i < |frames| ==> GoodFrame(frames[i], channels)
    requires !ReadHeading(rest, channels).Call?
    ensures NoOddResult(Requests(frames, channels) + rest, history, enc, channels)
    ensures NoHugeFrame(Requests(frames, channels) + rest, history, enc, channels)
    decreases |frames|
  {
    if frames == [] {
      assert Requests(frames, channels) + rest == rest;
    } else {
      var more := Requests(frames[1..], channels) + rest;
      assert Requests(frames, channels) + rest == Request(frames[0], channels) + more;
      HeadingOfRequest(frames[0], more, channels);
      NothingOddInCalls(history + [frames[0]], frames[1..], rest, enc, channels);
    }
  }

  /** Frames of 1..8192 samples and results of 1..4096 bytes: the two daemons cannot be told apart. */
  lemma PythonIsDropIn(frames: seq<seq<byte>>, rest: seq<byte>, enc: SampleEncoder, channels: nat)
    requires channels > 0 && (forall h :: 1 <= enc(h).ret <= HELPER_MAX_BYTES)
    requires forall i :: 0 <= i < |frames| ==> GoodFrame(frames[i], channels)
    requires !ReadHeading(rest, channels).Call?
    ensures PySession(Requests(frames, channels) + rest, [], enc, channels)
         == CSession(Requests(frames, channels) + rest, [], true, enc, channels)
  {
    NothingOddInCalls([], frames, rest, enc, channels);
    DropInIff(Requests(frames, channels) + rest, [], enc, channels);
  }

  /** The shutdown magic in the Python daemon too: at a header position only, whatever the PCM contains. */
  lemma PyShutdownOnlyAtHeader(frames: seq<seq<byte>>, word: nat, enc: SampleEncoder, channels: nat)
    requires channels > 0 && Bounded(enc) && (forall h :: 1 <= enc(h).ret) && word < WRAP32
    requires forall i :: 0 <= i < |frames| ==> GoodFrame(frames[i], channels)
    ensures PySession(Requests(frames, channels) + Le32(word), [], enc, channels)
         == Session(Answers([], frames, enc), if word == CMD_SHUTDOWN then Stop else Closed)
  {
    WordIsNoCall(word, channels);
    PythonIsDropIn(frames, Le32(word), enc, channels);
    ShutdownOnlyAtHeader(frames, word, enc, channels);
  }

  lemma WordIsNoCall(word: nat, channels: nat)
    requires channels > 0 && word < WRAP32
    ensures !ReadHeading(Le32(word), channels).Call?
  {
    Le32RoundTrip(word);
    assert word > 0 ==> word * channels * 4 > 0;
  }

  // ---- the daemons' loops ----

  /** A socket or pipe as its reader sees it: bytes still to come, then end of file. */
  class ByteStream {
    var pending: seq<byte>

    constructor (bytes: seq<byte>)
      ensures pending == bytes
    {
      pending := bytes;
    }

    /** One read: any nonempty piece of what is there, or nothing at end of file. */
    method Read(n: nat) returns (chunk: seq<byte>)
      requires n > 0
      modifies this
      ensures |chunk| <= n && old(pending) == chunk + pending
      ensures chunk == [] <==> old(pending) == []
    {
      if pending == [] {
        return [];
      }
      var k :| 1 <= k <= n && k <= |pending|;
      chunk, pending := pending[..k], pending[k..];
    }

    /** `read_full`, `_read_exact` and `recv_exact`: the schedule of short reads does not show. */
    method ReadFull(n: nat) returns (ok: bool, buf: seq<byte>)
      modifies this
      ensures ok <==> n <= |old(pending)|
      ensures ok ==> buf == old(pending)[..n] && pending == old(pending)[n..]
      ensures !ok ==> pending == []
    {
      buf := [];
      while |buf| < n
        invariant |buf| <= n && old(pending) == buf + pending
        decreases n - |buf|
      {
        var chunk := Read(n - |buf|);
        if chunk == [] {
          return false, buf;
        }
        buf := buf + chunk;
      }
      ok := true;
    }

    /** The header and PCM reads common to both daemons. */
    method NextHeading(channels: nat) returns (h: Heading)
      requires channels > 0
      modifies this
      ensures h == ReadHeading(old(pending), channels)
      ensures h.Call? ==> pending == h.rest
    {
      var ok, head := ReadFull(4);
      if !ok { return Ended; }
      var n := FromLe32(head);
      PrefixHeader(head, old(pending));
      if n == CMD_SHUTDOWN { return Shutdown; }
      if n == 0 || n > DAEMON_MAX_SAMPLES { return Bad; }
      var size := n * channels * 4;
      var pcm;
      ok, pcm := ReadFull(size);
      if !ok { return Ended; }
      return Call(pcm, pending);
    }
  }

  /** The encoder leaves the helper's whole output buffer, however long it says its result is. */
  ghost predicate FullBuffer(enc: SampleEncoder) {
    forall h :: |enc(h).out| == HELPER_MAX_BYTES
  }

  /** The C daemon reads the helper's reply and makes its own of it. */
  method CRelay(fromHelper: ByteStream, ghost r: Encoded) returns (ok: bool, answer: seq<byte>)
    requires |r.out| == HELPER_MAX_BYTES
    requires fromHelper.pending == [] || fromHelper.pending ==
               if r.ret > HELPER_MAX_BYTES then Le32(Unsigned(r.ret)) else Reply(r)
    modifies fromHelper
    ensures ok <==> old(fromHelper.pending) != [] && !(HELPER_MAX_BYTES < r.ret <= C_DAEMON_MAX_BYTES)
    ensures ok ==> answer == if r.ret > C_DAEMON_MAX_BYTES then Le32(0) else Reply(r)
    ensures ok && 0 < r.ret <= HELPER_MAX_BYTES ==> answer == Le32(r.ret) + r.out[..r.ret]
    ensures fromHelper.pending == []
  {
    var word;
    ok, word := fromHelper.ReadFull(4);
    if !ok { return false, []; }
    Le32RoundTrip(Unsigned(r.ret));
    assert word == Le32(Unsigned(r.ret));
    var ret := Signed(FromLe32(word));
    if ret > C_DAEMON_MAX_BYTES { ret := 0; }
    var body := [];
    if ret > 0 {
      ok, body := fromHelper.ReadFull(ret);
      if !ok { return false, []; }
    }
    answer := Le32(Unsigned(ret)) + body;
  }

  /** `service_client` of the C daemon; `fromHelper` is the read end of the helper's stdout. */
  method CServiceClient(client: ByteStream, fromHelper: ByteStream, enc: SampleEncoder, channels: nat)
    returns (reply: seq<byte>, ending: Ending)
    requires channels > 0 && client != fromHelper && fromHelper.pending == [] && FullBuffer(enc)
    modifies client, fromHelper
    ensures Session(reply, ending) == CSession(old(client.pending), [], true, enc, channels)
  {
    reply := [];
    var history, alive := [], true;
    while true
      invariant fromHelper.pending == []
      invariant CSession(old(client.pending), [], true, enc, channels)
             == Answered(reply, CSession(client.pending, history, alive, enc, channels))
      decreases |client.pending|
    {
      ghost var rest := CSession(client.pending, history, alive, enc, channels);
      var h := client.NextHeading(channels);
      if !h.Call? {
        return reply, if h.Shutdown? then Stop else Closed;
      }
      var r := enc(history + [h.pcm]);
      if !alive || TooManySamples(h.pcm, channels) {
        return reply, HelperGone;
      }
      var run := RunHelper(r, h.pcm, channels);
      fromHelper.pending := run.output;
      alive := run.alive;
      history := history + [h.pcm];
      var ok, answer := CRelay(fromHelper, r);
      if !ok {
        assert rest == Session([], Closed);
        return reply, Closed;
      }
      assert rest == Answered(answer, CSession(client.pending, history, alive, enc, channels));
      AnsweredTwice(reply, answer, CSession(client.pending, history, alive, enc, channels));
      reply := reply + answer;
    }
  }

  /** `HelperBridge.encode`: raises unless the result is 1..4096. */
  method PyRelay(fromHelper: ByteStream, ghost r: Encoded) returns (ok: bool, payload: seq<byte>)
    requires |r.out| == HELPER_MAX_BYTES
    requires fromHelper.pending == [] || fromHelper.pending ==
               if r.ret > HELPER_MAX_BYTES then Le32(Unsigned(r.ret)) else Reply(r)
    modifies fromHelper
    ensures ok <==> old(fromHelper.pending) != [] && 0 < r.ret <= HELPER_MAX_BYTES
    ensures ok ==> payload == Body(r) && payload == r.out[..r.ret] && fromHelper.pending == []
  {
    var word;
    ok, word := fromHelper.ReadFull(4);
    if !ok { return false, []; }
    Le32RoundTrip(Unsigned(r.ret));
    assert word == Le32(Unsigned(r.ret));
    var ret := Signed(FromLe32(word));
    if ret <= 0 || ret > HELPER_MAX_BYTES { return false, []; }
    ok, payload := fromHelper.ReadFull(ret);
  }

  /** `service_client` of the Python daemon. */
  method PyServiceClient(client: ByteStream, fromHelper: ByteStream, enc: SampleEncoder, channels: nat)
    returns (reply: seq<byte>, ending: Ending)
    requires channels > 0 && client != fromHelper && fromHelper.pending == [] && FullBuffer(enc)
    modifies client, fromHelper
    ensures Session(reply, ending) == PySession(old(client.pending), [], enc, channels)
  {
    reply := [];
    var history := [];
    while true
      invariant fromHelper.pending == []
      invariant PySession(old(client.pending), [], enc, channels)
             == Answered(reply, PySession(client.pending, history, enc, channels))
      decreases |client.pending|
    {
      ghost var rest := PySession(client.pending, history, enc, channels);
      var h := client.NextHeading(channels);
      if !h.Call? {
        return reply, if h.Shutdown? then Stop else Closed;
      }
      if TooManySamples(h.pcm, channels) {
        return reply, HelperGone;
      }
      var r := enc(history + [h.pcm]);
      fromHelper.pending := RunHelper(r, h.pcm, channels).output;
      history := history + [h.pcm];
      var ok, payload := PyRelay(fromHelper, r);
      if !ok {
        assert rest == Session([], Closed);
        return reply, Closed;
      }
      var answer := Le32(|payload|) + payload;
      assert rest == Answered(answer, PySession(client.pending, history, enc, channels));
      AnsweredTwice(reply, answer, PySession(client.pending, history, enc, channels));
      reply := reply + answer;
    }
  }
}
