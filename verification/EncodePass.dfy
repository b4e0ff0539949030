/**
 * One pass of the encode thread: carry the residual, cut fixed-size blocks, encode
 * each, pack the results under the payload limit, stamp and hand over packets. The
 * command-line tool's audio callback holds the same loop.
 */
module EncodePass {
  import opened Bytes

  type Block = seq<byte>

  /** What one encode call returned; `frames` is the number of codec frames in `bytes`. */
  datatype Reply = Reply(ok: bool, bytes: seq<byte>, frames: nat)

  /** Any deterministic stateful encoder: the reply to the last of all blocks given so far. */
  type Encoder = seq<Block> -> Reply

  /** One call of `send_media`. */
  datatype Packet = Packet(payload: seq<byte>, timestamp: nat, frames: byte)

  const ACCUM_BYTES: nat := 2048

  // ---- cutting ----

  function Blocks(s: seq<byte>, n: nat): seq<Block>
    requires n > 0
    decreases |s|
  {
    if |s| < n then [] else [s[..n]] + Blocks(s[n..], n)
  }

  function Rest(s: seq<byte>, n: nat): seq<byte>
    requires n > 0
    decreases |s|
  {
    if |s| < n then s else Rest(s[n..], n)
  }

  lemma {:induction false} CutLengths(s: seq<byte>, n: nat)
    requires n > 0
    ensures |Rest(s, n)| < n
    ensures |Blocks(s, n)| * n + |Rest(s, n)| == |s|
    decreases |s|
  {
    if |s| >= n {
      CutLengths(s[n..], n);
      OneMore(|Blocks(s[n..], n)|, n);
    }
  }

  lemma OneMore(k: nat, n: nat)
    ensures (1 + k) * n == n + k * n
  {
  }

  lemma {:induction false} CutJoins(s: seq<byte>, n: nat)
    requires n > 0
    ensures Flatten(Blocks(s, n)) + Rest(s, n) == s
    ensures forall i :: 0 <= i < |Blocks(s, n)| ==> |Blocks(s, n)[i]| == n
    decreases |s|
  {
    if |s| >= n {
      CutJoins(s[n..], n);
      var tail := Blocks(s[n..], n);
      assert ([s[..n]] + tail)[1..] == tail;
      assert s == s[..n] + s[n..];
    }
  }

  /** Nothing is lost or invented by cutting, and the residual is shorter than a block. */
  lemma CutConserves(s: seq<byte>, n: nat)
    requires n > 0
    ensures Flatten(Blocks(s, n)) + Rest(s, n) == s
    ensures |Rest(s, n)| < n
    ensures forall i :: 0 <= i < |Blocks(s, n)| ==> |Blocks(s, n)[i]| == n
    ensures |Blocks(s, n)| * n + |Rest(s, n)| == |s|
  {
    CutLengths(s, n);
    CutJoins(s, n);
  }

  /** Cutting input that arrives in two parts, with the residual carried, is cutting the whole. */
  lemma {:induction false} CutInTwo(a: seq<byte>, b: seq<byte>, n: nat)
    requires n > 0
    ensures Blocks(a + b, n) == Blocks(a, n) + Blocks(Rest(a, n) + b, n)
    ensures Rest(a + b, n) == Rest(Rest(a, n) + b, n)
    decreases |a|
  {
    if |a| >= n {
      CutInTwo(a[n..], b, n);
      assert (a + b)[..n] == a[..n];
      assert (a + b)[n..] == a[n..] + b;
    }
  }

  // ---- packing, one encode reply at a time ----

  predicate Effective(r: Reply) {
    r.ok && |r.bytes| > 0
  }

  datatype Packing = Packing(sent: seq<Packet>, accum: seq<byte>, accumFrames: nat, firstTs: nat, ts: nat)

  function Flushed(p: Packing): Packing {
    p.(sent := p.sent + [Packet(p.accum, p.firstTs, p.accumFrames % 256)],
       accum := [], accumFrames := 0, firstTs := p.ts)
  }

  /** The packet under construction once the reply has had its chance to close the previous one. */
  function MadeRoom(p: Packing, r: Reply, max: nat): Packing {
    if |p.accum| + |r.bytes| > max && p.accumFrames > 0 then Flushed(p) else p
  }

  function PackReply(p: Packing, r: Reply, max: nat, fpe: nat): Packing {
    var q :=
      if Effective(r) then
        var m := MadeRoom(p, r, max);
        if |m.accum| + |r.bytes| <= ACCUM_BYTES
        then m.(accum := m.accum + r.bytes, accumFrames := m.accumFrames + r.frames)
        else m
      else p;
    q.(ts := (p.ts + fpe) % WRAP32)
  }

  function PackReplies(p: Packing, rs: seq<Reply>, max: nat, fpe: nat): Packing
    decreases |rs|
  {
    if rs == [] then p else PackReplies(PackReply(p, rs[0], max, fpe), rs[1..], max, fpe)
  }

  function Finished(p: Packing): seq<Packet> {
    if p.accumFrames > 0 then Flushed(p).sent else p.sent
  }

  function Replies(enc: Encoder, before: seq<Block>, blocks: seq<Block>): seq<Reply>
    decreases |blocks|
  {
    if blocks == [] then []
    else [enc(before + [blocks[0]])] + Replies(enc, before + [blocks[0]], blocks[1..])
  }

  function Begin(ts: nat): Packing { Packing([], [], 0, ts, ts) }

  // ---- the pass ----

  /** The streaming context's share of a pass; `encoded` is the encoder's own history. */
  datatype Context = Context(residual: seq<byte>, timestamp: nat, encoded: seq<Block>, offered: seq<Packet>)

  function Pass(c: Context, input: seq<byte>, enc: Encoder, n: nat, fpe: nat, max: nat): Context
    requires n > 0
  {
    var blocks := Blocks(c.residual + input, n);
    var p := PackReplies(Begin(c.timestamp), Replies(enc, c.encoded, blocks), max, fpe);
    Context(Rest(c.residual + input, n), p.ts, c.encoded + blocks, c.offered + Finished(p))
  }

  method Append(a: array<byte>, at: nat, bytes: seq<byte>)
    requires at + |bytes| <= a.Length
    modifies a
    ensures a[..at + |bytes|] == old(a[..at]) + bytes
  {
    for i := 0 to |bytes|
      invariant a[..at + i] == old(a[..at]) + bytes[..i]
    {
      a[at + i] := bytes[i];
    }
  }

  class StreamingContext {
    const enc: Encoder
    const blockBytes: nat
    const framesPerEncode: nat
    var residual: seq<byte>
    var timestamp: nat
    var encoded: seq<Block>
    var offered: seq<Packet>

    ghost function View(): Context
      reads this
    {
      Context(residual, timestamp, encoded, offered)
    }

    constructor (enc: Encoder, blockBytes: nat, framesPerEncode: nat)
      ensures this.enc == enc && this.blockBytes == blockBytes && this.framesPerEncode == framesPerEncode
      ensures View() == Context([], 0, [], [])
    {
      this.enc, this.blockBytes, this.framesPerEncode := enc, blockBytes, framesPerEncode;
      residual, timestamp, encoded, offered := [], 0, [], [];
    }

    /** The body of the loop after the encode call: close the packet if need be, append the reply. */
    method TakeReply(
        accum: array<byte>, size: nat, frames: nat, firstTs: nat, reply: Reply, max: nat, ghost p: Packing)
      returns (size': nat, frames': nat, firstTs': nat)
      requires accum.Length == ACCUM_BYTES && size <= ACCUM_BYTES
      requires p == Packing(offered, accum[..size], frames, firstTs, timestamp)
      modifies this`offered, this`timestamp, accum
      ensures size' <= ACCUM_BYTES
      ensures Packing(offered, accum[..size'], frames', firstTs', timestamp)
           == PackReply(p, reply, max, framesPerEncode)
    {
      size', frames', firstTs' := size, frames, firstTs;
      if reply.ok && |reply.bytes| > 0 {
        if size + |reply.bytes| > max && frames > 0 {
          offered := offered + [Packet(accum[..size], firstTs, frames % 256)];
          size', frames', firstTs' := 0, 0, timestamp;
        }
        if size' + |reply.bytes| <= ACCUM_BYTES {
          Append(accum, size', reply.bytes);
          size', frames' := size' + |reply.bytes|, frames' + reply.frames;
        }
      }
      timestamp := (timestamp + framesPerEncode) % WRAP32;
    }

    /** The encode loop: every whole block of `pcm`, in order. */
    method EncodeBlocks(pcm: seq<byte>, accum: array<byte>, max: nat)
      returns (offset: nat, size: nat, frames: nat, firstTs: nat)
      requires blockBytes > 0 && accum.Length == ACCUM_BYTES
      modifies this`encoded, this`offered, this`timestamp, accum
      ensures offset <= |pcm| && pcm[offset..] == Rest(pcm, blockBytes)
      ensures encoded == old(encoded) + Blocks(pcm, blockBytes)
      ensures size <= ACCUM_BYTES
      ensures Packing(offered, accum[..size], frames, firstTs, timestamp)
           == PackReplies(Begin(old(timestamp)).(sent := old(offered)),
                          Replies(enc, old(encoded), Blocks(pcm, blockBytes)), max, framesPerEncode)
    {
      offset, size, frames, firstTs := 0, 0, 0, timestamp;
      ghost var p := Begin(timestamp).(sent := offered);
      ghost var all := encoded + Blocks(pcm, blockBytes);
      ghost var goal := PackReplies(p, Replies(enc, encoded, Blocks(pcm, blockBytes)), max, framesPerEncode);
      assert pcm[0..] == pcm && accum[..0] == [];
      while offset + blockBytes <= |pcm|
        invariant offset <= |pcm| && size <= ACCUM_BYTES
        invariant all == encoded + Blocks(pcm[offset..], blockBytes)
        invariant Rest(pcm, blockBytes) == Rest(pcm[offset..], blockBytes)
        invariant p == Packing(offered, accum[..size], frames, firstTs, timestamp)
        invariant goal == PackReplies(p, Replies(enc, encoded, Blocks(pcm[offset..], blockBytes)), max, framesPerEncode)
      {
        NextBlock(pcm, offset, blockBytes, enc, encoded, p, max, framesPerEncode);
        encoded := encoded + [pcm[offset..offset + blockBytes]];
        var reply := enc(encoded);
        size, frames, firstTs := TakeReply(accum, size, frames, firstTs, reply, max, p);
        p := PackReply(p, reply, max, framesPerEncode);
        offset := offset + blockBytes;
      }
      NothingAdded(encoded);
    }

    /** The pass over one chunk read from the ring, already converted to the encoder's format. */
    method EncodeChunk(input: seq<byte>, max: nat)
      requires blockBytes > 0
      modifies this
      ensures View() == Pass(old(View()), input, enc, blockBytes, framesPerEncode, max)
    {
      var pcm := residual + input;
      var accum := new byte[ACCUM_BYTES](_ => 0);
      var offset, size, frames, firstTs := EncodeBlocks(pcm, accum, max);
      if frames > 0 {
        offered := offered + [Packet(accum[..size], firstTs, frames % 256)];
      }
      CutConserves(pcm, blockBytes);
      residual := if 0 < |pcm| - offset < blockBytes then pcm[offset..] else [];
      SentPrefix(old(offered), Begin(old(timestamp)),
                 Replies(enc, old(encoded), Blocks(pcm, blockBytes)), max, framesPerEncode);
      assert old(offered) + [] == old(offered);
    }
  }

  /** What one turn of the encode loop does to the blocks, the rest and the packing still to come. */
  lemma NextBlock(pcm: seq<byte>, offset: nat, n: nat, enc: Encoder, before: seq<Block>, p: Packing, max: nat, fpe: nat)
    requires n > 0 && offset + n <= |pcm|
    ensures var given, left := before + [pcm[offset..offset + n]], Blocks(pcm[offset + n..], n);
            && before + Blocks(pcm[offset..], n) == given + left
            && Rest(pcm[offset..], n) == Rest(pcm[offset + n..], n)
            && PackReplies(p, Replies(enc, before, Blocks(pcm[offset..], n)), max, fpe)
               == PackReplies(PackReply(p, enc(given), max, fpe), Replies(enc, given, left), max, fpe)
  {
    var rest, block, left := pcm[offset..], pcm[offset..offset + n], Blocks(pcm[offset + n..], n);
    assert rest[..n] == block && rest[n..] == pcm[offset + n..];
    assert ([block] + left)[1..] == left;
    Assoc(before, [block], left);
    var reply, later := enc(before + [block]), Replies(enc, before + [block], left);
    PackFirst(p, reply, later, max, fpe);
  }

  lemma PackFirst(p: Packing, r: Reply, rs: seq<Reply>, max: nat, fpe: nat)
    ensures PackReplies(p, [r] + rs, max, fpe) == PackReplies(PackReply(p, r, max, fpe), rs, max, fpe)
  {
    assert ([r] + rs)[1..] == rs;
  }

  /** Packets already handed over do not influence the pass. */
  lemma {:induction false} SentPrefix(before: seq<Packet>, p: Packing, rs: seq<Reply>, max: nat, fpe: nat)
    ensures PackReplies(p.(sent := before + p.sent), rs, max, fpe)
         == PackReplies(p, rs, max, fpe).(sent := before + PackReplies(p, rs, max, fpe).sent)
    ensures Finished(PackReplies(p.(sent := before + p.sent), rs, max, fpe))
         == before + Finished(PackReplies(p, rs, max, fpe))
    decreases |rs|
  {
    if rs != [] {
      var q := PackReply(p, rs[0], max, fpe);
      assert PackReply(p.(sent := before + p.sent), rs[0], max, fpe) == q.(sent := before + q.sent);
      SentPrefix(before, q, rs[1..], max, fpe);
    }
  }
}
