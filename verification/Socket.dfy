/**
 * Framed transport over a byte-stream socket that splits writes and reads as it likes.
 *
 * A Pipe is one direction of a connection. `stream` is every byte the peer has handed to
 * the socket and the reader has not taken yet, in order; `healthy` says whether a call on a
 * connection with work to do may report failure.
 */
module Socket {
  import opened Words
  import opened Endian
  import opened Wire

  class Pipe {
    var stream: seq<byte>
    const healthy: bool

    constructor (healthy: bool)
      ensures stream == [] && this.healthy == healthy
    {
      this.healthy := healthy;
      stream := [];
    }

    /** One `send`: some non-empty prefix is taken, or the call fails. */
    method Send(data: seq<byte>) returns (k: int)
      requires data != []
      modifies this
      ensures healthy ==> k > 0
      ensures k <= |data|
      ensures stream == old(stream) + data[..Max(k, 0)]
    {
      k := *;
      if k <= 0 && healthy {
        k := 1;
      } else if k > |data| {
        k := |data|;
      }
      if k > 0 {
        stream := stream + data[..k];
      }
    }

    /** One `recv` of at most n bytes: some non-empty chunk from the front, or failure. */
    method Recv(n: nat) returns (k: int, chunk: seq<byte>)
      requires n > 0
      modifies this
      ensures healthy && old(stream) != [] ==> k > 0
      ensures k <= n && k <= |old(stream)|
      ensures chunk == old(stream)[..Max(k, 0)] && stream == old(stream)[Max(k, 0)..]
    {
      k := *;
      if k <= 0 && healthy {
        k := 1;
      }
      k := Min(k, Min(n, |stream|));
      if k > 0 {
        chunk := stream[..k];
        stream := stream[k..];
      } else {
        chunk := [];
      }
    }
  }

  /** Repeats `send` until everything is taken. */
  method SendAll(pipe: Pipe, data: seq<byte>) returns (ok: bool)
    modifies pipe
    ensures ok ==> pipe.stream == old(pipe.stream) + data
    ensures exists n :: 0 <= n <= |data| && pipe.stream == old(pipe.stream) + data[..n]
    ensures pipe.healthy ==> ok
  {
    var sent := 0;
    while sent < |data|
      invariant 0 <= sent <= |data|
      invariant pipe.stream == old(pipe.stream) + data[..sent]
    {
      var k := pipe.Send(data[sent..]);
      assert data[..sent] + data[sent..][..Max(k, 0)] == data[..sent + Max(k, 0)];
      if k <= 0 {
        return false;
      }
      sent := sent + k;
    }
    assert data[..sent] == data;
    ok := true;
  }

  /** Repeats `recv` until exactly n bytes have arrived. */
  method RecvExact(pipe: Pipe, n: nat) returns (ok: bool, data: seq<byte>)
    modifies pipe
    ensures ok ==> n <= |old(pipe.stream)| && data == old(pipe.stream)[..n]
    ensures ok ==> pipe.stream == old(pipe.stream)[n..]
    ensures pipe.healthy && n <= |old(pipe.stream)| ==> ok
  {
    data := [];
    var got := 0;
    ghost var whole := pipe.stream;
    while got < n
      invariant got == |data| <= n
      invariant whole == data + pipe.stream
    {
      ghost var before := pipe.stream;
      var k, chunk := pipe.Recv(n - got);
      if k <= 0 {
        return false, data;
      }
      ChunkMoves(data, before, k);
      data := data + chunk;
      got := got + k;
    }
    TwoParts(data, pipe.stream);
    ok := true;
  }

  lemma ChunkMoves(data: seq<byte>, stream: seq<byte>, k: nat)
    requires k <= |stream|
    ensures data + stream == (data + stream[..k]) + stream[k..]
  {
  }

  lemma TwoParts(data: seq<byte>, rest: seq<byte>)
    ensures (data + rest)[..|data|] == data && (data + rest)[|data|..] == rest
  {
  }

  method SendFrame(pipe: Pipe, payload: seq<byte>) returns (ok: bool)
    modifies pipe
    ensures ok ==> |payload| <= MAX_FRAME_SIZE && pipe.stream == old(pipe.stream) + Frame(payload)
    ensures |payload| > MAX_FRAME_SIZE ==> !ok && pipe.stream == old(pipe.stream)
    ensures pipe.healthy && |payload| <= MAX_FRAME_SIZE ==> ok
  {
    var framed := AddFramePrefix(payload);
    if framed.Err? {
      return false;
    }
    ok := SendAll(pipe, framed.value);
  }

  /** Receives one frame: four length bytes, then as many bytes as they announce. */
  method RecvFrame(pipe: Pipe) returns (ok: bool, payload: seq<byte>)
    modifies pipe
    ensures ok ==> Framable(payload) && old(pipe.stream) == Frame(payload) + pipe.stream
    ensures pipe.healthy && ExtractSpec(old(pipe.stream)).Ok? ==> ok
  {
    payload := [];
    var lenBytes;
    ok, lenBytes := RecvExact(pipe, FRAME_LEN_WIDTH);
    if !ok {
      return;
    }
    ghost var rest := pipe.stream;
    assert lenBytes[0..4] == lenBytes == old(pipe.stream)[0..4];
    var len := Get(lenBytes, 0, FRAME_LEN_WIDTH);
    if len == 0 || len > MAX_FRAME_SIZE {
      return false, [];
    }
    ok, payload := RecvExact(pipe, len);
    if ok {
      LeOfFromLe(lenBytes);
      assert old(pipe.stream) == lenBytes + rest == lenBytes + (payload + pipe.stream);
    }
  }

  /** The bytes of a list of messages, one frame after the other. */
  function Transcript(ms: seq<Message>): seq<byte> {
    if |ms| == 0 then [] else Frame(Payload(ms[0])) + Transcript(ms[1..])
  }

  lemma {:induction false} TranscriptAppend(ms: seq<Message>, m: Message)
    ensures Transcript(ms + [m]) == Transcript(ms) + Frame(Payload(m))
  {
    if |ms| == 0 {
      assert ms + [m] == [m];
      assert Transcript([m]) == Frame(Payload(m)) + Transcript([]);
    } else {
      assert (ms + [m])[1..] == ms[1..] + [m];
      TranscriptAppend(ms[1..], m);
    }
  }

  lemma FrameIsExtracted(payload: seq<byte>, rest: seq<byte>)
    requires Framable(payload)
    ensures ExtractSpec(Frame(payload) + rest) == Ok(payload)
  {
    ExtractsExactlyTheFirstFrame(Frame(payload) + rest, payload);
  }

  /** Two framings of the same stream agree on the first payload and on what is left. */
  lemma FirstFrameUnique(p: seq<byte>, rest: seq<byte>, q: seq<byte>, left: seq<byte>)
    requires Framable(p) && Framable(q) && Frame(p) + rest == Frame(q) + left
    ensures p == q && rest == left
  {
    FrameIsExtracted(p, rest);
    FrameIsExtracted(q, left);
    assert (Frame(p) + rest)[|Frame(p)|..] == rest;
    assert (Frame(q) + left)[|Frame(q)|..] == left;
  }

  method SendMessage(pipe: Pipe, m: Message)
    requires pipe.healthy && Valid(m)
    modifies pipe
    ensures pipe.stream == old(pipe.stream) + Frame(Payload(m))
  {
    var e := Encode(m);
    EncodedIsFramable(m);
    var ok := SendFrame(pipe, e.value);
  }

  /** Receives the oldest message still in the pipe. */
  method ReceiveMessage(pipe: Pipe, ghost pending: seq<Message>) returns (m: Message)
    requires pipe.healthy && pending != [] && Valid(pending[0])
    requires pipe.stream == Transcript(pending)
    modifies pipe
    ensures m == pending[0] && pipe.stream == Transcript(pending[1..])
  {
    ghost var p := Payload(pending[0]);
    EncodedIsFramable(pending[0]);
    FrameIsExtracted(p, Transcript(pending[1..]));
    var ok, payload := RecvFrame(pipe);
    FirstFrameUnique(p, Transcript(pending[1..]), payload, pipe.stream);
    DecodesExactlyTheEncodings(payload, pending[0]);
    var d := Decode(payload);
    m := d.value;
  }

  /**
   * A whole conversation in one direction. Frames are sent and received in any order the
   * scheduler likes, every call splits the bytes as the socket likes, and still the messages
   * that arrive are the messages that were sent, in order and intact.
   */
  method Converse(pipe: Pipe, ms: seq<Message>) returns (received: seq<Message>)
    requires pipe.healthy && pipe.stream == []
    requires forall i :: 0 <= i < |ms| ==> Valid(ms[i])
    modifies pipe
    ensures received == ms && pipe.stream == []
  {
    received := [];
    var sent := 0;
    ghost var pending: seq<Message> := [];
    while |received| < |ms|
      invariant |received| <= sent <= |ms|
      invariant received + pending == ms[..sent]
      invariant pipe.stream == Transcript(pending)
      decreases |ms| - |received|, |ms| - sent
    {
      var sendNext: bool := *;
      if sent < |ms| && (sendNext || sent == |received|) {
        Enqueue(received, pending, ms, sent);
        pending := SendNext(pipe, ms[sent], pending);
        sent := sent + 1;
      } else {
        Dequeue(received, pending, ms, sent);
        var m := ReceiveMessage(pipe, pending);
        received, pending := received + [m], pending[1..];
      }
    }
  }

  lemma Enqueue<T>(done: seq<T>, pending: seq<T>, all: seq<T>, sent: nat)
    requires sent < |all| && done + pending == all[..sent]
    ensures done + (pending + [all[sent]]) == all[..sent + 1]
  {
    assert all[..sent + 1] == all[..sent] + [all[sent]];
  }

  lemma Dequeue<T>(done: seq<T>, pending: seq<T>, all: seq<T>, sent: nat)
    requires |done| < sent <= |all| && done + pending == all[..sent]
    ensures pending != [] && pending[0] == all[|done|]
    ensures (done + [pending[0]]) + pending[1..] == all[..sent]
  {
    assert (done + pending)[|done|] == pending[0];
    assert pending == [pending[0]] + pending[1..];
  }

  method SendNext(pipe: Pipe, m: Message, ghost pending: seq<Message>) returns (ghost queued: seq<Message>)
    requires pipe.healthy && Valid(m) && pipe.stream == Transcript(pending)
    modifies pipe
    ensures queued == pending + [m] && pipe.stream == Transcript(queued)
  {
    queued := pending + [m];
    TranscriptAppend(pending, m);
    SendMessage(pipe, m);
  }

  // ---------------------------------------------------------------------------
  // Reassembly as a function of the chunks alone
  // ---------------------------------------------------------------------------

  /** What a reader holds between two calls of `recv`: complete payloads, and the bytes of the next frame so far. */
  datatype Reader = Reader(done: seq<seq<byte>>, partial: seq<byte>)

  /** Moves every complete frame out of the partial bytes. */
  function Settle(r: Reader): Reader
    decreases |r.partial|
  {
    match ExtractSpec(r.partial)
    case Ok(payload) =>
      assert |r.partial| >= FRAME_LEN_WIDTH + |payload|;
      Settle(Reader(r.done + [payload], r.partial[FRAME_LEN_WIDTH + |payload|..]))
    case Err(_) => r
  }

  function Feed(r: Reader, chunks: seq<seq<byte>>): Reader
    decreases |chunks|
  {
    if |chunks| == 0 then r else Feed(Settle(r.(partial := r.partial + chunks[0])), chunks[1..])
  }

  function Concat(chunks: seq<seq<byte>>): seq<byte> {
    if |chunks| == 0 then [] else chunks[0] + Concat(chunks[1..])
  }

  /** Bytes that arrive later do not change the frames already complete. */
  lemma {:induction false} SettleThenMore(r: Reader, more: seq<byte>)
    ensures Settle(Settle(r).(partial := Settle(r).partial + more)) == Settle(r.(partial := r.partial + more))
    decreases |r.partial|
  {
    match ExtractSpec(r.partial)
    case Ok(payload) =>
      var n := FRAME_LEN_WIDTH + |payload|;
      ExtractsExactlyTheFirstFrame(r.partial, payload);
      var all := r.partial + more;
      assert Frame(payload) <= all by { assert all[..n] == r.partial[..n]; }
      ExtractsExactlyTheFirstFrame(all, payload);
      assert all[n..] == r.partial[n..] + more;
      SettleThenMore(Reader(r.done + [payload], r.partial[n..]), more);
    case Err(_) =>
  }

  /** However a byte string is cut into chunks, the reader ends in the same state. */
  lemma {:induction false} ChunkingIsInvisible(r: Reader, chunks: seq<seq<byte>>)
    requires Settle(r) == r
    ensures Feed(r, chunks) == Settle(r.(partial := r.partial + Concat(chunks)))
    decreases |chunks|
  {
    if |chunks| == 0 {
      assert r.partial + [] == r.partial;
    } else {
      var next := Settle(r.(partial := r.partial + chunks[0]));
      SettleTwice(r.(partial := r.partial + chunks[0]));
      ChunkingIsInvisible(next, chunks[1..]);
      SettleThenMore(r.(partial := r.partial + chunks[0]), Concat(chunks[1..]));
      assert r.partial + chunks[0] + Concat(chunks[1..]) == r.partial + Concat(chunks);
    }
  }

  lemma {:induction false} SettleTwice(r: Reader)
    ensures Settle(Settle(r)) == Settle(r)
    decreases |r.partial|
  {
    match ExtractSpec(r.partial)
    case Ok(payload) =>
      SettleTwice(Reader(r.done + [payload], r.partial[FRAME_LEN_WIDTH + |payload|..]));
    case Err(_) =>
  }

  lemma {:induction false} SettleOfTranscript(done: seq<seq<byte>>, ms: seq<Message>)
    requires forall m :: m in ms ==> Encodable(m)
    ensures Settle(Reader(done, Transcript(ms))) == Reader(done + Payloads(ms), [])
    decreases |ms|
  {
    hide Payload, ExtractSpec, Frame;
    if |ms| == 0 {
      NothingToSettle();
      assert done + [] == done;
    } else {
      var p := Payload(ms[0]);
      OneFrameSettles(done, ms);
      SettleOfTranscript(done + [p], ms[1..]);
      assert done + [p] + Payloads(ms[1..]) == done + Payloads(ms);
    }
  }

  lemma NothingToSettle()
    ensures ExtractSpec([]).Err?
  {
  }

  /** The first frame of a transcript moves out, and the rest of the transcript stays. */
  lemma OneFrameSettles(done: seq<seq<byte>>, ms: seq<Message>)
    requires |ms| > 0 && Encodable(ms[0])
    ensures Settle(Reader(done, Transcript(ms))) == Settle(Reader(done + [Payload(ms[0])], Transcript(ms[1..])))
  {
    hide Payload;
    var p := Payload(ms[0]);
    EncodedIsFramable(ms[0]);
    FrameIsExtracted(p, Transcript(ms[1..]));
    assert Transcript(ms)[|Frame(p)|..] == Transcript(ms[1..]);
  }

  function Payloads(ms: seq<Message>): seq<seq<byte>> {
    if |ms| == 0 then [] else [Payload(ms[0])] + Payloads(ms[1..])
  }

  /** Any chunking of the frames of any messages reassembles to exactly their payloads, with nothing left over. */
  lemma AnyChunkingReassembles(ms: seq<Message>, chunks: seq<seq<byte>>)
    requires forall m :: m in ms ==> Encodable(m)
    requires Concat(chunks) == Transcript(ms)
    ensures Feed(Reader([], []), chunks) == Reader(Payloads(ms), [])
  {
    ChunkingIsInvisible(Reader([], []), chunks);
    assert [] + Concat(chunks) == Transcript(ms);
    SettleOfTranscript([], ms);
    assert [] + Payloads(ms) == Payloads(ms);
  }
}
