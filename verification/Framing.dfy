// Framing and reassembly of the byte streams in PyConnectNetComm: clientDataSend writes
// '#', a native 16-bit length, the payload and '@'; processIncomingData recovers payloads
// from reads that cut the stream anywhere. Payloads are opaque here (they are encrypted).
module Framing {
  import opened Common

  const BUFFER_SIZE := 10240       // PYCONNECT_MSG_BUFFER_SIZE

  // ---------------------------------------------------------------- the sender

  // The memory image of a short on a host of the given byte order.
  function NativeShort(bigEndian: bool, n: nat): (b: seq<Byte>)
    requires n < 0x1_0000
    ensures |b| == 2 && n == ((if bigEndian then b[1] else b[0]) as int) + 256 * ((if bigEndian then b[0] else b[1]) as int)
  {
    if bigEndian then [n / 256, n % 256] else [n % 256, n / 256]
  }

  // The signed short that memcpy makes of two bytes.
  function ShortAt(bigEndian: bool, b: seq<Byte>): (n: int)
    requires |b| == 2
    ensures -0x8000 <= n < 0x8000
  {
    var lo: int, hi: int := (if bigEndian then b[1] else b[0]), (if bigEndian then b[0] else b[1]);
    var u := lo + 256 * hi;
    if u < 0x8000 then u else u - 0x1_0000
  }

  // The length of a frame arrives unchanged exactly when both ends have the same byte order
  // or its two bytes are equal.
  lemma ShortRoundTrip(sender: bool, receiver: bool, n: nat)
    requires n < 0x8000
    ensures ShortAt(receiver, NativeShort(sender, n)) == n <==> sender == receiver || n % 256 == n / 256
  {
    var b := NativeShort(sender, n);
    if sender != receiver {
      var u := n / 256 + 256 * (n % 256);
      assert n == n % 256 + 256 * (n / 256);
      assert u == n <==> 255 * (n % 256) == 255 * (n / 256);
    }
  }

  predicate Sendable(payload: seq<Byte>) {
    |payload| <= BUFFER_SIZE
  }

  function Frame(bigEndian: bool, payload: seq<Byte>): (f: seq<Byte>)
    requires Sendable(payload)
    ensures |f| == |payload| + 4
  {
    [MSG_INIT] + NativeShort(bigEndian, |payload|) + payload + [MSG_END]
  }

  ghost predicate AllSendable(ps: seq<seq<Byte>>) {
    forall i :: 0 <= i < |ps| ==> Sendable(ps[i])
  }

  // The byte stream of a list of payloads.
  ghost function Stream(bigEndian: bool, ps: seq<seq<Byte>>): seq<Byte>
    requires AllSendable(ps)
  {
    if ps == [] then [] else Frame(bigEndian, ps[0]) + Stream(bigEndian, ps[1..])
  }

  // clientDataSend: fill the dispatch buffer through a moving pointer.
  method FillDispatchBuffer(bigEndian: bool, output: seq<Byte>, buf: array<Byte>) returns (outputLength: nat)
    requires buf.Length == BUFFER_SIZE && |output| + 4 <= BUFFER_SIZE
    modifies buf
    ensures outputLength == |output| + 4
    ensures buf[..outputLength] == Frame(bigEndian, output)
  {
    var dataPtr := 0;
    buf[dataPtr] := MSG_INIT;
    dataPtr := dataPtr + 1;
    var opl := NativeShort(bigEndian, |output|);
    buf[dataPtr], buf[dataPtr + 1] := opl[0], opl[1];
    dataPtr := dataPtr + 2;
    forall i | 0 <= i < |output| {
      buf[dataPtr + i] := output[i];
    }
    dataPtr := dataPtr + |output|;
    buf[dataPtr] := MSG_END;
    outputLength := |output| + 4;
    assert buf[..outputLength] == [MSG_INIT] + opl + output + [MSG_END];
  }

  // ---------------------------------------------------------------- the receiver

  // The partial message of one connection: bufferedData[..bufferedDataLength] and
  // expectedDataLength. The buffered bytes are stale when nothing is expected.
  datatype Partial = Partial(buffered: seq<Byte>, expected: nat)

  // What one read leaves behind: the partial message and the payloads handed to processInput.
  datatype Outcome = Outcome(partial: Partial, delivered: seq<seq<Byte>>)

  function Deliver(payload: seq<Byte>, o: Outcome): Outcome {
    Outcome(o.partial, [payload] + o.delivered)
  }

  // The receive loop over what is left of one read.
  function Feed(bigEndian: bool, c: Partial, data: seq<Byte>): Outcome
    decreases |data|
  {
    if data == [] then Outcome(c, [])
    else if data[0] == MSG_INIT && c.expected == 0 then
      if |data| < 4 then Outcome(c, [])                            // too small
      else
        var count := ShortAt(bigEndian, data[1..3]);
        var body := data[3..];
        if count < 0 || count > BUFFER_SIZE then Outcome(c, [])    // invalid size
        else if count > |body| - 1 then Outcome(Partial(body, count - |body|), [])
        else if body[count] == MSG_END then Deliver(body[..count], Feed(bigEndian, c, body[count + 1..]))
        else Outcome(c, [])                                        // no end byte
    else if c.expected > 0 then
      if c.expected > |data| - 1 then Outcome(Partial(c.buffered + data, c.expected - |data|), [])
      else if data[c.expected] == MSG_END then
        Deliver(c.buffered + data[..c.expected], Feed(bigEndian, Partial([], 0), data[c.expected + 1..]))
      else Outcome(Partial([], 0), [])                             // unexpected fragment
    else Outcome(Partial([], 0), [])                               // invalid stream
  }

  // One turn of the receive loop, on the start of a message.
  lemma FeedOnNew(bigEndian: bool, c: Partial, data: seq<Byte>)
    requires data != [] && data[0] == MSG_INIT && c.expected == 0
    ensures Feed(bigEndian, c, data)
         == if |data| < 4 then Outcome(c, [])
            else
              var count, body := ShortAt(bigEndian, data[1..3]), data[3..];
              if 0 <= count <= BUFFER_SIZE && count > |body| - 1 then Outcome(Partial(body, count - |body|), [])
              else if 0 <= count < |body| && count <= BUFFER_SIZE && body[count] == MSG_END then
                Deliver(body[..count], Feed(bigEndian, c, body[count + 1..]))
              else Outcome(c, [])
  {
    hide ShortAt;
  }

  // One turn, on the rest of a message.
  lemma FeedOnCached(bigEndian: bool, c: Partial, data: seq<Byte>)
    requires data != [] && c.expected > 0
    ensures Feed(bigEndian, c, data)
         == if c.expected > |data| - 1 then Outcome(Partial(c.buffered + data, c.expected - |data|), [])
            else if data[c.expected] == MSG_END then
              Deliver(c.buffered + data[..c.expected], Feed(bigEndian, Partial([], 0), data[c.expected + 1..]))
            else Outcome(Partial([], 0), [])
  {
  }

  // One turn, on anything else: the rest of the read is dropped.
  lemma FeedOnStray(bigEndian: bool, c: Partial, data: seq<Byte>)
    requires data != [] && data[0] != MSG_INIT && c.expected == 0
    ensures Feed(bigEndian, c, data) == Outcome(Partial([], 0), [])
  {
  }

  function FeedAll(bigEndian: bool, c: Partial, chunks: seq<seq<Byte>>): Outcome
    decreases |chunks|
  {
    if chunks == [] then Outcome(c, [])
    else
      var o := Feed(bigEndian, c, chunks[0]);
      var o' := FeedAll(bigEndian, o.partial, chunks[1..]);
      Outcome(o'.partial, o.delivered + o'.delivered)
  }

  predicate Bounded(c: Partial) {
    |c.buffered| + c.expected <= BUFFER_SIZE
  }

  // Whatever bytes arrive, a partial message never outgrows its buffer.
  lemma FeedBounded(bigEndian: bool, c: Partial, data: seq<Byte>)
    requires Bounded(c)
    ensures Bounded(Feed(bigEndian, c, data).partial)
    decreases |data|
  {
  }

  // ---------------------------------------------------------------- conservation of bytes

  // How far a connection is inside the frame it is reassembling. What is buffered while
  // nothing is expected will never be delivered and does not count.
  function Offset(c: Partial): nat {
    if c.expected == 0 then 0 else 3 + |c.buffered|
  }

  function FramedLength(ps: seq<seq<Byte>>): nat {
    if ps == [] then 0 else |ps[0]| + 4 + FramedLength(ps[1..])
  }

  // The bytes accounted for by an outcome: the frames delivered and the frame begun.
  function Weight(o: Outcome): nat {
    FramedLength(o.delivered) + Offset(o.partial)
  }

  // No byte is counted twice: a read accounts for at most the bytes that came in.
  lemma FeedConserves(bigEndian: bool, c: Partial, data: seq<Byte>)
    ensures Weight(Feed(bigEndian, c, data)) <= Offset(c) + |data|
    decreases |data|
  {
  }

  lemma {:induction false} FramedLengthAppend(ps: seq<seq<Byte>>, qs: seq<seq<Byte>>)
    ensures FramedLength(ps + qs) == FramedLength(ps) + FramedLength(qs)
  {
    if ps == [] {
      assert ps + qs == qs;
    } else {
      FramedLengthAppend(ps[1..], qs);
      assert (ps + qs)[1..] == ps[1..] + qs;
    }
  }

  function Joined(chunks: seq<seq<Byte>>): seq<Byte> {
    if chunks == [] then [] else chunks[0] + Joined(chunks[1..])
  }

  lemma {:induction false} FeedAllConserves(bigEndian: bool, c: Partial, chunks: seq<seq<Byte>>)
    ensures Weight(FeedAll(bigEndian, c, chunks)) <= Offset(c) + |Joined(chunks)|
    decreases |chunks|
  {
    if chunks != [] {
      var o := Feed(bigEndian, c, chunks[0]);
      FeedConserves(bigEndian, c, chunks[0]);
      FeedAllConserves(bigEndian, o.partial, chunks[1..]);
      FramedLengthAppend(o.delivered, FeedAll(bigEndian, o.partial, chunks[1..]).delivered);
    }
  }

  // ---------------------------------------------------------------- where a stream may be cut

  // A cut at this position of the stream falls between two frames, or inside a frame behind
  // its first four bytes and not directly before its end byte.
  ghost predicate SafeCut(ps: seq<seq<Byte>>, pos: nat) {
    if ps == [] then true
    else if pos >= |ps[0]| + 4 then SafeCut(ps[1..], pos - (|ps[0]| + 4))
    else pos == 0 || 4 <= pos <= |ps[0]| + 2
  }

  // The number of frames that are complete at this position of the stream.
  function Whole(ps: seq<seq<Byte>>, pos: nat): (n: nat)
    ensures n <= |ps|
  {
    if ps == [] || pos < |ps[0]| + 4 then 0 else 1 + Whole(ps[1..], pos - (|ps[0]| + 4))
  }

  // Every read, the first starting at that position of the stream, ends at a safe cut.
  ghost predicate SafeReads(ps: seq<seq<Byte>>, pos: nat, chunks: seq<seq<Byte>>)
    decreases |chunks|
  {
    chunks != [] ==>
      SafeCut(ps, pos + |chunks[0]|) && SafeReads(ps, pos + |chunks[0]|, chunks[1..])
  }

  lemma {:induction false} SafeCutBehind(ps: seq<seq<Byte>>, n: nat, pos: nat)
    requires n <= |ps|
    ensures SafeCut(ps, FramedLength(ps[..n]) + pos) == SafeCut(ps[n..], pos)
  {
    if n > 0 {
      assert ps[..n][1..] == ps[1..][..n - 1];
      SafeCutBehind(ps[1..], n - 1, pos);
    }
  }

  lemma {:induction false} SafeReadsBehind(ps: seq<seq<Byte>>, n: nat, pos: nat, chunks: seq<seq<Byte>>)
    requires n <= |ps|
    ensures SafeReads(ps, FramedLength(ps[..n]) + pos, chunks) == SafeReads(ps[n..], pos, chunks)
    decreases |chunks|
  {
    if chunks != [] {
      SafeCutBehind(ps, n, pos + |chunks[0]|);
      SafeReadsBehind(ps, n, pos + |chunks[0]|, chunks[1..]);
    }
  }

  lemma StreamLength(bigEndian: bool, ps: seq<seq<Byte>>)
    requires AllSendable(ps)
    ensures |Stream(bigEndian, ps)| == FramedLength(ps)
  {
  }

  // The connection has taken in exactly the part of the stream of ps that is before `ahead`:
  // it is at a frame boundary, or inside the first frame with its first bytes in the buffer.
  ghost predicate Expects(bigEndian: bool, c: Partial, ps: seq<seq<Byte>>, ahead: seq<Byte>)
    requires AllSendable(ps)
  {
    if c.expected == 0 then ahead == Stream(bigEndian, ps)
    else
      && ps != []
      && 0 < |c.buffered| && |c.buffered| + c.expected == |ps[0]|
      && c.buffered == ps[0][..|c.buffered|]
      && ahead == ps[0][|c.buffered|..] + [MSG_END] + Stream(bigEndian, ps[1..])
  }

  // The outcome of taking in `len` expected bytes from an offset of the stream of ps: the frames
  // completed are delivered. If they end at a safe cut, the connection expects the rest; otherwise
  // the frame begun is lost.
  ghost predicate FedUpTo(bigEndian: bool, ps: seq<seq<Byte>>, offset: nat, len: nat, o: Outcome, ahead: seq<Byte>)
    requires AllSendable(ps)
  {
    var n := Whole(ps, offset + len);
    && o.delivered == ps[..n]
    && if SafeCut(ps, offset + len) then
         Expects(bigEndian, o.partial, ps[n..], ahead) && Weight(o) == offset + len
       else o.partial.expected == 0 && Weight(o) < offset + len
  }

  lemma FedOneMore(bigEndian: bool, ps: seq<seq<Byte>>, offset: nat, len: nat, rest: nat, o: Outcome, ahead: seq<Byte>)
    requires ps != [] && AllSendable(ps)
    requires offset + len == |ps[0]| + 4 + rest
    requires FedUpTo(bigEndian, ps[1..], 0, rest, o, ahead)
    ensures FedUpTo(bigEndian, ps, offset, len, Deliver(ps[0], o), ahead)
  {
    var d := Deliver(ps[0], o);
    assert d.delivered[1..] == o.delivered;
    var n := Whole(ps[1..], rest);
    assert d.delivered == ps[..n + 1];
    assert ps[1..][n..] == ps[n + 1..];
  }

  lemma {:induction false} FeedUpTo(bigEndian: bool, c: Partial, ps: seq<seq<Byte>>, data: seq<Byte>, ahead: seq<Byte>)
    requires AllSendable(ps) && Expects(bigEndian, c, ps, data + ahead)
    ensures FedUpTo(bigEndian, ps, Offset(c), |data|, Feed(bigEndian, c, data), ahead)
    decreases |data|
  {
    if data == [] {
      assert data + ahead == ahead;
      assert ps[..0] == [] && ps[0..] == ps;
    } else if c.expected > 0 {
      FeedRestOfFrame(bigEndian, c, ps, data, ahead);
    } else {
      FeedNewFrame(bigEndian, c, ps, data, ahead);
    }
  }

  lemma {:induction false} FeedRestOfFrame(bigEndian: bool, c: Partial, ps: seq<seq<Byte>>, data: seq<Byte>, ahead: seq<Byte>)
    requires AllSendable(ps) && Expects(bigEndian, c, ps, data + ahead)
    requires data != [] && c.expected > 0
    ensures FedUpTo(bigEndian, ps, Offset(c), |data|, Feed(bigEndian, c, data), ahead)
    decreases |data|, 0
  {
    hide Feed, FedUpTo, SafeCut, Stream;
    FeedOnCached(bigEndian, c, data);
    if c.expected >= |data| {
      HoldMore(bigEndian, c, ps, data, ahead);
    } else {
      var missing := ps[0][|c.buffered|..];
      BodyEnds(data, ahead, missing, Stream(bigEndian, ps[1..]));
      var rest := data[c.expected + 1..];
      assert c.buffered + missing == ps[0];
      FeedUpTo(bigEndian, Partial([], 0), ps[1..], rest, ahead);
      FedOneMore(bigEndian, ps, Offset(c), |data|, |rest|, Feed(bigEndian, Partial([], 0), rest), ahead);
    }
  }

  // The frame in the buffer is still not complete, or just misses its end byte.
  lemma HoldMore(bigEndian: bool, c: Partial, ps: seq<seq<Byte>>, data: seq<Byte>, ahead: seq<Byte>)
    requires AllSendable(ps) && Expects(bigEndian, c, ps, data + ahead)
    requires 0 < |data| <= c.expected
    ensures FedUpTo(bigEndian, ps, Offset(c), |data|, Outcome(Partial(c.buffered + data, c.expected - |data|), []), ahead)
  {
    hide Stream;
    var n, tail := |c.buffered|, [MSG_END] + Stream(bigEndian, ps[1..]);
    var missing := ps[0][n..];
    assert ps[..0] == [] && ps[0..] == ps;
    ConcatAssoc(missing, [MSG_END], Stream(bigEndian, ps[1..]));
    SplitPrefix(data, ahead, missing, tail);
    assert missing[..|data|] == ps[0][n..n + |data|] && missing[|data|..] == ps[0][n + |data|..];
    assert c.buffered + data == ps[0][..n + |data|];
    ConcatAssoc(missing[|data|..], [MSG_END], Stream(bigEndian, ps[1..]));
  }

  lemma StreamHead(bigEndian: bool, ps: seq<seq<Byte>>)
    requires AllSendable(ps) && ps != []
    ensures Stream(bigEndian, ps)
         == ([MSG_INIT] + NativeShort(bigEndian, |ps[0]|)) + (ps[0] + [MSG_END] + Stream(bigEndian, ps[1..]))
  {
  }

  // Less than the four bytes a frame starts with: the read is dropped.
  lemma DropHeader(bigEndian: bool, c: Partial, ps: seq<seq<Byte>>, data: seq<Byte>, ahead: seq<Byte>)
    requires AllSendable(ps) && ps != [] && c.expected == 0 && 0 < |data| < 4
    ensures FedUpTo(bigEndian, ps, 0, |data|, Outcome(c, []), ahead)
  {
  }

  // The body of a frame that starts in this read ends in a later one, or just misses its end byte.
  lemma HoldFrame(bigEndian: bool, ps: seq<seq<Byte>>, body: seq<Byte>, ahead: seq<Byte>)
    requires AllSendable(ps) && ps != [] && 0 < |body| <= |ps[0]|
    requires body + ahead == ps[0] + [MSG_END] + Stream(bigEndian, ps[1..])
    ensures FedUpTo(bigEndian, ps, 0, 3 + |body|, Outcome(Partial(body, |ps[0]| - |body|), []), ahead)
  {
    var tail := ps[0] + [MSG_END] + Stream(bigEndian, ps[1..]);
    assert ps[..0] == [] && ps[0..] == ps;
    assert body == tail[..|body|] == ps[0][..|body|];
    assert ahead == tail[|body|..] == ps[0][|body|..] + [MSG_END] + Stream(bigEndian, ps[1..]);
  }

  lemma HeaderAndBody(bigEndian: bool, data: seq<Byte>, ahead: seq<Byte>, len: nat, tail: seq<Byte>)
    requires |data| >= 4 && len <= BUFFER_SIZE
    requires data + ahead == ([MSG_INIT] + NativeShort(bigEndian, len)) + tail
    ensures data[0] == MSG_INIT && ShortAt(bigEndian, data[1..3]) == len && data[3..] + ahead == tail
  {
    var all := data + ahead;
    assert data[..3] == all[..3] == [MSG_INIT] + NativeShort(bigEndian, len);
    assert data[1..3] == data[..3][1..] == NativeShort(bigEndian, len);
    assert data[3..] + ahead == all[3..] == tail;
    ShortRoundTrip(bigEndian, bigEndian, len);
  }

  lemma BodyEnds(body: seq<Byte>, ahead: seq<Byte>, p: seq<Byte>, stream: seq<Byte>)
    requires |p| < |body| && body + ahead == p + [MSG_END] + stream
    ensures body[..|p|] == p && body[|p|] == MSG_END && body[|p| + 1..] + ahead == stream
  {
    var all := body + ahead;
    assert body[..|p|] == all[..|p|] && body[|p|] == all[|p|];
    assert body[|p| + 1..] + ahead == all[|p| + 1..];
  }

  lemma {:induction false} FeedNewFrame(bigEndian: bool, c: Partial, ps: seq<seq<Byte>>, data: seq<Byte>, ahead: seq<Byte>)
    requires AllSendable(ps) && data + ahead == Stream(bigEndian, ps)
    requires data != [] && c.expected == 0
    ensures FedUpTo(bigEndian, ps, 0, |data|, Feed(bigEndian, c, data), ahead)
    decreases |data|, 1
  {
    assert ps != [];
    hide Feed, FedUpTo;
    var len, tail := |ps[0]|, ps[0] + [MSG_END] + Stream(bigEndian, ps[1..]);
    StreamHead(bigEndian, ps);
    if |data| < 4 {
      assert data[0] == (data + ahead)[0] == MSG_INIT;
      DropHeader(bigEndian, c, ps, data, ahead);
    } else {
      HeaderAndBody(bigEndian, data, ahead, len, tail);
      FeedOnNew(bigEndian, c, data);
      if len >= |data[3..]| {
        HoldFrame(bigEndian, ps, data[3..], ahead);
      } else {
        FeedFullFrame(bigEndian, c, ps, data, ahead);
      }
    }
  }

  lemma {:induction false} FeedFullFrame(bigEndian: bool, c: Partial, ps: seq<seq<Byte>>, data: seq<Byte>, ahead: seq<Byte>)
    requires AllSendable(ps) && ps != [] && c.expected == 0
    requires |data| >= |ps[0]| + 4 && data[0] == MSG_INIT && ShortAt(bigEndian, data[1..3]) == |ps[0]|
    requires data[3..] + ahead == ps[0] + [MSG_END] + Stream(bigEndian, ps[1..])
    ensures FedUpTo(bigEndian, ps, 0, |data|, Feed(bigEndian, c, data), ahead)
    decreases |data|, 0
  {
    hide Feed, FedUpTo, Stream;
    var body, len := data[3..], |ps[0]|;
    var rest := body[len + 1..];
    FeedOnNew(bigEndian, c, data);
    BodyEnds(body, ahead, ps[0], Stream(bigEndian, ps[1..]));
    FeedUpTo(bigEndian, c, ps[1..], rest, ahead);
    FedOneMore(bigEndian, ps, 0, |data|, |rest|, Feed(bigEndian, c, rest), ahead);
  }

  // ---------------------------------------------------------------- the main results

  // After a first read that ends at a safe cut, the rest of the reads is judged from there.
  lemma {:induction false} FirstReadSafe(bigEndian: bool, c: Partial, ps: seq<seq<Byte>>, chunks: seq<seq<Byte>>)
    requires AllSendable(ps) && chunks != [] && Expects(bigEndian, c, ps, Joined(chunks))
    requires SafeCut(ps, Offset(c) + |chunks[0]|)
    ensures var o := Feed(bigEndian, c, chunks[0]);
            && FedUpTo(bigEndian, ps, Offset(c), |chunks[0]|, o, Joined(chunks[1..]))
            && (SafeReads(ps, Offset(c), chunks) <==> SafeReads(ps[|o.delivered|..], Offset(o.partial), chunks[1..]))
  {
    hide Feed, SafeCut, Stream;
    var o := Feed(bigEndian, c, chunks[0]);
    FeedUpTo(bigEndian, c, ps, chunks[0], Joined(chunks[1..]));
    SafeReadsBehind(ps, |o.delivered|, Offset(o.partial), chunks[1..]);
  }

  lemma {:induction false} SafeReadsDeliver(bigEndian: bool, c: Partial, ps: seq<seq<Byte>>, chunks: seq<seq<Byte>>)
    requires AllSendable(ps) && Expects(bigEndian, c, ps, Joined(chunks))
    requires SafeReads(ps, Offset(c), chunks)
    ensures FeedAll(bigEndian, c, chunks).delivered == ps
    ensures FeedAll(bigEndian, c, chunks).partial.expected == 0
    decreases |chunks|
  {
    if chunks != [] {
      var o := Feed(bigEndian, c, chunks[0]);
      FirstReadSafe(bigEndian, c, ps, chunks);
      SafeReadsDeliver(bigEndian, o.partial, ps[|o.delivered|..], chunks[1..]);
      assert ps[..|o.delivered|] + ps[|o.delivered|..] == ps;
    }
  }

  lemma {:induction false} UnsafeReadsLose(bigEndian: bool, c: Partial, ps: seq<seq<Byte>>, chunks: seq<seq<Byte>>)
    requires AllSendable(ps) && Expects(bigEndian, c, ps, Joined(chunks))
    requires !SafeReads(ps, Offset(c), chunks)
    ensures Weight(FeedAll(bigEndian, c, chunks)) < Offset(c) + |Joined(chunks)|
    decreases |chunks|
  {
    var o := Feed(bigEndian, c, chunks[0]);
    FramedLengthAppend(o.delivered, FeedAll(bigEndian, o.partial, chunks[1..]).delivered);
    if SafeCut(ps, Offset(c) + |chunks[0]|) {
      FirstReadSafe(bigEndian, c, ps, chunks);
      UnsafeReadsLose(bigEndian, o.partial, ps[|o.delivered|..], chunks[1..]);
    } else {
      FeedUpTo(bigEndian, c, ps, chunks[0], Joined(chunks[1..]));
      FeedAllConserves(bigEndian, o.partial, chunks[1..]);
    }
  }

  // However a stream of frames is cut into reads, the receive loop hands on exactly the
  // payloads sent, once each and in order, if and only if no read ends behind the first,
  // second or third byte of a frame or directly before its end byte. The connection may be
  // in any state at a frame boundary, whatever went wrong on it before.
  lemma DeliveredExactlyWhenSafe(bigEndian: bool, c: Partial, ps: seq<seq<Byte>>, chunks: seq<seq<Byte>>)
    requires AllSendable(ps) && c.expected == 0
    requires Joined(chunks) == Stream(bigEndian, ps)
    ensures FeedAll(bigEndian, c, chunks).delivered == ps <==> SafeReads(ps, 0, chunks)
    ensures SafeReads(ps, 0, chunks) ==> FeedAll(bigEndian, c, chunks).partial.expected == 0
  {
    if SafeReads(ps, 0, chunks) {
      SafeReadsDeliver(bigEndian, c, ps, chunks);
    } else {
      UnsafeReadsLose(bigEndian, c, ps, chunks);
      StreamLength(bigEndian, ps);
    }
  }
}
