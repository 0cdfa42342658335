// What is delivered of a stream of frames when reads end at unsafe cuts: exactly which frames are
// lost, by the positions of the reads in the stream.
module FramingLosses {
  import opened Common
  import opened Framing

  // ---------------------------------------------------------------- places in a stream

  // Where a connection is in a stream: the frames that are not complete, how far it has read behind
  // the beginning of the first of them, and whether it is in step with the stream.
  datatype Place = Place(frames: seq<seq<Byte>>, offset: nat, inStep: bool)

  lemma {:induction false} WholeFits(ps: seq<seq<Byte>>, pos: nat)
    ensures FramedLength(ps[..Whole(ps, pos)]) <= pos
    ensures pos <= FramedLength(ps) ==>
              pos - FramedLength(ps[..Whole(ps, pos)]) <= FramedLength(ps[Whole(ps, pos)..])
  {
    if ps != [] && pos >= |ps[0]| + 4 {
      var n := Whole(ps, pos);
      WholeFits(ps[1..], pos - (|ps[0]| + 4));
      assert ps[..n][1..] == ps[1..][..n - 1] && ps[n..] == ps[1..][n - 1..];
    } else {
      assert ps[..0] == [] && ps[0..] == ps;
    }
  }

  // A read of len bytes leads on. One that ends at an unsafe cut puts the connection out of step;
  // one that ends between two frames puts it in step again.
  ghost function Onward(p: Place, len: nat): Place {
    var end := p.offset + len;
    var n := Whole(p.frames, end);
    WholeFits(p.frames, end);
    var behind := end - FramedLength(p.frames[..n]);
    Place(p.frames[n..], behind, if p.inStep then SafeCut(p.frames, end) else behind == 0)
  }

  // What reads of these lengths deliver: the frames they complete, while in step.
  ghost function Heard(p: Place, chunks: seq<seq<Byte>>): seq<seq<Byte>>
    decreases |chunks|
  {
    if chunks == [] then []
    else
      (if p.inStep then p.frames[..Whole(p.frames, p.offset + |chunks[0]|)] else [])
      + Heard(Onward(p, |chunks[0]|), chunks[1..])
  }

  // No read out of step starts with a byte that looks like the start of a frame.
  ghost predicate NoFalseStart(p: Place, chunks: seq<seq<Byte>>)
    decreases |chunks|
  {
    chunks != [] ==>
      && (!p.inStep && chunks[0] != [] ==> chunks[0][0] != MSG_INIT)
      && NoFalseStart(Onward(p, |chunks[0]|), chunks[1..])
  }

  // ---------------------------------------------------------------- a connection at a place

  // The connection is at this place of the stream, and `ahead` is what it has still to read.
  ghost predicate At(bigEndian: bool, c: Partial, p: Place, ahead: seq<Byte>) {
    && AllSendable(p.frames) && p.offset <= |Stream(bigEndian, p.frames)|
    && ahead == Stream(bigEndian, p.frames)[p.offset..]
    && if p.inStep then Expects(bigEndian, c, p.frames, ahead) && p.offset == Offset(c) else c.expected == 0
  }

  lemma {:induction false} StreamBehind(bigEndian: bool, ps: seq<seq<Byte>>, n: nat)
    requires AllSendable(ps) && n <= |ps|
    ensures FramedLength(ps[..n]) <= |Stream(bigEndian, ps)|
    ensures Stream(bigEndian, ps)[FramedLength(ps[..n])..] == Stream(bigEndian, ps[n..])
  {
    hide Frame;
    if n > 0 {
      StreamBehind(bigEndian, ps[1..], n - 1);
      assert ps[..n][1..] == ps[1..][..n - 1] && ps[n..] == ps[1..][n - 1..];
      var k := FramedLength(ps[..n]);
      assert k == |Frame(bigEndian, ps[0])| + FramedLength(ps[1..][..n - 1]);
      DropBoth(Frame(bigEndian, ps[0]), Stream(bigEndian, ps[1..]), FramedLength(ps[1..][..n - 1]));
    } else {
      assert ps[..0] == [] && ps[0..] == ps;
    }
  }

  lemma DropBoth<T>(s: seq<T>, t: seq<T>, k: nat)
    requires k <= |t|
    ensures (s + t)[|s| + k..] == t[k..]
  {
  }

  // The rest of the stream, seen from the first frame that is not complete.
  lemma RestBehind(bigEndian: bool, p: Place, chunk: seq<Byte>, ahead: seq<Byte>)
    requires AllSendable(p.frames) && p.offset <= |Stream(bigEndian, p.frames)|
    requires chunk + ahead == Stream(bigEndian, p.frames)[p.offset..]
    ensures var q := Onward(p, |chunk|);
            && AllSendable(q.frames) && q.offset <= |Stream(bigEndian, q.frames)|
            && ahead == Stream(bigEndian, q.frames)[q.offset..]
  {
    hide Stream, Whole;
    var end, stream := p.offset + |chunk|, Stream(bigEndian, p.frames);
    var n := Whole(p.frames, end);
    WholeFits(p.frames, end);
    StreamBehind(bigEndian, p.frames, n);
    StreamLength(bigEndian, p.frames);
    StreamLength(bigEndian, p.frames[n..]);
    assert ahead == (chunk + ahead)[|chunk|..] == stream[end..];
    var k := FramedLength(p.frames[..n]);
    assert stream[end..] == stream[k..][end - k..];
  }

  lemma ReadLeadsOn(bigEndian: bool, c: Partial, p: Place, chunk: seq<Byte>, ahead: seq<Byte>)
    requires At(bigEndian, c, p, chunk + ahead) && (!p.inStep && chunk != [] ==> chunk[0] != MSG_INIT)
    ensures var o := Feed(bigEndian, c, chunk);
            && o.delivered == (if p.inStep then p.frames[..Whole(p.frames, p.offset + |chunk|)] else [])
            && At(bigEndian, o.partial, Onward(p, |chunk|), ahead)
  {
    hide Feed, Stream, Whole, SafeCut;
    RestBehind(bigEndian, p, chunk, ahead);
    if p.inStep {
      FeedUpTo(bigEndian, c, p.frames, chunk, ahead);
      WholeFits(p.frames, p.offset + |chunk|);
    } else if chunk == [] {
      NothingRead(bigEndian, c);
      OutOfStep(bigEndian, c, Onward(p, 0), ahead);
    } else {
      FeedOnStray(bigEndian, c, chunk);
      OutOfStep(bigEndian, Partial([], 0), Onward(p, |chunk|), ahead);
    }
  }

  lemma NothingRead(bigEndian: bool, c: Partial)
    ensures Feed(bigEndian, c, []) == Outcome(c, [])
  {
  }

  lemma OutOfStep(bigEndian: bool, c: Partial, p: Place, ahead: seq<Byte>)
    requires c.expected == 0 && (p.inStep ==> p.offset == 0)
    requires AllSendable(p.frames) && p.offset <= |Stream(bigEndian, p.frames)|
    requires ahead == Stream(bigEndian, p.frames)[p.offset..]
    ensures At(bigEndian, c, p, ahead)
  {
    hide Stream;
  }

  lemma Begins(bigEndian: bool, c: Partial, ps: seq<seq<Byte>>)
    requires AllSendable(ps) && c.expected == 0
    ensures At(bigEndian, c, Place(ps, 0, true), Stream(bigEndian, ps))
  {
    hide Stream;
    assert Stream(bigEndian, ps)[0..] == Stream(bigEndian, ps);
  }

  // ---------------------------------------------------------------- any reads

  lemma {:induction false} ReadsAreHeard(bigEndian: bool, c: Partial, p: Place, chunks: seq<seq<Byte>>)
    requires At(bigEndian, c, p, Joined(chunks)) && NoFalseStart(p, chunks)
    ensures FeedAll(bigEndian, c, chunks).delivered == Heard(p, chunks)
    decreases |chunks|
  {
    hide Feed, At, Onward, Whole;
    if chunks != [] {
      ReadLeadsOn(bigEndian, c, p, chunks[0], Joined(chunks[1..]));
      ReadsAreHeard(bigEndian, Feed(bigEndian, c, chunks[0]).partial, Onward(p, |chunks[0]|), chunks[1..]);
    }
  }

  // However a stream of frames is cut into reads, as long as no read out of step starts like a
  // frame: exactly those frames are delivered that are completed in step. The rest of a frame that
  // an unsafe cut fell into is lost with the read behind it, and so is all that is read until a
  // read ends between two frames.
  lemma DeliveredWhileInStep(bigEndian: bool, c: Partial, ps: seq<seq<Byte>>, chunks: seq<seq<Byte>>)
    requires AllSendable(ps) && c.expected == 0 && Joined(chunks) == Stream(bigEndian, ps)
    requires NoFalseStart(Place(ps, 0, true), chunks)
    ensures FeedAll(bigEndian, c, chunks).delivered == Heard(Place(ps, 0, true), chunks)
  {
    hide Stream;
    Begins(bigEndian, c, ps);
    ReadsAreHeard(bigEndian, c, Place(ps, 0, true), chunks);
  }

  // ---------------------------------------------------------------- one unsafe cut

  lemma {:induction false} WholeAt(ps: seq<seq<Byte>>, m: nat)
    requires m <= |ps|
    ensures Whole(ps, FramedLength(ps[..m])) == m
  {
    if m > 0 {
      assert ps[..m][1..] == ps[1..][..m - 1];
      WholeAt(ps[1..], m - 1);
    }
  }

  lemma {:induction false} WholeBehind(ps: seq<seq<Byte>>, n: nat, pos: nat)
    requires n <= |ps|
    ensures Whole(ps, FramedLength(ps[..n]) + pos) == n + Whole(ps[n..], pos)
  {
    if n > 0 {
      assert ps[..n][1..] == ps[1..][..n - 1] && ps[n..] == ps[1..][n - 1..];
      WholeBehind(ps[1..], n - 1, pos);
    } else {
      assert ps[..0] == [] && ps[0..] == ps;
    }
  }

  // Safe reads from a boundary on are heard in full.
  lemma {:induction false} SafeIsHeard(bigEndian: bool, c: Partial, ps: seq<seq<Byte>>, chunks: seq<seq<Byte>>)
    requires AllSendable(ps) && c.expected == 0 && Joined(chunks) == Stream(bigEndian, ps) && SafeReads(ps, 0, chunks)
    ensures FeedAll(bigEndian, c, chunks).delivered == ps
  {
    hide Stream;
    SafeReadsDeliver(bigEndian, c, ps, chunks);
  }

  lemma FeedTwo(bigEndian: bool, c: Partial, first: seq<Byte>, next: seq<Byte>, rest: seq<seq<Byte>>)
    ensures var o := Feed(bigEndian, c, first);
            var o' := Feed(bigEndian, o.partial, next);
            FeedAll(bigEndian, c, [first, next] + rest).delivered
            == o.delivered + (o'.delivered + FeedAll(bigEndian, o'.partial, rest).delivered)
  {
    hide Feed;
    assert ([first, next] + rest)[1..] == [next] + rest && ([next] + rest)[1..] == rest;
  }

  // The read out of step: it is lost, and where it ends between two frames it leads on in step.
  lemma NextIsLost(bigEndian: bool, c: Partial, p: Place, next: seq<Byte>, ahead: seq<Byte>, m: nat)
    requires At(bigEndian, c, p, next + ahead) && !p.inStep && next != [] && next[0] != MSG_INIT
    requires m <= |p.frames| && p.offset + |next| == FramedLength(p.frames[..m])
    ensures var o := Feed(bigEndian, c, next);
            o == Outcome(Partial([], 0), []) && AllSendable(p.frames[m..]) && ahead == Stream(bigEndian, p.frames[m..])
  {
    hide Feed, Stream, Whole;
    WholeAt(p.frames, m);
    FeedOnStray(bigEndian, c, next);
    RestBehind(bigEndian, p, next, ahead);
    var q := Onward(p, |next|);
    assert q.offset == 0 && q.frames == p.frames[m..];
    assert Stream(bigEndian, q.frames)[0..] == Stream(bigEndian, q.frames);
  }

  // Seen from the first frame that is not complete, the next read ends behind frame m of all.
  lemma OnwardUpTo(p: Place, len: nat, next: nat, m: nat)
    requires p.offset == 0 && p.inStep && m <= |p.frames| && len + next == FramedLength(p.frames[..m])
    ensures var q, n := Onward(p, len), Whole(p.frames, len);
            && n <= m && q.frames == p.frames[n..] && q.frames[m - n..] == p.frames[m..]
            && (q.inStep <==> SafeCut(p.frames, len))
            && q.offset + next == FramedLength(q.frames[..m - n])
  {
    hide SafeCut, Whole;
    var n := Whole(p.frames, len);
    WholeFits(p.frames, len);
    WholeBehind(p.frames, n, len + next - FramedLength(p.frames[..n]));
    WholeAt(p.frames, m);
    LengthBetween(p.frames, n, m);
  }

  // What the two reads deliver, and what is then still to come.
  lemma TwoReads(bigEndian: bool, c: Partial, ps: seq<seq<Byte>>, first: seq<Byte>, next: seq<Byte>, m: nat,
                 ahead: seq<Byte>)
    requires AllSendable(ps) && c.expected == 0 && first + (next + ahead) == Stream(bigEndian, ps)
    requires !SafeCut(ps, |first|) && next != [] && next[0] != MSG_INIT
    requires m <= |ps| && |first| + |next| == FramedLength(ps[..m])
    ensures var o := Feed(bigEndian, c, first);
            && o.delivered == ps[..Whole(ps, |first|)]
            && Feed(bigEndian, o.partial, next) == Outcome(Partial([], 0), [])
    ensures AllSendable(ps[m..]) && ahead == Stream(bigEndian, ps[m..])
  {
    hide Feed, Stream, SafeCut, At, Whole, Onward, FramedLength, AllSendable;
    OnwardUpTo(Place(ps, 0, true), |first|, |next|, m);
    FirstRead(bigEndian, c, ps, first, next + ahead);
    var q, k := Onward(Place(ps, 0, true), |first|), m - Whole(ps, |first|);
    NextIsLost(bigEndian, Feed(bigEndian, c, first).partial, q, next, ahead, k);
    SameStream(bigEndian, q.frames[k..], ps[m..]);
  }

  lemma SameStream(bigEndian: bool, ps: seq<seq<Byte>>, qs: seq<seq<Byte>>)
    requires AllSendable(ps) && ps == qs
    ensures AllSendable(qs) && Stream(bigEndian, qs) == Stream(bigEndian, ps)
  {
    hide Stream, AllSendable;
  }

  lemma FirstRead(bigEndian: bool, c: Partial, ps: seq<seq<Byte>>, first: seq<Byte>, ahead: seq<Byte>)
    requires AllSendable(ps) && c.expected == 0 && first + ahead == Stream(bigEndian, ps)
    ensures var o := Feed(bigEndian, c, first);
            && o.delivered == ps[..Whole(ps, |first|)]
            && At(bigEndian, o.partial, Onward(Place(ps, 0, true), |first|), ahead)
  {
    hide Feed, Stream, At, Whole, Onward, AllSendable;
    Begins(bigEndian, c, ps);
    ReadLeadsOn(bigEndian, c, Place(ps, 0, true), first, ahead);
  }

  // A read that ends at an unsafe cut costs the frame it falls into and everything in the next
  // read, if that does not start like a frame. If the next read ends between two frames, all that
  // follows at safe cuts is delivered again.
  lemma LostAndFound(bigEndian: bool, c: Partial, ps: seq<seq<Byte>>, first: seq<Byte>, next: seq<Byte>, m: nat,
                     rest: seq<seq<Byte>>)
    requires AllSendable(ps) && c.expected == 0 && first + (next + Joined(rest)) == Stream(bigEndian, ps)
    requires !SafeCut(ps, |first|) && next != [] && next[0] != MSG_INIT
    requires m <= |ps| && |first| + |next| == FramedLength(ps[..m]) && SafeReads(ps[m..], 0, rest)
    ensures FeedAll(bigEndian, c, [first, next] + rest).delivered == ps[..Whole(ps, |first|)] + ps[m..]
  {
    hide Feed, Stream, SafeCut, SafeReads, FeedAll, Whole, Joined, FramedLength, AllSendable;
    TwoReads(bigEndian, c, ps, first, next, m, Joined(rest));
    SafeIsHeard(bigEndian, Partial([], 0), ps[m..], rest);
    FeedTwo(bigEndian, c, first, next, rest);
    assert [] + ps[m..] == ps[m..];
  }

  lemma {:induction false} LengthBetween(ps: seq<seq<Byte>>, n: nat, m: nat)
    requires n <= m <= |ps|
    ensures FramedLength(ps[n..][..m - n]) == FramedLength(ps[..m]) - FramedLength(ps[..n])
  {
    assert ps[..m] == ps[..n] + ps[n..][..m - n];
    FramedLengthAppend(ps[..n], ps[n..][..m - n]);
  }

  // Directly before an end byte the next read starts with that byte, which starts no frame.
  lemma EndByteStartsNoFrame(bigEndian: bool, ps: seq<seq<Byte>>, k: nat, first: seq<Byte>, next: seq<Byte>,
                             ahead: seq<Byte>)
    requires AllSendable(ps) && k < |ps| && next != [] && first + (next + ahead) == Stream(bigEndian, ps)
    requires |first| == FramedLength(ps[..k]) + 3 + |ps[k]|
    ensures next[0] == MSG_END && next[0] != MSG_INIT && !SafeCut(ps, |first|) && Whole(ps, |first|) == k
  {
    hide Stream;
    var stream, p := Stream(bigEndian, ps), ps[k];
    StreamBehind(bigEndian, ps, k);
    assert ps[k..][0] == p && ps[k..][1..] == ps[k + 1..];
    StreamHead(bigEndian, ps[k..]);
    assert next[0] == stream[|first|] == Stream(bigEndian, ps[k..])[3 + |p|];
    SafeCutBehind(ps, k, 3 + |p|);
    WholeBehind(ps, k, 3 + |p|);
  }

  // So a read that ends directly before the end byte of frame k costs this frame and the whole
  // next read, and nothing else if that ends between two frames and later reads at safe cuts.
  lemma CutBeforeTheEndByte(bigEndian: bool, c: Partial, ps: seq<seq<Byte>>, k: nat, first: seq<Byte>,
                            next: seq<Byte>, m: nat, rest: seq<seq<Byte>>)
    requires AllSendable(ps) && c.expected == 0 && first + (next + Joined(rest)) == Stream(bigEndian, ps)
    requires k < m <= |ps| && |first| == FramedLength(ps[..k]) + 3 + |ps[k]|
    requires |first| + |next| == FramedLength(ps[..m]) && SafeReads(ps[m..], 0, rest)
    ensures FeedAll(bigEndian, c, [first, next] + rest).delivered == ps[..k] + ps[m..]
  {
    hide Stream, Feed, FeedAll, SafeReads;
    LengthUpTo(ps, k, m);
    EndByteStartsNoFrame(bigEndian, ps, k, first, next, Joined(rest));
    LostAndFound(bigEndian, c, ps, first, next, m, rest);
  }

  lemma LengthUpTo(ps: seq<seq<Byte>>, k: nat, m: nat)
    requires k < m <= |ps|
    ensures FramedLength(ps[..k]) + 4 + |ps[k]| <= FramedLength(ps[..m])
  {
    var one := [ps[k]];
    assert ps[..k + 1] == ps[..k] + one && one[1..] == [];
    FramedLengthAppend(ps[..k], one);
    LengthBetween(ps, k + 1, m);
  }

  // The condition is needed: a payload may contain what looks like a frame. Cut behind the third
  // byte, this stream delivers a payload that nobody sent.
  lemma FalseStart()
    ensures var ps: seq<seq<Byte>> := [[MSG_INIT, 1, 0, 7, MSG_END]];
            var first: seq<Byte>, next: seq<Byte> := [MSG_INIT, 5, 0], [MSG_INIT, 1, 0, 7, MSG_END, MSG_END];
            && AllSendable(ps) && first + next == Stream(false, ps)
            && FeedAll(false, Partial([], 0), [first, next]).delivered == [[7]]
  {
    var payload: seq<Byte> := [MSG_INIT, 1, 0, 7, MSG_END];
    var ps := [payload];
    var first: seq<Byte>, next: seq<Byte> := [MSG_INIT, 5, 0], [MSG_INIT, 1, 0, 7, MSG_END, MSG_END];
    var c := Partial([], 0);
    assert ps[1..] == [] && Stream(false, []) == [];
    assert NativeShort(false, 5) == [5, 0];
    assert Frame(false, payload) == first + next;
    assert next[1..3] == [1, 0] && next[3..] == [7, MSG_END, MSG_END];
    assert ShortAt(false, [1, 0]) == 1;
    FeedOnNew(false, c, first);
    FeedOnNew(false, c, next);
    assert next[3..][..1] == [7] && next[3..][2..] == [MSG_END];
    FeedOnStray(false, c, [MSG_END]);
    assert Feed(false, c, next).delivered == [[7]] + [] == [[7]];
    FeedTwo(false, c, first, next, []);
    assert [first, next] + [] == [first, next];
  }
}
