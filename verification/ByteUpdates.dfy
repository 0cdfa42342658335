// Updates over every run of the network of byte messages: what a wrapped program announces, and
// what the Python object of its module is told.
module ByteUpdates {
  import opened Common
  import opened Registry
  import opened Messages
  import opened Calls
  import opened Refinement
  import opened ByteQueues
  import opened Simulation
  import opened StubSteps
  import opened StubStatements
  import opened WrapperSteps
  import opened ByteRuns
  import P = Protocol
  import G = Registration
  import C = Coherence
  import W = WrapperModel
  import S = StubModel
  import B = ByteNetwork

  // ---------------------------------------------------------------- updates in a queue

  // The value that an update carries for an attribute of this wrapper.
  function NoteIn(base: W.Wrapper, message: seq<Byte>): Option<P.Note> {
    if |message| < 3 || message[0] / 16 != ATTR_VALUE_UPDATE then None
    else
      var (index, c) :- ParseIndex(message[3..]);
      if index >= |base.attributes| then None
      else
        var (value, _) :- StubUnpack(base.attributes[index].t, c);
        Some(P.Note(index, value))
  }

  // What module id has been told once it has taken this message as well: EXPOSE begins anew.
  function Next(base: W.Wrapper, id: int, notes: seq<P.Note>, message: seq<Byte>): seq<P.Note> {
    if |message| < 2 || message[1] != id then notes
    else if message[0] / 16 == ATTR_METD_EXPOSE then []
    else if NoteIn(base, message).Some? then notes + [NoteIn(base, message).value]
    else notes
  }

  // What module id will have been told once it has taken the whole queue.
  function Told(base: W.Wrapper, id: int, notes: seq<P.Note>, queue: seq<seq<Byte>>): seq<P.Note>
    decreases |queue|
  {
    if queue == [] then notes else Told(base, id, Next(base, id, notes, queue[0]), queue[1..])
  }

  lemma {:induction false} ToldAppend(base: W.Wrapper, id: int, notes: seq<P.Note>, queue: seq<seq<Byte>>,
                                      more: seq<seq<Byte>>)
    ensures Told(base, id, notes, queue + more) == Told(base, id, Told(base, id, notes, queue), more)
    decreases |queue|
  {
    hide Next;
    if queue == [] {
      assert queue + more == more;
    } else {
      assert (queue + more)[0] == queue[0] && (queue + more)[1..] == queue[1..] + more;
      ToldAppend(base, id, Next(base, id, notes, queue[0]), queue[1..], more);
    }
  }

  lemma ToldOne(base: W.Wrapper, id: int, notes: seq<P.Note>, message: seq<Byte>)
    ensures Told(base, id, notes, [message]) == Next(base, id, notes, message) && Told(base, id, notes, []) == notes
  {
    hide Next;
    assert [message][1..] == [];
  }

  // An update tells the module it names the value it was sent for.
  lemma UpdateIsNoted(base: W.Wrapper, s: int, id: Byte, note: P.Note)
    requires B.Fit(base) && Carriable(base, note.index, note.value)
    ensures var m := UpdateBytes(s, id, note);
            |m| >= 3 && m[0] / 16 == ATTR_VALUE_UPDATE && m[1] == id && NoteIn(base, m) == Some(note)
  {
    hide PackValue, ParseIndex, StubUnpack, CallBody, Wireable, HasType;
    PackedFit(note.value);
    FitSize(base);
    var data := PackValue(note.value);
    ResponseArrives(ATTR_VALUE_UPDATE, s, id, NO_ERRORS, note.index, data);
    StubUnpackOfPacked(note.value, base.attributes[note.index].t, [MSG_END], |data|);
  }

  // Descriptions and answers tell nothing.
  lemma StutterTellsNothing(base: W.Wrapper, id: int, notes: seq<P.Note>, message: seq<Byte>, done: int)
    requires Stutter(base, message, done)
    ensures Next(base, id, notes, message) == notes
    ensures |message| >= 2 ==> message[0] / 16 != ATTR_METD_EXPOSE && message[0] / 16 != ATTR_VALUE_UPDATE
  {
    hide DescBody, CallBody, ParseIndex, StubUnpack;
  }

  lemma {:induction false} StuttersTellNothing(base: W.Wrapper, id: int, notes: seq<P.Note>, queue: seq<seq<Byte>>,
                                               done: int)
    requires AllStutter(base, queue, done)
    ensures Told(base, id, notes, queue) == notes
    decreases |queue|
  {
    hide Next, Stutter;
    if queue != [] {
      assert Stutter(base, queue[0], done);
      StutterTellsNothing(base, id, notes, queue[0], done);
      StuttersTellNothing(base, id, notes, queue[1..], done);
    }
  }

  // What one message of the machine, or none, tells module id.
  function TellsOf(id: int, notes: seq<P.Note>, ms: seq<P.Down>): seq<P.Note> {
    if ms == [] then notes
    else match ms[0]
      case Expose(id', _) => if id' == id then [] else notes
      case Update(id', note) => if id' == id then notes + [note] else notes
      case _ => notes
  }

  lemma BytesTell(base: W.Wrapper, w: W.Wrapper, s: int, ms: seq<P.Down>, done: int, id: int, notes: seq<P.Note>)
    requires B.Fit(base) && SameShape(base, w) && 0 <= s < 16 && |ms| <= 1
    requires ms != [] ==> DownFit(base, ms[0], done)
    ensures Told(base, id, notes, AllDownBytes(w, s, ms)) == TellsOf(id, notes, ms)
  {
    hide Next, B.Fit, SameShape, DownBytes;
    if ms != [] {
      assert ms == [ms[0]];
      OneReply(w, s, ms[0]);
      var queue := DownBytes(w, s, ms[0]);
      MessageTells(base, w, s, ms[0], done, id, notes);
      HeaderOf(w, s, ms[0]);
      if ms[0].Expose? {
        assert queue == [queue[0]] + [queue[1]];
        ToldAppend(base, id, notes, [queue[0]], [queue[1]]);
        ToldOne(base, id, notes, queue[0]);
        ToldOne(base, id, TellsOf(id, notes, ms), queue[1]);
      } else {
        assert queue == [queue[0]];
        ToldOne(base, id, notes, queue[0]);
      }
    }
  }

  lemma MessageTells(base: W.Wrapper, w: W.Wrapper, s: int, m: P.Down, done: int, id: int, notes: seq<P.Note>)
    requires B.Fit(base) && DownFit(base, m, done)
    ensures Next(base, id, notes, DownBytes(w, s, m)[0]) == TellsOf(id, notes, [m])
    ensures m.Expose? ==> forall ns :: Next(base, id, ns, DownBytes(w, s, m)[1]) == ns
  {
    hide ExposeBody, DescBody, ParseIndex, StubUnpack, PackShortString, PackLongString, CallBody, Carriable, B.Fit,
         Publishable;
    match m {
      case Update(id', note) => UpdateIsNoted(base, s, id', note);
      case _ =>
    }
  }

  // ---------------------------------------------------------------- announcing

  function Held(b: B.Net, l: P.Link): Option<int> {
    AssignedId(b.wrappers(l.w), l.s)
  }

  // What a step adds to the announcements for the stub of channel l: an attribute is announced
  // to every stub the wrapper knows; exposing begins anew.
  ghost function Announcing(b: B.Net, a: B.Action, b': B.Net, l: P.Link, notes: seq<P.Note>): seq<P.Note> {
    var w, w' := b.wrappers(l.w), b'.wrappers(l.w);
    if a.Publish? && a.w == l.w && a.k < |w'.attributes| && Held(b, l).Some? then
      notes + [P.Note(a.k, w'.attributes[a.k].value)]
    else if a.AtWrapper? && a.l.w == l.w && b.up(a.l) != [] then
      var sent, indices := For(B.Since(w.sent, w'.sent), l.s), B.Announces(w, b.up(a.l)[0]);
      if sent != [] && B.IsExpose(sent[0]) then []
      else if indices != {} && Held(b, l).Some? then
        var index := ParseIndex(b.up(a.l)[0][2..]).value.0;
        if index < |w'.attributes| then notes + [P.Note(index, w'.attributes[index].value)] else notes
      else notes
    else notes
  }

  // What is said of the channel of a running wrapper that holds this id at the stub.
  ghost predicate Agrees(base: W.Wrapper, b: B.Net, l: P.Link, id: int, announced: seq<P.Note>, told: seq<P.Note>) {
    b.alive(l.w) && Held(b, l) == Some(id) ==> announced == Told(base, id, told, b.down(l))
  }

  // A set that the wrapper carries out.
  lemma SetAnnounces(base: W.Wrapper, w: W.Wrapper, p: P.Wrapper, s: int, m: P.Up, message: seq<Byte>, w': W.Wrapper)
    requires WrapperShows(w, p) && |w.attributes| == |base.attributes| <= MAX_STR_LENGTH
    requires 0 <= s < 16 && IsUp(base, s, message, m)
    requires WrapperShows(w', Settled(p, s, m))
    ensures var step, indices := P.WrapperReceive(p, s, m), B.Announces(w, message);
            && (indices != {} <==> step.announce.Some?)
            && (indices != {} ==>
                  && |message| >= 2 && ParseIndex(message[2..]).Some?
                  && ParseIndex(message[2..]).value.0 == step.announce.value
                  && step.announce.value < |w'.attributes|
                  && w'.attributes[step.announce.value].value == step.wrapper.values[step.announce.value])
  {
    hide ParseIndex, IsUp, UpFits;
    AnnouncesWhatIsSet(base, w, p, s, m, message);
    var step := P.WrapperReceive(p, s, m);
    if step.announce.Some? {
      assert step.announce.value as int in B.Announces(w, message);
    }
  }

  lemma ShownHeld(w: W.Wrapper, p: P.Wrapper, s: int)
    requires WrapperShows(w, p)
    ensures P.Entry(p, s) == AssignedId(w, s)
  {
  }

  // What the machine says goes out to stub k.
  lemma OutgoingTells(p: P.Wrapper, s: int, m: P.Up, k: int, id: int, notes: seq<P.Note>)
    requires 0 <= id < 255 && P.Entry(Settled(p, s, m), k) == Some(id)
    ensures var step, ms := P.WrapperReceive(p, s, m), Outgoing(p, s, m, k);
            if ms != [] && ms[0].Expose? then TellsOf(id, notes, ms) == []
            else
              && P.Entry(p, k) == Some(id)
              && TellsOf(id, notes, ms)
                 == if step.announce.None? then notes
                    else notes + [P.Note(step.announce.value, step.wrapper.values[step.announce.value])]
  {
  }

  lemma ExposeFirst(w: W.Wrapper, s: int, ms: seq<P.Down>)
    requires 0 <= s < 16 && |ms| <= 1
    ensures var queue := AllDownBytes(w, s, ms);
            (queue != [] && B.IsExpose(queue[0])) <==> (ms != [] && ms[0].Expose?)
  {
    hide ExposeBody, DescBody, CallBody, PackShortString, PackLongString;
    if ms != [] {
      assert ms == [ms[0]];
      OneReply(w, s, ms[0]);
    }
  }

  // A request of the machine, taken by the wrapper.
  lemma RequestAgrees(base: Published, b: B.Net, n: P.Net, l: P.Link, a: B.Action, b': B.Net, id: int,
                      announced: seq<P.Note>,
                      told: seq<P.Note>)
    requires Sim(base, b, n) && G.Inv(n) && 0 <= l.s < 16 && 0 <= id < 255
    requires B.Step(b, a, b') && a.AtWrapper? && a.l.w == l.w && n.up(a.l) != []
    requires IsUp(base(l.w), a.l.s, b.up(a.l)[0], n.up(a.l)[0])
    requires Agrees(base(l.w), b, l, id, announced, told)
    ensures Agrees(base(l.w), b', l, id, Announcing(b, a, b', l, announced), told)
  {
    hide Sim, StubSim, LinkSim, IsUp, For, AllDownBytes, Outgoing, Settled, W.ProcessInput, P.WrapperReceive, DownFit,
         UpFits,
         SameShape, B.Fit, W.Valid, WrapperShows, B.Announces, Told, TellsOf, B.ReturnFits, ParseIndex, EntryFits;
    var w0, w, p, m, message := base(l.w), b.wrappers(l.w), n.wrappers(l.w), n.up(a.l)[0], b.up(a.l)[0];
    WrapperAt(base, b, n, l.w);
    FittingRequest(w0, a.l.s, message, m);
    NextRequest(n, a.l);
    RequestTaken(w0, w, b.dirty(l.w), p, a.l.s, m, message, a.b);
    HeldIsLast(n, l);
    OutgoingFits(w0, w, b.dirty(l.w), p, a.l.s, m, l.s);
    var w', ms := b'.wrappers(l.w), Outgoing(p, a.l.s, m, l.s);
    ShapeSize(w0, w);
    SetAnnounces(w0, w, p, a.l.s, m, message, w');
    ShownHeld(w, p, l.s);
    ShownHeld(w', Settled(p, a.l.s, m), l.s);
    ExposeFirst(w, l.s, ms);
    if Held(b', l) == Some(id) {
      var before := Told(w0, id, told, b.down(l));
      ToldAppend(w0, id, told, b.down(l), AllDownBytes(w, l.s, ms));
      BytesTell(w0, w, l.s, ms, P.Last(p, l.s), id, before);
      OutgoingTells(p, a.l.s, m, l.s, id, before);
    }
  }

  // A method call, taken by the wrapper.
  lemma CallAgrees(base: Published, b: B.Net, n: P.Net, l: P.Link, a: B.Action, b': B.Net, id: int,
                   announced: seq<P.Note>,
                   told: seq<P.Note>)
    requires Sim(base, b, n) && G.Inv(n) && 0 <= l.s < 16
    requires B.Step(b, a, b') && a.AtWrapper? && a.l.w == l.w && IsCall(base(l.w), a.l.s, b.up(a.l)[0])
    requires Agrees(base(l.w), b, l, id, announced, told)
    ensures Agrees(base(l.w), b', l, id, Announcing(b, a, b', l, announced), told)
  {
    hide Sim, StubSim, LinkSim, IsCall, For, W.ProcessInput, SameShape, B.Fit, W.Valid, WrapperShows, B.Announces,
         Told, B.ReturnFits,
         AllStutter;
    var w0, w, p, message := base(l.w), b.wrappers(l.w), n.wrappers(l.w), b.up(a.l)[0];
    WrapperAt(base, b, n, l.w);
    assert G.LinkAt(n, a.l);
    CallTaken(w0, w, b.dirty(l.w), p, a.l.s, message, a.b);
    var w' := b'.wrappers(l.w);
    var sent := For(B.Since(w.sent, w'.sent), l.s);
    ShownHeld(w, p, l.s);
    ShownHeld(w', p, l.s);
    StuttersTellNothing(w0, id, Told(w0, id, told, b.down(l)), sent, P.Last(p, l.s));
    ToldAppend(w0, id, told, b.down(l), sent);
    FirstIsNoExpose(w0, sent, P.Last(p, l.s));
  }

  lemma FirstIsNoExpose(base: W.Wrapper, queue: seq<seq<Byte>>, done: int)
    requires AllStutter(base, queue, done)
    ensures queue != [] ==> !B.IsExpose(queue[0])
  {
    hide Stutter;
    if queue != [] {
      StutterTellsNothing(base, 0, [], queue[0], done);
    }
  }

  // Announcing an attribute of one's own accord, as one stub gets it.
  lemma PublishTells(base: W.Wrapper, w: W.Wrapper, dirty: set<int>, p: P.Wrapper, k: nat, s: int, id: int,
                     notes: seq<P.Note>)
    requires WrapperSim(base, w, true, dirty, p) && k < |w.attributes| && 0 <= s < 16
    requires EntryFits(P.Entry(p, s), P.Last(p, s))
    ensures var w' := W.UpdateAttribute(w, w.attributes[k].name, w.attributes[k].value);
            && w'.attributes == w.attributes && w'.serverMap == w.serverMap
            && (AssignedId(w, s) == Some(id) && 0 <= id < 255 ==>
                  Told(base, id, notes, For(B.Since(w.sent, w'.sent), s)) == notes + [P.Note(k, w.attributes[k].value)])
  {
    hide For, AllDownBytes, W.UpdateAttribute, W.Updates, B.Fit, Told, P.Announcement, Carriable, EntryFits;
    PublishedSim(base, w, dirty, p, k);
    PublishLeaves(w, w.attributes[k].name, w.attributes[k].value);
    hide SameShape, W.Valid;
    var w', note := W.UpdateAttribute(w, w.attributes[k].name, w.attributes[k].value), P.Note(k, p.values[k]);
    var ms := P.Announcement(p, s, note);
    ShownHeld(w, p, s);
    ShownValues(w, p, k);
    hide WrapperShows;
    AnnouncementIsUpdate(p, s, note);
    UpdateFits(base, P.Entry(p, s), P.Last(p, s), ms, note);
    BytesTell(base, w, s, ms, P.Last(p, s), id, notes);
    if AssignedId(w, s) == Some(id) && 0 <= id < 255 {
      EntryTells(p, s, note, id, notes);
    }
    assert B.Since(w.sent, w'.sent) == W.Updates(w.serverMap, k, w.attributes[k].value);
  }

  lemma PublishLeaves(w: W.Wrapper, name: Str, value: Value)
    ensures var w' := W.UpdateAttribute(w, name, value); w'.attributes == w.attributes && w'.serverMap == w.serverMap
  {
  }

  lemma EntryTells(p: P.Wrapper, s: int, note: P.Note, id: int, notes: seq<P.Note>)
    requires P.Entry(p, s) == Some(id) && 0 <= id < 255
    ensures TellsOf(id, notes, P.Announcement(p, s, note)) == notes + [note]
  {
  }

  lemma PublishAgrees(base: Published, b: B.Net, n: P.Net, l: P.Link, k: nat, b': B.Net, id: int,
                      announced: seq<P.Note>,
                      told: seq<P.Note>)
    requires Sim(base, b, n) && G.Inv(n) && 0 <= l.s < 16 && 0 <= id < 255
    requires b.alive(l.w) && k < |b.wrappers(l.w).attributes| && b' == B.PublishOn(b, l.w, k)
    requires Agrees(base(l.w), b, l, id, announced, told)
    ensures Agrees(base(l.w), b', l, id, Announcing(b, B.Publish(l.w, k), b', l, announced), told)
  {
    hide Sim, StubSim, LinkSim, For, W.UpdateAttribute, WrapperSim, Told, EntryFits;
    var w0, w, p := base(l.w), b.wrappers(l.w), n.wrappers(l.w);
    WrapperAt(base, b, n, l.w);
    WrapperAlive(w0, w, b.alive(l.w), b.dirty(l.w), p);
    HeldIsLast(n, l);
    var before := Told(w0, id, told, b.down(l));
    PublishTells(w0, w, b.dirty(l.w), p, k, l.s, id, before);
    ToldAppend(w0, id, told, b.down(l), For(B.Since(w.sent, b'.wrappers(l.w).sent), l.s));
  }

  lemma WrapperAlive(base: W.Wrapper, w: W.Wrapper, alive: bool, dirty: set<int>, p: P.Wrapper)
    requires WrapperSim(base, w, alive, dirty, p) && alive
    ensures WrapperSim(base, w, true, dirty, p)
  {
  }

  lemma UpdateFits(base: W.Wrapper, entry: Option<int>, last: int, ms: seq<P.Down>, note: P.Note)
    requires EntryFits(entry, last) && Carriable(base, note.index, note.value)
    requires ms == [] || (entry.Some? && ms == [P.Update(P.IdByte(entry.value), note)])
    ensures ms != [] ==> DownFit(base, ms[0], last)
  {
  }

  lemma ShownValues(w: W.Wrapper, p: P.Wrapper, k: nat)
    requires WrapperShows(w, p) && k < |p.values|
    ensures k < |w.attributes| && w.attributes[k].value == p.values[k]
  {
  }

  // ---------------------------------------------------------------- every step

  // What module id has been told after a step.
  ghost function ToldAfter(base: W.Wrapper, b: B.Net, a: B.Action, l: P.Link, id: int, told: seq<P.Note>): seq<P.Note> {
    if a.AtStub? && a.l == l && b.down(l) != [] then Next(base, id, told, b.down(l)[0]) else told
  }

  lemma StepAgrees(base: Published, b: B.Net, n: P.Net, l: P.Link, a: B.Action, b': B.Net, id: int,
                   announced: seq<P.Note>,
                   told: seq<P.Note>)
    requires Sim(base, b, n) && G.Inv(n) && 0 <= l.s < 16 && 0 <= id < 255 && B.Step(b, a, b')
    requires Agrees(base(l.w), b, l, id, announced, told)
    ensures Agrees(base(l.w), b', l, id, Announcing(b, a, b', l, announced), ToldAfter(base(l.w), b, a, l, id, told))
  {
    hide Sim, S.ProcessInput, S.SetAttribute, S.PyCall, S.ShutdownModule, For, B.ReturnFits, Next, B.Announces,
         W.Farewells;
    var w0 := base(l.w);
    match a {
      case AtWrapper(j, beh) =>
        if j.w == l.w {
          hide W.ProcessInput, Announcing, Agrees, IsCall, IsUp;
          UpAt(base, b, n, j.s, j.w);
          assert j == P.Link(j.s, j.w);
          if IsCall(w0, j.s, b.up(j)[0]) {
            CallAgrees(base, b, n, l, a, b', id, announced, told);
          } else {
            RequestAgrees(base, b, n, l, a, b', id, announced, told);
          }
        }
      case Publish(w, k) =>
        if w == l.w {
          PublishAgrees(base, b, n, l, k, b', id, announced, told);
        }
      case Advertise(j) =>
        if j == l {
          AdvertiseTells(w0, b, l, id, told);
        }
      case LocalWrite(w, _, _) =>
        assert B.Since(b.wrappers(w).sent, b.wrappers(w).sent) == [] && For([], l.s) == [] by { NoneFor(l.s); }
        assert b.down(l) + [] == b.down(l);
      case _ =>
    }
  }

  lemma AdvertiseTells(base: W.Wrapper, b: B.Net, l: P.Link, id: int, told: seq<P.Note>)
    ensures Told(base, id, told, B.AdvertiseOn(b, l).down(l)) == Told(base, id, told, b.down(l))
  {
    hide Told, PackShortString, PackLongString;
    var w := b.wrappers(l.w);
    var message := DeclareMessage(0, W.OptionByte(w.leftToRight), w.name, w.desc);
    ToldAppend(base, id, told, b.down(l), [message]);
    ToldOne(base, id, Told(base, id, told, b.down(l)), message);
  }

  // ---------------------------------------------------------------- what the object is told

  function CallbackFor(base: W.Wrapper, note: P.Note): S.Callback {
    if note.index < |base.attributes| then S.UpdateCallback(base.attributes[note.index].name, note.value)
    else S.UpdateCallback([], note.value)
  }

  function CallbacksFor(base: W.Wrapper, notes: seq<P.Note>): (cs: seq<S.Callback>)
    ensures |cs| == |notes| && forall i :: 0 <= i < |cs| ==> cs[i] == CallbackFor(base, notes[i])
  {
    seq(|notes|, i requires 0 <= i < |notes| => CallbackFor(base, notes[i]))
  }

  // The callbacks of updates for module id since EXPOSE, once this message has led to some more.
  function Hears(message: seq<Byte>, id: int, heard: seq<S.Callback>, more: seq<S.Callback>): seq<S.Callback> {
    if |message| < 2 || message[1] != id then heard
    else if message[0] / 16 == ATTR_METD_EXPOSE then []
    else if message[0] / 16 == ATTR_VALUE_UPDATE then heard + more
    else heard
  }

  ghost function HeardAfter(b: B.Net, a: B.Action, b': B.Net, l: P.Link, id: int,
                            heard: seq<S.Callback>): seq<S.Callback> {
    if a.AtStub? && a.l == l && b.down(l) != [] then
      Hears(b.down(l)[0], id, heard, B.Since(b.stubs(l.s).callbacks, b'.stubs(l.s).callbacks))
    else heard
  }

  lemma StutterIsNotHeard(base: W.Wrapper, id: int, message: seq<Byte>, done: int, heard: seq<S.Callback>,
                          more: seq<S.Callback>)
    requires Stutter(base, message, done)
    ensures Hears(message, id, heard, more) == heard
  {
    StutterTellsNothing(base, id, [], message, done);
  }

  lemma MessageHears(base: W.Wrapper, message: seq<Byte>, m: P.Down, done: int, id: int, notes: seq<P.Note>,
                     heard: seq<S.Callback>,
                     more: seq<S.Callback>)
    requires IsDown(base, message, m, done) && B.Fit(base)
    ensures Next(base, id, notes, message) == TellsOf(id, notes, [m])
    ensures Hears(message, id, heard, more)
         == if m.Expose? && m.id == id then [] else if m.Update? && m.id == id then heard + more else heard
  {
    hide Next, DownFit, DownBytes, B.Fit;
    MessageTells(base, Sender(base, m), message[0] % 16, m, done, id, notes);
    BytesHear(Sender(base, m), message[0] % 16, m, id, heard, more);
  }

  lemma BytesHear(w: W.Wrapper, s: int, m: P.Down, id: int, heard: seq<S.Callback>, more: seq<S.Callback>)
    requires 0 <= s < 16
    ensures Hears(DownBytes(w, s, m)[0], id, heard, more)
         == if m.Expose? && m.id == id then [] else if m.Update? && m.id == id then heard + more else heard
  {
    hide ExposeBody, DescBody, PackShortString, PackLongString, CallBody;
  }

  function Listed(b: B.Net, s: int, id: int): bool {
    S.PlaceOf(b.stubs(s).modules, id) < |b.stubs(s).modules|
  }

  // A listed module has been told what it was called back for; one that is still to come, nothing.
  ghost predicate Heeds(base: W.Wrapper, b: B.Net, s: int, id: int, heard: seq<S.Callback>, told: seq<P.Note>) {
    && (Listed(b, s, id) ==> heard == CallbacksFor(base, told))
    && (id >= b.stubs(s).nextObjId ==> heard == [] && told == [])
  }

  // An update for a listed module of this channel calls it back with its value.
  lemma UpdateIsHeard(base: Published, exposed: LastIds, home: map<int, int>, l: P.Link, st: S.Stub, sv: P.Server,
                      m: P.Down,
                      message: seq<Byte>)
    requires StubSim(base, exposed, home, l.s, st, sv) && Aimed(m, sv, l.w) && B.Fit(base(l.w))
    requires m.Update? && IsDown(base(l.w), message, m, exposed(l)) && m.id < 15
    requires S.PlaceOf(st.modules, m.id) < |st.modules|
    ensures NoteIn(base(l.w), message) == Some(m.note) && |message| >= 2 && message[1] == m.id
    ensures message[0] / 16 == ATTR_VALUE_UPDATE
    ensures var r := S.ProcessInput(st, message);
            r.Some? && B.Since(st.callbacks, r.value.stub.callbacks) == [CallbackFor(base(l.w), m.note)]
  {
    hide S.ProcessInput, StubShows, ObjectsOk, RespMessage, StubUnpack, ParseIndex, B.Fit, PackValue;
    var w0, i := base(l.w), S.PlaceOf(st.modules, m.id);
    Addressee(base, exposed, home, l, st, sv, m.id);
    var o := st.modules[i];
    UpdateIsNoted(w0, message[0] % 16, m.id, m.note);
    assert Mirrors(o, w0);
    UpdateReachesTheAttribute(st, i, o, w0, message[0] % 16, m.note.index, m.note.value);
  }

  // What a registry may become: nothing is registered under an id used before.
  ghost predicate GrowsTo(reg: Registry, reg': Registry) {
    && reg.nextObjId <= reg'.nextObjId
    && forall id :: HasId(reg', id) ==> HasId(reg, id) || id == reg.nextObjId < reg'.nextObjId
  }

  lemma DeclareGrows(reg: Registry, name: Str)
    requires Consistent(reg)
    ensures GrowsTo(reg, Declare(reg, name))
  {
    forall id | HasId(Declare(reg, name), id)
      ensures HasId(reg, id) || id == reg.nextObjId < Declare(reg, name).nextObjId
    {
      DeclareRegisters(reg, name, id);
    }
  }

  lemma DeleteGrows(reg: Registry, gone: int)
    requires Consistent(reg)
    ensures GrowsTo(reg, Delete(reg, gone))
  {
    forall id | HasId(Delete(reg, gone), id)
      ensures HasId(reg, id)
    {
      DeleteRemoves(reg, gone, id);
    }
  }

  lemma MessageGrows(st: S.Stub, message: seq<Byte>)
    requires Consistent(S.RegistryOf(st)) && S.ProcessInput(st, message).Some?
    ensures GrowsTo(S.RegistryOf(st), S.RegistryOf(S.ProcessInput(st, message).value.stub))
  {
    hide S.ForModule, UnpackShortString, UnpackLongString, AssignMessage, Consistent, Declare, Delete, GrowsTo;
    var reg, st' := S.RegistryOf(st), S.ProcessInput(st, message).value.stub;
    SameGrows(reg);
    if |message| >= 2 {
      var t := message[0] / 16;
      if t == MODULE_DECLARE {
        var (name, c) := UnpackShortString(Cursor(message[2..], 0)).value;
        if !HasName(reg, name) {
          AddIsDeclare(st, name, UnpackLongString(c).value.0, message[1]);
          DeclareGrows(reg, name);
        }
      } else if t == MODULE_SHUTDOWN {
        DeleteIsDelete(st, Masked(message[1]));
        DeleteGrows(reg, Masked(message[1]));
      } else {
        var i := S.PlaceOf(st.modules, Masked(message[1]));
        if i < |st.modules| {
          SameListing(st, i, message);
        }
      }
    }
  }

  lemma SameGrows(reg: Registry)
    ensures GrowsTo(reg, reg)
  {
  }

  lemma AddIsDeclare(st: S.Stub, name: Str, desc: Str, option: Byte)
    requires !HasName(S.RegistryOf(st), name)
    ensures S.RegistryOf(S.AddNewModule(st, name, desc, option)) == Declare(S.RegistryOf(st), name)
  {
    hide AssignMessage;
    ListedAppend(st.modules, S.NewObject(st.nextObjId, name, desc, option));
  }

  lemma DeleteIsDelete(st: S.Stub, id: int)
    ensures S.RegistryOf(S.DeleteModuleByID(st, id)) == Delete(S.RegistryOf(st), id)
  {
    ListedErase(st.modules, id);
    var i := S.PlaceOf(st.modules, id);
    assert i == |st.modules| ==> S.Without(st.modules, i) == st.modules;
  }

  // A step neither lists a module under an id used before nor takes an id back.
  lemma ListingGrows(base: Published, b: B.Net, n: P.Net, a: B.Action, b': B.Net, s: int)
    requires Sim(base, b, n) && 0 <= s < 16 && B.Step(b, a, b')
    ensures GrowsTo(S.RegistryOf(b.stubs(s)), S.RegistryOf(b'.stubs(s)))
  {
    hide Sim, S.ProcessInput, W.ProcessInput, S.SetAttribute, S.PyCall, W.UpdateAttribute, W.Farewells, B.ReturnFits,
         GrowsTo,
         Consistent, WrapperSim, LinkSim, ObjectsOk, Delete;
    var st, sv := b.stubs(s), n.servers(s);
    AtLink(base, b, n, P.Link(s, 0));
    ShownIsConsistent(st, sv);
    SameGrows(S.RegistryOf(st));
    match a {
      case AtStub(j) =>
        if j.s == s {
          MessageGrows(st, b.down(j)[0]);
        }
      case Disconnect(z, i) =>
        if z == s {
          DisconnectRefinesMachine(st, sv, i);
          DeleteGrows(S.RegistryOf(st), st.modules[i].id);
        }
      case SetAttribute(z, i, name, value) =>
        if z == s {
          var o1, k := SetCases(st.modules[i], s, name, value);
          var a := S.SetAttribute(st.modules[i], s, name, value);
          SetKeepsListing(st.modules[i], o1, s, k, name, value);
          ListedUpdate(st.modules, i, a.obj);
        }
      case CallMethod(z, i, j, values) =>
        if z == s {
          CallLeavesObject(st.modules[i], s, j, values);
          assert st.modules[i := st.modules[i]] == st.modules;
        }
      case _ =>
    }
  }

  lemma SetKeepsListing(o: S.Object, o1: S.Object, s: int, k: nat, name: Str, value: Value)
    requires o1 == o.(noCallback := o1.noCallback)
    requires var a := S.SetAttribute(o, s, name, value);
             a.obj == o1.(desc := a.obj.desc) || (k < |o.attrs| && a == S.SetRemote(o1, s, k, value))
    ensures S.Listed(S.SetAttribute(o, s, name, value).obj) == S.Listed(o)
  {
    hide S.SetAttribute, ValidatedSize, PackAs;
  }

  lemma CallLeavesObject(o: S.Object, s: int, j: nat, values: seq<Value>)
    requires j < |o.metds|
    ensures S.PyCall(o, s, j, values).obj == o
  {
    hide S.PackArgs, S.ArgumentsFit, S.OptionalCount;
  }

  // An id in a message for a module was issued.
  lemma IssuedBefore(n: P.Net, l: P.Link, id: int)
    requires G.Inv(n) && n.down(l) != [] && 0 < id < 255
    ensures var m := n.down(l)[0]; (m.Expose? || m.Update?) && m.id == id ==> id < n.servers(l.s).reg.nextObjId
  {
    var m := n.down(l)[0];
    assert G.LinkAt(n, l) && G.ServerOk(n.servers(l.s), n.wrappers);
    assert G.DownOk(m, P.Last(n.wrappers(l.w), l.s), n.servers(l.s).home, l.w, n.wrappers(l.w).name);
  }

  // The step in which a stub takes a message from this channel.
  lemma TakingHeeds(base: Published, b: B.Net, n: P.Net, l: P.Link, b': B.Net, id: int, heard: seq<S.Callback>,
                    told: seq<P.Note>)
    requires Sim(base, b, n) && G.Inv(n) && C.FewIds(n, l.s) && 0 <= l.s < 16 && 0 < id < 15
    requires B.Step(b, B.AtStub(l), b') && Heeds(base(l.w), b, l.s, id, heard, told)
    ensures var a := B.AtStub(l);
            var heard', told' := HeardAfter(b, a, b', l, id, heard), ToldAfter(base(l.w), b, a, l, id, told);
            && (Listed(b, l.s, id) ==> heard' == CallbacksFor(base(l.w), told'))
            && (id >= b.stubs(l.s).nextObjId ==> heard' == [] && told' == [])
  {
    hide Sim, G.Inv, S.ProcessInput, StubSim, WrapperSim, UpMatches, Stutter, IsDown, Next, Hears, CallbacksFor, Aimed;
    AtLink(base, b, n, l);
    var w0, message, done, st := base(l.w), b.down(l)[0], b.exposed(l), b.stubs(l.s);
    var more := B.Since(st.callbacks, b'.stubs(l.s).callbacks);
    if Stutter(w0, message, done) {
      StutterTellsNothing(w0, id, told, message, done);
      StutterIsNotHeard(w0, id, message, done, heard, more);
    } else {
      var m := n.down(l)[0];
      FitAt(base, b, n, l.w);
      MessageHears(w0, message, m, done, id, told, heard, more);
      IssuedBefore(n, l, id);
      NothingHeard(w0);
      if m.Update? && m.id == id && Listed(b, l.s, id) {
        NextMessage(n, l);
        UpdateIsHeard(base, b.exposed, b.home(l.s), l, st, n.servers(l.s), m, message);
        HeardOneMore(w0, told, m.note);
      }
    }
  }

  lemma FitAt(base: Published, b: B.Net, n: P.Net, w: int)
    requires Sim(base, b, n)
    ensures B.Fit(base(w))
  {
    hide B.Fit;
    assert WrapperIn(base, b, n, w);
  }

  lemma NothingHeard(base: W.Wrapper)
    ensures CallbacksFor(base, []) == []
  {
  }

  lemma HeardOneMore(base: W.Wrapper, notes: seq<P.Note>, note: P.Note)
    ensures CallbacksFor(base, notes + [note]) == CallbacksFor(base, notes) + [CallbackFor(base, note)]
  {
    hide CallbackFor;
  }

  lemma ListedLater(b: B.Net, b': B.Net, s: int, id: int)
    requires GrowsTo(S.RegistryOf(b.stubs(s)), S.RegistryOf(b'.stubs(s)))
    ensures b.stubs(s).nextObjId <= b'.stubs(s).nextObjId
    ensures Listed(b', s, id) ==> Listed(b, s, id) || id == b.stubs(s).nextObjId
  {
    assert HasId(S.RegistryOf(b'.stubs(s)), id) == Listed(b', s, id);
    assert HasId(S.RegistryOf(b.stubs(s)), id) == Listed(b, s, id);
  }

  lemma StepHeeds(base: Published, b: B.Net, n: P.Net, l: P.Link, a: B.Action, b': B.Net, id: int,
                  heard: seq<S.Callback>,
                  told: seq<P.Note>)
    requires Sim(base, b, n) && G.Inv(n) && 0 <= l.s < 16 && 0 < id < 15
    requires B.Step(b, a, b') && B.Calm(b, a) && Heeds(base(l.w), b, l.s, id, heard, told)
    ensures Heeds(base(l.w), b', l.s, id, HeardAfter(b, a, b', l, id, heard), ToldAfter(base(l.w), b, a, l, id, told))
  {
    hide Sim, G.Inv, B.Step, S.ProcessInput, CallbacksFor, Next, Hears;
    ListingGrows(base, b, n, a, b', l.s);
    NothingHeard(base(l.w));
    ListedLater(b, b', l.s, id);
    if a.AtStub? && a.l == l {
      StubNumber(base, b, n, l.s);
      TakingHeeds(base, b, n, l, b', id, heard, told);
    }
  }

  // ---------------------------------------------------------------- every run

  // What the wrapper of channel l has announced to its stub since EXPOSE, after k steps.
  ghost function Announced(r: B.Run, l: P.Link, k: nat): seq<P.Note>
    requires B.IsRun(r) && k < |r.nets|
  {
    if k == 0 then []
    else
      assert B.StepAt(r, k - 1);
      Announcing(r.nets[k - 1], r.actions[k - 1], r.nets[k], l, Announced(r, l, k - 1))
  }

  // What module id has been told over channel l since EXPOSE, after k steps.
  ghost function ToldSoFar(r: B.Run, l: P.Link, id: int, k: nat): seq<P.Note>
    requires B.IsRun(r) && k < |r.nets|
  {
    if k == 0 then []
    else
      assert B.StepAt(r, k - 1);
      ToldAfter(B.Start(r).wrappers(l.w), r.nets[k - 1], r.actions[k - 1], l, id, ToldSoFar(r, l, id, k - 1))
  }

  // The update callbacks that the object of module id has had since EXPOSE, after k steps.
  ghost function Heard(r: B.Run, l: P.Link, id: int, k: nat): seq<S.Callback>
    requires B.IsRun(r) && k < |r.nets|
  {
    if k == 0 then []
    else
      assert B.StepAt(r, k - 1);
      HeardAfter(r.nets[k - 1], r.actions[k - 1], r.nets[k], l, id, Heard(r, l, id, k - 1))
  }

  lemma {:induction false} UpdatesSoFar(r: B.Run, l: P.Link, id: int, k: nat)
    requires B.IsRun(r) && B.Uncrowded(r) && k < |r.nets| && 0 <= l.s < 16 && 0 < id < 15
    ensures Agrees(B.Start(r).wrappers(l.w), r.nets[k], l, id, Announced(r, l, k), ToldSoFar(r, l, id, k))
    ensures Heeds(B.Start(r).wrappers(l.w), r.nets[k], l.s, id, Heard(r, l, id, k), ToldSoFar(r, l, id, k))
    decreases k
  {
    hide Sim, G.Inv, B.Step, B.Calm, B.Initial, Agrees, Heeds, Announcing, ToldAfter, HeardAfter, Follows;
    var base := B.Start(r).wrappers;
    if k == 0 {
      NothingAnnounced(base(l.w), r.nets[0], l, id);
    } else {
      UpdatesSoFar(r, l, id, k - 1);
      var _, n := PrefixSim(r, k - 1);
      assert B.StepAt(r, k - 1) && B.CalmAt(r, k - 1);
      var b, a, b', told := r.nets[k - 1], r.actions[k - 1], r.nets[k], ToldSoFar(r, l, id, k - 1);
      StepAgrees(base, b, n, l, a, b', id, Announced(r, l, k - 1), told);
      StepHeeds(base, b, n, l, a, b', id, Heard(r, l, id, k - 1), told);
    }
  }

  lemma NothingAnnounced(base: W.Wrapper, b: B.Net, l: P.Link, id: int)
    requires B.Initial(b)
    ensures Agrees(base, b, l, id, [], []) && Heeds(base, b, l.s, id, [], [])
  {
    hide B.Fit;
    assert B.StubFresh(b, l.s) && B.WrapperFresh(b, l.w);
  }

  // In every run in which no crowded stub takes a message: the object of a module whose running
  // wrapper holds its id has been called back for the values it was told, in order; these and the
  // updates on their way to it are what the wrapper has announced since it exposed the module.
  lemma UpdatesAreHeardInOrder(r: B.Run, l: P.Link, i: nat)
    requires B.IsRun(r) && B.Uncrowded(r) && 0 <= l.s < 16 && B.Few(B.End(r), l.s)
    requires i < |B.End(r).stubs(l.s).modules| && B.End(r).alive(l.w)
    requires Held(B.End(r), l) == Some(B.End(r).stubs(l.s).modules[i].id)
    ensures var id, base, announced :=
              B.End(r).stubs(l.s).modules[i].id, B.Start(r).wrappers(l.w), Announced(r, l, |r.actions|);
            && Heard(r, l, id, |r.actions|) == CallbacksFor(base, ToldSoFar(r, l, id, |r.actions|))
            && announced == Told(base, id, ToldSoFar(r, l, id, |r.actions|), B.End(r).down(l))
            && (NothingFor(B.End(r).down(l), id) ==> Heard(r, l, id, |r.actions|) == CallbacksFor(base, announced))
  {
    hide Sim, B.Initial, B.Uncrowded, G.Inv, Announced, ToldSoFar, Heard, CallbacksFor, Told;
    var base, b, id := B.Start(r).wrappers(l.w), B.End(r), B.End(r).stubs(l.s).modules[i].id;
    var _, n := PrefixSim(r, |r.actions|);
    HereIsListed(B.Start(r).wrappers, b, n, l, i);
    UpdatesSoFar(r, l, id, |r.actions|);
    if NothingFor(b.down(l), id) {
      ToldNothing(base, id, ToldSoFar(r, l, id, |r.actions|), b.down(l));
    }
  }

  // No message names this id.
  predicate NothingFor(queue: seq<seq<Byte>>, id: int) {
    forall m :: m in queue ==> |m| < 2 || m[1] != id
  }

  lemma {:induction false} ToldNothing(base: W.Wrapper, id: int, notes: seq<P.Note>, queue: seq<seq<Byte>>)
    requires NothingFor(queue, id)
    ensures Told(base, id, notes, queue) == notes
    decreases |queue|
  {
    hide NoteIn;
    if queue != [] {
      assert queue[0] in queue;
      ToldNothing(base, id, notes, queue[1..]);
    }
  }

  lemma HereIsListed(base: Published, b: B.Net, n: P.Net, l: P.Link, i: nat)
    requires Sim(base, b, n) && 0 <= l.s < 16 && i < |b.stubs(l.s).modules| && B.Few(b, l.s)
    ensures var id := b.stubs(l.s).modules[i].id; 0 < id < 15 && Listed(b, l.s, id)
  {
    hide Sim, LinkSim, WrapperSim, ObjectsOk;
    AtLink(base, b, n, l);
    ShownIsConsistent(b.stubs(l.s), n.servers(l.s));
    DistinctIds(b.stubs(l.s), i, i);
    RegisteredHere(b.stubs(l.s), n.servers(l.s), i);
  }
}
