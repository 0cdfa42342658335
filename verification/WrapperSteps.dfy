// What a wrapper does, with a message or on its own, in the network and in the protocol machine.
module WrapperSteps {
  import opened Common
  import opened OrderedMap
  import opened Names
  import opened Messages
  import opened Calls
  import opened Refinement
  import opened ByteQueues
  import opened Simulation
  import opened StubSteps
  import P = Protocol
  import G = Registration
  import W = WrapperModel
  import S = StubModel
  import B = ByteNetwork

  // ---------------------------------------------------------------- a wrapper's step in the network

  ghost predicate OnlyWrapperMoved(b: B.Net, b': B.Net, w: int) {
    && (forall s :: b'.stubs(s) == b.stubs(s) && b'.home(s) == b.home(s))
    && (forall v :: v != w ==>
          b'.wrappers(v) == b.wrappers(v) && b'.alive(v) == b.alive(v) && b'.dirty(v) == b.dirty(v))
    && (forall k: P.Link :: b'.exposed(k) == b.exposed(k))
    && (forall k: P.Link :: k.w != w ==> b'.up(k) == b.up(k) && b'.down(k) == b.down(k))
  }

  ghost predicate OnlyThisWrapperMoved(n: P.Net, n': P.Net, w: int) {
    && (forall s :: n'.servers(s) == n.servers(s))
    && (forall v :: v != w ==> n'.wrappers(v) == n.wrappers(v))
    && (forall k: P.Link :: k.w != w ==> n'.up(k) == n.up(k) && n'.down(k) == n.down(k))
  }

  // Between the two steps wrapper l.w sent queue to stub l.s, for the messages ms of the machine.
  ghost predicate SentOn(base: W.Wrapper, b: B.Net, b': B.Net, n: P.Net, n': P.Net, l: P.Link, queue: seq<seq<Byte>>,
                         ms: seq<P.Down>)
  {
    var last := P.Last(n.wrappers(l.w), l.s);
    && b'.down(l) == b.down(l) + queue && n'.down(l) == n.down(l) + ms
    && DownMatches(base, queue, ms, last) && Done(ms, last) == P.Last(n'.wrappers(l.w), l.s)
    && UpMatches(base, l.s, b'.up(l), n'.up(l))
  }

  lemma WrapperMovesSim(base: Published, b: B.Net, n: P.Net, w: int, b': B.Net, n': P.Net,
                        sent: seq<W.Dispatched>, ms: int -> seq<P.Down>)
    requires Sim(base, b, n) && OnlyWrapperMoved(b, b', w) && OnlyThisWrapperMoved(n, n', w)
    requires WrapperSim(base(w), b'.wrappers(w), b'.alive(w), b'.dirty(w), n'.wrappers(w))
    requires forall s :: 0 <= s < 16 ==> SentOn(base(w), b, b', n, n', P.Link(s, w), For(sent, s), ms(s))
    ensures Sim(base, b', n')
  {
    hide StubSim, WrapperSim, UpMatches, DownMatches, Done, For;
    forall v
      ensures WrapperIn(base, b', n', v)
    {
      assert WrapperIn(base, b, n, v);
    }
    forall s
      ensures StubIn(base, b', n', s)
    {
      assert StubIn(base, b, n, s);
      if 0 <= s < 16 {
        StubSimFrame(base, b.exposed, b'.exposed, b.home(s), s, b.stubs(s), n.servers(s));
      }
    }
    forall l
      ensures LinkIn(base, b', n', l)
    {
      assert LinkIn(base, b, n, l);
      if l.w == w && 0 <= l.s < 16 {
        assert l == P.Link(l.s, w);
        assert SentOn(base(w), b, b', n, n', l, For(sent, l.s), ms(l.s));
        DownAppend(base(w), b.down(l), n.down(l), b.exposed(l), For(sent, l.s), ms(l.s));
      }
    }
  }

  lemma NothingDown(base: W.Wrapper, done: int)
    ensures DownMatches(base, [], [], done) && Done([], done) == done
  {
  }

  // What one message of the machine, or none, brings about.
  lemma SentAllMatches(base: W.Wrapper, w: W.Wrapper, s: int, ms: seq<P.Down>, done: int)
    requires SameShape(base, w) && 0 <= s < 16 && |ms| <= 1
    requires ms != [] ==> DownFit(base, ms[0], done) && (ms[0].Expose? ==> ms[0].values == Values(w.attributes))
    ensures DownMatches(base, AllDownBytes(w, s, ms), ms, done)
    ensures Done(ms, done) == if ms == [] then done else NextDone(done, ms[0])
  {
    if ms == [] {
      NothingDown(base, done);
    } else {
      assert ms == [ms[0]] && ms[1..] == [];
      SentMatches(base, w, s, ms[0], done);
    }
  }

  lemma UpAt(base: Published, b: B.Net, n: P.Net, s: int, w: int)
    requires Sim(base, b, n) && 0 <= s < 16
    ensures UpMatches(base(w), s, b.up(P.Link(s, w)), n.up(P.Link(s, w)))
  {
    hide UpMatches, DownMatches;
    assert LinkIn(base, b, n, P.Link(s, w));
  }

  lemma WrapperAt(base: Published, b: B.Net, n: P.Net, w: int)
    requires Sim(base, b, n)
    ensures WrapperSim(base(w), b.wrappers(w), b.alive(w), b.dirty(w), n.wrappers(w))
  {
    hide WrapperSim;
    assert WrapperIn(base, b, n, w);
  }

  lemma ValueShape(base: W.Wrapper, w: W.Wrapper, k: nat, value: Value)
    requires SameShape(base, w) && k < |w.attributes|
    ensures SameShape(base, w.(attributes := w.attributes[k := w.attributes[k].(value := value)]))
  {
    var attrs := w.attributes[k := w.attributes[k].(value := value)];
    assert WithValues(base.attributes, Values(attrs)) == attrs;
  }

  lemma WrittenSim(base: W.Wrapper, w: W.Wrapper, dirty: set<int>, p: P.Wrapper, k: nat, value: Value)
    requires WrapperSim(base, w, true, dirty, p)
    requires k < |w.attributes| && HasType(value, w.attributes[k].t) && Wireable(value)
    ensures k < |p.values|
    ensures WrapperSim(base, w.(attributes := w.attributes[k := w.attributes[k].(value := value)]), true, dirty + {k},
                       P.Written(p, P.Note(k, value)))
  {
    hide B.Fit;
    LocalWriteRefinesMachine(w, p, k, value);
    ValueShape(base, w, k, value);
  }

  lemma LocalWriteSim(base: Published, b: B.Net, n: P.Net, w: int, k: nat, value: Value)
    requires Sim(base, b, n) && B.Can(b, B.LocalWrite(w, k, value))
    ensures P.Can(n, P.LocalWrite(w, P.Note(k, value)))
    ensures Sim(base, B.LocalWriteOn(b, w, k, value), P.Perform(n, P.LocalWrite(w, P.Note(k, value))))
  {
    hide StubSim, UpMatches, DownMatches, Done, Sim, B.Fit, SameShape, W.Valid, WrapperShows, Wireable, HasType;
    var wr, p := b.wrappers(w), n.wrappers(w);
    WrapperAt(base, b, n, w);
    WrittenSim(base(w), wr, b.dirty(w), p, k, value);
    hide WrapperSim;
    var b', n' := B.LocalWriteOn(b, w, k, value), n.(wrappers := P.Put(n.wrappers, w, P.Written(p, P.Note(k, value))));
    assert B.Since(wr.sent, wr.sent) == [];
    forall s | 0 <= s < 16
      ensures SentOn(base(w), b, b', n, n', P.Link(s, w), For([], s), [])
    {
      UpAt(base, b, n, s, w);
      NothingDown(base(w), P.Last(p, s));
    }
    hide SentOn;
    WrapperMovesSim(base, b, n, w, b', n', [], s => []);
  }

  lemma AnnouncementIsUpdate(p: P.Wrapper, s: int, note: P.Note)
    ensures var ms := P.Announcement(p, s, note);
            || ms == []
            || (P.Entry(p, s).Some? && ms == [P.Update(P.IdByte(P.Entry(p, s).value), note)])
  {
  }

  // An update names the id exposed last, or none.
  lemma HeldIsLast(n: P.Net, l: P.Link)
    requires G.Inv(n)
    ensures var p := n.wrappers(l.w); EntryFits(P.Entry(p, l.s), P.Last(p, l.s))
  {
    assert G.LinkAt(n, l);
  }

  predicate EntryFits(entry: Option<int>, last: int) {
    entry.Some? ==> P.IdByte(entry.value) == last || P.IdByte(entry.value) == P.IdByte(UNASSIGNED)
  }

  lemma HeldIsCarriable(base: W.Wrapper, w: W.Wrapper, k: nat)
    requires SameShape(base, w) && W.Valid(w) && k < |w.attributes|
    ensures Carriable(base, k, w.attributes[k].value)
  {
    assert w.attributes[k] == base.attributes[k].(value := w.attributes[k].value);
  }

  // Announcing attribute k, for the wrapper and for each stub.
  lemma PublishedSim(base: W.Wrapper, w: W.Wrapper, dirty: set<int>, p: P.Wrapper, k: nat)
    requires WrapperSim(base, w, true, dirty, p) && k < |w.attributes|
    ensures k < |p.values| && SameShape(base, w) && Carriable(base, k, p.values[k])
    ensures var w' := W.UpdateAttribute(w, w.attributes[k].name, w.attributes[k].value);
            var sent := W.Updates(w.serverMap, k, w.attributes[k].value);
            && WrapperSim(base, w', true, dirty - {k}, P.Announced(p, k)) && w'.sent == w.sent + sent
            && forall s :: For(sent, s) == AllDownBytes(w, s, P.Announcement(p, s, P.Note(k, p.values[k])))
  {
    hide B.Fit, P.Announcement, For, AllDownBytes, W.Updates;
    PublishRefinesMachine(w, p, k);
    HeldIsCarriable(base, w, k);
  }

  lemma PublishSim(base: Published, b: B.Net, n: P.Net, w: int, k: nat)
    requires Sim(base, b, n) && G.Inv(n) && b.alive(w) && k < |b.wrappers(w).attributes|
    ensures n.wrappers(w).alive && k < |n.wrappers(w).values| && Sim(base, B.PublishOn(b, w, k), P.PublishAll(n, w, k))
  {
    hide StubSim, UpMatches, DownMatches, Done, Sim, W.UpdateAttribute, W.Updates, AllDownBytes, P.Announcement,
         B.Fit, SameShape, W.Valid, WrapperShows, Carriable;
    var wr, p := b.wrappers(w), n.wrappers(w);
    WrapperAt(base, b, n, w);
    PublishedSim(base(w), wr, b.dirty(w), p, k);
    hide WrapperSim;
    var b', n' := B.PublishOn(b, w, k), P.PublishAll(n, w, k);
    var wr', note := W.UpdateAttribute(wr, wr.attributes[k].name, wr.attributes[k].value), P.Note(k, p.values[k]);
    var sent, ms := W.Updates(wr.serverMap, k, wr.attributes[k].value), s => P.Announcement(p, s, note);
    assert B.Since(wr.sent, wr'.sent) == sent;
    forall s | 0 <= s < 16
      ensures SentOn(base(w), b, b', n, n', P.Link(s, w), For(sent, s), ms(s))
    {
      UpAt(base, b, n, s, w);
      AnnouncementIsUpdate(p, s, note);
      HeldIsLast(n, P.Link(s, w));
      SentAllMatches(base(w), wr, s, ms(s), P.Last(p, s));
    }
    hide SentOn;
    WrapperMovesSim(base, b, n, w, b', n', sent, ms);
  }

  lemma FarewellIsShutdown(p: P.Wrapper, s: int)
    ensures var ms := P.Farewell(p, s); ms == [] || (|ms| == 1 && ms[0].ModuleShutdown?)
  {
  }

  lemma GoneSim(base: W.Wrapper, w: W.Wrapper, dirty: set<int>, p: P.Wrapper, sent: seq<W.Dispatched>)
    requires WrapperSim(base, w, true, dirty, p)
    ensures WrapperSim(base, w.(serverMap := [], sent := sent), false, dirty, p.(servers := map[], alive := false))
    ensures WrapperShows(w, p) && SameShape(base, w) && Ascending(w.serverMap)
  {
    hide B.Fit;
  }

  lemma QuitSim(base: Published, b: B.Net, n: P.Net, w: int)
    requires Sim(base, b, n) && b.alive(w)
    ensures n.wrappers(w).alive && Sim(base, B.QuitOn(b, w), P.QuitOn(n, w))
  {
    hide StubSim, UpMatches, DownMatches, Done, Sim, W.Farewells, AllDownBytes, P.Farewell, SameShape, WrapperShows,
         W.Valid, B.Fit;
    var wr, p := b.wrappers(w), n.wrappers(w);
    WrapperAt(base, b, n, w);
    var b', n' := B.QuitOn(b, w), P.QuitOn(n, w);
    var sent, ms := W.Farewells(wr.serverMap), s => P.Farewell(p, s);
    assert B.Since(wr.sent, wr.sent + sent) == sent;
    GoneSim(base(w), wr, b.dirty(w), p, wr.sent + sent);
    forall s | 0 <= s < 16
      ensures SentOn(base(w), b, b', n, n', P.Link(s, w), For(sent, s), ms(s))
    {
      UpAt(base, b, n, s, w);
      QuitRefinesMachine(wr, p, s);
      FarewellIsShutdown(p, s);
      SentAllMatches(base(w), wr, s, ms(s), P.Last(p, s));
    }
    hide SentOn, WrapperSim;
    WrapperMovesSim(base, b, n, w, b', n', sent, ms);
  }

  lemma AdvertiseSim(base: Published, b: B.Net, n: P.Net, l: P.Link)
    requires Sim(base, b, n) && B.Can(b, B.Advertise(l))
    ensures P.Can(n, P.Advertise(l))
    ensures Sim(base, B.AdvertiseOn(b, l), P.SendDown(n, l, [P.DeclareModule(n.wrappers(l.w).name)]))
  {
    hide StubSim, UpMatches, Sim, DownMatches, Done, Stutter, DeclareMessage, B.Fit, SameShape, W.Valid, WrapperShows,
         IsDown;
    AtLink(base, b, n, l);
    var wr, w0 := b.wrappers(l.w), base(l.w);
    var message := DeclareMessage(0, W.OptionByte(wr.leftToRight), wr.name, wr.desc);
    ShownName(wr, n.wrappers(l.w));
    hide WrapperSim;
    var m, done := P.DeclareModule(wr.name), Done(n.down(l), b.exposed(l));
    DeclareIsDown(w0, wr, done);
    DownOne(w0, message, [m], done);
    DownAppend(w0, b.down(l), n.down(l), b.exposed(l), [message], [m]);
    DoneOne(m, done);
    NothingUp(w0, l.s);
    assert b.up(l) + [] == b.up(l) && n.up(l) + [] == n.up(l);
    StubMovesSim(base, b, n, l, B.AdvertiseOn(b, l), P.SendDown(n, l, [m]), [], []);
  }

  lemma ShownName(w: W.Wrapper, p: P.Wrapper)
    requires WrapperShows(w, p)
    ensures p.name == w.name
  {
  }

  lemma DoneOne(m: P.Down, done: int)
    ensures Done([m], done) == NextDone(done, m)
  {
    assert [m][1..] == [];
  }

  lemma DeclareIsDown(base: W.Wrapper, w: W.Wrapper, done: int)
    requires B.Fit(base) && SameShape(base, w)
    ensures IsDown(base, DeclareMessage(0, W.OptionByte(w.leftToRight), w.name, w.desc), P.DeclareModule(w.name), done)
  {
    hide ShortName, LongText, PackShortString, PackLongString, Publishable;
  }

  // ---------------------------------------------------------------- a wrapper takes a message

  lemma ShapePublishable(base: W.Wrapper, w: W.Wrapper)
    requires B.Fit(base) && SameShape(base, w) && W.Valid(w)
    ensures Publishable(WithValues(base.attributes, Values(w.attributes)), base.methods)
  {
    hide ShortName, LongText, Sorted, Ascending, Wireable, HasType;
    forall a | a in w.attributes
      ensures PublishableAttribute(a)
    {
      var i :| 0 <= i < |w.attributes| && w.attributes[i] == a;
      assert a == base.attributes[i].(value := a.value);
      assert base.attributes[i] in base.attributes;
    }
  }

  lemma {:induction false} DirectFor(messages: seq<seq<Byte>>, s: int, k: int)
    requires forall i :: 0 <= i < |messages| ==> messages[i] != [] && messages[i][0] % 16 == s
    ensures For(Direct(messages), k) == if k == s then messages else []
  {
    if messages != [] {
      DirectFor(messages[1..], s, k);
      assert Direct(messages)[1..] == Direct(messages[1..]);
      assert messages == [messages[0]] + messages[1..];
    }
  }

  // The messages of the machine that go to stub k when the wrapper takes m from stub s.
  ghost function Outgoing(p: P.Wrapper, s: int, m: P.Up, k: int): seq<P.Down> {
    var step := P.WrapperReceive(p, s, m);
    (if k == s then step.replies else [])
    + (match step.announce
       case None => []
       case Some(index) => P.Announcement(step.wrapper, k, P.Note(index, step.wrapper.values[index])))
  }

  // The wrapper's state once it has announced.
  ghost function Settled(p: P.Wrapper, s: int, m: P.Up): P.Wrapper {
    var step := P.WrapperReceive(p, s, m);
    match step.announce
    case None => step.wrapper
    case Some(index) => P.Announced(step.wrapper, index)
  }

  // The updates a wrapper sends in this step.
  ghost function Announcements(w: W.Wrapper, step: P.WrapperStep): seq<W.Dispatched>
    requires step.announce.Some? ==> step.announce.value < |step.wrapper.values|
  {
    match step.announce
    case None => []
    case Some(index) => W.Updates(w.serverMap, index, step.wrapper.values[index])
  }

  // What it sent is what goes out in the machine, for each stub.
  lemma OutgoingBytes(w: W.Wrapper, p: P.Wrapper, s: int, m: P.Up, k: int)
    requires WrapperShows(w, p) && Ascending(w.serverMap) && 0 <= s < 16
    ensures var step := P.WrapperReceive(p, s, m);
            var sent := Direct(AllDownBytes(w, s, step.replies)) + Announcements(w, step);
            For(sent, k) == AllDownBytes(w, k, Outgoing(p, s, m, k))
    ensures |Outgoing(p, s, m, k)| <= 1
  {
    hide DownBytes, WrapperShows;
    var step := P.WrapperReceive(p, s, m);
    if step.announce.Some? {
      var index := step.announce.value;
      var value := step.wrapper.values[index];
      assert step.replies == [] && Direct([]) == [] && step.wrapper.servers == p.servers;
      AnnouncementsMatch(w, p, index, value, k);
      assert Outgoing(p, s, m, k) == P.Announcement(p, k, P.Note(index, value));
      var updates := W.Updates(w.serverMap, index, value);
      assert Direct(AllDownBytes(w, s, [])) + updates == updates;
    } else {
      RepliesFor(w, s, step.replies, k);
      assert Outgoing(p, s, m, k) == if k == s then step.replies else [];
    }
  }

  lemma RepliesFor(w: W.Wrapper, s: int, replies: seq<P.Down>, k: int)
    requires 0 <= s < 16 && |replies| <= 1
    ensures For(Direct(AllDownBytes(w, s, replies)) + [], k) == AllDownBytes(w, k, if k == s then replies else [])
  {
    hide DownBytes;
    var messages := AllDownBytes(w, s, replies);
    if replies != [] {
      OneReply(w, s, replies[0]);
      assert replies == [replies[0]];
      HeaderOf(w, s, replies[0]);
      forall i | 0 <= i < |messages|
        ensures messages[i] != [] && messages[i][0] % 16 == s
      {
        assert messages[i] in DownBytes(w, s, replies[0]);
      }
    }
    DirectFor(messages, s, k);
    assert Direct(messages) + [] == Direct(messages);
  }

  // What goes out fits, and is the last thing exposed where it exposes.
  lemma OutgoingFits(base: W.Wrapper, w: W.Wrapper, dirty: set<int>, p: P.Wrapper, s: int, m: P.Up, k: int)
    requires WrapperSim(base, w, true, dirty, p) && UpFits(base, m) && (m.AssignId? ==> P.Last(p, s) < m.id)
    requires EntryFits(P.Entry(p, k), P.Last(p, k))
    ensures var ms, last := Outgoing(p, s, m, k), P.Last(p, k);
            && |ms| <= 1
            && (ms != [] ==> DownFit(base, ms[0], last) && (ms[0].Expose? ==> ms[0].values == Values(w.attributes)))
            && P.Last(Settled(p, s, m), k) == if ms == [] then last else NextDone(last, ms[0])
  {
    hide Publishable, W.Valid, Ascending, HasType, Wireable, ShortName, LongText;
    if m.AssignId? {
      ShapePublishable(base, w);
    }
    FitName(base);
  }

  lemma FitName(base: W.Wrapper)
    requires B.Fit(base)
    ensures ShortName(base.name) && LongText(base.desc)
  {
  }

  // The attribute that is announced is no longer dirty on either side.
  lemma AnnouncesWhatIsSet(base: W.Wrapper, w: W.Wrapper, p: P.Wrapper, s: int, m: P.Up, message: seq<Byte>)
    requires WrapperShows(w, p) && |w.attributes| == |base.attributes| <= MAX_STR_LENGTH
    requires 0 <= s < 16 && IsUp(base, s, message, m)
    ensures var step := P.WrapperReceive(p, s, m);
            B.Announces(w, message) == if step.announce.Some? then {step.announce.value as int} else {}
  {
    hide ParseIndex, CallMessage, PackValue, HasType, Wireable;
    assert P.Entry(p, s) == AssignedId(w, s);
    match m {
      case CallSet(id, note) =>
        PackedFit(note.value);
        CallArrives(if message[0] / 16 == CALL_ATTR_METD_NOCB then CALL_ATTR_METD_NOCB else CALL_ATTR_METD, s, id,
                    note.index, PackValue(note.value));
      case _ =>
    }
  }

  lemma SettledSim(base: W.Wrapper, w: W.Wrapper, dirty: set<int>, p: P.Wrapper, s: int, m: P.Up, message: seq<Byte>,
                   w': W.Wrapper)
    requires WrapperSim(base, w, true, dirty, p) && 0 <= s < 16 && IsUp(base, s, message, m)
    requires WrapperShows(w', P.WrapperReceive(p, s, m).wrapper) && W.Keeps(w, w')
    ensures WrapperSim(base, w', true, dirty - B.Announces(w, message), Settled(p, s, m))
  {
    hide B.Announces, IsUp, W.Valid, SameShape, Publishable;
    var step := P.WrapperReceive(p, s, m);
    KeptShape(base, w, w');
    ShapeSize(base, w);
    AnnouncesWhatIsSet(base, w, p, s, m, message);
    if step.announce.Some? {
      SameEntries(w', step.wrapper, w', Settled(p, s, m));
    }
  }

  lemma FitSize(base: W.Wrapper)
    requires B.Fit(base)
    ensures |base.attributes| <= MAX_STR_LENGTH
  {
  }

  lemma ShapeSize(base: W.Wrapper, w: W.Wrapper)
    requires B.Fit(base) && SameShape(base, w)
    ensures |w.attributes| == |base.attributes| <= MAX_STR_LENGTH && |w.attributes| + |w.methods| <= MAX_STR_LENGTH
  {
  }

  // The machine's step, put together.
  lemma MachineStep(n: P.Net, l: P.Link)
    requires n.up(l) != []
    ensures var n', m := P.WrapperStepOn(n, l), n.up(l)[0];
            && OnlyThisWrapperMoved(n, n', l.w) && n'.wrappers(l.w) == Settled(n.wrappers(l.w), l.s, m)
            && forall k: P.Link :: k.w == l.w ==>
                 && n'.down(k) == n.down(k) + Outgoing(n.wrappers(l.w), l.s, m, k.s)
                 && n'.up(k) == if k == l then n.up(l)[1..] else n.up(k)
  {
    hide P.WrapperReceive;
    var m := n.up(l)[0];
    forall k: P.Link | k.w == l.w
      ensures P.WrapperStepOn(n, l).down(k) == n.down(k) + Outgoing(n.wrappers(l.w), l.s, m, k.s)
    {
      var step := P.WrapperReceive(n.wrappers(l.w), l.s, m);
      var replies := if k.s == l.s then step.replies else [];
      assert P.Received(n, l).down(k) == n.down(k) + replies;
      assert k == P.Link(k.s, l.w) && l == P.Link(l.s, l.w);
      if step.announce.Some? {
        ConcatAssoc(n.down(k), replies,
                    P.Announcement(step.wrapper, k.s,
                                   P.Note(step.announce.value, step.wrapper.values[step.announce.value])));
      } else {
        assert replies + [] == replies;
      }
    }
  }

  // A message of the machine, taken by the wrapper.
  lemma RequestTaken(base: W.Wrapper, w: W.Wrapper, dirty: set<int>, p: P.Wrapper, s: int, m: P.Up,
                     message: seq<Byte>, beh: W.Behaviour)
    requires WrapperSim(base, w, true, dirty, p) && 0 <= s < 16 && IsUp(base, s, message, m)
    ensures W.ProcessInput(w, message, beh).Some?
    ensures var w' := W.ProcessInput(w, message, beh).value.wrapper;
            && WrapperSim(base, w', true, dirty - B.Announces(w, message), Settled(p, s, m))
            && |w.sent| <= |w'.sent| && w'.sent[..|w.sent|] == w.sent
            && forall k :: For(B.Since(w.sent, w'.sent), k) == AllDownBytes(w, k, Outgoing(p, s, m, k))
  {
    hide W.ProcessInput, W.Keeps, Settled, AllDownBytes, Direct, W.Updates, P.WrapperReceive, For, Outgoing;
    ShapeSize(base, w);
    SameFits(base, w, m);
    WrapperRefinesMachine(w, p, s, m, message[0] / 16 == CALL_ATTR_METD_NOCB, message[1], beh);
    W.ProcessInputKeepsValid(w, message, beh);
    var w' := W.ProcessInput(w, message, beh).value.wrapper;
    SettledSim(base, w, dirty, p, s, m, message, w');
    Unfolded(w);
    var step := P.WrapperReceive(p, s, m);
    var direct, updates := Direct(AllDownBytes(w, s, step.replies)), Announcements(w, step);
    ConcatAssoc(w.sent, direct, updates);
    assert B.Since(w.sent, w'.sent) == direct + updates;
    forall k
      ensures For(B.Since(w.sent, w'.sent), k) == AllDownBytes(w, k, Outgoing(p, s, m, k))
    {
      OutgoingBytes(w, p, s, m, k);
    }
  }

  lemma SameFits(base: W.Wrapper, w: W.Wrapper, m: P.Up)
    requires SameShape(base, w) && UpFits(base, m)
    ensures UpFits(w, m)
  {
    if m.CallSet? {
      assert w.attributes[m.note.index] == base.attributes[m.note.index].(value := w.attributes[m.note.index].value);
    }
  }

  // An id that is assigned is greater than all before.
  lemma NextRequest(n: P.Net, l: P.Link)
    requires G.Inv(n) && n.up(l) != []
    ensures n.up(l)[0].AssignId? ==> P.Last(n.wrappers(l.w), l.s) < n.up(l)[0].id
  {
    assert G.LinkAt(n, l);
  }

  lemma MachineRequestSim(base: Published, b: B.Net, n: P.Net, l: P.Link, beh: W.Behaviour)
    requires Sim(base, b, n) && G.Inv(n) && 0 <= l.s < 16 && b.alive(l.w)
    requires b.up(l) != [] && n.up(l) != [] && IsUp(base(l.w), l.s, b.up(l)[0], n.up(l)[0])
    requires UpMatches(base(l.w), l.s, b.up(l)[1..], n.up(l)[1..])
    ensures W.ProcessInput(b.wrappers(l.w), b.up(l)[0], beh).Some?
    ensures n.wrappers(l.w).alive && Sim(base, B.WrapperStepOn(b, l, beh), P.WrapperStepOn(n, l))
  {
    hide Sim, StubSim, IsUp, UpMatches, DownMatches, Done, For, AllDownBytes, Outgoing, Settled, W.ProcessInput,
         P.WrapperStepOn, P.WrapperReceive, DownFit, UpFits, SameShape, B.Fit, W.Valid, WrapperShows, B.Announces;
    var w, p, m, message := b.wrappers(l.w), n.wrappers(l.w), n.up(l)[0], b.up(l)[0];
    WrapperAt(base, b, n, l.w);
    FittingRequest(base(l.w), l.s, message, m);
    NextRequest(n, l);
    MachineStep(n, l);
    RequestTaken(base(l.w), w, b.dirty(l.w), p, l.s, m, message, beh);
    var b', n', w' := B.WrapperStepOn(b, l, beh), P.WrapperStepOn(n, l), W.ProcessInput(w, message, beh).value.wrapper;
    var sent, ms := B.Since(w.sent, w'.sent), k => Outgoing(p, l.s, m, k);
    forall k | 0 <= k < 16
      ensures SentOn(base(l.w), b, b', n, n', P.Link(k, l.w), For(sent, k), ms(k))
    {
      UpAt(base, b, n, k, l.w);
      HeldIsLast(n, P.Link(k, l.w));
      OutgoingFits(base(l.w), w, b.dirty(l.w), p, l.s, m, k);
      SentAllMatches(base(l.w), w, k, ms(k), P.Last(p, k));
    }
    hide SentOn, WrapperSim;
    WrapperMovesSim(base, b, n, l.w, b', n', sent, ms);
  }

  lemma FittingRequest(base: W.Wrapper, s: int, message: seq<Byte>, m: P.Up)
    requires IsUp(base, s, message, m)
    ensures UpFits(base, m)
  {
  }

  // ---------------------------------------------------------------- a wrapper takes a method call

  ghost predicate AllStutter(base: W.Wrapper, queue: seq<seq<Byte>>, done: int) {
    forall i :: 0 <= i < |queue| ==> Stutter(base, queue[i], done)
  }

  lemma {:induction false} StutterMatches(base: W.Wrapper, queue: seq<seq<Byte>>, done: int)
    requires AllStutter(base, queue, done)
    ensures DownMatches(base, queue, [], done)
  {
    hide Stutter;
    if queue != [] {
      StutterMatches(base, queue[1..], done);
    }
  }

  lemma ReplyIsStutter(base: W.Wrapper, s: int, id: Byte, j: nat, err: Byte, v: Value)
    requires 0 <= s < 16 && j < |base.methods| && err < 16
    requires if err == 0 then Returns(base.methods[j], v) else v == NoneVal
    ensures var message := RespMessage(ATTR_METD_RESP, s, id, err, |base.attributes| + j, PackValue(v));
            message != [] && message[0] % 16 == s && Stutter(base, message, id)
  {
    hide CallBody, PackValue, Returns;
    var message := RespMessage(ATTR_METD_RESP, s, id, err, |base.attributes| + j, PackValue(v));
    assert IsReplyOf(base, message, id, j, err, v);
  }

  lemma {:induction false} AllFor(base: W.Wrapper, ds: seq<W.Dispatched>, s: int, done: int, k: int)
    requires forall i :: 0 <= i < |ds| ==>
               ds[i].message != [] && ds[i].message[0] % 16 == s && Stutter(base, ds[i].message, done)
    ensures if k == s then AllStutter(base, For(ds, k), done) else For(ds, k) == []
  {
    hide Stutter;
    if ds != [] {
      AllFor(base, ds[1..], s, done, k);
    }
  }

  // The answers of a method go to the stub that called it, and are no messages of the machine.
  lemma RepliesStutter(base: W.Wrapper, s: int, id: Byte, j: nat, noResponse: bool, beh: W.Behaviour, k: int)
    requires 0 <= s < 16 && j < |base.methods|
    requires beh.Returned? && base.methods[j].retType != VOID ==> Returns(base.methods[j], beh.value)
    ensures var queue := For(W.Replies(id, base.methods[j], |base.attributes| + j, s, noResponse, beh), k);
            if k == s then AllStutter(base, queue, id) else queue == []
  {
    hide RespMessage, Stutter, For, AllStutter;
    var m := base.methods[j];
    var replies := W.Replies(id, m, |base.attributes| + j, s, noResponse, beh);
    ReplyIsStutter(base, s, id, j, W.METD_EXCEPTION, NoneVal);
    if m.retType == VOID {
      ReplyIsStutter(base, s, id, j, NO_ERRORS, NoneVal);
    } else if beh.Returned? {
      ReplyIsStutter(base, s, id, j, NO_ERRORS, beh.value);
    }
    AllFor(base, replies, s, id, k);
  }

  // What a call leaves of a wrapper, for the machine: everything.
  lemma CalledSim(base: W.Wrapper, w: W.Wrapper, dirty: set<int>, p: P.Wrapper, w': W.Wrapper)
    requires WrapperSim(base, w, true, dirty, p)
    requires w' == w.(calls := w'.calls, sent := w'.sent)
    ensures WrapperSim(base, w', true, dirty, p)
  {
    SameEntries(w, p, w', p);
  }

  // What the wrapper sees of a call.
  lemma CallParts(base: W.Wrapper, s: int, message: seq<Byte>, noCallback: bool, id: Byte, j: nat, values: seq<Value>)
    requires B.Fit(base) && 0 <= s < 16 && IsCallOf(base, s, message, noCallback, id, j, values)
    ensures |base.methods[j].args| <= 15 && |message| >= 2 && message[0] % 16 == s && message[1] == id
    ensures ParseIndex(message[2..]).Some? && ParseIndex(message[2..]).value.0 == |base.attributes| + j
  {
    hide CallMessage, ParseIndex, S.PackArgs, Typed;
    assert base.methods[j] in base.methods;
    DataFits(W.ArgTypes(base.methods[j]), values, base.leftToRight);
    CallArrives(if noCallback then CALL_ATTR_METD_NOCB else CALL_ATTR_METD, s, id, |base.attributes| + j,
                S.PackArgs(values, base.leftToRight));
  }

  // A call is carried out, or refused when the id is not this wrapper's; the answers are no
  // messages of the machine.
  lemma CallTaken(base: W.Wrapper, w: W.Wrapper, dirty: set<int>, p: P.Wrapper, s: int, message: seq<Byte>,
                  beh: W.Behaviour)
    requires WrapperSim(base, w, true, dirty, p) && 0 <= s < 16 && IsCall(base, s, message)
    requires B.ReturnFits(w, message, beh)
    requires G.EntryOk(P.Entry(p, s), P.Last(p, s))
    ensures W.ProcessInput(w, message, beh).Some? && B.Announces(w, message) == {}
    ensures var w' := W.ProcessInput(w, message, beh).value.wrapper;
            && WrapperSim(base, w', true, dirty, p) && |w.sent| <= |w'.sent| && w'.sent[..|w.sent|] == w.sent
            && forall k :: AllStutter(base, For(B.Since(w.sent, w'.sent), k), P.Last(p, k))
  {
    hide W.ProcessInput, AllStutter, CallMessage, ParseIndex, S.PackArgs, W.Replies, Typed, For, B.Fit, W.Valid,
         Returns;
    var noCallback, id: Byte, j: nat, values :| IsCallOf(base, s, message, noCallback, id, j, values);
    var msgType: MsgType := if noCallback then CALL_ATTR_METD_NOCB else CALL_ATTR_METD;
    CallParts(base, s, message, noCallback, id, j, values);
    ShapeSize(base, w);
    assert P.Entry(p, s) == AssignedId(w, s);
    if AssignedId(w, s) == Some(id as int) {
      CallReaches(w, s, msgType, id, j, values, beh);
      var w' := W.ProcessInput(w, message, beh).value.wrapper;
      CalledSim(base, w, dirty, p, w');
      var replies := W.Replies(id, w.methods[j], |w.attributes| + j, s, noCallback, beh);
      assert B.Since(w.sent, w'.sent) == replies;
      forall k
        ensures AllStutter(base, For(replies, k), P.Last(p, k))
      {
        RepliesStutter(base, s, id, j, noCallback, beh, k);
        NoneStutter(base, P.Last(p, k));
      }
    } else {
      CallIgnored(w, s, msgType, id, |base.attributes| + j, S.PackArgs(values, base.leftToRight), beh);
      forall k
        ensures AllStutter(base, For([], k), P.Last(p, k))
      {
        NoneFor(k);
        NoneStutter(base, P.Last(p, k));
      }
      assert B.Since(w.sent, w.sent) == [];
    }
  }

  lemma NoneStutter(base: W.Wrapper, done: int)
    ensures AllStutter(base, [], done)
  {
  }

  lemma NoneFor(s: int)
    ensures For([], s) == []
  {
  }

  lemma CallSimAtWrapper(base: Published, b: B.Net, n: P.Net, l: P.Link, beh: W.Behaviour)
    requires Sim(base, b, n) && G.Inv(n) && 0 <= l.s < 16 && b.alive(l.w)
    requires b.up(l) != [] && IsCall(base(l.w), l.s, b.up(l)[0]) && B.ReturnFits(b.wrappers(l.w), b.up(l)[0], beh)
    requires UpMatches(base(l.w), l.s, b.up(l)[1..], n.up(l))
    ensures W.ProcessInput(b.wrappers(l.w), b.up(l)[0], beh).Some? && Sim(base, B.WrapperStepOn(b, l, beh), n)
  {
    hide Sim, StubSim, IsCall, UpMatches, DownMatches, Done, For, W.ProcessInput, SameShape, B.Fit, W.Valid,
         WrapperShows, B.Announces, B.ReturnFits, AllStutter;
    var w, p, message := b.wrappers(l.w), n.wrappers(l.w), b.up(l)[0];
    WrapperAt(base, b, n, l.w);
    assert G.LinkAt(n, l);
    CallTaken(base(l.w), w, b.dirty(l.w), p, l.s, message, beh);
    var b', w' := B.WrapperStepOn(b, l, beh), W.ProcessInput(w, message, beh).value.wrapper;
    assert b.dirty(l.w) - {} == b.dirty(l.w);
    var sent := B.Since(w.sent, w'.sent);
    forall k | 0 <= k < 16
      ensures SentOn(base(l.w), b, b', n, n, P.Link(k, l.w), For(sent, k), [])
    {
      UpAt(base, b, n, k, l.w);
      StutterMatches(base(l.w), For(sent, k), P.Last(p, k));
      NothingDown(base(l.w), P.Last(p, k));
      assert n.down(P.Link(k, l.w)) + [] == n.down(P.Link(k, l.w));
    }
    hide SentOn, WrapperSim;
    WrapperMovesSim(base, b, n, l.w, b', n, sent, k => []);
  }
}
