// The stub and the wrapper that work on bytes do, message by message, what the protocol machine
// says: each step of the machine is matched by one run of processInput on the encoded message.
module Refinement {
  import opened Common
  import opened OrderedMap
  import opened Names
  import opened Registry
  import opened Messages
  import P = Protocol
  import W = WrapperModel
  import S = StubModel
  import R = Routing
  import Calls

  // ---------------------------------------------------------------- messages as bytes

  // A message from stub s. A set is sent in one of two modes, and a farewell names a module,
  // which the wrapper does not look at.
  function UpBytes(s: int, m: P.Up, noCallback: bool, named: Byte): seq<Byte> {
    match m
    case Discovery => [Header(MODULE_DISCOVERY, s), MSG_END]
    case AssignId(id, name) => AssignMessage(s, id, name)
    case CallSet(id, note) =>
      CallMessage(if noCallback then CALL_ATTR_METD_NOCB else CALL_ATTR_METD, s, id, note.index, PackValue(note.value))
    case ServerShutdown => [Header(SERVER_SHUTDOWN, s), named, MSG_END]
  }

  function UpdateBytes(s: int, id: Byte, note: P.Note): seq<Byte> {
    RespMessage(ATTR_VALUE_UPDATE, s, id, NO_ERRORS, note.index, PackValue(note.value))
  }

  // What wrapper w sends to stub s for one message of the machine; DESC follows EXPOSE.
  function DownBytes(w: W.Wrapper, s: int, m: P.Down): seq<seq<Byte>> {
    match m
    case DeclareModule(name) => [DeclareMessage(s, W.OptionByte(w.leftToRight), name, w.desc)]
    case Expose(id, _) =>
      [ExposeMessage(s, id, w.attributes, w.methods), DescMessage(s, id, w.attributes, w.methods)]
    case Update(id, note) => [UpdateBytes(s, id, note)]
    case ModuleShutdown(id) => [[Header(MODULE_SHUTDOWN, s), id, MSG_END]]
  }

  function AllDownBytes(w: W.Wrapper, s: int, ms: seq<P.Down>): seq<seq<Byte>> {
    if ms == [] then [] else DownBytes(w, s, ms[0]) + AllDownBytes(w, s, ms[1..])
  }

  // ---------------------------------------------------------------- the wrapper

  function Values(attrs: seq<Attribute>): (vs: seq<Value>)
    ensures |vs| == |attrs| && forall i :: 0 <= i < |vs| ==> vs[i] == attrs[i].value
  {
    seq(|attrs|, i requires 0 <= i < |attrs| => attrs[i].value)
  }

  function AssignedId(w: W.Wrapper, s: int): Option<int> {
    match Lookup(w.serverMap, s)
    case None => None
    case Some(info) => Some(info.assignedModuleID)
  }

  // Every known stub has a 4-bit id and wants updates.
  predicate Listening(servers: seq<Entry<W.ServerInfo>>) {
    servers == [] || (0 <= servers[0].key < 16 && servers[0].value.attributeUpdate && Listening(servers[1..]))
  }

  lemma {:induction false} ListeningKept(servers: seq<Entry<W.ServerInfo>>, key: int, info: W.ServerInfo)
    requires Listening(servers)
    ensures 0 <= key < 16 && info.attributeUpdate ==> Listening(Assign(servers, key, info))
    ensures Listening(Remove(servers, key))
    ensures Lookup(servers, key).Some? ==> Lookup(servers, key).value.attributeUpdate
  {
    if servers != [] {
      ListeningKept(servers[1..], key, info);
      assert Assign(servers, key, info)[1..] in [servers, servers[1..], Assign(servers[1..], key, info)];
    }
  }

  ghost predicate WrapperShows(w: W.Wrapper, p: P.Wrapper) {
    && p.name == w.name && p.values == Values(w.attributes)
    && (forall s :: P.Entry(p, s) == AssignedId(w, s))
    && Listening(w.serverMap)
  }

  // The messages in this list that are for stub s.
  function For(ds: seq<W.Dispatched>, s: int): seq<seq<Byte>> {
    if ds == [] then []
    else (if ds[0].message != [] && ds[0].message[0] % 16 == s then [ds[0].message] else []) + For(ds[1..], s)
  }

  lemma {:induction false} ForAppend(ds: seq<W.Dispatched>, es: seq<W.Dispatched>, s: int)
    ensures For(ds + es, s) == For(ds, s) + For(es, s)
  {
    if ds == [] {
      assert ds + es == es;
    } else {
      ForAppend(ds[1..], es, s);
      assert (ds + es)[1..] == ds[1..] + es;
      ConcatAssoc(if ds[0].message != [] && ds[0].message[0] % 16 == s then [ds[0].message] else [], For(ds[1..], s), For(es, s));
    }
  }

  // updateAttribute sends each stub exactly the announcement that the machine puts in its queue.
  lemma {:induction false} UpdatesFor(servers: seq<Entry<W.ServerInfo>>, index: nat, value: Value, s: int)
    requires Ascending(servers) && Listening(servers)
    ensures For(W.Updates(servers, index, value), s)
         == match Lookup(servers, s)
            case None => []
            case Some(info) => [UpdateBytes(s, P.IdByte(info.assignedModuleID), P.Note(index, value))]
  {
    hide RespMessage;
    if servers != [] {
      var e := servers[0];
      UpdatesFor(servers[1..], index, value, s);
      RespIsFor(ATTR_VALUE_UPDATE, e.key, e.value.assignedModuleID, NO_ERRORS, index, PackValue(value));
      assert W.Updates(servers, index, value)[1..] == W.Updates(servers[1..], index, value);
      if s == e.key {
        NotBefore(servers[1..], s);
      }
    }
  }

  lemma RespIsFor(msgType: MsgType, s: int, id: int, err: Byte, index: int, data: seq<Byte>)
    requires 0 <= s < 16
    ensures RespMessage(msgType, s, id, err, index, data) != [] && RespMessage(msgType, s, id, err, index, data)[0] % 16 == s
    ensures RespMessage(msgType, s, id, err, index, data) == RespMessage(msgType, s, P.IdByte(id), err, index, data)
  {
    hide Header, CallBody;
    assert RespMessage(msgType, s, id, err, index, data)[0] == Header(msgType, s);
  }

  lemma AnnouncementsMatch(w: W.Wrapper, p: P.Wrapper, index: nat, value: Value, s: int)
    requires WrapperShows(w, p) && Ascending(w.serverMap)
    ensures For(W.Updates(w.serverMap, index, value), s) == AllDownBytes(w, s, P.Announcement(p, s, P.Note(index, value)))
  {
    UpdatesFor(w.serverMap, index, value, s);
    assert P.Entry(p, s) == AssignedId(w, s);
    var ms := P.Announcement(p, s, P.Note(index, value));
    if ms != [] {
      assert ms[1..] == [] && AllDownBytes(w, s, ms) == DownBytes(w, s, ms[0]) + [];
    }
  }

  function Direct(messages: seq<seq<Byte>>): seq<W.Dispatched> {
    if messages == [] then [] else [W.Dispatched(messages[0], false)] + Direct(messages[1..])
  }

  // The machine's step for message m, seen on the wrapper that works on bytes: the same state,
  // the same replies, and the announcement to every known stub.
  ghost predicate WrapperStepMatches(w: W.Wrapper, p: P.Wrapper, s: int, m: P.Up, r: Option<W.Processed>) {
    var step := P.WrapperReceive(p, s, m);
    && r.Some? && WrapperShows(r.value.wrapper, step.wrapper)
    && r.value.wrapper.sent
       == w.sent + Direct(AllDownBytes(w, s, step.replies))
          + (match step.announce
             case None => []
             case Some(index) => W.Updates(w.serverMap, index, step.wrapper.values[index]))
  }

  // What the machine assumes of a message on the wire: names fit and have no NUL, and an
  // attribute that is set is writable and gets a value of its type.
  ghost predicate UpFits(w: W.Wrapper, m: P.Up) {
    match m
    case Discovery => true
    case AssignId(_, name) => ShortName(name)
    case CallSet(_, note) =>
      note.index < |w.attributes| && w.attributes[note.index].writable
      && HasType(note.value, w.attributes[note.index].t) && Wireable(note.value)
    case ServerShutdown => true
  }

  lemma DirectTwo(a: seq<Byte>, b: seq<Byte>)
    ensures Direct([a]) == [W.Dispatched(a, false)]
    ensures Direct([a, b]) == [W.Dispatched(a, false), W.Dispatched(b, false)]
  {
    assert [a][1..] == [] && [a, b][1..] == [b] && [b][1..] == [];
  }

  lemma OneReply(w: W.Wrapper, s: int, m: P.Down)
    ensures AllDownBytes(w, s, [m]) == DownBytes(w, s, m)
    ensures AllDownBytes(w, s, []) == []
  {
    assert [m][1..] == [] && AllDownBytes(w, s, [m]) == DownBytes(w, s, m) + [];
  }

  // A stub is entered, or gets another id.
  lemma EntryShows(w: W.Wrapper, p: P.Wrapper, s: int, info: W.ServerInfo, w': W.Wrapper, p': P.Wrapper)
    requires WrapperShows(w, p) && Ascending(w.serverMap) && 0 <= s < 16 && info.attributeUpdate
    requires w'.name == w.name && w'.attributes == w.attributes && w'.serverMap == Assign(w.serverMap, s, info)
    requires p'.name == p.name && p'.values == p.values && p'.servers == p.servers[s := info.assignedModuleID]
    ensures WrapperShows(w', p')
  {
    ListeningKept(w.serverMap, s, info);
    forall k
      ensures P.Entry(p', k) == AssignedId(w', k)
    {
      AssignSets(w.serverMap, s, info, k);
      assert P.Entry(p, k) == AssignedId(w, k);
    }
  }

  lemma NoEntryShows(w: W.Wrapper, p: P.Wrapper, s: int, w': W.Wrapper, p': P.Wrapper)
    requires WrapperShows(w, p) && Ascending(w.serverMap)
    requires w'.name == w.name && w'.attributes == w.attributes && w'.serverMap == Remove(w.serverMap, s)
    requires p'.name == p.name && p'.values == p.values && p'.servers == p.servers - {s}
    ensures WrapperShows(w', p')
  {
    ListeningKept(w.serverMap, s, W.ServerInfo(0, true));
    forall k
      ensures P.Entry(p', k) == AssignedId(w', k)
    {
      RemoveClears(w.serverMap, s, k);
      assert P.Entry(p, k) == AssignedId(w, k);
    }
  }

  lemma Unfolded(w: W.Wrapper)
    requires W.Valid(w)
    ensures Ascending(w.serverMap)
  {
  }

  lemma DiscoveryProcessed(w: W.Wrapper, s: int, b: W.Behaviour)
    requires 0 <= s < 16
    ensures W.ProcessInput(w, [Header(MODULE_DISCOVERY, s), MSG_END], b)
         == Some(if Lookup(w.serverMap, s).Some? then W.Processed(w, MESG_TO_SHUTDOWN)
                 else W.Processed(
                        W.Send(w.(serverMap := Assign(w.serverMap, s, W.ServerInfo(UNASSIGNED, true))),
                               DeclareMessage(s, W.OptionByte(w.leftToRight), w.name, w.desc)),
                        MESG_PROCESSED_OK))
  {
    hide DeclareMessage, Header;
    var m := [Header(MODULE_DISCOVERY, s), MSG_END];
    assert m[0] / 16 == MODULE_DISCOVERY && m[0] % 16 == s;
  }

  lemma DiscoveryMatches(w: W.Wrapper, p: P.Wrapper, s: int, nc: bool, x: Byte, b: W.Behaviour)
    requires WrapperShows(w, p) && W.Valid(w) && 0 <= s < 16
    ensures WrapperStepMatches(w, p, s, P.Discovery, W.ProcessInput(w, UpBytes(s, P.Discovery, nc, x), b))
  {
    hide DeclareMessage, W.Valid, W.ProcessInput;
    DiscoveryProcessed(w, s, b);
    assert P.Entry(p, s) == AssignedId(w, s);
    if s !in p.servers {
      var reply, info := P.DeclareModule(p.name), W.ServerInfo(UNASSIGNED, true);
      OneReply(w, s, reply);
      DirectTwo(DownBytes(w, s, reply)[0], []);
      Unfolded(w);
      EntryShows(w, p, s, info, W.ProcessInput(w, UpBytes(s, P.Discovery, nc, x), b).value.wrapper,
                 P.WrapperReceive(p, s, P.Discovery).wrapper);
    }
  }

  lemma ShutdownMatches(w: W.Wrapper, p: P.Wrapper, s: int, nc: bool, x: Byte, b: W.Behaviour)
    requires WrapperShows(w, p) && W.Valid(w) && 0 <= s < 16
    ensures WrapperStepMatches(w, p, s, P.ServerShutdown, W.ProcessInput(w, UpBytes(s, P.ServerShutdown, nc, x), b))
  {
    var w' := w.(serverMap := Remove(w.serverMap, s));
    assert W.ProcessInput(w, UpBytes(s, P.ServerShutdown, nc, x), b) == Some(W.Processed(w', MESG_TO_SHUTDOWN));
    hide W.Valid, W.ProcessInput;
    Unfolded(w);
    NoEntryShows(w, p, s, w', P.WrapperReceive(p, s, P.ServerShutdown).wrapper);
  }

  lemma AssignMatches(w: W.Wrapper, p: P.Wrapper, s: int, id: Byte, name: Str, nc: bool, x: Byte, b: W.Behaviour)
    requires WrapperShows(w, p) && W.Valid(w) && 0 <= s < 16 && ShortName(name)
    ensures WrapperStepMatches(w, p, s, P.AssignId(id, name), W.ProcessInput(w, UpBytes(s, P.AssignId(id, name), nc, x), b))
  {
    hide W.ProcessInput, W.Valid, ExposeMessage, DescMessage, AssignMessage;
    AssignedProcessed(w, s, id, name, b);
    if name == w.name {
      var reply, info := P.Expose(id, p.values), W.AssignedInfo(w.serverMap, s, id);
      OneReply(w, s, reply);
      DirectTwo(DownBytes(w, s, reply)[0], DownBytes(w, s, reply)[1]);
      Unfolded(w);
      ListeningKept(w.serverMap, s, info);
      EntryShows(w, p, s, info, W.IdAssigned(w, s, id), P.WrapperReceive(p, s, P.AssignId(id, name)).wrapper);
    }
  }

  lemma AssignedProcessed(w: W.Wrapper, s: int, id: Byte, name: Str, b: W.Behaviour)
    requires 0 <= s < 16 && ShortName(name)
    ensures W.ProcessInput(w, AssignMessage(s, id, name), b)
         == Some(W.Processed(if name == w.name then W.IdAssigned(w, s, id) else w, MESG_PROCESSED_OK))
  {
    AssignRoundTrip(s, id, name);
    var m := AssignMessage(s, id, name);
    assert m[0] / 16 == MODULE_ASSIGN_ID && m[0] % 16 == s;
    hide AssignMessage, W.IdAssigned, UnpackShortString;
  }

  lemma SetMatches(w: W.Wrapper, p: P.Wrapper, s: int, id: Byte, note: P.Note, nc: bool, x: Byte, b: W.Behaviour)
    requires WrapperShows(w, p) && W.Valid(w) && 0 <= s < 16 && |w.attributes| <= MAX_STR_LENGTH
    requires UpFits(w, P.CallSet(id, note))
    ensures WrapperStepMatches(w, p, s, P.CallSet(id, note), W.ProcessInput(w, UpBytes(s, P.CallSet(id, note), nc, x), b))
  {
    hide W.ProcessInput, W.Valid, W.Updates, CallMessage, PackValue, Sorted;
    var msgType: MsgType := if nc then CALL_ATTR_METD_NOCB else CALL_ATTR_METD;
    var i, value := note.index, note.value;
    assert P.Entry(p, s) == AssignedId(w, s);
    if P.Entry(p, s) == Some(id as int) {
      Calls.SetReaches(w, s, msgType, id, i, value, b);
      var attrs' := w.attributes[i := w.attributes[i].(value := value)];
      assert Values(attrs') == Values(w.attributes)[i := value];
      forall k
        ensures P.Entry(P.WrapperReceive(p, s, P.CallSet(id, note)).wrapper, k) == AssignedId(w.(attributes := attrs'), k)
      {
        assert P.Entry(p, k) == AssignedId(w, k);
      }
    } else {
      CallIgnored(w, s, msgType, id, i, PackValue(value), b);
    }
  }

  lemma CallIgnored(w: W.Wrapper, s: int, msgType: MsgType, id: Byte, index: nat, data: seq<Byte>, b: W.Behaviour)
    requires 0 <= s < 16 && (msgType == CALL_ATTR_METD || msgType == CALL_ATTR_METD_NOCB)
    requires AssignedId(w, s) != Some(id as int)
    ensures W.ProcessInput(w, CallMessage(msgType, s, id, index, data), b) == Some(W.Processed(w, MESG_PROCESSED_FAILED))
  {
    var m := CallMessage(msgType, s, id, index, data);
    assert |m| >= 2 && m[0] / 16 == msgType && m[0] % 16 == s && m[1] == id;
    hide CallMessage;
  }

  // Every message of the machine, processed as bytes by the wrapper, is the machine's own step.
  lemma WrapperRefinesMachine(w: W.Wrapper, p: P.Wrapper, s: int, m: P.Up, nc: bool, x: Byte, b: W.Behaviour)
    requires WrapperShows(w, p) && W.Valid(w) && 0 <= s < 16 && |w.attributes| <= MAX_STR_LENGTH && UpFits(w, m)
    ensures WrapperStepMatches(w, p, s, m, W.ProcessInput(w, UpBytes(s, m, nc, x), b))
  {
    match m
    case Discovery => DiscoveryMatches(w, p, s, nc, x, b);
    case AssignId(id, name) => AssignMatches(w, p, s, id, name, nc, x, b);
    case CallSet(id, note) => SetMatches(w, p, s, id, note, nc, x, b);
    case ServerShutdown => ShutdownMatches(w, p, s, nc, x, b);
  }

  // ---------------------------------------------------------------- the stub

  function Mirrored(attrs: seq<StubAttribute>): (vs: seq<Value>)
    ensures |vs| == |attrs| && forall i :: 0 <= i < |vs| ==> vs[i] == attrs[i].value
  {
    seq(|attrs|, i requires 0 <= i < |attrs| => attrs[i].value)
  }

  ghost predicate MirrorShown(os: seq<S.Object>, sv: P.Server, i: nat)
    requires i < |os|
  {
    P.Mirror(sv, os[i].id) == Mirrored(os[i].attrs)
  }

  // The same modules, and for each the same mirrored values.
  ghost predicate StubShows(st: S.Stub, sv: P.Server) {
    && sv.reg == S.RegistryOf(st) && Consistent(sv.reg)
    && forall i {:trigger MirrorShown(st.modules, sv, i)} :: 0 <= i < |st.modules| ==> MirrorShown(st.modules, sv, i)
  }

  function AllUpBytes(s: int, ms: seq<P.Up>): seq<seq<Byte>> {
    if ms == [] then [] else [UpBytes(s, ms[0], false, 0)] + AllUpBytes(s, ms[1..])
  }

  // The machine's step for a message, seen on the stub that works on bytes.
  ghost predicate StubStepMatches(st: S.Stub, sv: P.Server, from: int, m: P.Down, r: Option<S.Processed>) {
    var step := P.ServerReceive(sv, from, m);
    && r.Some? && StubShows(r.value.stub, step.server)
    && r.value.stub.sent == st.sent + AllUpBytes(st.serverId, step.replies)
  }

  lemma {:induction false} ListedAppend(os: seq<S.Object>, o: S.Object)
    ensures S.ListedAll(os + [o]) == S.ListedAll(os) + [S.Listed(o)]
  {
    if os != [] {
      ListedAppend(os[1..], o);
      assert (os + [o])[1..] == os[1..] + [o];
    } else {
      assert os + [o] == [o];
    }
  }

  lemma {:induction false} ListedAt(os: seq<S.Object>)
    ensures |S.ListedAll(os)| == |os| && forall i :: 0 <= i < |os| ==> S.ListedAll(os)[i] == S.Listed(os[i])
  {
    if os != [] {
      ListedAt(os[1..]);
    }
  }

  lemma {:induction false} ListedErase(os: seq<S.Object>, id: int)
    ensures S.ListedAll(S.Without(os, S.PlaceOf(os, id))) == Erase(S.ListedAll(os), id)
  {
    hide S.Without;
    if os == [] {
      WithoutParts(os, 0);
    } else {
      var i := S.PlaceOf(os[1..], id);
      WithoutParts(os, i);
      if os[0].id != id {
        ListedErase(os[1..], id);
      }
    }
  }

  lemma {:induction false} WithoutParts(os: seq<S.Object>, i: nat)
    requires i < |os| || i == 0
    ensures S.Without(os, 0) == if os == [] then [] else os[1..]
    ensures i < |os| ==>
              S.Without(os, i + 1) != [] && S.Without(os, i + 1)[0] == os[0] && S.Without(os, i + 1)[1..] == S.Without(os[1..], i)
  {
    if i + 1 < |os| {
      var a, b, c := os[..i + 1], os[i + 2..], os[1..];
      assert S.Without(os, i + 1) == a + b && S.Without(c, i) == c[..i] + c[i + 1..];
      assert a[1..] == c[..i] && b == c[i + 1..] && (a + b)[1..] == a[1..] + b;
    }
  }

  lemma {:induction false} ListedUpdate(os: seq<S.Object>, i: nat, o: S.Object)
    requires i < |os| && S.Listed(o) == S.Listed(os[i])
    ensures S.ListedAll(os[i := o]) == S.ListedAll(os)
  {
    if i > 0 {
      ListedUpdate(os[1..], i - 1, o);
      assert os[i := o][1..] == os[1..][i - 1 := o];
    } else {
      assert os[i := o][1..] == os[1..];
    }
  }

  // Ids of different modules differ.
  lemma DistinctIds(st: S.Stub, i: nat, j: nat)
    requires Consistent(S.RegistryOf(st)) && i < |st.modules| && j < |st.modules|
    ensures i != j ==> st.modules[i].id != st.modules[j].id
    ensures 1 <= st.modules[i].id < st.nextObjId
  {
    ListedAt(st.modules);
    var ms := S.ListedAll(st.modules);
    OrderedAt(ms, 0, st.nextObjId, i);
    if i < j {
      OrderedPairs(ms, 0, st.nextObjId, i, j);
    } else if j < i {
      OrderedPairs(ms, 0, st.nextObjId, j, i);
    }
  }

  lemma UpdatedShows(st: S.Stub, sv: P.Server, i: nat, o: S.Object, st': S.Stub, sv': P.Server)
    requires StubShows(st, sv) && i < |st.modules| && S.Listed(o) == S.Listed(st.modules[i])
    requires st'.modules == st.modules[i := o] && st'.nextObjId == st.nextObjId
    requires sv'.reg == sv.reg && sv'.mirrors == sv.mirrors[o.id := Mirrored(o.attrs)]
    ensures StubShows(st', sv')
  {
    ListedUpdate(st.modules, i, o);
    forall j | 0 <= j < |st'.modules|
      ensures MirrorShown(st'.modules, sv', j)
    {
      DistinctIds(st, i, j);
      assert MirrorShown(st.modules, sv, j);
    }
  }

  // What the machine assumes of a message to the stub: names and texts fit, values are of the
  // type of the attribute they are for and can be carried.
  ghost predicate DownFits(st: S.Stub, w: W.Wrapper, m: P.Down) {
    match m
    case DeclareModule(name) => ShortName(name) && LongText(w.desc)
    case Expose(_, values) => Publishable(w.attributes, w.methods) && values == Values(w.attributes)
    case Update(id, note) =>
      var i := S.PlaceOf(st.modules, Masked(id));
      && note.index <= MAX_STR_LENGTH && Wireable(note.value)
      && (i < |st.modules| && note.index < |st.modules[i].attrs| ==> HasType(note.value, st.modules[i].attrs[note.index].t))
    case ModuleShutdown(_) => true
  }

  lemma DeclareTail(s: int, option: Byte, name: Str, desc: Str)
    ensures var m := DeclareMessage(s, option, name, desc);
            && |m| >= 2 && m[0] / 16 == MODULE_DECLARE && m[1] == option
            && m[2..] == PackShortString(name) + (PackLongString(desc) + [MSG_END])
  {
    hide PackShortString, PackLongString, Header;
    ConcatAssoc(PackShortString(name), PackLongString(desc), [MSG_END]);
  }

  lemma DeclareParts(s: int, option: Byte, name: Str, desc: Str)
    requires ShortName(name) && LongText(desc)
    ensures var m := DeclareMessage(s, option, name, desc);
            var c := Cursor(PackLongString(desc) + [MSG_END], -|name|);
            && |m| >= 2 && m[0] / 16 == MODULE_DECLARE && m[1] == option
            && UnpackShortString(Cursor(m[2..], 0)) == Some((name, c))
            && UnpackLongString(c).Some? && UnpackLongString(c).value.0 == desc
  {
    hide PackShortString, PackLongString, UnpackShortString, UnpackLongString, ShortName, LongText;
    DeclareTail(s, option, name, desc);
    hide DeclareMessage;
    var m, tail := DeclareMessage(s, option, name, desc), PackLongString(desc) + [MSG_END];
    ShortStringRoundTrip(name, tail, 0);
    LongStringRoundTrip(desc, [MSG_END], -|name|);
  }

  lemma DeclareProcessed(st: S.Stub, s: int, option: Byte, name: Str, desc: Str)
    requires ShortName(name) && LongText(desc)
    ensures S.ProcessInput(st, DeclareMessage(s, option, name, desc))
         == Some(if FindByName(S.ListedAll(st.modules), name).Some? then S.Processed(st, MESG_TO_SHUTDOWN)
                 else S.Processed(S.AddNewModule(st, name, desc, option), MESG_PROCESSED_OK))
  {
    DeclareParts(s, option, name, desc);
    hide DeclareMessage, UnpackShortString, UnpackLongString, S.AddNewModule;
  }

  lemma DeclareMatches(st: S.Stub, sv: P.Server, from: int, s: int, option: Byte, name: Str, desc: Str)
    requires StubShows(st, sv) && ShortName(name) && LongText(desc)
    ensures StubStepMatches(st, sv, from, P.DeclareModule(name), S.ProcessInput(st, DeclareMessage(s, option, name, desc)))
  {
    hide S.ProcessInput, S.AddNewModule, DeclareMessage, ShortName, LongText;
    DeclareProcessed(st, s, option, name, desc);
    if !HasName(sv.reg, name) {
      AddMatches(st, sv, from, option, name, desc);
    }
  }

  lemma AddMatches(st: S.Stub, sv: P.Server, from: int, option: Byte, name: Str, desc: Str)
    requires StubShows(st, sv) && !HasName(sv.reg, name)
    ensures StubStepMatches(st, sv, from, P.DeclareModule(name),
                            Some(S.Processed(S.AddNewModule(st, name, desc, option), MESG_PROCESSED_OK)))
  {
    hide AssignMessage;
    var st', step := S.AddNewModule(st, name, desc, option), P.ServerReceive(sv, from, P.DeclareModule(name));
    if Accepts(sv.reg, name) {
      AddShows(st, sv, S.NewObject(st.nextObjId, name, desc, option), st', step.server);
      var reply := P.AssignId(P.IdByte(st.nextObjId), name);
      assert step.replies == [reply] && [reply][1..] == [];
      assert AllUpBytes(st.serverId, [reply]) == [UpBytes(st.serverId, reply, false, 0)];
      assert AssignMessage(st.serverId, st.nextObjId, name) == AssignMessage(st.serverId, P.IdByte(st.nextObjId), name) by {
        SameAssign(st.serverId, st.nextObjId, name);
      }
    }
  }

  lemma SameAssign(s: int, id: int, name: Str)
    ensures AssignMessage(s, id, name) == AssignMessage(s, id % 256, name)
  {
  }

  lemma AddShows(st: S.Stub, sv: P.Server, o: S.Object, st': S.Stub, sv': P.Server)
    requires StubShows(st, sv) && !HasName(sv.reg, o.name) && Accepts(sv.reg, o.name)
    requires o.id == st.nextObjId && o.attrs == []
    requires st'.modules == st.modules + [o] && st'.nextObjId == st.nextObjId + 1
    requires sv'.reg == Declare(sv.reg, o.name) && sv'.mirrors == sv.mirrors[o.id := []]
    ensures StubShows(st', sv')
  {
    ListedAppend(st.modules, o);
    DeclareRegisters(sv.reg, o.name, o.id);
    forall j | 0 <= j < |st'.modules|
      ensures MirrorShown(st'.modules, sv', j)
    {
      if j < |st.modules| {
        DistinctIds(st, j, j);
        assert MirrorShown(st.modules, sv, j);
      }
    }
  }

  lemma ModuleShutdownMatches(st: S.Stub, sv: P.Server, from: int, s: int, id: Byte)
    requires StubShows(st, sv)
    ensures StubStepMatches(st, sv, from, P.ModuleShutdown(id), S.ProcessInput(st, [Header(MODULE_SHUTDOWN, s), id, MSG_END]))
  {
    assert S.ProcessInput(st, [Header(MODULE_SHUTDOWN, s), id, MSG_END])
        == Some(S.Processed(S.DeleteModuleByID(st, Masked(id)), MESG_TO_SHUTDOWN));
    hide S.ProcessInput;
    DeleteShows(st, sv, Masked(id), S.DeleteModuleByID(st, Masked(id)), P.ServerReceive(sv, from, P.ModuleShutdown(id)).server);
  }

  lemma DeleteShows(st: S.Stub, sv: P.Server, id: int, st': S.Stub, sv': P.Server)
    requires StubShows(st, sv)
    requires st'.modules == S.Without(st.modules, S.PlaceOf(st.modules, id)) && st'.nextObjId == st.nextObjId
    requires sv'.reg == Delete(sv.reg, id) && sv'.mirrors == sv.mirrors
    ensures StubShows(st', sv')
  {
    var i := S.PlaceOf(st.modules, id);
    ListedErase(st.modules, id);
    DeleteRemoves(sv.reg, id, 0);
    forall j | 0 <= j < |st'.modules|
      ensures MirrorShown(st'.modules, sv', j)
    {
      var k := if j < i then j else j + 1;
      assert i < |st.modules| ==> st'.modules[j] == st.modules[k];
      assert MirrorShown(st.modules, sv, if i < |st.modules| then k else j);
    }
  }

  // A module found by its masked id, as the lemmas about single messages ask for it.
  lemma FoundIsReachable(st: S.Stub, b: Byte)
    requires S.PlaceOf(st.modules, Masked(b)) < |st.modules|
    ensures var i := S.PlaceOf(st.modules, Masked(b)); Calls.Reachable(st, i, st.modules[i]) && st.modules[i].id == Masked(b)
  {
  }

  // An EXPOSE for a module that is not there is ignored; any other adds the interface to it.
  lemma ExposeProcessed(st: S.Stub, w: W.Wrapper, s: int, id: Byte)
    requires Publishable(w.attributes, w.methods)
    ensures var i, r := S.PlaceOf(st.modules, Masked(id)), S.ProcessInput(st, ExposeMessage(s, id, w.attributes, w.methods));
            && r.Some?
            && if i == |st.modules| then r.value.stub == st
               else
                 var o' := S.OnExpose(st.modules[i], AttributeViews(w.attributes), MethodViews(w.methods));
                 r.value.stub == st.(modules := st.modules[i := o'], callbacks := r.value.stub.callbacks)
  {
    hide S.ForModule, S.ProcessInput, ParseExpose, Publishable, ExposeMessage, S.OnExpose;
    var m, i := ExposeMessage(s, id, w.attributes, w.methods), S.PlaceOf(st.modules, Masked(id));
    ExposeParts(w, s, id);
    if i < |st.modules| {
      FoundIsReachable(st, id);
      Calls.ModuleMessageIsDispatched(st, i, st.modules[i], m);
      Calls.ExposeIsApplied(st, i, m);
    } else {
      Calls.UnknownModule(st, m);
    }
  }

  lemma ExposeParts(w: W.Wrapper, s: int, id: Byte)
    requires Publishable(w.attributes, w.methods)
    ensures var m := ExposeMessage(s, id, w.attributes, w.methods);
            && |m| >= 2 && m[0] / 16 == ATTR_METD_EXPOSE && m[1] == id
            && ParseExpose(Cursor(m[2..], 0)).Some?
            && ParseExpose(Cursor(m[2..], 0)).value.0 == (AttributeViews(w.attributes), MethodViews(w.methods))
  {
    hide ParseExpose, Publishable, ExposeBody;
    assert ExposeMessage(s, id, w.attributes, w.methods)[2..] == ExposeBody(w.attributes, w.methods) + [MSG_END];
    ExposeRoundTrip(w.attributes, w.methods, [MSG_END], 0);
  }

  lemma ExposeMatches(st: S.Stub, sv: P.Server, from: int, w: W.Wrapper, s: int, id: Byte)
    requires StubShows(st, sv) && Publishable(w.attributes, w.methods)
    ensures StubStepMatches(st, sv, from, P.Expose(id, Values(w.attributes)),
                            S.ProcessInput(st, ExposeMessage(s, id, w.attributes, w.methods)))
  {
    hide S.ProcessInput, ExposeMessage, Publishable, Consistent;
    var m, i := ExposeMessage(s, id, w.attributes, w.methods), S.PlaceOf(st.modules, Masked(id));
    ExposeProcessed(st, w, s, id);
    if i < |st.modules| {
      var o := st.modules[i];
      var o' := S.OnExpose(o, AttributeViews(w.attributes), MethodViews(w.methods));
      assert Mirrored(o'.attrs) == Mirrored(o.attrs) + Values(w.attributes);
      assert MirrorShown(st.modules, sv, i);
      var step := P.ServerReceive(sv, from, P.Expose(id, Values(w.attributes)));
      UpdatedShows(st, sv, i, o', S.ProcessInput(st, m).value.stub, step.server);
    }
  }

  lemma UpdateMatches(st: S.Stub, sv: P.Server, from: int, w: W.Wrapper, s: int, id: Byte, note: P.Note)
    requires StubShows(st, sv) && DownFits(st, w, P.Update(id, note))
    ensures StubStepMatches(st, sv, from, P.Update(id, note), S.ProcessInput(st, UpdateBytes(s, id, note)))
  {
    hide S.OnUpdate, PackValue, Wireable, Consistent;
    var m, i, data := UpdateBytes(s, id, note), S.PlaceOf(st.modules, Masked(id)), PackValue(note.value);
    Calls.PackedFit(note.value);
    Calls.ResponseArrives(ATTR_VALUE_UPDATE, s, id, NO_ERRORS, note.index, data);
    if i < |st.modules| {
      var o := st.modules[i];
      FoundIsReachable(st, id);
      Calls.ResponseIsDispatched(st, i, o, m, note.index);
      UpdateIsApplied(o, note.index, note.value);
      hide S.ProcessInput, RespMessage;
      assert MirrorShown(st.modules, sv, i);
      var o' := S.OnUpdate(o, note.index, NO_ERRORS, Cursor(data + [MSG_END], |data|)).value.0.obj;
      assert Mirrored(o'.attrs) == P.ApplyNote(Mirrored(o.attrs), note);
      var step := P.ServerReceive(sv, from, P.Update(id, note));
      UpdatedShows(st, sv, i, o', S.ProcessInput(st, m).value.stub, step.server);
    }
  }

  lemma UpdateIsApplied(o: S.Object, index: nat, v: Value)
    requires Wireable(v) && (index < |o.attrs| ==> HasType(v, o.attrs[index].t))
    ensures var r := S.OnUpdate(o, index, NO_ERRORS, Cursor(PackValue(v) + [MSG_END], |PackValue(v)|));
            && r.Some?
            && r.value.0.obj == (if index < |o.attrs| then o.(attrs := o.attrs[index := o.attrs[index].(value := v)]) else o)
  {
    if index < |o.attrs| {
      StubUnpackOfPacked(v, o.attrs[index].t, [MSG_END], |PackValue(v)|);
    }
  }

  // The bytes in which the stub gets a message of the machine (DESC, which follows EXPOSE, does
  // not concern the machine).
  function Received(w: W.Wrapper, s: int, m: P.Down): seq<Byte> {
    DownBytes(w, s, m)[0]
  }

  // Every message of the machine, processed as bytes by the stub, is the machine's own step.
  lemma StubRefinesMachine(st: S.Stub, sv: P.Server, from: int, w: W.Wrapper, s: int, m: P.Down)
    requires StubShows(st, sv) && DownFits(st, w, m)
    ensures StubStepMatches(st, sv, from, m, S.ProcessInput(st, Received(w, s, m)))
  {
    match m
    case DeclareModule(name) => DeclareMatches(st, sv, from, s, W.OptionByte(w.leftToRight), name, w.desc);
    case Expose(id, values) => ExposeMatches(st, sv, from, w, s, id);
    case Update(id, note) => UpdateMatches(st, sv, from, w, s, id, note);
    case ModuleShutdown(id) => ModuleShutdownMatches(st, sv, from, s, id);
  }

  // ---------------------------------------------------------------- steps that start at an end

  // Setting an attribute from Python is the machine's step: the same message goes out, and in
  // no-callback mode the mirror changes in the same way.
  lemma SetRefinesMachine(st: S.Stub, sv: P.Server, i: nat, k: nat, value: Value)
    requires StubShows(st, sv) && i < |st.modules| && k < |st.modules[i].attrs|
    requires var a := st.modules[i].attrs[k]; !a.readOnly && HasType(Coerced(value, a.t), a.t)
    ensures var o := st.modules[i];
            var arrives := Arrival(value, o.attrs[k].t);
            var a := S.SetRemote(o, st.serverId, k, value);
            var note := P.Note(k, value);
            var sv' := if o.noCallback then sv.(mirrors := sv.mirrors[o.id := P.ApplyNote(P.Mirror(sv, o.id), note)]) else sv;
            && a.ok && StubShows(st.(modules := st.modules[i := a.obj]), sv')
            && a.sent == [UpBytes(st.serverId, P.CallSet(P.IdByte(o.id), P.Note(k, arrives)), o.noCallback, 0)]
  {
    hide PackValue, ValidatedSize;
    var o := st.modules[i];
    var a := S.SetRemote(o, st.serverId, k, value);
    ValidatedSizeExact(value, o.attrs[k].t);
    ArrivalPacks(value, o.attrs[k].t);
    DistinctIds(st, i, i);
    SameCall(S.CallType(o), st.serverId, o.id, k, PackAs(value, o.attrs[k].t));
    assert MirrorShown(st.modules, sv, i);
    if o.noCallback {
      var o' := o.(attrs := o.attrs[k := o.attrs[k].(value := value)]);
      assert Mirrored(o'.attrs) == P.ApplyNote(Mirrored(o.attrs), P.Note(k, value));
      var mirrors := sv.mirrors[o.id := P.ApplyNote(P.Mirror(sv, o.id), P.Note(k, value))];
      UpdatedShows(st, sv, i, o', st.(modules := st.modules[i := o']), sv.(mirrors := mirrors));
    } else {
      assert st.modules[i := o] == st.modules;
    }
  }

  lemma SameCall(msgType: MsgType, s: int, id: int, index: int, data: seq<Byte>)
    ensures CallMessage(msgType, s, id, index, data) == CallMessage(msgType, s, P.IdByte(id), index, data)
  {
    hide CallBody;
  }

  // Looking for modules is the machine's step.
  lemma DiscoverRefinesMachine(st: S.Stub, sv: P.Server)
    requires StubShows(st, sv)
    ensures var st' := S.SendDiscoveryMsg(st);
            StubShows(st', sv) && st'.sent == st.sent + [UpBytes(st.serverId, P.Discovery, false, 0)]
  {
    UpdatedNothing(st, sv, S.SendDiscoveryMsg(st));
  }

  lemma UpdatedNothing(st: S.Stub, sv: P.Server, st': S.Stub)
    requires StubShows(st, sv) && st'.modules == st.modules && st'.nextObjId == st.nextObjId
    ensures StubShows(st', sv)
  {
    forall i | 0 <= i < |st.modules|
      ensures MirrorShown(st'.modules, sv, i)
    {
      assert MirrorShown(st.modules, sv, i);
    }
  }

  lemma SameEntries(w: W.Wrapper, p: P.Wrapper, w': W.Wrapper, p': P.Wrapper)
    requires WrapperShows(w, p) && w'.name == w.name && w'.serverMap == w.serverMap
    requires p'.name == p.name && p'.servers == p.servers && p'.values == Values(w'.attributes)
    ensures WrapperShows(w', p')
  {
    forall k
      ensures P.Entry(p', k) == AssignedId(w', k)
    {
      assert P.Entry(p, k) == AssignedId(w, k);
    }
  }

  // Broadcasting a declaration is the machine's step.
  lemma AdvertiseRefinesMachine(w: W.Wrapper, p: P.Wrapper, serverId: int)
    requires WrapperShows(w, p)
    ensures var w' := W.DeclareModule(w, serverId, true);
            && WrapperShows(w', p)
            && w'.sent == w.sent + [W.Dispatched(Received(w, serverId, P.DeclareModule(p.name)), true)]
  {
    SameEntries(w, p, W.DeclareModule(w, serverId, true), p);
  }

  // An assignment by the wrapped program is the machine's step.
  lemma LocalWriteRefinesMachine(w: W.Wrapper, p: P.Wrapper, k: nat, value: Value)
    requires WrapperShows(w, p) && W.Valid(w) && k < |w.attributes|
    requires HasType(value, w.attributes[k].t) && Wireable(value)
    ensures var w' := w.(attributes := w.attributes[k := w.attributes[k].(value := value)]);
            W.Valid(w') && WrapperShows(w', P.Written(p, P.Note(k, value)))
  {
    var a := w.attributes[k].(value := value);
    var w' := w.(attributes := w.attributes[k := a]);
    W.RenamedSorted(w.attributes, k, a);
    forall b | b in w'.attributes
      ensures HasType(b.value, b.t) && Wireable(b.value)
    {
      assert b == a || b in w.attributes;
    }
    assert Values(w'.attributes) == Values(w.attributes)[k := value];
    SameEntries(w, p, w', P.Written(p, P.Note(k, value)));
  }

  // Announcing an attribute by its name is the machine's step.
  lemma PublishRefinesMachine(w: W.Wrapper, p: P.Wrapper, k: nat)
    requires WrapperShows(w, p) && W.Valid(w) && k < |w.attributes|
    ensures var w' := W.UpdateAttribute(w, w.attributes[k].name, w.attributes[k].value);
            && WrapperShows(w', P.Announced(p, k))
            && w'.sent == w.sent + W.Updates(w.serverMap, k, w.attributes[k].value)
    ensures forall s :: For(W.Updates(w.serverMap, k, w.attributes[k].value), s)
                     == AllDownBytes(w, s, P.Announcement(p, s, P.Note(k, p.values[k])))
  {
    FoundAt(W.AttributeName, w.attributes, k);
    SameEntries(w, p, W.UpdateAttribute(w, w.attributes[k].name, w.attributes[k].value), P.Announced(p, k));
    forall s
      ensures For(W.Updates(w.serverMap, k, w.attributes[k].value), s)
           == AllDownBytes(w, s, P.Announcement(p, s, P.Note(k, p.values[k])))
    {
      AnnouncementsMatch(w, p, k, w.attributes[k].value, s);
    }
  }

  // Disconnecting a module from Python is the machine's step: the message sent is the machine's,
  // naming this module.
  lemma DisconnectRefinesMachine(st: S.Stub, sv: P.Server, i: nat)
    requires StubShows(st, sv) && i < |st.modules|
    ensures var id := st.modules[i].id;
            var st' := S.ShutdownModule(st, i);
            && StubShows(st', sv.(reg := Delete(sv.reg, id)))
            && st'.sent == st.sent + [UpBytes(st.serverId, P.ServerShutdown, false, id % 256)]
  {
    var id := st.modules[i].id;
    var j := S.PlaceOf(st.modules, id);
    if j < |st.modules| {
      DistinctIds(st, i, j);
    }
    NotBeforePlace(st.modules, i);
    DeleteShows(st, sv, id, S.ShutdownModule(st, i), sv.(reg := Delete(sv.reg, id)));
  }

  lemma {:induction false} NotBeforePlace(os: seq<S.Object>, i: nat)
    requires i < |os|
    ensures S.PlaceOf(os, os[i].id) <= i
  {
    if i > 0 && os[0].id != os[i].id {
      NotBeforePlace(os[1..], i - 1);
    }
  }

  // moduleShutdown tells each stub what the machine says.
  lemma QuitRefinesMachine(w: W.Wrapper, p: P.Wrapper, s: int)
    requires WrapperShows(w, p) && Ascending(w.serverMap)
    ensures For(W.Farewells(w.serverMap), s) == AllDownBytes(w, s, P.Farewell(p, s))
  {
    FarewellsFor(w.serverMap, s);
    assert P.Entry(p, s) == AssignedId(w, s);
    var ms := P.Farewell(p, s);
    if ms != [] {
      OneReply(w, s, ms[0]);
    }
  }

  lemma {:induction false} FarewellsFor(servers: seq<Entry<W.ServerInfo>>, s: int)
    requires Ascending(servers) && Listening(servers)
    ensures For(W.Farewells(servers), s)
         == match Lookup(servers, s)
            case None => []
            case Some(info) => [[Header(MODULE_SHUTDOWN, s), P.IdByte(info.assignedModuleID), MSG_END]]
  {
    hide Header;
    if servers != [] {
      var e := servers[0];
      FarewellsFor(servers[1..], s);
      assert W.Farewells(servers)[1..] == W.Farewells(servers[1..]);
      assert W.Farewell(e)[0] % 16 == e.key;
      if s == e.key {
        NotBefore(servers[1..], s);
      }
    }
  }

  // ---------------------------------------------------------------- messages the machine leaves out

  // A request that is not about setting an attribute leaves all the machine sees of a wrapper.
  lemma WrapperStutters(w: W.Wrapper, p: P.Wrapper, message: seq<Byte>, b: W.Behaviour)
    requires WrapperShows(w, p) && W.ProcessInput(w, message, b).Some?
    requires message == [] || !W.Negotiates(message[0] / 16)
    requires |message| >= 2 && message[0] / 16 in [CALL_ATTR_METD, CALL_ATTR_METD_NOCB] && ParseIndex(message[2..]).Some?
             ==> ParseIndex(message[2..]).value.0 >= |w.attributes|
    ensures WrapperShows(W.ProcessInput(w, message, b).value.wrapper, p)
  {
    hide W.ProcessInput, W.CallAttrMetd, W.GetAttrValue, W.GetDesc, ParseIndex;
    W.OtherMessages(w, message, b);
    var w' := W.ProcessInput(w, message, b).value.wrapper;
    if |message| >= 2 {
      if w' != w {
        CallLeaves(w, message, b);
        RequestsLeave(w, message);
      }
    }
    forall k
      ensures P.Entry(p, k) == AssignedId(w', k)
    {
      assert P.Entry(p, k) == AssignedId(w, k);
    }
  }

  ghost predicate SameOutside(w: W.Wrapper, w': W.Wrapper) {
    w'.name == w.name && w'.attributes == w.attributes && w'.serverMap == w.serverMap
  }

  lemma CallLeaves(w: W.Wrapper, message: seq<Byte>, b: W.Behaviour)
    requires |message| >= 2
    ensures var r := W.CallAttrMetd(w, message, message[0] % 16, b);
            r.Some? ==>
              ParseIndex(message[2..]).Some?
              && (ParseIndex(message[2..]).value.0 >= |w.attributes| ==> SameOutside(w, r.value.0))
  {
    hide ParseIndex, W.DecodeArgs, RespMessage, W.SetAttrValue, W.Replies;
  }

  lemma RequestsLeave(w: W.Wrapper, message: seq<Byte>)
    requires |message| >= 2
    ensures var r := W.GetAttrValue(w, message, message[0] % 16); r.Some? ==> SameOutside(w, r.value.0)
    ensures var r := W.GetDesc(w, message, message[0] % 16); r.Some? ==> SameOutside(w, r.value.0)
  {
    hide ParseIndex, UnpackInt, RespMessage;
  }

  // Descriptions, and answers that carry no attribute value, leave all the machine sees of a stub.
  lemma StubStutters(st: S.Stub, sv: P.Server, message: seq<Byte>)
    requires StubShows(st, sv) && S.ProcessInput(st, message).Some? && |message| >= 2
    requires message[0] / 16 == ATTR_METD_DESC || message[0] / 16 == ATTR_METD_RESP
    requires var i := S.PlaceOf(st.modules, Masked(message[1]));
             message[0] / 16 == ATTR_METD_RESP && i < |st.modules| && |message| >= 3 && ParseIndex(message[3..]).Some?
             ==> message[2] % 16 != 0 || ParseIndex(message[3..]).value.0 >= |st.modules[i].attrs|
    ensures StubShows(S.ProcessInput(st, message).value.stub, sv)
  {
    var i, st' := S.PlaceOf(st.modules, Masked(message[1])), S.ProcessInput(st, message).value.stub;
    if i < |st.modules| {
      var o := st.modules[i];
      FoundIsReachable(st, message[1]);
      assert MirrorShown(st.modules, sv, i);
      if message[0] / 16 == ATTR_METD_DESC {
        Calls.ModuleMessageIsDispatched(st, i, o, message);
        DescShows(st, i, message);
      } else {
        ResponseShows(st, i, message);
      }
      hide S.ProcessInput, S.ForModule;
      var o' := st'.modules[i];
      UpdatedShows(st, sv, i, o', st', sv.(mirrors := sv.mirrors[o.id := Mirrored(o'.attrs)]));
      SameMirrors(st', sv, o.id, Mirrored(o'.attrs));
    }
  }

  lemma SameMirrors(st: S.Stub, sv: P.Server, id: int, values: seq<Value>)
    requires P.Mirror(sv, id) == values && StubShows(st, sv.(mirrors := sv.mirrors[id := values]))
    ensures StubShows(st, sv)
  {
    forall i | 0 <= i < |st.modules|
      ensures MirrorShown(st.modules, sv, i)
    {
      assert MirrorShown(st.modules, sv.(mirrors := sv.mirrors[id := values]), i);
    }
  }

  lemma {:induction false} DescribedValues(attrs: seq<StubAttribute>, descs: seq<Str>)
    requires |descs| <= |attrs|
    ensures Mirrored(S.Described(attrs, descs)) == Mirrored(attrs)
  {
    if descs != [] {
      DescribedValues(attrs[1..], descs[1..]);
      assert Mirrored(attrs) == [attrs[0].value] + Mirrored(attrs[1..]);
      var r := S.Described(attrs, descs);
      assert r[1..] == S.Described(attrs[1..], descs[1..]);
      assert Mirrored(r) == [r[0].value] + Mirrored(r[1..]);
    } else {
      assert S.Described(attrs, descs) == attrs;
    }
  }

  lemma DescShows(st: S.Stub, i: nat, message: seq<Byte>)
    requires i < |st.modules| && |message| >= 2 && message[0] / 16 == ATTR_METD_DESC
    requires S.ForModule(st, i, message).Some?
    ensures var st' := S.ForModule(st, i, message).value.stub;
            && |st'.modules| == |st.modules| && st'.modules == st.modules[i := st'.modules[i]]
            && st'.nextObjId == st.nextObjId && S.Listed(st'.modules[i]) == S.Listed(st.modules[i])
            && Mirrored(st'.modules[i].attrs) == Mirrored(st.modules[i].attrs)
  {
    hide ParseDesc;
    var descs := ParseDesc(Cursor(message[2..], 0)).value.0;
    DescribedValues(st.modules[i].attrs, descs.0);
  }

  lemma ResponseShows(st: S.Stub, i: nat, message: seq<Byte>)
    requires i < |st.modules| && |message| >= 2 && message[0] / 16 == ATTR_METD_RESP
    requires i == S.PlaceOf(st.modules, Masked(message[1])) && S.ProcessInput(st, message).Some?
    requires |message| >= 3 && ParseIndex(message[3..]).Some?
             ==> message[2] % 16 != 0 || ParseIndex(message[3..]).value.0 >= |st.modules[i].attrs|
    ensures var st' := S.ProcessInput(st, message).value.stub;
            st'.modules == st.modules && st'.nextObjId == st.nextObjId
  {
    hide ParseIndex, StubUnpack;
  }

  // ---------------------------------------------------------------- routing

  // The machine of Routing keeps only the registry and the routes: each message changes that
  // registry, and is answered, as by the whole stub.
  lemma RoutingRefined(st: R.Stub, full: S.Stub, from: int, message: seq<Byte>)
    requires st.reg == S.RegistryOf(full) && S.ProcessInput(full, message).Some?
    ensures var p, r := R.ProcessInput(st, from, message), S.ProcessInput(full, message).value;
            && p.stub.reg == S.RegistryOf(r.stub)
            && (p.toShutdown <==> r.verdict == MESG_TO_SHUTDOWN)
  {
    hide S.ForModule, UnpackShortString, UnpackLongString;
    if |message| >= 2 {
      var t := message[0] / 16;
      if t == MODULE_DECLARE {
        DeclareRouted(st, full, from, message);
      } else if t == MODULE_SHUTDOWN {
        ListedErase(full.modules, Masked(message[1]));
      } else {
        var i := S.PlaceOf(full.modules, Masked(message[1]));
        if i < |full.modules| {
          SameListing(full, i, message);
        }
      }
    }
  }

  lemma DeclareRouted(st: R.Stub, full: S.Stub, from: int, message: seq<Byte>)
    requires st.reg == S.RegistryOf(full) && S.ProcessInput(full, message).Some?
    requires |message| >= 2 && message[0] / 16 == MODULE_DECLARE
    ensures var p, r := R.ProcessInput(st, from, message), S.ProcessInput(full, message).value;
            && p.stub.reg == S.RegistryOf(r.stub)
            && (p.toShutdown <==> r.verdict == MESG_TO_SHUTDOWN)
  {
    hide UnpackShortString, UnpackLongString, AssignMessage;
    var (name, c) := UnpackShortString(Cursor(message[2..], 0)).value;
    if !HasName(st.reg, name) {
      var desc := UnpackLongString(c).value.0;
      ListedAppend(full.modules, S.NewObject(full.nextObjId, name, desc, message[1]));
    }
  }

  // A message for a module changes neither its id nor its name.
  lemma SameListing(full: S.Stub, i: nat, message: seq<Byte>)
    requires i < |full.modules| && |message| >= 2
    ensures var r := S.ForModule(full, i, message);
            r.Some? ==> S.RegistryOf(r.value.stub) == S.RegistryOf(full) && r.value.verdict != MESG_TO_SHUTDOWN
  {
    hide ParseExpose, ParseDesc, ParseIndex;
    var r := S.ForModule(full, i, message);
    if r.Some? && |r.value.stub.modules| == |full.modules| {
      var o := r.value.stub.modules[i];
      assert r.value.stub.modules == full.modules || r.value.stub.modules == full.modules[i := o];
      ListedUpdate(full.modules, i, if r.value.stub.modules == full.modules then full.modules[i] else o);
    }
  }
}
