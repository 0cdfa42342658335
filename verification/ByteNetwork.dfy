// The stubs and wrappers that work on bytes, connected: any number of each, and between any two
// a channel in either direction that delivers encoded messages in order.
module ByteNetwork {
  import opened Common
  import opened Messages
  import opened Refinement
  import P = Protocol
  import W = WrapperModel
  import S = StubModel
  import Calls
  import StubRules

  // home is the wrapper over whose channel each module of a stub was declared; calls for the
  // module leave there. Two fields are history: exposed is the last id whose EXPOSE a stub took
  // from a channel, and dirty the attributes of a wrapper assigned but not announced since.
  datatype Net = Net(
    stubs: int -> S.Stub, wrappers: int -> W.Wrapper, alive: int -> bool,
    up: P.Link -> seq<seq<Byte>>, down: P.Link -> seq<seq<Byte>>,
    home: int -> map<int, int>, exposed: P.Link -> int, dirty: int -> set<int>)

  datatype Action =
    | Discover(l: P.Link)                   // a stub sends DISCOVERY
    | Advertise(l: P.Link)                  // a broadcast DECLARE arrives at a stub
    | AtStub(l: P.Link)                     // a stub processes the next message
    | AtWrapper(l: P.Link, b: W.Behaviour)  // a wrapper processes the next message
    | SetAttribute(s: int, i: nat, name: Str, value: Value)        // on the module at place i
    | CallMethod(s: int, i: nat, j: nat, values: seq<Value>)
    | Disconnect(s: int, i: nat)
    | LocalWrite(w: int, k: nat, value: Value)
    | Publish(w: int, k: nat)
    | Quit(w: int)

  // A called C++ method returns a value of the type it is declared with.
  ghost predicate ReturnFits(w: W.Wrapper, message: seq<Byte>, b: W.Behaviour) {
    |message| >= 2 && ParseIndex(message[2..]).Some? && b.Returned? ==>
      var j := ParseIndex(message[2..]).value.0 - |w.attributes|;
      0 <= j < |w.methods| && w.methods[j].retType != VOID ==> Calls.Returns(w.methods[j], b.value)
  }

  // Whatever is set or passed can be carried once it is narrowed to 32 bits; a method with optional
  // arguments is called with all of them, any other with whatever Python gives.
  ghost predicate Can(n: Net, a: Action) {
    match a
    case Discover(l) => 0 <= l.s < 16
    case Advertise(l) => 0 <= l.s < 16 && n.alive(l.w)
    case AtStub(l) => 0 <= l.s < 16 && n.down(l) != []
    case AtWrapper(l, b) => 0 <= l.s < 16 && n.alive(l.w) && n.up(l) != [] && ReturnFits(n.wrappers(l.w), n.up(l)[0], b)
    case SetAttribute(s, i, _, value) => 0 <= s < 16 && i < |n.stubs(s).modules| && Wireable(Narrow(Cut(value)))
    case CallMethod(s, i, j, values) =>
      && 0 <= s < 16 && i < |n.stubs(s).modules| && j < |n.stubs(s).modules[i].metds|
      && (StubRules.NoneOptional(n.stubs(s).modules[i].metds[j].args)
          || |values| == |n.stubs(s).modules[i].metds[j].args|)
      && forall v :: v in values ==> Wireable(Narrow(Cut(v)))
    case Disconnect(s, i) => 0 <= s < 16 && i < |n.stubs(s).modules|
    case LocalWrite(w, k, value) =>
      n.alive(w) && k < |n.wrappers(w).attributes| && HasType(value, n.wrappers(w).attributes[k].t) && Wireable(value)
    case Publish(w, k) => n.alive(w) && k < |n.wrappers(w).attributes|
    case Quit(w) => n.alive(w)
  }

  // The step stays within the message and within the containers.
  ghost predicate Defined(n: Net, a: Action)
    requires Can(n, a)
  {
    match a
    case AtStub(l) => S.ProcessInput(n.stubs(l.s), n.down(l)[0]).Some?
    case AtWrapper(l, b) => W.ProcessInput(n.wrappers(l.w), n.up(l)[0], b).Some?
    case _ => true
  }

  // What was added.
  function Since<T>(before: seq<T>, after: seq<T>): seq<T> {
    if |before| <= |after| then after[|before|..] else []
  }

  // What a stub sent in this step goes out on channel l.
  ghost function StubMoves(n: Net, l: P.Link, st: S.Stub): Net {
    n.(stubs := P.Put(n.stubs, l.s, st), up := P.Put(n.up, l, n.up(l) + Since(n.stubs(l.s).sent, st.sent)))
  }

  // What a wrapper sent in this step goes to the stubs named in the headers.
  ghost function WrapperMoves(n: Net, w: int, wr: W.Wrapper): Net {
    n.(wrappers := P.Put(n.wrappers, w, wr),
       down := (l: P.Link) => if l.w == w then n.down(l) + For(Since(n.wrappers(w).sent, wr.sent), l.s) else n.down(l))
  }

  function HomeOf(home: map<int, int>, id: int): int {
    if id in home then home[id] else P.NOWHERE
  }

  predicate IsExpose(message: seq<Byte>) {
    |message| >= 2 && message[0] / 16 == ATTR_METD_EXPOSE
  }

  // The module a DECLARE created belongs to the channel it came from.
  function HomeAfter(home: map<int, int>, before: S.Stub, after: S.Stub, w: int): map<int, int> {
    if after.nextObjId > before.nextObjId then home[before.nextObjId := w] else home
  }

  ghost function StubStepOn(n: Net, l: P.Link): Net
    requires n.down(l) != [] && S.ProcessInput(n.stubs(l.s), n.down(l)[0]).Some?
  {
    var st, message := n.stubs(l.s), n.down(l)[0];
    var st' := S.ProcessInput(st, message).value.stub;
    StubMoves(n, l, st').(
      down := P.Put(n.down, l, n.down(l)[1..]),
      home := P.Put(n.home, l.s, HomeAfter(n.home(l.s), st, st', l.w)),
      exposed := P.Put(n.exposed, l, if IsExpose(message) then message[1] else n.exposed(l)))
  }

  // The attribute a request sets, and thereby announces.
  function Announces(w: W.Wrapper, message: seq<Byte>): set<int> {
    if && |message| >= 2 && message[0] / 16 in [CALL_ATTR_METD, CALL_ATTR_METD_NOCB]
       && AssignedId(w, message[0] % 16) == Some(message[1] as int)
       && ParseIndex(message[2..]).Some? && ParseIndex(message[2..]).value.0 < |w.attributes|
    then {ParseIndex(message[2..]).value.0} else {}
  }

  ghost function WrapperStepOn(n: Net, l: P.Link, b: W.Behaviour): Net
    requires n.up(l) != [] && W.ProcessInput(n.wrappers(l.w), n.up(l)[0], b).Some?
  {
    var wr, message := n.wrappers(l.w), n.up(l)[0];
    WrapperMoves(n, l.w, W.ProcessInput(wr, message, b).value.wrapper).(
      up := P.Put(n.up, l, n.up(l)[1..]),
      dirty := P.Put(n.dirty, l.w, n.dirty(l.w) - Announces(wr, message)))
  }

  // A statement of Python about the module at place i.
  ghost function AttemptOn(n: Net, s: int, i: nat, a: S.Attempt): Net
    requires i < |n.stubs(s).modules|
  {
    var st := n.stubs(s);
    StubMoves(n, P.Link(s, HomeOf(n.home(s), st.modules[i].id)),
              st.(modules := st.modules[i := a.obj], sent := st.sent + a.sent))
  }

  // The broadcast names no stub in its header.
  ghost function AdvertiseOn(n: Net, l: P.Link): Net {
    var w := n.wrappers(l.w);
    n.(down := P.Put(n.down, l, n.down(l) + [DeclareMessage(0, W.OptionByte(w.leftToRight), w.name, w.desc)]))
  }

  ghost function DisconnectOn(n: Net, s: int, i: nat): Net
    requires i < |n.stubs(s).modules|
  {
    StubMoves(n, P.Link(s, HomeOf(n.home(s), n.stubs(s).modules[i].id)), S.ShutdownModule(n.stubs(s), i))
  }

  ghost function LocalWriteOn(n: Net, w: int, k: nat, value: Value): Net
    requires k < |n.wrappers(w).attributes|
  {
    var wr := n.wrappers(w);
    WrapperMoves(n, w, wr.(attributes := wr.attributes[k := wr.attributes[k].(value := value)])).(
      dirty := P.Put(n.dirty, w, n.dirty(w) + {k}))
  }

  ghost function PublishOn(n: Net, w: int, k: nat): Net
    requires k < |n.wrappers(w).attributes|
  {
    var wr := n.wrappers(w);
    WrapperMoves(n, w, W.UpdateAttribute(wr, wr.attributes[k].name, wr.attributes[k].value)).(
      dirty := P.Put(n.dirty, w, n.dirty(w) - {k}))
  }

  ghost function QuitOn(n: Net, w: int): Net {
    var wr := n.wrappers(w);
    WrapperMoves(n, w, wr.(serverMap := [], sent := wr.sent + W.Farewells(wr.serverMap))).(
      alive := P.Put(n.alive, w, false))
  }

  ghost function Perform(n: Net, a: Action): Net
    requires Can(n, a) && Defined(n, a)
  {
    match a
    case Discover(l) => StubMoves(n, l, S.SendDiscoveryMsg(n.stubs(l.s)))
    case Advertise(l) => AdvertiseOn(n, l)
    case AtStub(l) => StubStepOn(n, l)
    case AtWrapper(l, b) => WrapperStepOn(n, l, b)
    case SetAttribute(s, i, name, value) =>
      AttemptOn(n, s, i, S.SetAttribute(n.stubs(s).modules[i], n.stubs(s).serverId, name, value))
    case CallMethod(s, i, j, values) =>
      AttemptOn(n, s, i, S.PyCall(n.stubs(s).modules[i], n.stubs(s).serverId, j, values))
    case Disconnect(s, i) => DisconnectOn(n, s, i)
    case LocalWrite(w, k, value) => LocalWriteOn(n, w, k, value)
    case Publish(w, k) => PublishOn(n, w, k)
    case Quit(w) => QuitOn(n, w)
  }

  ghost predicate Step(n: Net, a: Action, n': Net) {
    Can(n, a) && Defined(n, a) && n' == Perform(n, a)
  }

  // A module that the messages can carry, with its maps in order.
  ghost predicate Fit(w: W.Wrapper) {
    && W.Valid(w) && Publishable(w.attributes, w.methods) && |w.attributes| + |w.methods| <= MAX_STR_LENGTH
    && ShortName(w.name) && LongText(w.desc)
  }

  ghost predicate StubFresh(n: Net, s: int) {
    n.stubs(s).serverId == s && n.stubs(s).modules == [] && n.stubs(s).nextObjId == 1 && n.home(s) == map[]
  }

  ghost predicate WrapperFresh(n: Net, w: int) {
    Fit(n.wrappers(w)) && n.wrappers(w).serverMap == [] && n.alive(w) && n.dirty(w) == {}
  }

  ghost predicate LinkFresh(n: Net, l: P.Link) {
    n.up(l) == [] && n.down(l) == [] && n.exposed(l) == 0
  }

  // No stub has a module, every wrapper has published its own, and no message is on its way.
  ghost predicate Initial(n: Net) {
    (forall s :: StubFresh(n, s)) && (forall w :: WrapperFresh(n, w)) && (forall l :: LinkFresh(n, l))
  }

  // A stub has issued at most fourteen ids. With fifteen it can take one module's message for
  // another's, and then send a wrapper an index that it does not have.
  predicate Few(n: Net, s: int) {
    n.stubs(s).nextObjId <= 15
  }

  // The stub that takes a message in this step, if one does, has issued few ids before.
  predicate Calm(n: Net, a: Action) {
    a.AtStub? ==> Few(n, a.l.s)
  }

  // ---------------------------------------------------------------- runs

  // The states a network goes through, and the actions that lead from one to the next.
  datatype Run = Run(nets: seq<Net>, actions: seq<Action>)

  ghost predicate StepAt(r: Run, i: nat)
    requires i < |r.actions| < |r.nets|
  {
    Step(r.nets[i], r.actions[i], r.nets[i + 1])
  }

  ghost predicate IsRun(r: Run) {
    && |r.nets| == |r.actions| + 1 && Initial(r.nets[0])
    && forall i :: 0 <= i < |r.actions| ==> StepAt(r, i)
  }

  ghost predicate CalmAt(r: Run, i: nat)
    requires i < |r.actions| < |r.nets|
  {
    Calm(r.nets[i], r.actions[i])
  }

  // No stub that takes a message has issued more than fourteen ids before.
  ghost predicate Uncrowded(r: Run)
    requires |r.nets| == |r.actions| + 1
  {
    forall i :: 0 <= i < |r.actions| ==> CalmAt(r, i)
  }

  ghost function Start(r: Run): Net
    requires r.nets != []
  {
    r.nets[0]
  }

  ghost function End(r: Run): Net
    requires r.nets != []
  {
    r.nets[|r.nets| - 1]
  }
}
