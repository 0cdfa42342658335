// What the stub does with its modules, as functions: the Python object that mirrors a remote
// module, and PyConnectStub::processInput. The classes that run it are in StubObjects.dfy.
module StubModel {
  import opened Common
  import opened Names
  import opened Registry
  import opened Messages

  // A Python callback by name, with its one argument: a value or an error code.
  datatype Callback = Callback(fname: Str, arg: Value)

  // The mirrored module: PyConnectObject
  datatype Object = Object(
    id: int, name: Str, desc: Str, noCallback: bool, argEvalReversed: bool,
    attrs: seq<StubAttribute>, metds: seq<StubMethod>)

  function StubAttributeName(a: StubAttribute): Str { a.name }

  function StubMethodName(m: StubMethod): Str { m.name }

  function Text(s: string): (r: Str)
    requires forall i :: 0 <= i < |s| ==> (s[i] as int) < 256
    ensures |r| == |s| && forall i :: 0 <= i < |s| ==> r[i] == s[i] as int
  {
    seq(|s|, i requires 0 <= i < |s| => s[i] as int)
  }

  const NOCALLBACK: Str := Text("__nocallback__")
  const NAME: Str := Text("__name__")
  const ID: Str := Text("id")
  const DOC: Str := Text("__doc__")
  const DICT: Str := Text("__dict__")

  // ---------------------------------------------------------------- calling out

  // remoteAttrMethodCall: nothing is sent for an object that has no id.
  function RemoteCall(serverId: int, objId: int, msgType: MsgType, index: int, args: seq<Byte>): seq<seq<Byte>> {
    if objId < 0 then [] else [CallMessage(msgType, serverId, objId, index, args)]
  }

  function CallType(o: Object): MsgType {
    if o.noCallback then CALL_ATTR_METD_NOCB else CALL_ATTR_METD
  }

  // An attempt from Python: the new object, the messages, and whether no exception was raised.
  datatype Attempt = Attempt(obj: Object, sent: seq<seq<Byte>>, ok: bool)

  // setAttribute. A switch of __nocallback__ goes on as any other name does; a name that is
  // neither reserved nor part of the interface ends up in the object's dictionary.
  function SetAttribute(o: Object, serverId: int, name: Str, value: Value): Attempt {
    if name == NOCALLBACK && !value.BoolVal? then Attempt(o, [], false)
    else
      var o1 := if name == NOCALLBACK then o.(noCallback := value.b) else o;
      if name == NAME || name == ID then Attempt(o1, [], false)
      else if name == DOC then
        if value.StrVal? then Attempt(o1.(desc := value.s), [], true) else Attempt(o1, [], false)
      else
        var aind := IndexOf(StubAttributeName, o1.attrs, name);
        if aind < |o1.attrs| then SetRemote(o1, serverId, aind, value)
        else Attempt(o1, [], IndexOf(StubMethodName, o1.metds, name) == |o1.metds|)
  }

  // An attribute of the interface: in no-callback mode the mirror is written at once.
  function SetRemote(o: Object, serverId: int, aind: nat, value: Value): Attempt
    requires aind < |o.attrs|
  {
    var a := o.attrs[aind];
    if a.readOnly || ValidatedSize(value, a.t) == 0 then Attempt(o, [], false)
    else
      Attempt(if o.noCallback then o.(attrs := o.attrs[aind := a.(value := value)]) else o,
              RemoteCall(serverId, o.id, CallType(o), aind, PackAs(value, a.t)), true)
  }

  function OptionalCount(args: seq<Argument>): nat {
    if args == [] then 0 else (if args[0].optional then 1 else 0) + OptionalCount(args[1..])
  }

  // The arguments as the declared types take them.
  function AsDeclared(args: seq<Argument>, values: seq<Value>): (r: seq<Value>)
    requires |values| <= |args|
    ensures |r| == |values| && forall i :: 0 <= i < |r| ==> r[i] == Coerced(values[i], args[i].t)
  {
    seq(|values|, i requires 0 <= i < |values| => Coerced(values[i], args[i].t))
  }

  // Every argument has the declared type.
  predicate ArgumentsFit(args: seq<Argument>, values: seq<Value>) {
    |values| <= |args| && forall i :: 0 <= i < |values| ==> HasType(Coerced(values[i], args[i].t), args[i].t)
  }

  // The packing loops: from the first argument to the last, or the other way round.
  function PackArgs(values: seq<Value>, forwards: bool): seq<Byte>
    decreases |values|
  {
    if values == [] then []
    else if forwards then PackValue(values[0]) + PackArgs(values[1..], forwards)
    else
      var n := |values| - 1;
      PackValue(values[n]) + PackArgs(values[..n], forwards)
  }

  // What getAttribute finds under a name that is called: reserved names come first, then the
  // attributes, then the methods.
  function MethodNamed(o: Object, name: Str): Option<nat> {
    if name in [DOC, NOCALLBACK, DICT] || IndexOf(StubAttributeName, o.attrs, name) < |o.attrs| then None
    else
      var mindex := IndexOf(StubMethodName, o.metds, name);
      if mindex < |o.metds| then Some(mindex) else None
  }

  // pyCall of the method at this place
  function PyCall(o: Object, serverId: int, mindex: nat, values: seq<Value>): Attempt
    requires mindex < |o.metds|
  {
    var m := o.metds[mindex];
    if |values| < |m.args| - OptionalCount(m.args) || |values| > |m.args| || !ArgumentsFit(m.args, values) then
      Attempt(o, [], false)
    else
      Attempt(o, RemoteCall(serverId, o.id, CallType(o), |o.attrs| + mindex, PackArgs(AsDeclared(m.args, values), o.argEvalReversed)), true)
  }

  function DiscoveryMessage(serverId: int): seq<Byte> {
    [Header(MODULE_DISCOVERY, serverId), MSG_END]
  }

  // ---------------------------------------------------------------- answers

  // What an incoming message does to one object.
  datatype Reaction = Reaction(obj: Object, callback: Callback)

  function Failed(prefix: string, name: Str, suffix: string, err: int): Callback
    requires forall i :: 0 <= i < |prefix| ==> (prefix[i] as int) < 256
    requires forall i :: 0 <= i < |suffix| ==> (suffix[i] as int) < 256
  {
    Callback(Text(prefix) + name + Text(suffix), IntVal(err))
  }

  // onSetAttrMetdResp
  function OnResponse(o: Object, index: nat, err: int, c: Cursor): Parsed<Reaction> {
    if index < |o.attrs| then
      var a := o.attrs[index];
      if err != 0 then Some((Reaction(o, Failed("onSet", a.name, "Failed", err)), c))
      else
        var (v, c1) :- StubUnpack(a.t, c);
        Some((Reaction(o.(attrs := o.attrs[index := a.(value := v)]), Callback(Text("onSet") + a.name, v)), c1))
    else
      var mindex := index - |o.attrs|;
      if mindex < |o.metds| then
        var m := o.metds[mindex];
        if err != 0 then Some((Reaction(o, Failed("on", m.name, "Failed", err)), c))
        else
          var (v, c1) :- StubUnpack(m.retType, c);
          Some((Reaction(o, Callback(Text("on") + m.name + Text("Completed"), v)), c1))
      else Some((Reaction(o, Callback(Text("onUnknownAttrMetdError"), IntVal(index))), c))
  }

  // What an update calls.
  function UpdateCallback(name: Str, v: Value): Callback {
    Callback(Text("on") + name + Text("Update"), v)
  }

  // onGetAttrResp
  function OnUpdate(o: Object, index: nat, err: int, c: Cursor): Parsed<Reaction> {
    if index < |o.attrs| then
      var a := o.attrs[index];
      if err != 0 then Some((Reaction(o, Failed("on", a.name, "UpdateFailed", err)), c))
      else
        var (v, c1) :- StubUnpack(a.t, c);
        Some((Reaction(o.(attrs := o.attrs[index := a.(value := v)]), UpdateCallback(a.name, v)), c1))
    else Some((Reaction(o, Callback(Text("onUnknownAttrbuteError"), IntVal(index))), c))
  }

  // EXPOSE adds to what the object already has.
  function OnExpose(o: Object, attrs: seq<StubAttribute>, metds: seq<StubMethod>): Object {
    o.(attrs := o.attrs + attrs, metds := o.metds + metds)
  }

  function Described(attrs: seq<StubAttribute>, descs: seq<Str>): (r: seq<StubAttribute>)
    requires |descs| <= |attrs|
  {
    if descs == [] then attrs else [attrs[0].(desc := descs[0])] + Described(attrs[1..], descs[1..])
  }

  function DescribedMethods(metds: seq<StubMethod>, descs: seq<Str>): seq<StubMethod>
    requires |descs| <= |metds|
  {
    if descs == [] then metds else [metds[0].(desc := descs[0])] + DescribedMethods(metds[1..], descs[1..])
  }

  // onSetAttrMetdDesc; more descriptions than elements run past the end of a vector.
  function OnDesc(o: Object, attrDescs: seq<Str>, metdDescs: seq<Str>): Option<Object> {
    if |attrDescs| > |o.attrs| || |metdDescs| > |o.metds| then None
    else Some(o.(attrs := Described(o.attrs, attrDescs), metds := DescribedMethods(o.metds, metdDescs)))
  }

  // ---------------------------------------------------------------- the stub

  datatype Stub = Stub(
    serverId: int, modules: seq<Object>, nextObjId: int, sent: seq<seq<Byte>>, callbacks: seq<Callback>)

  function Listed(o: Object): Module {
    Module(o.id, o.name)
  }

  function ListedAll(os: seq<Object>): seq<Module> {
    if os == [] then [] else [Listed(os[0])] + ListedAll(os[1..])
  }

  // The stub as a registry of modules.
  function RegistryOf(st: Stub): Registry {
    Registry(ListedAll(st.modules), st.nextObjId)
  }

  // The place of the first module with this id, or of the end.
  function PlaceOf(os: seq<Object>, id: int): (i: nat)
    ensures i <= |os| && (i < |os| ==> os[i].id == id)
    ensures FindById(ListedAll(os), id) == if i < |os| then Some(os[i].name) else None
  {
    if os == [] || os[0].id == id then 0 else 1 + PlaceOf(os[1..], id)
  }

  function Without(os: seq<Object>, i: nat): seq<Object>
    requires i <= |os|
  {
    if i < |os| then os[..i] + os[i + 1..] else os
  }

  const UNDOCUMENTED: Str := Text("Undocumented PyConnect object")

  function NewObject(id: int, name: Str, desc: Str, option: Byte): Object {
    Object(id, name, if desc == [] then UNDOCUMENTED else desc, false, option == 1, [], [])
  }

  // addNewModule
  function AddNewModule(st: Stub, name: Str, desc: Str, option: Byte): Stub {
    if name == [] || st.nextObjId > MAX_OBJ_ID then st
    else st.(modules := st.modules + [NewObject(st.nextObjId, name, desc, option)],
             nextObjId := st.nextObjId + 1,
             sent := st.sent + [AssignMessage(st.serverId, st.nextObjId, name)])
  }

  // sendDiscoveryMsg
  function SendDiscoveryMsg(st: Stub): Stub {
    st.(sent := st.sent + [DiscoveryMessage(st.serverId)])
  }

  function CreatedCallback(id: int): Callback {
    Callback(Text("onModuleCreated"), IntVal(id))
  }

  function DestroyedCallback(o: Object): Callback {
    Callback(Text("onModuleDestroyed"), StrVal(o.name))
  }

  // deleteModuleByID
  function DeleteModuleByID(st: Stub, id: int): Stub {
    var i := PlaceOf(st.modules, id);
    if i == |st.modules| then st
    else st.(modules := Without(st.modules, i), callbacks := st.callbacks + [DestroyedCallback(st.modules[i])])
  }

  // shutdownModuleByRef, for a module in the list
  function ShutdownModule(st: Stub, i: nat): Stub
    requires i < |st.modules|
  {
    st.(modules := Without(st.modules, i),
        sent := st.sent + [[Header(SERVER_SHUTDOWN, st.serverId), st.modules[i].id % 256, MSG_END]],
        callbacks := st.callbacks + [DestroyedCallback(st.modules[i])])
  }

  datatype Processed = Processed(stub: Stub, verdict: Verdict)

  function Reacted(st: Stub, i: nat, r: Reaction): Processed
    requires i < |st.modules|
  {
    Processed(st.(modules := st.modules[i := r.obj], callbacks := st.callbacks + [r.callback]), MESG_PROCESSED_OK)
  }

  // A message for the module at place i.
  function ForModule(st: Stub, i: nat, message: seq<Byte>): Option<Processed>
    requires i < |st.modules| && |message| >= 2
  {
    var o, msgType := st.modules[i], message[0] / 16;
    if msgType == ATTR_METD_EXPOSE then
      var (interface, _) :- ParseExpose(Cursor(message[2..], 0));
      Some(Processed(st.(modules := st.modules[i := OnExpose(o, interface.0, interface.1)],
                         callbacks := st.callbacks + [CreatedCallback(o.id)]), MESG_PROCESSED_OK))
    else if msgType == ATTR_METD_RESP || msgType == ATTR_VALUE_UPDATE then
      if |message| < 3 then None
      else
        var err := message[2] % 16;
        var (index, c) :- ParseIndex(message[3..]);
        var (r, _) :- if msgType == ATTR_METD_RESP then OnResponse(o, index, err, c) else OnUpdate(o, index, err, c);
        Some(Reacted(st, i, r))
    else if msgType == ATTR_METD_DESC then
      var (descs, _) :- ParseDesc(Cursor(message[2..], 0));
      var o' :- OnDesc(o, descs.0, descs.1);
      Some(Processed(st.(modules := st.modules[i := o']), MESG_PROCESSED_OK))
    else Some(Processed(st, MESG_PROCESSED_FAILED))
  }

  // processInput; None where the original reads beyond the message or past the end of a vector
  function ProcessInput(st: Stub, message: seq<Byte>): Option<Processed> {
    if message == [] then Some(Processed(st, MESG_PROCESSED_FAILED))
    else
      var msgType := message[0] / 16;
      if msgType == 0 then Some(Processed(st, MESG_PROCESSED_FAILED))
      else if msgType == MODULE_DECLARE then
        if |message| < 2 then None
        else
          var (name, c) :- UnpackShortString(Cursor(message[2..], 0));
          if FindByName(ListedAll(st.modules), name).Some? then Some(Processed(st, MESG_TO_SHUTDOWN))
          else
            var (desc, _) :- UnpackLongString(c);
            Some(Processed(AddNewModule(st, name, desc, message[1]), MESG_PROCESSED_OK))
      else if msgType == PEER_SERVER_DISCOVERY then Some(Processed(st, MESG_PROCESSED_OK))
      else if msgType == PEER_SERVER_MSG then
        var (text, _) :- UnpackLongString(Cursor(message[1..], 0));
        Some(Processed(st.(callbacks := st.callbacks + [Callback(Text("onPeerMessage"), StrVal(text))]), MESG_PROCESSED_OK))
      else if |message| < 2 then None
      else if msgType == MODULE_SHUTDOWN then
        Some(Processed(DeleteModuleByID(st, Masked(message[1])), MESG_TO_SHUTDOWN))
      else
        var i := PlaceOf(st.modules, Masked(message[1]));
        if i == |st.modules| then Some(Processed(st, MESG_PROCESSED_FAILED))
        else ForModule(st, i, message)
  }
}
