// What the wrapper does with each message, as functions: PyConnectWrapper::processInput and the
// code the export macros generate. The class that runs it is in WrapperObject.dfy.
module WrapperModel {
  import opened Common
  import opened OrderedMap
  import opened Names
  import opened Messages

  const GET_ATTR_METD_DESC := 0x9

  const NO_PYCONNECT_OBJECT: Byte := 0x8
  const METD_EXCEPTION: Byte := 0xa

  datatype ServerInfo = ServerInfo(assignedModuleID: int, attributeUpdate: bool)

  // One call of dispatchMessage.
  datatype Dispatched = Dispatched(message: seq<Byte>, broadcast: bool)

  // One call into the wrapped program.
  datatype Call = Call(name: Str, args: seq<Value>)

  // What a called method does, decided by the wrapped program: return a value (of no interest
  // when it returns void) or throw.
  datatype Behaviour = Returned(value: Value) | Threw

  // The published module, the known servers, and what went out.
  datatype Wrapper = Wrapper(
    name: Str, desc: Str, leftToRight: bool,
    attributes: seq<Attribute>, methods: seq<Method>,
    serverMap: seq<Entry<ServerInfo>>,
    sent: seq<Dispatched>, calls: seq<Call>)

  function AttributeName(a: Attribute): Str { a.name }

  function MethodName(m: Method): Str { m.name }

  // The maps are ordered, and every value has the type of its attribute and a permitted length.
  ghost predicate Valid(w: Wrapper) {
    && Sorted(AttributeName, w.attributes) && Sorted(MethodName, w.methods)
    && Ascending(w.serverMap)
    && (forall a :: a in w.attributes ==> HasType(a.value, a.t) && Wireable(a.value))
  }

  // ---------------------------------------------------------------- sending

  function Send(w: Wrapper, message: seq<Byte>): Wrapper {
    w.(sent := w.sent + [Dispatched(message, false)])
  }

  // declarePyConnectModule
  function DeclareModule(w: Wrapper, serverId: int, toBroadcast: bool): Wrapper {
    w.(sent := w.sent + [Dispatched(DeclareMessage(serverId, OptionByte(w.leftToRight), w.name, w.desc), toBroadcast)])
  }

  // serverMap_[serverId].assignedModuleID, where an unknown server gets a blank entry
  function Touched(m: seq<Entry<ServerInfo>>, serverId: int): seq<Entry<ServerInfo>> {
    if Lookup(m, serverId) == None then Assign(m, serverId, ServerInfo(0, false)) else m
  }

  function ModuleIdFor(m: seq<Entry<ServerInfo>>, serverId: int): int {
    match Lookup(m, serverId)
    case None => 0
    case Some(info) => info.assignedModuleID
  }

  // What updateAttribute sends: an update to every server that wants it, in the order of their ids.
  function Updates(servers: seq<Entry<ServerInfo>>, index: int, value: Value): seq<Dispatched> {
    if servers == [] then []
    else
      var info := servers[0].value;
      (if info.attributeUpdate then
         [Dispatched(RespMessage(ATTR_VALUE_UPDATE, servers[0].key, info.assignedModuleID, NO_ERRORS, index, PackValue(value)), false)]
       else []) + Updates(servers[1..], index, value)
  }

  function UpdateAttribute(w: Wrapper, attrName: Str, value: Value): Wrapper {
    var i := IndexOf(AttributeName, w.attributes, attrName);
    if i == |w.attributes| then w else w.(sent := w.sent + Updates(w.serverMap, i, value))
  }

  // validateAttribute and validateMethod: is the element found under this name at this index?
  function ValidateAttribute(w: Wrapper, attrId: int, attrName: Str): Byte {
    if IndexOf(AttributeName, w.attributes, attrName) == attrId then NO_ERRORS else INDEX_MISMATCH
  }

  function ValidateMethod(w: Wrapper, metdId: int, metdName: Str): Byte {
    if IndexOf(MethodName, w.methods, metdName) == metdId then NO_ERRORS else INDEX_MISMATCH
  }

  // ---------------------------------------------------------------- incoming calls

  // getData hands out (DataType)0 when the status is already an error.
  function ZeroOf(t: Type): Value {
    match t
    case INT => IntVal(0)
    case FLOAT => FloatVal([0, 0, 0, 0])
    case DOUBLE => DoubleVal([0, 0, 0, 0, 0, 0, 0, 0])
    case STRING => StrVal([])
    case BOOL => BoolVal(false)
    case COMPOSITE => NoneVal
    case VOID => NoneVal
  }

  // The setter of a read-write attribute. A read-only one has none: calling it crashes.
  function SetAttrValue(w: Wrapper, attrId: nat, c: Cursor): Parsed<Wrapper>
    requires attrId < |w.attributes|
  {
    var a := w.attributes[attrId];
    if !a.writable then None
    else
      var (value, c1) :- if ValidateAttribute(w, attrId, a.name) == NO_ERRORS then WrapperGet(a.t, c) else Some((ZeroOf(a.t), c));
      var w1 := w.(attributes := w.attributes[attrId := a.(value := value)]);
      Some((UpdateAttribute(w1, a.name, value), c1))
  }

  function Zeros(types: seq<Type>): (vs: seq<Value>)
    ensures |vs| == |types| && forall i :: 0 <= i < |vs| ==> vs[i] == ZeroOf(types[i])
  {
    seq(|types|, i requires 0 <= i < |types| => ZeroOf(types[i]))
  }

  // custom_bind: the arguments are decoded in the order in which the compiler evaluates them,
  // from the first to the last, or from the last to the first. From the first corrupted one on
  // every argument is zero, and nothing more is read.
  function DecodeArgs(types: seq<Type>, leftToRight: bool, c: Cursor): Parsed<seq<Value>>
    decreases |types|
  {
    if types == [] then Some(([], c))
    else if leftToRight then
      if Corrupted(types[0], c) then Some((Zeros(types), c))
      else
        var (v, c1) :- WrapperGet(types[0], c);
        var (vs, c2) :- DecodeArgs(types[1..], leftToRight, c1);
        Some(([v] + vs, c2))
    else
      var n := |types| - 1;
      if Corrupted(types[n], c) then Some((Zeros(types), c))
      else
        var (v, c1) :- WrapperGet(types[n], c);
        var (vs, c2) :- DecodeArgs(types[..n], leftToRight, c1);
        Some((vs + [v], c2))
  }

  function ArgTypes(m: Method): (types: seq<Type>)
    ensures |types| == |m.args| && forall i :: 0 <= i < |types| ==> types[i] == m.args[i].t
  {
    seq(|m.args|, i requires 0 <= i < |m.args| => m.args[i].t)
  }

  // What goes back for a call: a thrown exception is reported even when no response is wanted,
  // and a void method that threw still reports success after that.
  function Replies(id: int, m: Method, index: int, serverId: int, noResponse: bool, b: Behaviour): seq<Dispatched> {
    var done := if m.retType == VOID && !noResponse
                then [Dispatched(RespMessage(ATTR_METD_RESP, serverId, id, NO_ERRORS, index, []), false)] else [];
    match b
    case Threw => [Dispatched(RespMessage(ATTR_METD_RESP, serverId, id, METD_EXCEPTION, index, []), false)] + done
    case Returned(v) =>
      if m.retType == VOID || noResponse then done
      else [Dispatched(RespMessage(ATTR_METD_RESP, serverId, id, NO_ERRORS, index, PackValue(v)), false)]
  }

  function MethodCall(w: Wrapper, metdId: nat, c: Cursor, serverId: int, noResponse: bool, b: Behaviour): Parsed<Wrapper>
    requires metdId < |w.methods|
  {
    var m, index, id := w.methods[metdId], |w.attributes| + metdId, ModuleIdFor(w.serverMap, serverId);
    if ValidateMethod(w, metdId, m.name) == NO_ERRORS then
      var (args, c1) :- DecodeArgs(ArgTypes(m), w.leftToRight, c);
      Some((w.(calls := w.calls + [Call(m.name, args)], sent := w.sent + Replies(id, m, index, serverId, noResponse, b)), c1))
    else
      Some((Send(w, RespMessage(ATTR_METD_RESP, serverId, id, NO_PYCONNECT_OBJECT, index, [])), c))
  }

  function CallAttrMetd(w: Wrapper, message: seq<Byte>, serverId: int, b: Behaviour): Parsed<Wrapper>
    requires |message| >= 2
  {
    var (index, c) :- ParseIndex(message[2..]);
    if index < |w.attributes| then SetAttrValue(w, index, c)
    else if index - |w.attributes| < |w.methods| then
      MethodCall(w, index - |w.attributes|, c, serverId, message[0] / 16 == CALL_ATTR_METD_NOCB, b)
    else None
  }

  // A request for the current value of an attribute.
  function GetAttrValue(w: Wrapper, message: seq<Byte>, serverId: int): Parsed<Wrapper>
    requires |message| >= 2
  {
    var (index, c) :- ParseIndex(message[2..]);
    if index < |w.attributes| then
      var a, id := w.attributes[index], ModuleIdFor(w.serverMap, serverId);
      var status := ValidateAttribute(w, index, a.name);
      var data := if status == NO_ERRORS then PackValue(a.value) else [];
      Some((Send(w, RespMessage(ATTR_METD_RESP, serverId, id, status, index, data)), c))
    else Some((w, c))
  }

  // A request for one description. A method's reply carries its index among the methods.
  function GetDesc(w: Wrapper, message: seq<Byte>, serverId: int): Parsed<Wrapper>
    requires |message| >= 2
  {
    var (index, c) :- UnpackInt(Cursor(message[2..], 1));
    var id, metdId := ModuleIdFor(w.serverMap, serverId), index - |w.attributes|;
    if index < |w.attributes| then
      Some((Send(w, RespMessage(ATTR_METD_RESP, serverId, id, NO_ERRORS, index, w.attributes[index].desc)), c))
    else if metdId < |w.methods| then
      Some((Send(w, RespMessage(ATTR_METD_RESP, serverId, id, NO_ERRORS, metdId, w.methods[metdId].desc)), c))
    else None
  }

  // ---------------------------------------------------------------- processInput

  // The entry of a server that has assigned an id.
  function AssignedInfo(m: seq<Entry<ServerInfo>>, serverId: int, modId: int): ServerInfo {
    match Lookup(m, serverId)
    case None => ServerInfo(modId, true)
    case Some(info) => info.(assignedModuleID := modId)
  }

  // EXPOSE and DESC follow an id that is assigned.
  function IdAssigned(w: Wrapper, serverId: int, modId: int): Wrapper {
    var w1 := w.(serverMap := Assign(w.serverMap, serverId, AssignedInfo(w.serverMap, serverId, modId)));
    Send(Send(w1, ExposeMessage(serverId, modId, w.attributes, w.methods)),
         DescMessage(serverId, modId, w.attributes, w.methods))
  }

  datatype Processed = Processed(wrapper: Wrapper, verdict: Verdict)

  // None where the original reads beyond the message, walks past the end of a map or calls a
  // setter that is not there.
  function ProcessInput(w: Wrapper, message: seq<Byte>, b: Behaviour): Option<Processed> {
    if message == [] then Some(Processed(w, MESG_PROCESSED_FAILED))
    else
      var msgType, serverId := message[0] / 16, message[0] % 16;
      var info := Lookup(w.serverMap, serverId);
      if msgType == 0 then Some(Processed(w, MESG_PROCESSED_FAILED))
      else if msgType == MODULE_DISCOVERY then
        if info.Some? then Some(Processed(w, MESG_TO_SHUTDOWN))
        else
          var w1 := w.(serverMap := Assign(w.serverMap, serverId, ServerInfo(UNASSIGNED, true)));
          Some(Processed(DeclareModule(w1, serverId, false), MESG_PROCESSED_OK))
      else if msgType == SERVER_SHUTDOWN then
        Some(Processed(w.(serverMap := Remove(w.serverMap, serverId)), MESG_TO_SHUTDOWN))
      else if |message| < 2 then
        if msgType != MODULE_ASSIGN_ID && info == None then Some(Processed(w, MESG_PROCESSED_FAILED)) else None
      else if msgType == MODULE_ASSIGN_ID then
        var (name, _) :- UnpackShortString(Cursor(message[2..], 0));
        Some(Processed(if name == w.name then IdAssigned(w, serverId, message[1]) else w, MESG_PROCESSED_OK))
      else if info == None || info.value.assignedModuleID != message[1] then
        Some(Processed(w, MESG_PROCESSED_FAILED))
      else if msgType == CALL_ATTR_METD || msgType == CALL_ATTR_METD_NOCB then
        var (w1, _) :- CallAttrMetd(w, message, serverId, b);
        Some(Processed(w1, MESG_PROCESSED_OK))
      else if msgType == ATTR_VALUE_UPDATE then
        var (w1, _) :- GetAttrValue(w, message, serverId);
        Some(Processed(w1, MESG_PROCESSED_OK))
      else if msgType == GET_ATTR_METD_DESC then
        var (w1, _) :- GetDesc(w, message, serverId);
        Some(Processed(w1, MESG_PROCESSED_OK))
      else Some(Processed(w, MESG_PROCESSED_FAILED))
  }

  // 1 announces that arguments are evaluated from left to right.
  function OptionByte(leftToRight: bool): Byte {
    if leftToRight then 1 else 0
  }

  function Farewell(e: Entry<ServerInfo>): seq<Byte> {
    [Header(MODULE_SHUTDOWN, e.key), e.value.assignedModuleID % 256, MSG_END]
  }

  // moduleShutdown: every known server is told.
  function Farewells(servers: seq<Entry<ServerInfo>>): seq<Dispatched> {
    if servers == [] then [] else [Dispatched(Farewell(servers[0]), false)] + Farewells(servers[1..])
  }

  // ---------------------------------------------------------------- the invariant

  lemma StringFits(c: Cursor)
    ensures var p := UnpackLongString(c); p.Some? ==> LongText(p.value.0)
  {
  }

  // Whatever bytes come in, a decoded value has its type and can be sent on.
  lemma DecodedFits(t: Type, c: Cursor)
    requires exists v :: HasType(v, t)
    ensures var p := WrapperGet(t, c); p.Some? ==> HasType(p.value.0, t) && Wireable(p.value.0)
  {
    StringFits(c);
  }

  lemma {:induction false} RenamedSorted(attrs: seq<Attribute>, i: nat, a: Attribute)
    requires Sorted(AttributeName, attrs) && i < |attrs| && a.name == attrs[i].name
    ensures Sorted(AttributeName, attrs[i := a])
  {
    if i > 0 {
      RenamedSorted(attrs[1..], i - 1, a);
      assert attrs[i := a][1..] == attrs[1..][i - 1 := a];
    } else {
      assert attrs[0 := a][1..] == attrs[1..];
    }
  }

  // Valid as before, with the same interface: only values differ.
  ghost predicate Keeps(w: Wrapper, w': Wrapper) {
    && Valid(w') && w'.name == w.name && w'.desc == w.desc && w'.leftToRight == w.leftToRight
    && w'.methods == w.methods && |w'.attributes| == |w.attributes|
    && forall i :: 0 <= i < |w.attributes| ==> w'.attributes[i] == w.attributes[i].(value := w'.attributes[i].value)
  }

  lemma SetKeeps(w: Wrapper, i: nat, c: Cursor)
    requires Valid(w) && i < |w.attributes|
    ensures var r := SetAttrValue(w, i, c); r.Some? ==> Keeps(w, r.value.0)
  {
    hide WrapperGet;
    var r, a := SetAttrValue(w, i, c), w.attributes[i];
    if r.Some? {
      assert a in w.attributes && HasType(a.value, a.t);
      DecodedFits(a.t, c);
      FoundAt(AttributeName, w.attributes, i);
      var value := WrapperGet(a.t, c).value.0;
      var attrs := w.attributes[i := a.(value := value)];
      RenamedSorted(w.attributes, i, a.(value := value));
      assert r.value.0.attributes == attrs;
      forall b | b in attrs
        ensures HasType(b.value, b.t) && Wireable(b.value)
      {
        assert b == a.(value := value) || b in w.attributes;
      }
    }
  }

  lemma CallKeeps(w: Wrapper, message: seq<Byte>, serverId: int, b: Behaviour)
    requires Valid(w) && |message| >= 2
    ensures var r := CallAttrMetd(w, message, serverId, b); r.Some? ==> Keeps(w, r.value.0)
  {
    hide SetAttrValue, MethodCall, ParseIndex, Valid, Keeps;
    var p := ParseIndex(message[2..]);
    if p.Some? {
      var j := p.value.0 - |w.attributes|;
      if j < 0 {
        SetKeeps(w, p.value.0, p.value.1);
      } else if j < |w.methods| {
        MethodCallKeeps(w, j, p.value.1, serverId, message[0] / 16 == CALL_ATTR_METD_NOCB, b);
      }
    }
  }

  lemma MethodCallKeeps(w: Wrapper, j: nat, c: Cursor, serverId: int, noResponse: bool, b: Behaviour)
    requires Valid(w) && j < |w.methods|
    ensures var r := MethodCall(w, j, c, serverId, noResponse, b); r.Some? ==> Keeps(w, r.value.0)
  {
    hide DecodeArgs, Replies, RespMessage, Sorted, Ascending;
  }

  lemma EntriesKeep(w: Wrapper, w': Wrapper)
    requires Valid(w) && w'.attributes == w.attributes && w'.methods == w.methods && Ascending(w'.serverMap)
    requires w'.name == w.name && w'.desc == w.desc && w'.leftToRight == w.leftToRight
    ensures Keeps(w, w')
  {
  }

  lemma RequestsKeep(w: Wrapper, message: seq<Byte>, serverId: int)
    requires Valid(w) && |message| >= 2
    ensures GetAttrValue(w, message, serverId).Some? ==> Keeps(w, GetAttrValue(w, message, serverId).value.0)
    ensures GetDesc(w, message, serverId).Some? ==> Keeps(w, GetDesc(w, message, serverId).value.0)
  {
    hide ParseIndex, UnpackInt, RespMessage;
  }

  predicate Negotiates(t: MsgType) {
    t == MODULE_DISCOVERY || t == SERVER_SHUTDOWN || t == MODULE_ASSIGN_ID
  }

  lemma NegotiationKeeps(w: Wrapper, message: seq<Byte>, b: Behaviour)
    requires Valid(w) && message != [] && Negotiates(message[0] / 16) && ProcessInput(w, message, b).Some?
    ensures Keeps(w, ProcessInput(w, message, b).value.wrapper)
  {
    hide Keeps, Sorted, ExposeMessage, DescMessage, DeclareMessage, UnpackShortString;
    var serverId := message[0] % 16;
    AssignSets(w.serverMap, serverId, ServerInfo(UNASSIGNED, true), serverId);
    RemoveClears(w.serverMap, serverId, serverId);
    if |message| >= 2 {
      AssignSets(w.serverMap, serverId, AssignedInfo(w.serverMap, serverId, message[1]), serverId);
    }
    var w' := ProcessInput(w, message, b).value.wrapper;
    assert w'.attributes == w.attributes && w'.methods == w.methods && Ascending(w'.serverMap);
    hide Valid, ProcessInput;
    EntriesKeep(w, w');
  }

  // A message that does not negotiate does nothing, or one of three things.
  lemma OtherMessages(w: Wrapper, message: seq<Byte>, b: Behaviour)
    requires message == [] || !Negotiates(message[0] / 16)
    ensures var r := ProcessInput(w, message, b);
            r.Some? && r.value.wrapper != w ==>
              |message| >= 2 &&
              var calls, gets, descs := CallAttrMetd(w, message, message[0] % 16, b), GetAttrValue(w, message, message[0] % 16),
                                        GetDesc(w, message, message[0] % 16);
              || (message[0] / 16 in [CALL_ATTR_METD, CALL_ATTR_METD_NOCB] && calls.Some? && r.value.wrapper == calls.value.0)
              || (gets.Some? && r.value.wrapper == gets.value.0)
              || (descs.Some? && r.value.wrapper == descs.value.0)
  {
    hide CallAttrMetd, GetAttrValue, GetDesc;
  }

  // Every message, of whatever content, keeps the maps ordered and each value of its type and
  // size; it leaves the names, types and descriptions alone.
  lemma ProcessInputKeepsValid(w: Wrapper, message: seq<Byte>, b: Behaviour)
    requires Valid(w)
    ensures var r := ProcessInput(w, message, b); r.Some? ==> Keeps(w, r.value.wrapper)
  {
    hide ProcessInput, Valid, Keeps, CallAttrMetd, GetAttrValue, GetDesc;
    EntriesUntouched(w);
    if message != [] && Negotiates(message[0] / 16) {
      if ProcessInput(w, message, b).Some? {
        NegotiationKeeps(w, message, b);
      }
    } else {
      OtherMessages(w, message, b);
      if |message| >= 2 {
        CallKeeps(w, message, message[0] % 16, b);
        RequestsKeep(w, message, message[0] % 16);
      }
    }
  }

  lemma EntriesUntouched(w: Wrapper)
    requires Valid(w)
    ensures Keeps(w, w)
  {
  }
}
