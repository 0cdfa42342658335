// The classes PyConnectObject and PyConnectStub: mirrored modules that are updated in place, and
// the list of them.
module StubObjects {
  import opened Common
  import opened Names
  import opened Registry
  import opened Messages
  import opened Buffers
  import M = StubModel

  // ---------------------------------------------------------------- a mirrored module

  class PyConnectObject {
    const id: int
    const name: Str
    const argEvalReversed: bool
    var desc: Str
    var noCallback: bool
    var pPyAttrs: seq<StubAttribute>
    var pPyMetds: seq<StubMethod>

    constructor (name: Str, id: int, desc: Str, options: Byte)
      ensures State() == M.NewObject(id, name, desc, options)
    {
      this.id, this.name, this.argEvalReversed := id, name, options == 1;
      this.desc := if desc != [] then desc else M.UNDOCUMENTED;
      noCallback, pPyAttrs, pPyMetds := false, [], [];
    }

    ghost function State(): M.Object
      reads this
    {
      M.Object(id, name, desc, noCallback, argEvalReversed, pPyAttrs, pPyMetds)
    }

    // The place of the first attribute with this name, or of the end.
    method FindAttribute(name: Str) returns (aind: nat)
      ensures aind == IndexOf(M.StubAttributeName, pPyAttrs, name)
    {
      aind := 0;
      while aind < |pPyAttrs| && pPyAttrs[aind].name != name
        invariant aind <= |pPyAttrs|
        invariant aind + IndexOf(M.StubAttributeName, pPyAttrs[aind..], name) == IndexOf(M.StubAttributeName, pPyAttrs, name)
      {
        assert pPyAttrs[aind..][1..] == pPyAttrs[aind + 1..];
        aind := aind + 1;
      }
    }

    method FindMethod(name: Str) returns (mind: nat)
      ensures mind == IndexOf(M.StubMethodName, pPyMetds, name)
    {
      mind := 0;
      while mind < |pPyMetds| && pPyMetds[mind].name != name
        invariant mind <= |pPyMetds|
        invariant mind + IndexOf(M.StubMethodName, pPyMetds[mind..], name) == IndexOf(M.StubMethodName, pPyMetds, name)
      {
        assert pPyMetds[mind..][1..] == pPyMetds[mind + 1..];
        mind := mind + 1;
      }
    }

    // setAttribute: false stands for a Python exception.
    method SetAttribute(stub: PyConnectStub, name: Str, value: Value) returns (ok: bool)
      modifies this, stub`sent
      ensures var a := M.SetAttribute(old(State()), stub.serverID, name, value);
              State() == a.obj && stub.sent == old(stub.sent) + a.sent && ok == a.ok
    {
      if name == M.NOCALLBACK {
        if !value.BoolVal? {
          return false;
        }
        noCallback := value.b;
      }
      if name == M.NAME || name == M.ID {
        return false;
      }
      if name == M.DOC {
        if !value.StrVal? {
          return false;
        }
        desc := value.s;
        return true;
      }
      var aind := FindAttribute(name);
      if aind < |pPyAttrs| {
        ok := SetRemote(stub, aind, value);
      } else {
        var mind := FindMethod(name);
        ok := mind == |pPyMetds|;
      }
    }

    method SetRemote(stub: PyConnectStub, aind: nat, value: Value) returns (ok: bool)
      requires aind < |pPyAttrs|
      modifies this`pPyAttrs, stub`sent
      ensures var a := M.SetRemote(old(State()), stub.serverID, aind, value);
              State() == a.obj && stub.sent == old(stub.sent) + a.sent && ok == a.ok
    {
      var attr := pPyAttrs[aind];
      if attr.readOnly {
        return false;
      }
      var valSize := ValidatedSize(value, attr.t);
      if valSize == 0 {
        return false;
      }
      if noCallback {
        pPyAttrs := pPyAttrs[aind := attr.(value := value)];
        stub.RemoteAttrMethodCall(id, aind, PackAs(value, attr.t), CALL_ATTR_METD_NOCB);
      } else {
        stub.RemoteAttrMethodCall(id, aind, PackAs(value, attr.t), CALL_ATTR_METD);
      }
      return true;
    }

    // The first loop of pyCall: check the types and add up the sizes.
    method MeasureArguments(formals: seq<Argument>, args: seq<Value>) returns (fit: bool, totalArgSize: nat)
      requires |args| <= |formals|
      ensures fit == M.ArgumentsFit(formals, args) && (fit ==> totalArgSize == PackedSize(M.AsDeclared(formals, args)))
    {
      hide PackValue, ValidatedSize, HasType, Coerced;
      ghost var taken := M.AsDeclared(formals, args);
      var i := 0;
      totalArgSize := 0;
      while i < |args|
        invariant 0 <= i <= |args| && totalArgSize == PackedSize(taken[..i])
        invariant forall k :: 0 <= k < i ==> HasType(Coerced(args[k], formals[k].t), formals[k].t)
      {
        var sizeReq := ValidatedSize(args[i], formals[i].t);
        ValidatedSizeExact(args[i], formals[i].t);
        if sizeReq == 0 {
          return false, 0;
        }
        PackedSizeSnoc(taken[..i + 1]);
        assert taken[..i + 1][..i] == taken[..i];
        totalArgSize := totalArgSize + sizeReq;
        i := i + 1;
      }
      assert taken[..|args|] == taken;
      fit := true;
    }

    // pyCall of one method: check and measure the arguments, pack them one way or the other.
    method PyCall(stub: PyConnectStub, mindex: nat, args: seq<Value>) returns (ok: bool)
      requires mindex < |pPyMetds|
      modifies stub`sent
      ensures var a := M.PyCall(State(), stub.serverID, mindex, args);
              stub.sent == old(stub.sent) + a.sent && ok == a.ok
    {
      hide M.ArgumentsFit, M.PackArgs, M.AsDeclared, PackedSize, CallMessage;
      var metd := pPyMetds[mindex];
      var argSize, minReqArgs := |args|, |metd.args| - M.OptionalCount(metd.args);
      if argSize < minReqArgs || argSize > minReqArgs + M.OptionalCount(metd.args) {
        return false;
      }
      var fit, totalArgSize := MeasureArguments(metd.args, args);
      if !fit {
        return false;
      }
      var argList := M.AsDeclared(metd.args, args);
      var argsBuf := PackArguments(argList, totalArgSize);
      var msgType: MsgType := if noCallback then CALL_ATTR_METD_NOCB else CALL_ATTR_METD;
      stub.RemoteAttrMethodCall(id, |pPyAttrs| + mindex, argsBuf[..], msgType);
      return true;
    }

    // The buffer is filled exactly, whichever way the arguments are packed.
    method PackArguments(args: seq<Value>, totalArgSize: nat) returns (argsBuf: array<Byte>)
      requires totalArgSize == PackedSize(args)
      ensures fresh(argsBuf) && argsBuf[..] == M.PackArgs(args, argEvalReversed)
    {
      argsBuf := new Byte[totalArgSize];
      PackedEitherWay(args);
      if argEvalReversed {
        PackForwards(args, argsBuf);
      } else {
        PackBackwards(args, argsBuf);
      }
    }

    method PackForwards(args: seq<Value>, argsBuf: array<Byte>)
      requires argsBuf.Length == |M.PackArgs(args, true)|
      modifies argsBuf
      ensures argsBuf[..] == M.PackArgs(args, true)
    {
      hide PackValue;
      var dataPtr: nat, i := 0, 0;
      assert args[0..] == args;
      while i < |args|
        invariant 0 <= i <= |args| && dataPtr + |M.PackArgs(args[i..], true)| == argsBuf.Length
        invariant argsBuf[..dataPtr] + M.PackArgs(args[i..], true) == M.PackArgs(args, true)
      {
        assert args[i..][1..] == args[i + 1..];
        ConcatAssoc(argsBuf[..dataPtr], PackValue(args[i]), M.PackArgs(args[i + 1..], true));
        dataPtr := CopyBytes(PackValue(args[i]), argsBuf, dataPtr);
        i := i + 1;
      }
      assert argsBuf[..dataPtr] == argsBuf[..];
    }

    method PackBackwards(args: seq<Value>, argsBuf: array<Byte>)
      requires argsBuf.Length == |M.PackArgs(args, false)|
      modifies argsBuf
      ensures argsBuf[..] == M.PackArgs(args, false)
    {
      hide PackValue;
      var dataPtr: nat, i := 0, |args| - 1;
      assert args[..i + 1] == args;
      while i >= 0
        invariant -1 <= i < |args| && dataPtr + |M.PackArgs(args[..i + 1], false)| == argsBuf.Length
        invariant argsBuf[..dataPtr] + M.PackArgs(args[..i + 1], false) == M.PackArgs(args, false)
      {
        assert args[..i + 1][..i] == args[..i];
        ConcatAssoc(argsBuf[..dataPtr], PackValue(args[i]), M.PackArgs(args[..i], false));
        dataPtr := CopyBytes(PackValue(args[i]), argsBuf, dataPtr);
        i := i - 1;
      }
      assert argsBuf[..dataPtr] == argsBuf[..];
    }

    // ------------------------------------------------------------ answers

    method OnSetAttrMetdResp(index: nat, err: int, c: Cursor) returns (callback: M.Callback)
      requires M.OnResponse(State(), index, err, c).Some?
      modifies this`pPyAttrs
      ensures M.Reaction(State(), callback) == M.OnResponse(old(State()), index, err, c).value.0
    {
      if index < |pPyAttrs| {
        var attr := pPyAttrs[index];
        if err != 0 {
          callback := M.Failed("onSet", attr.name, "Failed", err);
        } else {
          var retVal := StubUnpack(attr.t, c).value.0;
          pPyAttrs := pPyAttrs[index := attr.(value := retVal)];
          callback := M.Callback(M.Text("onSet") + attr.name, retVal);
        }
      } else {
        var mindex := index - |pPyAttrs|;
        if mindex < |pPyMetds| {
          var metd := pPyMetds[mindex];
          if err != 0 {
            callback := M.Failed("on", metd.name, "Failed", err);
          } else {
            var retVal := StubUnpack(metd.retType, c).value.0;
            callback := M.Callback(M.Text("on") + metd.name + M.Text("Completed"), retVal);
          }
        } else {
          callback := M.Callback(M.Text("onUnknownAttrMetdError"), IntVal(index));
        }
      }
    }

    method OnGetAttrResp(index: nat, err: int, c: Cursor) returns (callback: M.Callback)
      requires M.OnUpdate(State(), index, err, c).Some?
      modifies this`pPyAttrs
      ensures M.Reaction(State(), callback) == M.OnUpdate(old(State()), index, err, c).value.0
    {
      if index < |pPyAttrs| {
        var attr := pPyAttrs[index];
        if err != 0 {
          callback := M.Failed("on", attr.name, "UpdateFailed", err);
        } else {
          var retVal := StubUnpack(attr.t, c).value.0;
          pPyAttrs := pPyAttrs[index := attr.(value := retVal)];
          callback := M.Callback(M.Text("on") + attr.name + M.Text("Update"), retVal);
        }
      } else {
        callback := M.Callback(M.Text("onUnknownAttrbuteError"), IntVal(index));
      }
    }

    // The loops of EXPOSE: unpack one element after the other and add it to a vector.
    method AddAttributes(nofattrs: nat, start: Cursor) returns (c: Cursor)
      requires ParseMany(ParseAttribute, nofattrs, start).Some?
      modifies this`pPyAttrs
      ensures (pPyAttrs, c) == (old(pPyAttrs) + ParseMany(ParseAttribute, nofattrs, start).value.0,
                                ParseMany(ParseAttribute, nofattrs, start).value.1)
    {
      hide ParseAttribute;
      var i := 0;
      ghost var goal := ParseMany(ParseAttribute, nofattrs, start).value;
      c := start;
      while i < nofattrs
        invariant 0 <= i <= nofattrs
        invariant Remaining(ParseMany(ParseAttribute, nofattrs - i, c), pPyAttrs, old(pPyAttrs) + goal.0, goal.1)
      {
        var (attr, c1) := ParseAttribute(c).value;
        ConcatAssoc(pPyAttrs, [attr], ParseMany(ParseAttribute, nofattrs - i - 1, c1).value.0);
        pPyAttrs, c := pPyAttrs + [attr], c1;
        i := i + 1;
      }
      assert pPyAttrs + [] == pPyAttrs;
    }

    method AddMethods(nofmetds: nat, start: Cursor) returns (c: Cursor)
      requires ParseMany(ParseMethod, nofmetds, start).Some?
      modifies this`pPyMetds
      ensures (pPyMetds, c) == (old(pPyMetds) + ParseMany(ParseMethod, nofmetds, start).value.0,
                                ParseMany(ParseMethod, nofmetds, start).value.1)
    {
      hide ParseMethod;
      var i := 0;
      ghost var goal := ParseMany(ParseMethod, nofmetds, start).value;
      c := start;
      while i < nofmetds
        invariant 0 <= i <= nofmetds
        invariant Remaining(ParseMany(ParseMethod, nofmetds - i, c), pPyMetds, old(pPyMetds) + goal.0, goal.1)
      {
        var (metd, c1) := ParseMethod(c).value;
        ConcatAssoc(pPyMetds, [metd], ParseMany(ParseMethod, nofmetds - i - 1, c1).value.0);
        pPyMetds, c := pPyMetds + [metd], c1;
        i := i + 1;
      }
      assert pPyMetds + [] == pPyMetds;
    }

    method OnExpose(message: Cursor)
      requires ParseExpose(message).Some?
      modifies this`pPyAttrs, this`pPyMetds
      ensures State() == M.OnExpose(old(State()), ParseExpose(message).value.0.0, ParseExpose(message).value.0.1)
    {
      hide ParseAttribute, ParseMethod;
      var (nofattrs, c) := UnpackInt(message).value;
      c := AddAttributes(nofattrs, c);
      var (nofmetds, c1) := UnpackInt(c).value;
      c := AddMethods(nofmetds, c1);
    }

    // onSetAttrMetdDesc: unpack one description after the other and store it.
    method DescribeAttributes(nofattrs: nat, start: Cursor) returns (c: Cursor)
      requires ParseMany(UnpackLongString, nofattrs, start).Some? && nofattrs <= |pPyAttrs|
      modifies this`pPyAttrs
      ensures nofattrs == |ParseMany(UnpackLongString, nofattrs, start).value.0|
      ensures pPyAttrs == M.Described(old(pPyAttrs), ParseMany(UnpackLongString, nofattrs, start).value.0)
      ensures c == ParseMany(UnpackLongString, nofattrs, start).value.1
    {
      hide UnpackLongString;
      var i := 0;
      ghost var goal := ParseMany(UnpackLongString, nofattrs, start).value;
      ghost var descs: seq<Str> := [];
      c := start;
      while i < nofattrs
        invariant 0 <= i <= nofattrs && |descs| == i && |pPyAttrs| == |old(pPyAttrs)|
        invariant pPyAttrs == M.Described(old(pPyAttrs), descs)
        invariant Remaining(ParseMany(UnpackLongString, nofattrs - i, c), descs, goal.0, goal.1)
      {
        var (desc, c1) := UnpackLongString(c).value;
        ConcatAssoc(descs, [desc], ParseMany(UnpackLongString, nofattrs - i - 1, c1).value.0);
        DescribedOneMore(old(pPyAttrs), descs, desc);
        pPyAttrs := pPyAttrs[i := pPyAttrs[i].(desc := desc)];
        descs, c := descs + [desc], c1;
        i := i + 1;
      }
      assert descs + [] == descs;
    }

    method DescribeMethods(nofmetds: nat, start: Cursor) returns (c: Cursor)
      requires ParseMany(UnpackLongString, nofmetds, start).Some? && nofmetds <= |pPyMetds|
      modifies this`pPyMetds
      ensures nofmetds == |ParseMany(UnpackLongString, nofmetds, start).value.0|
      ensures pPyMetds == M.DescribedMethods(old(pPyMetds), ParseMany(UnpackLongString, nofmetds, start).value.0)
      ensures c == ParseMany(UnpackLongString, nofmetds, start).value.1
    {
      hide UnpackLongString;
      var i := 0;
      ghost var goal := ParseMany(UnpackLongString, nofmetds, start).value;
      ghost var descs: seq<Str> := [];
      c := start;
      while i < nofmetds
        invariant 0 <= i <= nofmetds && |descs| == i && |pPyMetds| == |old(pPyMetds)|
        invariant pPyMetds == M.DescribedMethods(old(pPyMetds), descs)
        invariant Remaining(ParseMany(UnpackLongString, nofmetds - i, c), descs, goal.0, goal.1)
      {
        var (desc, c1) := UnpackLongString(c).value;
        ConcatAssoc(descs, [desc], ParseMany(UnpackLongString, nofmetds - i - 1, c1).value.0);
        DescribedMethodsOneMore(old(pPyMetds), descs, desc);
        pPyMetds := pPyMetds[i := pPyMetds[i].(desc := desc)];
        descs, c := descs + [desc], c1;
        i := i + 1;
      }
      assert descs + [] == descs;
    }

    // A message with more descriptions than elements runs past the end of a vector.
    method OnSetAttrMetdDesc(message: Cursor)
      requires ParseDesc(message).Some?
      requires M.OnDesc(State(), ParseDesc(message).value.0.0, ParseDesc(message).value.0.1).Some?
      modifies this`pPyAttrs, this`pPyMetds
      ensures Some(State()) == M.OnDesc(old(State()), ParseDesc(message).value.0.0, ParseDesc(message).value.0.1)
    {
      hide UnpackLongString;
      var (nofattrs, c) := UnpackInt(message).value;
      ManyCount(UnpackLongString, nofattrs, c);
      c := DescribeAttributes(nofattrs, c);
      var (nofmetds, c1) := UnpackInt(c).value;
      ManyCount(UnpackLongString, nofmetds, c1);
      c := DescribeMethods(nofmetds, c1);
    }
  }

  // What a loop that unpacks the rest of a list will end with.
  ghost predicate Remaining<T(!new)>(rest: Parsed<seq<T>>, done: seq<T>, all: seq<T>, end: Cursor) {
    rest.Some? && done + rest.value.0 == all && rest.value.1 == end
  }

  lemma {:induction false} DescribedOneMore(attrs: seq<StubAttribute>, descs: seq<Str>, d: Str)
    requires |descs| < |attrs|
    ensures var r := M.Described(attrs, descs);
            && |r| == |attrs|
            && M.Described(attrs, descs + [d]) == r[|descs| := r[|descs|].(desc := d)]
  {
    assert (descs + [d])[1..] == if descs == [] then [] else descs[1..] + [d];
    if descs == [] {
      assert M.Described(attrs[1..], []) == attrs[1..];
    } else {
      DescribedOneMore(attrs[1..], descs[1..], d);
    }
  }

  lemma {:induction false} DescribedMethodsOneMore(metds: seq<StubMethod>, descs: seq<Str>, d: Str)
    requires |descs| < |metds|
    ensures var r := M.DescribedMethods(metds, descs);
            && |r| == |metds|
            && M.DescribedMethods(metds, descs + [d]) == r[|descs| := r[|descs|].(desc := d)]
  {
    assert (descs + [d])[1..] == if descs == [] then [] else descs[1..] + [d];
    if descs == [] {
      assert M.DescribedMethods(metds[1..], []) == metds[1..];
    } else {
      DescribedMethodsOneMore(metds[1..], descs[1..], d);
    }
  }

  function PackedSize(args: seq<Value>): nat {
    if args == [] then 0 else |PackValue(args[0])| + PackedSize(args[1..])
  }

  lemma {:induction false} PackedSizeSnoc(args: seq<Value>)
    requires args != []
    ensures PackedSize(args) == PackedSize(args[..|args| - 1]) + |PackValue(args[|args| - 1])|
  {
    var n := |args| - 1;
    if n > 0 {
      PackedSizeSnoc(args[1..]);
      assert args[..n][1..] == args[1..][..n - 1];
    }
  }

  // The size added up beforehand is the size of the packed arguments in either order.
  lemma {:induction false} PackedEitherWay(args: seq<Value>)
    ensures |M.PackArgs(args, true)| == PackedSize(args) == |M.PackArgs(args, false)|
    decreases |args|
  {
    if args != [] {
      PackedSizeSnoc(args);
      PackedEitherWay(args[1..]);
      PackedEitherWay(args[..|args| - 1]);
    }
  }

  // ---------------------------------------------------------------- the stub

  class PyConnectStub {
    const serverID: int
    const bigEndian: bool
    var modules: seq<PyConnectObject>
    var nextObjId: int
    var sent: seq<seq<Byte>>              // what was given to dispatchMessage
    var callbacks: seq<M.Callback>        // the Python callbacks invoked

    constructor (serverID: int, bigEndian: bool)
      ensures this.serverID == serverID && modules == [] && nextObjId == 1 && sent == [] && callbacks == []
    {
      this.serverID, this.bigEndian := serverID, bigEndian;
      modules, nextObjId, sent, callbacks := [], 1, [], [];
    }

    method RemoteAttrMethodCall(objID: int, index: nat, argStr: seq<Byte>, msgType: MsgType)
      modifies this`sent
      ensures sent == old(sent) + M.RemoteCall(serverID, objID, msgType, index, argStr)
    {
      if objID < 0 {
        return;
      }
      var asl := PackedIntLen(index);
      var totalMsgSize := 3 + 4 + asl + |argStr|;
      var dataBuffer := new Byte[totalMsgSize];
      CallLayout(msgType, serverID, objID, index, argStr);
      var bufPtr := WriteByte(Header(msgType, serverID), dataBuffer, 0);
      bufPtr := WriteByte(objID % 256, dataBuffer, bufPtr);
      var dataLength := asl + |argStr|;
      WireIsHostIndependent(bigEndian, LEInt(dataLength));
      bufPtr := PackToLENumber(bigEndian, HostImage(bigEndian, LEInt(dataLength)), dataBuffer, bufPtr);
      var written: nat;
      bufPtr, written := PackIntToStr(index, dataBuffer, bufPtr);
      bufPtr := CopyBytes(argStr, dataBuffer, bufPtr);
      bufPtr := WriteByte(MSG_END, dataBuffer, bufPtr);
      assert bufPtr == totalMsgSize && dataBuffer[..] == dataBuffer[..bufPtr];
      sent := sent + [dataBuffer[..]];
    }

    method AssignModuleID(name: Str, id: int)
      modifies this`sent
      ensures sent == old(sent) + [AssignMessage(serverID, id, name)]
    {
      var totalMsgSize := 4 + |name|;
      var dataBuffer := new Byte[totalMsgSize];
      AssignLayout(serverID, id, name);
      var bufPtr := WriteByte(Header(MODULE_ASSIGN_ID, serverID), dataBuffer, 0);
      bufPtr := WriteByte(id % 256, dataBuffer, bufPtr);
      bufPtr := PackString(name, dataBuffer, bufPtr, false);
      bufPtr := WriteByte(MSG_END, dataBuffer, bufPtr);
      assert bufPtr == totalMsgSize && dataBuffer[..] == dataBuffer[..bufPtr];
      sent := sent + [dataBuffer[..]];
    }

    method SendDiscoveryMsg()
      modifies this`sent
      ensures sent == old(sent) + [M.DiscoveryMessage(serverID)]
    {
      var dataBuffer := new Byte[2];
      dataBuffer[0] := Header(MODULE_DISCOVERY, serverID);
      dataBuffer[1] := MSG_END;
      assert dataBuffer[..] == M.DiscoveryMessage(serverID);
      sent := sent + [dataBuffer[..]];
    }

    // ------------------------------------------------------------ the list of modules

    // No object is listed twice.
    ghost predicate Valid()
      reads this
    {
      Distinct(modules)
    }

    ghost function State(): M.Stub
      reads this, modules
    {
      M.Stub(serverID, Objects(modules), nextObjId, sent, callbacks)
    }

    // findModuleByID: the place found, or the end
    method FindModuleByID(id: int) returns (miter: nat)
      ensures miter == M.PlaceOf(Objects(modules), id)
    {
      miter := 0;
      while !(miter == |modules| || modules[miter].id == id)
        invariant miter <= |modules|
        invariant miter + M.PlaceOf(Objects(modules)[miter..], id) == M.PlaceOf(Objects(modules), id)
        decreases |modules| - miter
      {
        assert Objects(modules)[miter..][1..] == Objects(modules)[miter + 1..];
        miter := miter + 1;
      }
    }

    // findModuleByName
    method FindModuleByName(name: Str) returns (miter: nat)
      ensures miter <= |modules| && (miter < |modules| ==> modules[miter].name == name)
      ensures forall k :: 0 <= k < miter ==> modules[k].name != name
      ensures (miter < |modules|) == FindByName(M.ListedAll(Objects(modules)), name).Some?
    {
      miter := 0;
      while !(miter == |modules| || modules[miter].name == name)
        invariant miter <= |modules|
        invariant forall k :: 0 <= k < miter ==> modules[k].name != name
        invariant FindByName(M.ListedAll(Objects(modules)[miter..]), name) == FindByName(M.ListedAll(Objects(modules)), name)
        decreases |modules| - miter
      {
        assert Objects(modules)[miter..][1..] == Objects(modules)[miter + 1..];
        miter := miter + 1;
      }
      if miter < |modules| {
        assert Objects(modules)[miter..][0].name == name;
      }
    }

    method AddNewModule(name: Str, desc: Str, options: Byte)
      requires Valid()
      modifies this`modules, this`nextObjId, this`sent
      ensures Valid() && State() == M.AddNewModule(old(State()), name, desc, options)
    {
      hide AssignMessage, Objects;
      if name == [] {
        return;
      }
      if nextObjId > MAX_OBJ_ID {
        return;
      }
      var newObj := new PyConnectObject(name, nextObjId, desc, options);
      Register(newObj);
    }

    // The new object is listed, and its id sent to the wrapper.
    method Register(newObj: PyConnectObject)
      requires Valid() && newObj !in modules
      modifies this`modules, this`nextObjId, this`sent
      ensures Valid() && callbacks == old(callbacks) && nextObjId == old(nextObjId) + 1
      ensures Objects(modules) == old(Objects(modules)) + [newObj.State()]
      ensures sent == old(sent) + [AssignMessage(serverID, old(nextObjId), newObj.name)]
    {
      AppendModule(newObj);
      hide Objects, Distinct, AssignMessage;
      ghost var objects := Objects(modules);
      AssignModuleID(newObj.name, nextObjId);
      nextObjId := nextObjId + 1;
      assert Objects(modules) == objects;
    }

    method AppendModule(newObj: PyConnectObject)
      requires Valid() && newObj !in modules
      modifies this`modules
      ensures Valid() && Objects(modules) == old(Objects(modules)) + [newObj.State()]
    {
      ObjectsAppend(modules, newObj);
      DistinctAppend(modules, newObj);
      modules := modules + [newObj];
    }

    // deleteModuleByID
    method DeleteModuleByID(id: int)
      requires Valid()
      modifies this`modules, this`callbacks
      ensures Valid() && State() == M.DeleteModuleByID(old(State()), id)
    {
      var miter := FindModuleByID(id);
      if miter != |modules| {
        Forget(miter);
      }
    }

    // The end of both ways to remove a module: onModuleDestroyed is called, and the entry erased.
    method Forget(miter: nat)
      requires Valid() && miter < |modules|
      modifies this`modules, this`callbacks
      ensures Valid()
      ensures Objects(modules) == M.Without(old(Objects(modules)), miter)
      ensures callbacks == old(callbacks) + [M.DestroyedCallback(old(Objects(modules))[miter])]
    {
      ObjectsWithout(modules, miter);
      DistinctWithout(modules, miter);
      hide Objects, Distinct, M.Without;
      callbacks := callbacks + [M.Callback(M.Text("onModuleDestroyed"), StrVal(modules[miter].name))];
      modules := modules[..miter] + modules[miter + 1..];
    }

    // shutdownModuleByRef: tell the wrapper, then forget the module
    method ShutdownModuleByRef(obj: PyConnectObject)
      requires Valid()
      modifies this`modules, this`callbacks, this`sent
      ensures Valid()
      ensures var i := RefPlace(old(modules), obj);
              State() == if i < |old(modules)| then M.ShutdownModule(old(State()), i) else old(State())
    {
      var miter := FindModuleByRef(obj);
      hide RefPlace, Objects, Distinct, M.Without;
      if miter != |modules| {
        ghost var objects := Objects(modules);
        sent := sent + [[Header(SERVER_SHUTDOWN, serverID), obj.id % 256, MSG_END]];
        assert Objects(modules) == objects && objects[miter] == obj.State();
        Forget(miter);
      }
    }

    method FindModuleByRef(obj: PyConnectObject) returns (miter: nat)
      ensures miter == RefPlace(modules, obj)
    {
      miter := 0;
      while !(miter == |modules| || modules[miter] == obj)
        invariant 0 <= miter <= |modules| && miter + RefPlace(modules[miter..], obj) == RefPlace(modules, obj)
        decreases |modules| - miter
      {
        assert modules[miter..][1..] == modules[miter + 1..];
        miter := miter + 1;
      }
    }

    // ------------------------------------------------------------ processInput

    method ProcessInput(recData: seq<Byte>) returns (result: Verdict)
      requires Valid() && M.ProcessInput(State(), recData).Some?
      modifies this, modules
      ensures Valid()
      ensures M.Processed(State(), result) == M.ProcessInput(old(State()), recData).value
    {
      hide M.ForModule, Objects, Distinct, UnpackShortString, UnpackLongString, M.AddNewModule, M.DeleteModuleByID;
      if |recData| < 1 {
        return MESG_PROCESSED_FAILED;
      }
      var msgType := recData[0] / 16;
      if msgType == 0 {
        return MESG_PROCESSED_FAILED;
      }
      if msgType == MODULE_DECLARE {
        var (mName, c) := UnpackShortString(Cursor(recData[2..], 0)).value;
        var miter := FindModuleByName(mName);
        if miter == |modules| {
          var (mDesc, _) := UnpackLongString(c).value;
          AddNewModule(mName, mDesc, recData[1]);
          return MESG_PROCESSED_OK;
        }
        return MESG_TO_SHUTDOWN;
      } else if msgType == MODULE_SHUTDOWN {
        DeleteModuleByID(recData[1] % 16);
        return MESG_TO_SHUTDOWN;
      } else if msgType == PEER_SERVER_MSG {
        var (peerMsg, _) := UnpackLongString(Cursor(recData[1..], 0)).value;
        callbacks := callbacks + [M.Callback(M.Text("onPeerMessage"), StrVal(peerMsg))];
        return MESG_PROCESSED_OK;
      } else if msgType == PEER_SERVER_DISCOVERY {
        return MESG_PROCESSED_OK;
      }
      var miter := FindModuleByID(recData[1] % 16);
      if miter == |modules| {
        return MESG_PROCESSED_FAILED;
      }
      result := ForModule(miter, recData);
    }

    method ForModule(i: nat, message: seq<Byte>) returns (result: Verdict)
      requires Valid() && i < |modules| && |message| >= 2 && M.ForModule(State(), i, message).Some?
      modifies this`callbacks, modules[i]
      ensures Valid()
      ensures M.Processed(State(), result) == M.ForModule(old(State()), i, message).value
    {
      hide ParseIndex, M.OnResponse, M.OnUpdate, M.OnDesc, M.CreatedCallback, ParseExpose, ParseDesc;
      var o, msgType := modules[i], message[0] / 16;
      if msgType == ATTR_METD_EXPOSE {
        o.OnExpose(Cursor(message[2..], 0));
        callbacks := callbacks + [M.CreatedCallback(o.id)];
      } else if msgType == ATTR_METD_RESP || msgType == ATTR_VALUE_UPDATE {
        var err := message[2] % 16;
        var (amind, c) := ParseIndex(message[3..]).value;
        var callback;
        if msgType == ATTR_METD_RESP {
          callback := o.OnSetAttrMetdResp(amind, err, c);
        } else {
          callback := o.OnGetAttrResp(amind, err, c);
        }
        callbacks := callbacks + [callback];
      } else if msgType == ATTR_METD_DESC {
        o.OnSetAttrMetdDesc(Cursor(message[2..], 0));
      } else {
        return MESG_PROCESSED_FAILED;
      }
      ObjectsUpdated(modules, i, old(Objects(modules)));
      return MESG_PROCESSED_OK;
    }
  }

  ghost function Objects(os: seq<PyConnectObject>): (r: seq<M.Object>)
    reads os
    ensures |r| == |os| && forall i :: 0 <= i < |os| ==> r[i] == os[i].State()
  {
    if os == [] then [] else [os[0].State()] + Objects(os[1..])
  }

  ghost predicate Distinct(os: seq<PyConnectObject>) {
    forall i, j :: 0 <= i < j < |os| ==> os[i] != os[j]
  }

  // The place of an object in the list, or of the end.
  ghost function RefPlace(os: seq<PyConnectObject>, obj: PyConnectObject): (i: nat)
    ensures i <= |os| && (i < |os| ==> os[i] == obj)
  {
    if os == [] || os[0] == obj then 0 else 1 + RefPlace(os[1..], obj)
  }

  lemma {:induction false} DistinctAppend(os: seq<PyConnectObject>, o: PyConnectObject)
    requires Distinct(os) && o !in os
    ensures Distinct(os + [o])
  {
  }

  lemma {:induction false} DistinctWithout(os: seq<PyConnectObject>, i: nat)
    requires Distinct(os) && i < |os|
    ensures Distinct(os[..i] + os[i + 1..])
  {
    var ps := os[..i] + os[i + 1..];
    assert forall j {:trigger ps[j]} :: 0 <= j < |ps| ==> ps[j] == os[if j < i then j else j + 1];
  }

  lemma {:induction false} ObjectsWithout(os: seq<PyConnectObject>, i: nat)
    requires i < |os|
    ensures Objects(os[..i] + os[i + 1..]) == M.Without(Objects(os), i)
  {
    var ps, objects := os[..i] + os[i + 1..], Objects(os);
    if i == 0 {
      assert ps == os[1..] && M.Without(objects, 0) == objects[1..];
    } else {
      ObjectsWithout(os[1..], i - 1);
      assert ps[1..] == os[1..][..i - 1] + os[1..][i..];
      assert M.Without(objects, i) == [objects[0]] + M.Without(objects[1..], i - 1);
    }
  }

  lemma {:induction false} ObjectsAppend(os: seq<PyConnectObject>, o: PyConnectObject)
    ensures Objects(os + [o]) == Objects(os) + [o.State()]
  {
  }

  lemma {:induction false} ObjectsUpdated(os: seq<PyConnectObject>, i: nat, before: seq<M.Object>)
    requires i < |os| == |before| && forall j :: 0 <= j < |os| && j != i ==> os[j].State() == before[j]
    ensures Objects(os) == before[i := os[i].State()]
  {
  }

  lemma {:induction false} CallLayout(msgType: MsgType, serverId: int, objId: int, index: int, args: seq<Byte>)
    ensures CallMessage(msgType, serverId, objId, index, args)
         == [] + [Header(msgType, serverId)] + [objId % 256] + LEInt(PackedIntLen(index) + |args|) + PackInt(index) + args + [MSG_END]
  {
    hide LEInt, PackInt;
  }

  lemma {:induction false} AssignLayout(serverId: int, id: int, name: Str)
    ensures AssignMessage(serverId, id, name)
         == [] + [Header(MODULE_ASSIGN_ID, serverId)] + [id % 256] + PackedString(name, false) + [MSG_END]
  {
  }
}
