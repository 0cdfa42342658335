// The class PyConnectWrapper: it fills message buffers byte by byte, with the size computed
// beforehand, and updates the published module and the server map in place.
module WrapperObject {
  import opened Common
  import opened OrderedMap
  import opened Names
  import opened Messages
  import opened Buffers
  import opened WrapperModel

  // ---------------------------------------------------------------- sizes of the lists

  lemma {:induction false} ArgumentsLength(args: seq<Argument>)
    ensures |Flatten(EncodeArgument, args)| == |args|
  {
    if args != [] {
      ArgumentsLength(args[1..]);
    }
  }

  // ---------------------------------------------------------------- the pieces of a message

  lemma DeclareLayout(serverId: int, option: Byte, name: Str, desc: Str)
    ensures DeclareMessage(serverId, option, name, desc)
         == [] + [Header(MODULE_DECLARE, serverId)] + [option] + PackedString(name, false) + PackedString(desc, true) + [MSG_END]
  {
  }

  lemma RespLayout(msgType: MsgType, serverId: int, moduleId: int, err: Byte, index: int, data: seq<Byte>)
    ensures RespMessage(msgType, serverId, moduleId, err, index, data)
         == [] + [Header(msgType, serverId)] + [moduleId % 256] + [err]
            + LEInt(PackedIntLen(index) + |data|) + PackInt(index) + data + [MSG_END]
  {
    hide LEInt, PackInt;
  }

  lemma AttributeLayout(before: seq<Byte>, a: Attribute)
    ensures before + EncodeAttribute(a)
         == before + [FlagByte(a.writable, a.t)] + PackedString(a.name, false) + PackValue(a.value)
  {
    hide PackShortString, PackValue;
  }

  lemma MethodLayout(before: seq<Byte>, m: Method)
    ensures before + EncodeMethod(m)
         == before + [TypeCode(m.retType)] + PackedString(m.name, false) + [|m.args| % 256]
            + Flatten(EncodeArgument, m.args)
  {
    hide PackShortString;
  }

  // EXPOSE and DESC: a header of two bytes and two counted lists
  lemma TwoListsLayout(head: seq<Byte>, attrs: seq<Byte>, metds: seq<Byte>)
    ensures head + (attrs + metds) + [MSG_END] == head + attrs + metds + [MSG_END]
  {
    ConcatAssoc(head, attrs, metds);
  }

  lemma UpdatesHead(servers: seq<Entry<ServerInfo>>, index: int, value: Value)
    requires servers != []
    ensures Updates(servers, index, value) == Updates([servers[0]], index, value) + Updates(servers[1..], index, value)
  {
    assert [servers[0]][1..] == [];
  }

  // get_arg_types: the types of the parameters, pushed from the last one to the first
  function GetArgTypes(params: seq<Type>, argIdx: nat): (atlist: seq<Type>)
    requires argIdx <= |params|
    ensures |atlist| == argIdx && forall i :: 0 <= i < argIdx ==> atlist[i] == params[argIdx - 1 - i]
  {
    if argIdx == 0 then [] else [params[argIdx - 1]] + GetArgTypes(params, argIdx - 1)
  }

  // The arguments of an exported method: none of them is optional.
  function PlainArguments(params: seq<Type>): (args: seq<Argument>)
    ensures |args| == |params| && forall i :: 0 <= i < |args| ==> args[i] == Argument(params[i], false)
  {
    seq(|params|, i requires 0 <= i < |params| => Argument(params[i], false))
  }

  class PyConnectWrapper {
    const name: Str
    const desc: Str
    const leftToRight: bool           // how the compiler evaluates arguments
    const bigEndian: bool             // how this host keeps numbers
    var attributes: seq<Attribute>    // a std::map, in the order of the names
    var methods: seq<Method>
    var serverMap_: seq<Entry<ServerInfo>>
    var published: bool               // the module is there
    var noResponse_: bool
    var s_arglist: seq<Argument>      // the arguments of the method being exported
    var sent: seq<Dispatched>         // what was given to dispatchMessage
    var calls: seq<Call>              // the calls made into the wrapped program

    constructor (name: Str, desc: Str, leftToRight: bool, bigEndian: bool)
      ensures State() == Wrapper(name, desc, leftToRight, [], [], [], [], []) && Valid(State())
      ensures published && !noResponse_ && s_arglist == []
    {
      this.name, this.desc, this.leftToRight, this.bigEndian := name, desc, leftToRight, bigEndian;
      published := true;
      attributes, methods, serverMap_, noResponse_, s_arglist, sent, calls := [], [], [], false, [], [], [];
    }

    ghost function State(): Wrapper
      reads this
    {
      Wrapper(name, desc, leftToRight, attributes, methods, serverMap_, sent, calls)
    }

    // ------------------------------------------------------------ publishing

    // A name that is too long or taken is refused.
    method AddNewAttribute(a: Attribute)
      requires Valid(State()) && HasType(a.value, a.t) && Wireable(a.value)
      modifies this`attributes
      ensures Valid(State())
      ensures var taken := |a.name| > 255 || IndexOf(AttributeName, old(attributes), a.name) < |old(attributes)|;
              attributes == if taken then old(attributes) else Insert(AttributeName, old(attributes), a)
    {
      if |a.name| > 255 {
        return;
      }
      var iter := IndexOf(AttributeName, attributes, a.name);
      if iter != |attributes| {
        return;
      }
      InsertKeeps(AttributeName, attributes, a);
      ghost var before := attributes;
      attributes := Insert(AttributeName, attributes, a);
      forall b | b in attributes
        ensures HasType(b.value, b.t) && Wireable(b.value)
      {
        assert b in multiset(attributes);
        assert b in before || b == a;
      }
    }

    method AddNewMethod(m: Method)
      requires Valid(State())
      modifies this`methods
      ensures Valid(State())
      ensures var taken := |m.name| > 255 || IndexOf(MethodName, old(methods), m.name) < |old(methods)|;
              methods == if taken then old(methods) else Insert(MethodName, old(methods), m)
    {
      if |m.name| > 255 {
        return;
      }
      var iter := IndexOf(MethodName, methods, m.name);
      if iter != |methods| {
        return;
      }
      InsertKeeps(MethodName, methods, m);
      methods := Insert(MethodName, methods, m);
    }

    // EXPORT_PYCONNECT_METHOD: the list of types is reversed once more, so that the published
    // arguments are those of the C++ member, in its order.
    method ExportMethod(metdName: Str, desc: Str, retType: Type, params: seq<Type>)
      requires Valid(State()) && s_arglist == []
      modifies this`methods, this`s_arglist
      ensures Valid(State()) && s_arglist == []
      ensures var taken := |metdName| > 255 || IndexOf(MethodName, old(methods), metdName) < |old(methods)|;
              methods == if taken then old(methods)
                         else Insert(MethodName, old(methods), Method(metdName, desc, retType, PlainArguments(params)))
    {
      var argtypelist := GetArgTypes(params, |params|);
      var asize, i := |argtypelist|, 0;
      while i < asize
        invariant methods == old(methods) && 0 <= i <= asize && s_arglist == PlainArguments(params)[..i]
      {
        s_arglist := s_arglist + [Argument(argtypelist[asize - i - 1], false)];
        i := i + 1;
      }
      assert s_arglist == PlainArguments(params);
      AddNewMethod(Method(metdName, desc, retType, s_arglist));
      s_arglist := [];
    }

    // ------------------------------------------------------------ sending

    method DispatchMessage(dataBuffer: array<Byte>, broadcast: bool)
      modifies this`sent
      ensures sent == old(sent) + [Dispatched(dataBuffer[..], broadcast)]
    {
      sent := sent + [Dispatched(dataBuffer[..], broadcast)];
    }

    // serverMap_[serverId].assignedModuleID
    method AssignedModuleID(serverId: int) returns (id: int)
      modifies this`serverMap_
      ensures serverMap_ == Touched(old(serverMap_), serverId) && id == ModuleIdFor(old(serverMap_), serverId)
    {
      match Lookup(serverMap_, serverId) {
        case Some(info) => id := info.assignedModuleID;
        case None =>
          serverMap_ := Assign(serverMap_, serverId, ServerInfo(0, false));
          id := 0;
      }
    }

    method DeclarePyConnectModule(serverId: int, toBroadcast: bool)
      modifies this`sent
      ensures sent == old(sent) + if !published then []
                      else [Dispatched(DeclareMessage(serverId, OptionByte(leftToRight), name, desc), toBroadcast)]
    {
      if !published {
        return;
      }
      var nameLen, descLen := |name|, |desc|;
      var dsl := PackedIntLen(descLen);
      var dataLength := nameLen + descLen + dsl;
      var totalMsgSize := 4 + dataLength;
      var dataBuffer := new Byte[totalMsgSize];
      var bufPtr := WriteByte(Header(MODULE_DECLARE, serverId), dataBuffer, 0);
      bufPtr := WriteByte(OptionByte(leftToRight), dataBuffer, bufPtr);
      bufPtr := PackString(name, dataBuffer, bufPtr, false);
      bufPtr := PackString(desc, dataBuffer, bufPtr, true);
      bufPtr := WriteByte(MSG_END, dataBuffer, bufPtr);
      DeclareLayout(serverId, OptionByte(leftToRight), name, desc);
      assert bufPtr == totalMsgSize && dataBuffer[..] == dataBuffer[..bufPtr];
      DispatchMessage(dataBuffer, toBroadcast);
    }

    method SendAttrMetdResponse(err: Byte, index: int, data: seq<Byte>, serverId: int, msgType: MsgType)
      requires index >= 0
      modifies this`sent, this`serverMap_
      ensures serverMap_ == Touched(old(serverMap_), serverId)
      ensures sent == old(sent)
                      + [Dispatched(RespMessage(msgType, serverId, ModuleIdFor(old(serverMap_), serverId), err, index, data), false)]
    {
      var al := PackedIntLen(index);
      var dataLength := |data| + al;
      var totalMsgSize := 4 + 4 + dataLength;
      var dataBuffer := new Byte[totalMsgSize];
      var moduleId := AssignedModuleID(serverId);
      var bufPtr := WriteByte(Header(msgType, serverId), dataBuffer, 0);
      bufPtr := WriteByte(moduleId % 256, dataBuffer, bufPtr);
      bufPtr := WriteByte(err, dataBuffer, bufPtr);
      WireIsHostIndependent(bigEndian, LEInt(dataLength));
      bufPtr := PackToLENumber(bigEndian, HostImage(bigEndian, LEInt(dataLength)), dataBuffer, bufPtr);
      var written: nat;
      bufPtr, written := PackIntToStr(index, dataBuffer, bufPtr);
      bufPtr := CopyBytes(data, dataBuffer, bufPtr);
      bufPtr := WriteByte(MSG_END, dataBuffer, bufPtr);
      RespLayout(msgType, serverId, moduleId, err, index, data);
      assert bufPtr == totalMsgSize && dataBuffer[..] == dataBuffer[..bufPtr];
      DispatchMessage(dataBuffer, false);
    }

    // ------------------------------------------------------------ EXPOSE and DESC

    // The first pass over the attributes packs the current values and adds up the sizes.
    method MeasureAttributes() returns (attrValuePacks: array<seq<Byte>>, totalAttrSize: nat)
      ensures fresh(attrValuePacks) && attrValuePacks.Length == |attributes|
      ensures forall i :: 0 <= i < |attributes| ==> attrValuePacks[i] == PackValue(attributes[i].value)
      ensures totalAttrSize == |Flatten(EncodeAttribute, attributes)|
    {
      var attrlens, attrValueLens, attId := 0, 0, 0;
      attrValuePacks := new seq<Byte>[|attributes|](_ => []);
      while attId < |attributes|
        invariant 0 <= attId <= |attributes|
        invariant forall i :: 0 <= i < attId ==> attrValuePacks[i] == PackValue(attributes[i].value)
        invariant attrlens >= 0 && attrValueLens >= 0
        invariant attrlens + attrValueLens + attId * 2 + |Flatten(EncodeAttribute, attributes[attId..])|
               == |Flatten(EncodeAttribute, attributes)|
      {
        assert attributes[attId..][1..] == attributes[attId + 1..];
        attrlens := attrlens + |attributes[attId].name|;
        attrValuePacks[attId] := PackValue(attributes[attId].value);
        attrValueLens := attrValueLens + |attrValuePacks[attId]|;
        attId := attId + 1;
      }
      totalAttrSize := attrlens + attrValueLens + |attributes| * 2;
    }

    method MeasureMethods() returns (totalMetdSize: nat)
      ensures totalMetdSize == |Flatten(EncodeMethod, methods)|
    {
      var metdlens, i := 0, 0;
      while i < |methods|
        invariant 0 <= i <= |methods| && metdlens >= 0
        invariant metdlens + i * 3 + |Flatten(EncodeMethod, methods[i..])| == |Flatten(EncodeMethod, methods)|
      {
        assert methods[i..][1..] == methods[i + 1..];
        ArgumentsLength(methods[i].args);
        metdlens := metdlens + |methods[i].name| + |methods[i].args|;
        i := i + 1;
      }
      totalMetdSize := metdlens + |methods| * 3;
    }

    method PackAttributes(attrValuePacks: array<seq<Byte>>, dataBuffer: array<Byte>, start: nat) returns (bufPtr: nat)
      requires attrValuePacks.Length == |attributes|
      requires forall i :: 0 <= i < |attributes| ==> attrValuePacks[i] == PackValue(attributes[i].value)
      requires start + |Counted(EncodeAttribute, attributes)| <= dataBuffer.Length
      modifies dataBuffer
      ensures bufPtr == start + |Counted(EncodeAttribute, attributes)|
      ensures dataBuffer[..bufPtr] == old(dataBuffer[..start]) + Counted(EncodeAttribute, attributes)
    {
      var written: nat;
      bufPtr, written := PackIntToStr(|attributes|, dataBuffer, start);
      ConcatAssoc(old(dataBuffer[..start]), PackInt(|attributes|), Flatten(EncodeAttribute, attributes));
      var attId := 0;
      while attId < |attributes|
        invariant 0 <= attId <= |attributes|
        invariant bufPtr + |Flatten(EncodeAttribute, attributes[attId..])| == start + |Counted(EncodeAttribute, attributes)|
        invariant dataBuffer[..bufPtr] + Flatten(EncodeAttribute, attributes[attId..])
               == old(dataBuffer[..start]) + Counted(EncodeAttribute, attributes)
        invariant forall i :: 0 <= i < |attributes| ==> attrValuePacks[i] == PackValue(attributes[i].value)
      {
        var attr := attributes[attId];
        assert attributes[attId..][1..] == attributes[attId + 1..];
        ConcatAssoc(dataBuffer[..bufPtr], EncodeAttribute(attributes[attId]), Flatten(EncodeAttribute, attributes[attId + 1..]));
        AttributeLayout(dataBuffer[..bufPtr], attr);
        bufPtr := WriteByte(FlagByte(attr.writable, attr.t), dataBuffer, bufPtr);
        bufPtr := PackString(attr.name, dataBuffer, bufPtr, false);
        bufPtr := CopyBytes(attrValuePacks[attId], dataBuffer, bufPtr);
        attId := attId + 1;
      }
    }

    method PackArguments(args: seq<Argument>, dataBuffer: array<Byte>, start: nat) returns (bufPtr: nat)
      requires start + |args| <= dataBuffer.Length
      modifies dataBuffer
      ensures bufPtr == start + |args|
      ensures dataBuffer[..bufPtr] == old(dataBuffer[..start]) + Flatten(EncodeArgument, args)
    {
      bufPtr := start;
      var j := 0;
      while j < |args|
        invariant 0 <= j <= |args| && bufPtr == start + j
        invariant dataBuffer[..bufPtr] + Flatten(EncodeArgument, args[j..]) == old(dataBuffer[..start]) + Flatten(EncodeArgument, args)
      {
        assert args[j..][1..] == args[j + 1..];
        ConcatAssoc(dataBuffer[..bufPtr], EncodeArgument(args[j]), Flatten(EncodeArgument, args[j + 1..]));
        bufPtr := WriteByte(FlagByte(args[j].optional, args[j].t), dataBuffer, bufPtr);
        j := j + 1;
      }
    }

    method PackMethod(metd: Method, dataBuffer: array<Byte>, start: nat) returns (bufPtr: nat)
      requires start + |EncodeMethod(metd)| <= dataBuffer.Length
      modifies dataBuffer
      ensures bufPtr == start + |EncodeMethod(metd)|
      ensures dataBuffer[..bufPtr] == old(dataBuffer[..start]) + EncodeMethod(metd)
    {
      ArgumentsLength(metd.args);
      MethodLayout(dataBuffer[..start], metd);
      bufPtr := WriteByte(TypeCode(metd.retType), dataBuffer, start);
      bufPtr := PackString(metd.name, dataBuffer, bufPtr, false);
      bufPtr := WriteByte(|metd.args| % 256, dataBuffer, bufPtr);
      bufPtr := PackArguments(metd.args, dataBuffer, bufPtr);
    }

    method PackMethods(dataBuffer: array<Byte>, start: nat) returns (bufPtr: nat)
      requires start + |Counted(EncodeMethod, methods)| <= dataBuffer.Length
      modifies dataBuffer
      ensures bufPtr == start + |Counted(EncodeMethod, methods)|
      ensures dataBuffer[..bufPtr] == old(dataBuffer[..start]) + Counted(EncodeMethod, methods)
    {
      var written: nat;
      bufPtr, written := PackIntToStr(|methods|, dataBuffer, start);
      ConcatAssoc(old(dataBuffer[..start]), PackInt(|methods|), Flatten(EncodeMethod, methods));
      var i := 0;
      while i < |methods|
        invariant 0 <= i <= |methods|
        invariant bufPtr + |Flatten(EncodeMethod, methods[i..])| == start + |Counted(EncodeMethod, methods)|
        invariant dataBuffer[..bufPtr] + Flatten(EncodeMethod, methods[i..])
               == old(dataBuffer[..start]) + Counted(EncodeMethod, methods)
      {
        var metd := methods[i];
        assert methods[i..][1..] == methods[i + 1..];
        ConcatAssoc(dataBuffer[..bufPtr], EncodeMethod(methods[i]), Flatten(EncodeMethod, methods[i + 1..]));
        bufPtr := PackMethod(metd, dataBuffer, bufPtr);
        i := i + 1;
      }
    }

    // The buffer has exactly the size of the message.
    method FillExpose(serverId: int, moduleId: int, attrValuePacks: array<seq<Byte>>, dataBuffer: array<Byte>)
      requires attrValuePacks.Length == |attributes|
      requires forall i :: 0 <= i < |attributes| ==> attrValuePacks[i] == PackValue(attributes[i].value)
      requires dataBuffer.Length == |ExposeMessage(serverId, moduleId, attributes, methods)|
      modifies dataBuffer
      ensures dataBuffer[..] == ExposeMessage(serverId, moduleId, attributes, methods)
    {
      TwoListsLayout([Header(ATTR_METD_EXPOSE, serverId), moduleId % 256], Counted(EncodeAttribute, attributes), Counted(EncodeMethod, methods));
      hide Counted;
      var bufPtr := WriteByte(Header(ATTR_METD_EXPOSE, serverId), dataBuffer, 0);
      bufPtr := WriteByte(moduleId % 256, dataBuffer, bufPtr);
      assert dataBuffer[..bufPtr] == [Header(ATTR_METD_EXPOSE, serverId), moduleId % 256];
      bufPtr := PackAttributes(attrValuePacks, dataBuffer, bufPtr);
      bufPtr := PackMethods(dataBuffer, bufPtr);
      bufPtr := WriteByte(MSG_END, dataBuffer, bufPtr);
      assert dataBuffer[..] == dataBuffer[..bufPtr];
    }

    method DeclareModuleAttrMetd(serverId: int)
      modifies this`sent, this`serverMap_
      ensures serverMap_ == if published then Touched(old(serverMap_), serverId) else old(serverMap_)
      ensures sent == old(sent) + if !published then []
                      else [Dispatched(ExposeMessage(serverId, ModuleIdFor(old(serverMap_), serverId), attributes, methods), false)]
    {
      if !published {
        return;
      }
      var attrValuePacks, totalAttrSize := MeasureAttributes();
      var totalMetdSize := MeasureMethods();
      var nofattrs, nofmethods := |attributes|, |methods|;
      var asl, msl := PackedIntLen(nofattrs), PackedIntLen(nofmethods);
      var totalMsgSize := 3 + asl + msl + totalAttrSize + totalMetdSize;
      var dataBuffer := new Byte[totalMsgSize];
      var moduleId := AssignedModuleID(serverId);
      PackedIntLenExact(nofattrs);
      PackedIntLenExact(nofmethods);
      FillExpose(serverId, moduleId, attrValuePacks, dataBuffer);
      DispatchMessage(dataBuffer, false);
    }

    method MeasureDescs() returns (attrlens: nat, metdlens: nat)
      ensures attrlens == |Flatten(AttributeDesc, attributes)| && metdlens == |Flatten(MethodDesc, methods)|
    {
      attrlens, metdlens := 0, 0;
      var i := 0;
      while i < |attributes|
        invariant 0 <= i <= |attributes|
        invariant attrlens + |Flatten(AttributeDesc, attributes[i..])| == |Flatten(AttributeDesc, attributes)|
      {
        assert attributes[i..][1..] == attributes[i + 1..];
        attrlens := attrlens + |attributes[i].desc| + PackedIntLen(|attributes[i].desc|);
        i := i + 1;
      }
      i := 0;
      while i < |methods|
        invariant 0 <= i <= |methods|
        invariant metdlens + |Flatten(MethodDesc, methods[i..])| == |Flatten(MethodDesc, methods)|
      {
        assert methods[i..][1..] == methods[i + 1..];
        metdlens := metdlens + |methods[i].desc| + PackedIntLen(|methods[i].desc|);
        i := i + 1;
      }
    }

    // The buffer has exactly the size of the message.
    method FillDesc(serverId: int, moduleId: int, dataBuffer: array<Byte>)
      requires dataBuffer.Length == |DescMessage(serverId, moduleId, attributes, methods)|
      modifies dataBuffer
      ensures dataBuffer[..] == DescMessage(serverId, moduleId, attributes, methods)
    {
      TwoListsLayout([Header(ATTR_METD_DESC, serverId), moduleId % 256], Counted(AttributeDesc, attributes), Counted(MethodDesc, methods));
      hide Counted;
      var bufPtr := WriteByte(Header(ATTR_METD_DESC, serverId), dataBuffer, 0);
      bufPtr := WriteByte(moduleId % 256, dataBuffer, bufPtr);
      assert dataBuffer[..bufPtr] == [Header(ATTR_METD_DESC, serverId), moduleId % 256];
      bufPtr := PackAttributeDescs(dataBuffer, bufPtr);
      bufPtr := PackMethodDescs(dataBuffer, bufPtr);
      bufPtr := WriteByte(MSG_END, dataBuffer, bufPtr);
      assert dataBuffer[..] == dataBuffer[..bufPtr];
    }

    method DeclareModuleAttrMetdDesc(serverId: int)
      modifies this`sent, this`serverMap_
      ensures serverMap_ == if published then Touched(old(serverMap_), serverId) else old(serverMap_)
      ensures sent == old(sent) + if !published then []
                      else [Dispatched(DescMessage(serverId, ModuleIdFor(old(serverMap_), serverId), attributes, methods), false)]
    {
      if !published {
        return;
      }
      var attrlens, metdlens := MeasureDescs();
      var nofattrs, nofmethods := |attributes|, |methods|;
      var asl, msl := PackedIntLen(nofattrs), PackedIntLen(nofmethods);
      var totalMsgSize := 3 + asl + msl + attrlens + metdlens;
      var dataBuffer := new Byte[totalMsgSize];
      var moduleId := AssignedModuleID(serverId);
      PackedIntLenExact(nofattrs);
      PackedIntLenExact(nofmethods);
      FillDesc(serverId, moduleId, dataBuffer);
      DispatchMessage(dataBuffer, false);
    }

    method PackAttributeDescs(dataBuffer: array<Byte>, start: nat) returns (bufPtr: nat)
      requires start + |Counted(AttributeDesc, attributes)| <= dataBuffer.Length
      modifies dataBuffer
      ensures bufPtr == start + |Counted(AttributeDesc, attributes)|
      ensures dataBuffer[..bufPtr] == old(dataBuffer[..start]) + Counted(AttributeDesc, attributes)
    {
      var written: nat;
      bufPtr, written := PackIntToStr(|attributes|, dataBuffer, start);
      ConcatAssoc(old(dataBuffer[..start]), PackInt(|attributes|), Flatten(AttributeDesc, attributes));
      var i := 0;
      while i < |attributes|
        invariant 0 <= i <= |attributes|
        invariant bufPtr + |Flatten(AttributeDesc, attributes[i..])| == start + |Counted(AttributeDesc, attributes)|
        invariant dataBuffer[..bufPtr] + Flatten(AttributeDesc, attributes[i..])
               == old(dataBuffer[..start]) + Counted(AttributeDesc, attributes)
      {
        assert attributes[i..][1..] == attributes[i + 1..];
        ConcatAssoc(dataBuffer[..bufPtr], AttributeDesc(attributes[i]), Flatten(AttributeDesc, attributes[i + 1..]));
        bufPtr := PackString(attributes[i].desc, dataBuffer, bufPtr, true);
        i := i + 1;
      }
    }

    method PackMethodDescs(dataBuffer: array<Byte>, start: nat) returns (bufPtr: nat)
      requires start + |Counted(MethodDesc, methods)| <= dataBuffer.Length
      modifies dataBuffer
      ensures bufPtr == start + |Counted(MethodDesc, methods)|
      ensures dataBuffer[..bufPtr] == old(dataBuffer[..start]) + Counted(MethodDesc, methods)
    {
      var written: nat;
      bufPtr, written := PackIntToStr(|methods|, dataBuffer, start);
      ConcatAssoc(old(dataBuffer[..start]), PackInt(|methods|), Flatten(MethodDesc, methods));
      var i := 0;
      while i < |methods|
        invariant 0 <= i <= |methods|
        invariant bufPtr + |Flatten(MethodDesc, methods[i..])| == start + |Counted(MethodDesc, methods)|
        invariant dataBuffer[..bufPtr] + Flatten(MethodDesc, methods[i..])
               == old(dataBuffer[..start]) + Counted(MethodDesc, methods)
      {
        assert methods[i..][1..] == methods[i + 1..];
        ConcatAssoc(dataBuffer[..bufPtr], MethodDesc(methods[i]), Flatten(MethodDesc, methods[i + 1..]));
        bufPtr := PackString(methods[i].desc, dataBuffer, bufPtr, true);
        i := i + 1;
      }
    }

    // ------------------------------------------------------------ attributes

    // An index is in order exactly when the attribute at it has the name; the end of the map is
    // in order for a name that no attribute has.
    method ValidateAttribute(attrId: int, attrName: Str) returns (status: Byte)
      ensures Valid(State()) && 0 <= attrId < |attributes| ==> (status == NO_ERRORS <==> attributes[attrId].name == attrName)
      ensures attrId == |attributes| ==> (status == NO_ERRORS <==> forall a :: a in attributes ==> a.name != attrName)
      ensures attrId < 0 || attrId > |attributes| ==> status == INDEX_MISMATCH
      ensures status == NO_ERRORS || status == INDEX_MISMATCH
      ensures status == WrapperModel.ValidateAttribute(State(), attrId, attrName)
    {
      if Valid(State()) && 0 <= attrId < |attributes| {
        FoundAt(AttributeName, attributes, attrId);
      }
      var oiter := IndexOf(AttributeName, attributes, attrName);
      status := NO_ERRORS;
      if oiter != attrId {
        status := INDEX_MISMATCH;
      }
    }

    method ValidateMethod(metdId: int, metdName: Str) returns (status: Byte)
      ensures Valid(State()) && 0 <= metdId < |methods| ==> (status == NO_ERRORS <==> methods[metdId].name == metdName)
      ensures metdId == |methods| ==> (status == NO_ERRORS <==> forall m :: m in methods ==> m.name != metdName)
      ensures metdId < 0 || metdId > |methods| ==> status == INDEX_MISMATCH
      ensures status == NO_ERRORS || status == INDEX_MISMATCH
      ensures status == WrapperModel.ValidateMethod(State(), metdId, metdName)
    {
      if Valid(State()) && 0 <= metdId < |methods| {
        FoundAt(MethodName, methods, metdId);
      }
      var oiter := IndexOf(MethodName, methods, metdName);
      status := NO_ERRORS;
      if oiter != metdId {
        status := INDEX_MISMATCH;
      }
    }

    // Tell every server that wants updates, in the order of the server map.
    method UpdateAttribute(attrName: Str, attrValue: Value)
      requires Ascending(serverMap_)
      modifies this`sent, this`serverMap_
      ensures State() == WrapperModel.UpdateAttribute(old(State()), attrName, attrValue)
    {
      var attrId := IndexOf(AttributeName, attributes, attrName);
      if attrId == |attributes| {
        return;
      }
      hide Valid, PackValue, RespMessage;
      var i := 0;
      ghost var servers := serverMap_;
      while i < |serverMap_|
        invariant serverMap_ == servers && 0 <= i <= |servers|
        invariant sent + Updates(servers[i..], attrId, attrValue) == old(sent) + Updates(servers, attrId, attrValue)
      {
        UpdatesHead(servers[i..], attrId, attrValue);
        assert servers[i..][1..] == servers[i + 1..];
        FoundEntry(servers, i);
        ConcatAssoc(sent, Updates([servers[i]], attrId, attrValue), Updates(servers[i + 1..], attrId, attrValue));
        PostUpdate(serverMap_[i], attrId, attrValue);
        i := i + 1;
      }
    }

    method PostUpdate(siter: Entry<ServerInfo>, attrId: int, attrValue: Value)
      requires Lookup(serverMap_, siter.key) == Some(siter.value) && attrId >= 0
      modifies this`sent, this`serverMap_
      ensures serverMap_ == old(serverMap_) && sent == old(sent) + Updates([siter], attrId, attrValue)
    {
      if siter.value.attributeUpdate {
        SendAttrMetdResponse(NO_ERRORS, attrId, PackValue(attrValue), siter.key, ATTR_VALUE_UPDATE);
      }
    }

    method SetAttrValue(attrId: nat, c: Cursor)
      requires Valid(State()) && attrId < |attributes| && WrapperModel.SetAttrValue(State(), attrId, c).Some?
      modifies this`attributes, this`sent, this`serverMap_
      ensures State() == WrapperModel.SetAttrValue(old(State()), attrId, c).value.0
    {
      var a := attributes[attrId];
      var status := ValidateAttribute(attrId, a.name);
      var value := ZeroOf(a.t);
      if status == NO_ERRORS {
        value := WrapperGet(a.t, c).value.0;
      }
      attributes := attributes[attrId := a.(value := value)];
      UpdateAttribute(a.name, value);
    }

    // ------------------------------------------------------------ methods

    method MethodCall(metdId: nat, c: Cursor, serverId: int, behaviour: Behaviour)
      requires metdId < |methods| && Lookup(serverMap_, serverId).Some?
      requires WrapperModel.MethodCall(State(), metdId, c, serverId, noResponse_, behaviour).Some?
      modifies this`sent, this`calls, this`serverMap_
      ensures State() == WrapperModel.MethodCall(old(State()), metdId, c, serverId, noResponse_, behaviour).value.0
    {
      hide DecodeArgs, Replies;
      var m, metdIndex := methods[metdId], |attributes| + metdId;
      var status := ValidateMethod(metdId, m.name);
      if status == NO_ERRORS {
        var args := DecodeArgs(ArgTypes(m), leftToRight, c).value.0;
        calls := calls + [Call(m.name, args)];
        SendReplies(m, metdIndex, serverId, behaviour);
      } else {
        SendAttrMetdResponse(NO_PYCONNECT_OBJECT, metdIndex, [], serverId, ATTR_METD_RESP);
      }
    }

    // The end of the generated call: the result, the exception, the plain success of a void method.
    method SendReplies(m: Method, metdIndex: nat, serverId: int, behaviour: Behaviour)
      requires Lookup(serverMap_, serverId).Some?
      modifies this`sent, this`serverMap_
      ensures serverMap_ == old(serverMap_)
      ensures sent == old(sent) + Replies(ModuleIdFor(old(serverMap_), serverId), m, metdIndex, serverId, noResponse_, behaviour)
    {
      hide RespMessage, PackValue;
      match behaviour {
        case Threw => SendAttrMetdResponse(METD_EXCEPTION, metdIndex, [], serverId, ATTR_METD_RESP);
        case Returned(v) =>
          if !noResponse_ && m.retType != VOID {
            SendAttrMetdResponse(NO_ERRORS, metdIndex, PackValue(v), serverId, ATTR_METD_RESP);
          }
      }
      if m.retType == VOID && !noResponse_ {
        SendAttrMetdResponse(NO_ERRORS, metdIndex, [], serverId, ATTR_METD_RESP);
      }
    }

    // ------------------------------------------------------------ processInput

    method ProcessInput(recData: seq<Byte>, behaviour: Behaviour) returns (result: Verdict)
      requires published && Valid(State()) && !noResponse_ && WrapperModel.ProcessInput(State(), recData, behaviour).Some?
      modifies this
      ensures published && Valid(State()) && !noResponse_ && s_arglist == old(s_arglist)
      ensures Processed(State(), result) == WrapperModel.ProcessInput(old(State()), recData, behaviour).value
    {
      ProcessInputKeepsValid(State(), recData, behaviour);
      if |recData| < 1 {
        return MESG_PROCESSED_FAILED;
      }
      var msgType, serverId := recData[0] / 16, recData[0] % 16;
      if msgType == 0 {
        return MESG_PROCESSED_FAILED;
      }
      var siter := Lookup(serverMap_, serverId);
      if msgType == MODULE_DISCOVERY {
        if siter == None {
          serverMap_ := Assign(serverMap_, serverId, ServerInfo(UNASSIGNED, true));
          DeclarePyConnectModule(serverId, false);
          return MESG_PROCESSED_OK;
        }
        return MESG_TO_SHUTDOWN;
      } else if msgType == SERVER_SHUTDOWN {
        serverMap_ := Remove(serverMap_, serverId);
        return MESG_TO_SHUTDOWN;
      } else if msgType == MODULE_ASSIGN_ID {
        var mName := UnpackShortString(Cursor(recData[2..], 0)).value.0;
        if mName == name {
          AssignId(serverId, recData[1]);
        }
        return MESG_PROCESSED_OK;
      } else if siter == None || siter.value.assignedModuleID != recData[1] {
        return MESG_PROCESSED_FAILED;
      }
      if msgType == CALL_ATTR_METD || msgType == CALL_ATTR_METD_NOCB {
        ProcessCall(recData, behaviour);
      } else if msgType == ATTR_VALUE_UPDATE {
        ProcessValueRequest(recData);
      } else if msgType == GET_ATTR_METD_DESC {
        ProcessDescRequest(recData);
      } else {
        return MESG_PROCESSED_FAILED;
      }
      return MESG_PROCESSED_OK;
    }

    method AssignId(serverId: int, modId: int)
      requires published && Ascending(serverMap_)
      modifies this`serverMap_, this`sent
      ensures State() == IdAssigned(old(State()), serverId, modId)
    {
      AssignSets(serverMap_, serverId, AssignedInfo(serverMap_, serverId, modId), serverId);
      match Lookup(serverMap_, serverId) {
        case None => serverMap_ := Assign(serverMap_, serverId, ServerInfo(modId, true));
        case Some(info) => serverMap_ := Assign(serverMap_, serverId, info.(assignedModuleID := modId));
      }
      DeclareModuleAttrMetd(serverId);
      DeclareModuleAttrMetdDesc(serverId);
    }

    method ProcessCall(message: seq<Byte>, behaviour: Behaviour)
      requires |message| >= 2 && Valid(State()) && Lookup(serverMap_, message[0] % 16).Some?
      requires CallAttrMetd(State(), message, message[0] % 16, behaviour).Some?
      modifies this
      ensures State() == CallAttrMetd(old(State()), message, message[0] % 16, behaviour).value.0
      ensures published == old(published) && !noResponse_ && s_arglist == old(s_arglist)
    {
      hide ParseIndex, WrapperModel.SetAttrValue, WrapperModel.MethodCall, Valid;
      noResponse_ := message[0] / 16 == CALL_ATTR_METD_NOCB;
      var (attrId, c) := ParseIndex(message[2..]).value;
      if attrId < |attributes| {
        SetAttrValue(attrId, c);
      } else {
        MethodCall(attrId - |attributes|, c, message[0] % 16, behaviour);
      }
      noResponse_ := false;
    }

    method ProcessValueRequest(message: seq<Byte>)
      requires |message| >= 2 && Lookup(serverMap_, message[0] % 16).Some?
      requires GetAttrValue(State(), message, message[0] % 16).Some?
      modifies this`sent, this`serverMap_
      ensures State() == GetAttrValue(old(State()), message, message[0] % 16).value.0
    {
      var (attrId, _) := ParseIndex(message[2..]).value;
      if attrId < |attributes| {
        var status := ValidateAttribute(attrId, attributes[attrId].name);
        var data := if status == NO_ERRORS then PackValue(attributes[attrId].value) else [];
        SendAttrMetdResponse(status, attrId, data, message[0] % 16, ATTR_METD_RESP);
      }
    }

    method ProcessDescRequest(message: seq<Byte>)
      requires |message| >= 2 && Lookup(serverMap_, message[0] % 16).Some?
      requires GetDesc(State(), message, message[0] % 16).Some?
      modifies this`sent, this`serverMap_
      ensures State() == GetDesc(old(State()), message, message[0] % 16).value.0
    {
      var (attrId, _) := UnpackInt(Cursor(message[2..], 1)).value;
      if attrId < |attributes| {
        SendAttrMetdResponse(NO_ERRORS, attrId, attributes[attrId].desc, message[0] % 16, ATTR_METD_RESP);
      } else {
        var metdId := attrId - |attributes|;
        SendAttrMetdResponse(NO_ERRORS, metdId, methods[metdId].desc, message[0] % 16, ATTR_METD_RESP);
      }
    }

    // moduleShutdown: the module is destroyed, and nothing is published any more.
    method ModuleShutdown()
      modifies this`sent, this`serverMap_, this`attributes, this`methods, this`published
      ensures serverMap_ == [] && sent == old(sent) + Farewells(old(serverMap_))
      ensures !published && attributes == [] && methods == []
    {
      var i := 0;
      while i < |serverMap_|
        invariant serverMap_ == old(serverMap_) && 0 <= i <= |serverMap_|
        invariant sent + Farewells(serverMap_[i..]) == old(sent) + Farewells(serverMap_)
      {
        var iter := serverMap_[i];
        assert serverMap_[i..][1..] == serverMap_[i + 1..];
        var dataBuffer := new Byte[3];
        dataBuffer[0] := Header(MODULE_SHUTDOWN, iter.key);
        dataBuffer[1] := iter.value.assignedModuleID % 256;
        dataBuffer[2] := MSG_END;
        assert dataBuffer[..] == Farewell(iter);
        ConcatAssoc(sent, [Dispatched(Farewell(iter), false)], Farewells(serverMap_[i + 1..]));
        DispatchMessage(dataBuffer, false);
        i := i + 1;
      }
      serverMap_ := [];
      published, attributes, methods := false, [], [];
    }
  }
}
