// From a Python name to the C++ member and back: the stub's object and the wrapper that
// published it, connected by the bytes they exchange.
module Calls {
  import opened Common
  import opened OrderedMap
  import opened Names
  import opened Registry
  import opened Messages
  import W = WrapperModel
  import S = StubModel

  // ---------------------------------------------------------------- arguments

  ghost predicate Typed(types: seq<Type>, values: seq<Value>) {
    |types| == |values| && forall i :: 0 <= i < |types| ==> HasType(values[i], types[i]) && Wireable(values[i])
  }

  lemma {:induction false} ForwardsArrive(types: seq<Type>, values: seq<Value>, rest: seq<Byte>, remaining: int)
    requires Typed(types, values) && |S.PackArgs(values, true)| <= remaining
    ensures var data := S.PackArgs(values, true);
            W.DecodeArgs(types, true, Cursor(data + rest, remaining)) == Some((values, Cursor(rest, remaining - |data|)))
    decreases |types|
  {
    hide PackValue, WrapperGet;
    if types == [] {
      assert [] + rest == rest;
    } else {
      assert Typed(types[1..], values[1..]) && values == [values[0]] + values[1..];
      var head, tail := PackValue(values[0]), S.PackArgs(values[1..], true);
      assert S.PackArgs(values, true) == head + tail;
      WrapperGetOfPacked(values[0], types[0], tail + rest, remaining);
      hide Typed, S.PackArgs;
      ConcatAssoc(head, tail, rest);
      ForwardsArrive(types[1..], values[1..], rest, remaining - |head|);
    }
  }

  lemma {:induction false} BackwardsArrive(types: seq<Type>, values: seq<Value>, rest: seq<Byte>, remaining: int)
    requires Typed(types, values) && |S.PackArgs(values, false)| <= remaining
    ensures var data := S.PackArgs(values, false);
            W.DecodeArgs(types, false, Cursor(data + rest, remaining)) == Some((values, Cursor(rest, remaining - |data|)))
    decreases |types|
  {
    hide PackValue, WrapperGet, Typed, S.PackArgs, W.DecodeArgs;
    LastOfTyped(types, values);
    if types == [] {
      NothingDecoded(Cursor(rest, remaining));
      assert [] + rest == rest;
    } else {
      var n := |types| - 1;
      var t, v, ts, vs := types[n], values[n], types[..n], values[..n];
      var head, tail := PackValue(v), S.PackArgs(vs, false);
      WrapperGetOfPacked(v, t, tail + rest, remaining);
      BackwardsArrive(ts, vs, rest, remaining - |head|);
      ConcatAssoc(head, tail, rest);
      DecodeLast(types, Cursor(head + tail + rest, remaining));
    }
  }

  lemma LastOfTyped(types: seq<Type>, values: seq<Value>)
    requires Typed(types, values)
    ensures |types| == |values| && (types == [] ==> S.PackArgs(values, false) == [])
    ensures types != [] ==>
              var n := |types| - 1;
              && Typed(types[..n], values[..n]) && HasType(values[n], types[n]) && Wireable(values[n])
              && values == values[..n] + [values[n]]
              && S.PackArgs(values, false) == PackValue(values[n]) + S.PackArgs(values[..n], false)
  {
    hide PackValue, HasType, Wireable;
  }

  lemma NothingDecoded(c: Cursor)
    ensures W.DecodeArgs([], false, c) == Some(([], c))
  {
  }

  lemma DecodeLast(types: seq<Type>, c: Cursor)
    requires types != [] && !Corrupted(types[|types| - 1], c)
    ensures var n := |types| - 1;
            var p := WrapperGet(types[n], c);
            var q := if p.Some? then W.DecodeArgs(types[..n], false, p.value.1) else None;
            W.DecodeArgs(types, false, c) == if q.Some? then Some((q.value.0 + [p.value.0], q.value.1)) else None
  {
    hide WrapperGet;
  }

  // Packing in the order that the wrapper's declaration announced hands the method exactly the
  // original arguments, takes their exact size off the count and stops right behind them.
  lemma {:induction false} ArgumentsArrive(types: seq<Type>, values: seq<Value>, leftToRight: bool, rest: seq<Byte>,
                                           remaining: int)
    requires Typed(types, values) && |S.PackArgs(values, leftToRight)| <= remaining
    ensures var data := S.PackArgs(values, leftToRight);
            W.DecodeArgs(types, leftToRight, Cursor(data + rest, remaining))
            == Some((values, Cursor(rest, remaining - |data|)))
  {
    hide S.PackArgs, W.DecodeArgs;
    if leftToRight {
      ForwardsArrive(types, values, rest, remaining);
    } else {
      BackwardsArrive(types, values, rest, remaining);
    }
  }

  // Without the announcement the arguments would come out of order: two integers are swapped.
  lemma OrderMatters(a: int, b: int, leftToRight: bool)
    requires IsInt32(a) && IsInt32(b)
    ensures W.DecodeArgs([INT, INT], leftToRight, Cursor(S.PackArgs([IntVal(a), IntVal(b)], !leftToRight), 8))
         == Some(([IntVal(b), IntVal(a)], Cursor([], 0)))
  {
    var swapped := [IntVal(b), IntVal(a)];
    PackTwo(IntVal(b), IntVal(a), leftToRight);
    ArgumentsArrive([INT, INT], swapped, leftToRight, [], 8);
    assert S.PackArgs([IntVal(a), IntVal(b)], !leftToRight) == S.PackArgs(swapped, leftToRight) + [] by {
      PackTwo(IntVal(a), IntVal(b), !leftToRight);
    }
  }

  lemma PackTwo(v: Value, w: Value, forwards: bool)
    ensures S.PackArgs([v, w], forwards)
         == if forwards then PackValue(v) + PackValue(w) else PackValue(w) + PackValue(v)
  {
    assert [v, w][1..] == [w] && [v, w][..1] == [v] && [w][1..] == [] && [v][..0] == [];
    assert S.PackArgs([w], forwards) == PackValue(w) + [] && S.PackArgs([v], forwards) == PackValue(v) + [];
  }

  // ---------------------------------------------------------------- a mirror of an interface

  predicate SameAttribute(sa: StubAttribute, a: Attribute) {
    sa.name == a.name && sa.t == a.t && sa.readOnly == !a.writable
  }

  predicate SameMethod(sm: StubMethod, m: Method) {
    sm.name == m.name && sm.retType == m.retType && sm.args == m.args
  }

  // The object shows the interface of the wrapper, element by element, and knows the order in
  // which the wrapper evaluates arguments.
  ghost predicate Mirrors(o: S.Object, w: W.Wrapper) {
    && |o.attrs| == |w.attributes| <= MAX_STR_LENGTH && |o.metds| == |w.methods|
    && |w.attributes| + |w.methods| <= MAX_STR_LENGTH
    && o.argEvalReversed == w.leftToRight
    && (forall i :: 0 <= i < |w.attributes| ==> SameAttribute(o.attrs[i], w.attributes[i]))
    && (forall i :: 0 <= i < |w.methods| ==> SameMethod(o.metds[i], w.methods[i]))
  }

  // The two ends agree on the object's id.
  predicate Paired(o: S.Object, w: W.Wrapper, serverId: int) {
    && 0 <= serverId < 16 && 0 <= o.id < 256
    && Lookup(w.serverMap, serverId).Some? && Lookup(w.serverMap, serverId).value.assignedModuleID == o.id
  }

  // The name is found at the same place on both sides.
  lemma SamePlace(o: S.Object, w: W.Wrapper, name: Str, i: nat)
    requires Mirrors(o, w) && W.Valid(w)
    requires i < |w.attributes| && w.attributes[i].name == name
    ensures IndexOf(S.StubAttributeName, o.attrs, name) == i
    ensures IndexOf(W.AttributeName, w.attributes, name) == i
  {
    FoundAt(W.AttributeName, w.attributes, i);
    assert SameAttribute(o.attrs[i], w.attributes[i]);
  }

  lemma NotAnAttribute(o: S.Object, w: W.Wrapper, name: Str)
    requires Mirrors(o, w) && IndexOf(W.AttributeName, w.attributes, name) == |w.attributes|
    ensures IndexOf(S.StubAttributeName, o.attrs, name) == |o.attrs|
  {
    var j := IndexOf(S.StubAttributeName, o.attrs, name);
    assert j < |o.attrs| ==> SameAttribute(o.attrs[j], w.attributes[j]);
  }

  lemma SameMethodPlace(o: S.Object, w: W.Wrapper, name: Str, i: nat)
    requires Mirrors(o, w) && W.Valid(w)
    requires i < |w.methods| && w.methods[i].name == name
    ensures IndexOf(S.StubMethodName, o.metds, name) == i
    ensures IndexOf(W.MethodName, w.methods, name) == i
  {
    FoundAt(W.MethodName, w.methods, i);
    var j := IndexOf(S.StubMethodName, o.metds, name);
    assert SameMethod(o.metds[i], w.methods[i]);
    if j < i {
      assert SameMethod(o.metds[j], w.methods[j]);
      FoundAt(W.MethodName, w.methods, j);
    }
  }

  // ---------------------------------------------------------------- CALL on the wire

  lemma CallArrives(msgType: MsgType, serverId: int, id: Byte, index: nat, args: seq<Byte>)
    requires 0 <= serverId < 16 && index <= MAX_STR_LENGTH && |args| < 0x7fff_0000
    ensures var m := CallMessage(msgType, serverId, id, index, args);
            && |m| >= 2 && m[0] / 16 == msgType && m[0] % 16 == serverId && m[1] == id
            && ParseIndex(m[2..]) == Some((index, Cursor(args + [MSG_END], |args|)))
  {
    var m := CallMessage(msgType, serverId, id, index, args);
    assert m[2..] == CallBody(index, args) + [MSG_END];
    IndexRoundTrip(index, args, [MSG_END]);
  }

  lemma CallIsDispatched(w: W.Wrapper, serverId: int, m: seq<Byte>, b: W.Behaviour)
    requires |m| >= 2 && m[0] % 16 == serverId && (m[0] / 16 == CALL_ATTR_METD || m[0] / 16 == CALL_ATTR_METD_NOCB)
    requires Lookup(w.serverMap, serverId).Some? && Lookup(w.serverMap, serverId).value.assignedModuleID == m[1]
    ensures W.ProcessInput(w, m, b)
         == match W.CallAttrMetd(w, m, serverId, b)
            case None => None
            case Some(r) => Some(W.Processed(r.0, MESG_PROCESSED_OK))
  {
    hide W.CallAttrMetd;
  }

  // ---------------------------------------------------------------- setting by name

  predicate Reserved(name: Str) {
    name in [S.NOCALLBACK, S.NAME, S.ID, S.DOC]
  }

  // Setting an attribute by its name sends one message; the wrapper takes it for the attribute
  // of that name, assigns exactly this value to it and to no other, and announces it to all.
  lemma SetByName(o: S.Object, w: W.Wrapper, serverId: int, name: Str, i: nat, value: Value, b: W.Behaviour)
    requires Mirrors(o, w) && W.Valid(w) && Paired(o, w, serverId) && !Reserved(name)
    requires i < |w.attributes| && w.attributes[i].name == name && w.attributes[i].writable
    requires Suits(value, w.attributes[i].t) && Wireable(Arrival(value, w.attributes[i].t))
    ensures var v := Arrival(value, w.attributes[i].t);
            var a := S.SetAttribute(o, serverId, name, value);
            var w1 := w.(attributes := w.attributes[i := w.attributes[i].(value := v)]);
            && a.ok && |a.sent| == 1
            && W.ProcessInput(w, a.sent[0], b)
               == Some(W.Processed(w1.(sent := w.sent + W.Updates(w.serverMap, i, v)), MESG_PROCESSED_OK))
    ensures var a := S.SetAttribute(o, serverId, name, value);
            HasType(value, w.attributes[i].t) && Wireable(value) ==> Gets(W.ProcessInput(w, a.sent[0], b), i, value)
  {
    SamePlace(o, w, name, i);
    assert SameAttribute(o.attrs[i], w.attributes[i]);
    ValidatedSizeExact(value, w.attributes[i].t);
    ArrivesAsGiven(value, w.attributes[i].t);
    ArrivalPacks(value, w.attributes[i].t);
    SetReaches(w, serverId, S.CallType(o), o.id, i, Arrival(value, w.attributes[i].t), b);
  }

  // Attribute i has this value once the message is processed.
  ghost predicate Gets(r: Option<W.Processed>, i: nat, value: Value) {
    r.Some? && i < |r.value.wrapper.attributes| && r.value.wrapper.attributes[i].value == value
  }

  lemma SetReaches(w: W.Wrapper, serverId: int, msgType: MsgType, id: Byte, i: nat, value: Value, b: W.Behaviour)
    requires W.Valid(w) && 0 <= serverId < 16 && |w.attributes| <= MAX_STR_LENGTH
    requires Lookup(w.serverMap, serverId).Some? && Lookup(w.serverMap, serverId).value.assignedModuleID == id
    requires msgType == CALL_ATTR_METD || msgType == CALL_ATTR_METD_NOCB
    requires i < |w.attributes| && w.attributes[i].writable
    requires HasType(value, w.attributes[i].t) && Wireable(value)
    ensures var w1 := w.(attributes := w.attributes[i := w.attributes[i].(value := value)]);
            W.ProcessInput(w, CallMessage(msgType, serverId, id, i, PackValue(value)), b)
            == Some(W.Processed(w1.(sent := w.sent + W.Updates(w.serverMap, i, value)), MESG_PROCESSED_OK))
  {
    hide W.Valid, CallMessage, ParseIndex, W.ProcessInput, W.CallAttrMetd, W.SetAttrValue, W.Updates;
    var data := PackValue(value);
    PackedFit(value);
    hide PackValue;
    var m := CallMessage(msgType, serverId, id, i, data);
    CallArrives(msgType, serverId, id, i, data);
    CallIsDispatched(w, serverId, m, b);
    CallOfAttribute(w, m, serverId, i, Cursor(data + [MSG_END], |data|), b);
    WrapperGetOfPacked(value, w.attributes[i].t, [MSG_END], |data|);
    SetIsApplied(w, i, Cursor(data + [MSG_END], |data|));
  }

  lemma CallOfAttribute(w: W.Wrapper, m: seq<Byte>, serverId: int, i: nat, c: Cursor, b: W.Behaviour)
    requires |m| >= 2 && i < |w.attributes| && ParseIndex(m[2..]) == Some((i, c))
    ensures W.CallAttrMetd(w, m, serverId, b) == W.SetAttrValue(w, i, c)
  {
    hide ParseIndex, W.SetAttrValue;
  }

  lemma SetIsApplied(w: W.Wrapper, i: nat, c: Cursor)
    requires W.Valid(w) && i < |w.attributes| && w.attributes[i].writable && WrapperGet(w.attributes[i].t, c).Some?
    ensures var (value, c1) := WrapperGet(w.attributes[i].t, c).value;
            var w1 := w.(attributes := w.attributes[i := w.attributes[i].(value := value)]);
            W.SetAttrValue(w, i, c) == Some((w1.(sent := w.sent + W.Updates(w.serverMap, i, value)), c1))
  {
    hide WrapperGet, W.Updates;
    FoundAt(W.AttributeName, w.attributes, i);
    StillFound(w.attributes, i, WrapperGet(w.attributes[i].t, c).value.0);
  }

  // A new value does not move an attribute.
  lemma {:induction false} StillFound(attrs: seq<Attribute>, i: nat, value: Value)
    requires i < |attrs| && IndexOf(W.AttributeName, attrs, attrs[i].name) == i
    ensures IndexOf(W.AttributeName, attrs[i := attrs[i].(value := value)], attrs[i].name) == i
  {
    var attrs' := attrs[i := attrs[i].(value := value)];
    assert attrs'[i].name == attrs[i].name;
    if i > 0 {
      assert attrs'[1..] == attrs[1..][i - 1 := attrs'[i]];
      StillFound(attrs[1..], i - 1, value);
    }
  }

  // ---------------------------------------------------------------- calling by name

  // What arrives of the arguments given.
  function ArrivalAll(m: Method, values: seq<Value>): (r: seq<Value>)
    requires |values| <= |m.args|
    ensures |r| == |values| && forall i :: 0 <= i < |r| ==> r[i] == Arrival(values[i], m.args[i].t)
  {
    seq(|values|, i requires 0 <= i < |values| => Arrival(values[i], m.args[i].t))
  }

  lemma AllArriveAsGiven(m: Method, values: seq<Value>)
    requires Typed(W.ArgTypes(m), values)
    ensures ArrivalAll(m, values) == values
  {
    forall i | 0 <= i < |values|
      ensures ArrivalAll(m, values)[i] == values[i]
    {
      assert HasType(values[i], W.ArgTypes(m)[i]);
      ArrivesAsGiven(values[i], m.args[i].t);
    }
  }

  lemma {:induction false} NarrowedPack(vs: seq<Value>, ws: seq<Value>, forwards: bool)
    requires |vs| == |ws| && forall i :: 0 <= i < |vs| ==> PackValue(vs[i]) == PackValue(ws[i])
    ensures S.PackArgs(vs, forwards) == S.PackArgs(ws, forwards)
    decreases |vs|
  {
    hide PackValue;
    if vs != [] {
      var n := |vs| - 1;
      if forwards {
        NarrowedPack(vs[1..], ws[1..], forwards);
      } else {
        NarrowedPack(vs[..n], ws[..n], forwards);
      }
    }
  }

  lemma ArrivalAllPacks(m: Method, values: seq<Value>, forwards: bool)
    requires |values| <= |m.args|
    ensures S.PackArgs(ArrivalAll(m, values), forwards) == S.PackArgs(S.AsDeclared(m.args, values), forwards)
  {
    var vs, ws := ArrivalAll(m, values), S.AsDeclared(m.args, values);
    forall i | 0 <= i < |vs|
      ensures PackValue(vs[i]) == PackValue(ws[i])
    {
      ArrivalPacks(values[i], m.args[i].t);
    }
    NarrowedPack(vs, ws, forwards);
  }

  // The arguments are as many as declared, and each arrives with its declared type.
  ghost predicate Callable(m: Method, values: seq<Value>) {
    |values| == |m.args| && Typed(W.ArgTypes(m), ArrivalAll(m, values))
  }

  lemma PackedFit(v: Value)
    requires Wireable(v)
    ensures |PackValue(v)| <= 40000
  {
  }

  lemma {:induction false} PackedArgsFit(values: seq<Value>, forwards: bool)
    requires forall v :: v in values ==> Wireable(v)
    ensures |S.PackArgs(values, forwards)| <= |values| * 40000
    decreases |values|
  {
    if values != [] {
      hide PackValue, Wireable;
      var n := |values| - 1;
      assert values[0] in values && values[n] in values;
      PackedFit(values[0]);
      PackedFit(values[n]);
      PackedArgsFit(values[1..], forwards);
      PackedArgsFit(values[..n], forwards);
    }
  }

  // A method of the wrapper called by its name with arguments of the declared types: the
  // wrapper calls exactly this method, once, with exactly these arguments in this order, and
  // replies as the mode asks for. Arguments of the declared types are called with as they are.
  lemma CallByName(o: S.Object, w: W.Wrapper, serverId: int, name: Str, j: nat, values: seq<Value>, b: W.Behaviour)
    requires Mirrors(o, w) && W.Valid(w) && Paired(o, w, serverId) && name !in [S.DOC, S.NOCALLBACK, S.DICT]
    requires j < |w.methods| && w.methods[j].name == name && |w.methods[j].args| <= 15
    requires IndexOf(W.AttributeName, w.attributes, name) == |w.attributes|
    requires Callable(w.methods[j], values)
    ensures S.MethodNamed(o, name) == Some(j)
    ensures var a := S.PyCall(o, serverId, j, values);
            var replies := W.Replies(o.id, w.methods[j], |w.attributes| + j, serverId, o.noCallback, b);
            && a.ok && |a.sent| == 1 && a.obj == o
            && W.ProcessInput(w, a.sent[0], b)
               == Some(W.Processed(w.(calls := w.calls + [W.Call(name, ArrivalAll(w.methods[j], values))], sent := w.sent + replies),
                                   MESG_PROCESSED_OK))
    ensures var a := S.PyCall(o, serverId, j, values);
            Typed(W.ArgTypes(w.methods[j]), values) ==>
              CalledOnce(W.ProcessInput(w, a.sent[0], b), w, W.Call(name, values))
  {
    if Typed(W.ArgTypes(w.methods[j]), values) {
      AllArriveAsGiven(w.methods[j], values);
    }
    NotAnAttribute(o, w, name);
    SameMethodPlace(o, w, name, j);
    PyCallSends(o, w, serverId, j, values);
    hide Mirrors, S.PyCall, W.ProcessInput, W.Replies, CallMessage, S.PackArgs, W.Valid;
    CallReaches(w, serverId, S.CallType(o), o.id, j, ArrivalAll(w.methods[j], values), b);
  }

  // The wrapped program has been called once more, with this call.
  ghost predicate CalledOnce(r: Option<W.Processed>, w: W.Wrapper, call: W.Call) {
    r.Some? && r.value.wrapper.calls == w.calls + [call]
  }

  lemma PyCallSends(o: S.Object, w: W.Wrapper, serverId: int, j: nat, values: seq<Value>)
    requires Mirrors(o, w) && o.id >= 0 && j < |w.methods| && Callable(w.methods[j], values)
    ensures var m := CallMessage(S.CallType(o), serverId, o.id, |w.attributes| + j, S.PackArgs(ArrivalAll(w.methods[j], values), w.leftToRight));
            S.PyCall(o, serverId, j, values) == S.Attempt(o, [m], true)
  {
    hide CallMessage, S.PackArgs;
    assert SameMethod(o.metds[j], w.methods[j]);
    ArgumentsAccepted(w.methods[j], values);
    ArrivalAllPacks(w.methods[j], values, w.leftToRight);
  }

  lemma ArgumentsAccepted(m: Method, values: seq<Value>)
    requires Callable(m, values)
    ensures S.ArgumentsFit(m.args, values) && |values| == |m.args|
  {
    forall i | 0 <= i < |values|
      ensures HasType(Coerced(values[i], m.args[i].t), m.args[i].t)
    {
      assert HasType(ArrivalAll(m, values)[i], W.ArgTypes(m)[i]);
    }
  }

  lemma DataFits(types: seq<Type>, values: seq<Value>, forwards: bool)
    requires Typed(types, values) && |types| <= 15
    ensures |S.PackArgs(values, forwards)| <= 600000
  {
    PackedArgsFit(values, forwards);
  }

  lemma CallReaches(w: W.Wrapper, serverId: int, msgType: MsgType, id: Byte, j: nat, values: seq<Value>, b: W.Behaviour)
    requires W.Valid(w) && 0 <= serverId < 16 && |w.attributes| + |w.methods| <= MAX_STR_LENGTH
    requires Lookup(w.serverMap, serverId).Some? && Lookup(w.serverMap, serverId).value.assignedModuleID == id
    requires msgType == CALL_ATTR_METD || msgType == CALL_ATTR_METD_NOCB
    requires j < |w.methods| && |w.methods[j].args| <= 15 && Typed(W.ArgTypes(w.methods[j]), values)
    ensures var m := CallMessage(msgType, serverId, id, |w.attributes| + j, S.PackArgs(values, w.leftToRight));
            var replies := W.Replies(id, w.methods[j], |w.attributes| + j, serverId, msgType == CALL_ATTR_METD_NOCB, b);
            W.ProcessInput(w, m, b)
            == Some(W.Processed(w.(calls := w.calls + [W.Call(w.methods[j].name, values)], sent := w.sent + replies),
                                MESG_PROCESSED_OK))
  {
    hide W.Valid, Typed, CallMessage, W.CallAttrMetd, W.MethodCall, W.ProcessInput, W.DecodeArgs, W.Replies,
         S.PackArgs, ParseIndex;
    var data, index := S.PackArgs(values, w.leftToRight), |w.attributes| + j;
    DataFits(W.ArgTypes(w.methods[j]), values, w.leftToRight);
    var m := CallMessage(msgType, serverId, id, index, data);
    CallArrives(msgType, serverId, id, index, data);
    CallIsDispatched(w, serverId, m, b);
    ArgumentsArrive(W.ArgTypes(w.methods[j]), values, w.leftToRight, [MSG_END], |data|);
    CallOfMethod(w, m, serverId, j, Cursor(data + [MSG_END], |data|), b);
    MethodIsCalled(w, j, Cursor(data + [MSG_END], |data|), serverId, m[0] / 16 == CALL_ATTR_METD_NOCB, b);
  }

  // What the stub gets for a method's result.
  function Result(m: Method, v: Value): Value {
    if m.retType == VOID then NoneVal else v
  }

  // The answers to a call of method j.
  function Answers(w: W.Wrapper, s: int, id: Byte, j: nat, silent: bool, b: W.Behaviour): seq<seq<Byte>>
    requires j < |w.methods|
  {
    var index, result := |w.attributes| + j, if b.Returned? then Result(w.methods[j], b.value) else NoneVal;
    (if b.Threw? then [RespMessage(ATTR_METD_RESP, s, id, 10, index, [])] else [])
    + (if silent || (b.Threw? && w.methods[j].retType != VOID) then []
       else [RespMessage(ATTR_METD_RESP, s, id, 0, index, PackValue(result))])
  }

  function AllDirect(messages: seq<seq<Byte>>): (ds: seq<W.Dispatched>)
    ensures |ds| == |messages| && forall i :: 0 <= i < |ds| ==> ds[i] == W.Dispatched(messages[i], false)
  {
    seq(|messages|, i requires 0 <= i < |messages| => W.Dispatched(messages[i], false))
  }

  // What a call is answered with: in callback mode the result, or an exception, after which a
  // void method still reports success; in no-callback mode nothing, or an exception.
  lemma CallIsAnswered(w: W.Wrapper, serverId: int, msgType: MsgType, id: Byte, j: nat, values: seq<Value>,
                       b: W.Behaviour)
    requires W.Valid(w) && 0 <= serverId < 16 && |w.attributes| + |w.methods| <= MAX_STR_LENGTH
    requires Lookup(w.serverMap, serverId).Some? && Lookup(w.serverMap, serverId).value.assignedModuleID == id
    requires msgType == CALL_ATTR_METD || msgType == CALL_ATTR_METD_NOCB
    requires j < |w.methods| && |w.methods[j].args| <= 15 && Typed(W.ArgTypes(w.methods[j]), values)
    ensures var request := CallMessage(msgType, serverId, id, |w.attributes| + j, S.PackArgs(values, w.leftToRight));
            var answers := Answers(w, serverId, id, j, msgType == CALL_ATTR_METD_NOCB, b);
            W.ProcessInput(w, request, b)
            == Some(W.Processed(w.(calls := w.calls + [W.Call(w.methods[j].name, values)],
                                   sent := w.sent + AllDirect(answers)),
                                MESG_PROCESSED_OK))
  {
    hide W.ProcessInput, CallMessage, S.PackArgs, PackValue, Typed, W.Valid, W.Replies, Answers;
    CallReaches(w, serverId, msgType, id, j, values, b);
    RepliesAre(w, serverId, id, j, msgType == CALL_ATTR_METD_NOCB, b);
  }

  // In no-callback mode a method that returns is not answered at all.
  lemma SilentCallSendsNothing(w: W.Wrapper, serverId: int, id: Byte, j: nat, values: seq<Value>, v: Value)
    requires W.Valid(w) && 0 <= serverId < 16 && |w.attributes| + |w.methods| <= MAX_STR_LENGTH
    requires Lookup(w.serverMap, serverId).Some? && Lookup(w.serverMap, serverId).value.assignedModuleID == id
    requires j < |w.methods| && |w.methods[j].args| <= 15 && Typed(W.ArgTypes(w.methods[j]), values)
    ensures var request := CallMessage(CALL_ATTR_METD_NOCB, serverId, id, |w.attributes| + j,
                                       S.PackArgs(values, w.leftToRight));
            W.ProcessInput(w, request, W.Returned(v))
            == Some(W.Processed(w.(calls := w.calls + [W.Call(w.methods[j].name, values)]), MESG_PROCESSED_OK))
  {
    hide W.ProcessInput, CallMessage, S.PackArgs, Typed, W.Valid, RespMessage, PackValue;
    CallIsAnswered(w, serverId, CALL_ATTR_METD_NOCB, id, j, values, W.Returned(v));
    assert AllDirect([]) == [] && w.sent + [] == w.sent;
  }

  lemma RepliesAre(w: W.Wrapper, serverId: int, id: Byte, j: nat, silent: bool, b: W.Behaviour)
    requires j < |w.methods|
    ensures W.Replies(id, w.methods[j], |w.attributes| + j, serverId, silent, b)
         == AllDirect(Answers(w, serverId, id, j, silent, b))
  {
    hide RespMessage;
  }

  // An index that the wrapper does not have leads past the end of its map.
  lemma UnknownIndexIsUndefined(w: W.Wrapper, serverId: int, msgType: MsgType, id: Byte, index: nat, data: seq<Byte>,
                                b: W.Behaviour)
    requires 0 <= serverId < 16 && |data| < 0x7fff_0000
    requires Lookup(w.serverMap, serverId).Some? && Lookup(w.serverMap, serverId).value.assignedModuleID == id
    requires msgType == CALL_ATTR_METD || msgType == CALL_ATTR_METD_NOCB
    requires |w.attributes| + |w.methods| <= index <= MAX_STR_LENGTH
    ensures W.ProcessInput(w, CallMessage(msgType, serverId, id, index, data), b) == None
  {
    hide CallMessage, ParseIndex, W.ProcessInput, W.SetAttrValue, W.MethodCall;
    var m := CallMessage(msgType, serverId, id, index, data);
    CallArrives(msgType, serverId, id, index, data);
    CallIsDispatched(w, serverId, m, b);
  }

  lemma CallOfMethod(w: W.Wrapper, m: seq<Byte>, serverId: int, j: nat, c: Cursor, b: W.Behaviour)
    requires |m| >= 2 && j < |w.methods| && ParseIndex(m[2..]) == Some((|w.attributes| + j, c))
    ensures W.CallAttrMetd(w, m, serverId, b) == W.MethodCall(w, j, c, serverId, m[0] / 16 == CALL_ATTR_METD_NOCB, b)
  {
    hide ParseIndex, W.MethodCall;
  }

  lemma MethodIsCalled(w: W.Wrapper, j: nat, c: Cursor, serverId: int, noResponse: bool, b: W.Behaviour)
    requires W.Valid(w) && j < |w.methods| && W.DecodeArgs(W.ArgTypes(w.methods[j]), w.leftToRight, c).Some?
    ensures var (args, c1) := W.DecodeArgs(W.ArgTypes(w.methods[j]), w.leftToRight, c).value;
            var replies := W.Replies(W.ModuleIdFor(w.serverMap, serverId), w.methods[j], |w.attributes| + j, serverId, noResponse, b);
            W.MethodCall(w, j, c, serverId, noResponse, b)
            == Some((w.(calls := w.calls + [W.Call(w.methods[j].name, args)], sent := w.sent + replies), c1))
  {
    hide W.DecodeArgs, W.Replies;
    FoundAt(W.MethodName, w.methods, j);
  }

  // ---------------------------------------------------------------- the way back

  lemma ResponseArrives(msgType: MsgType, serverId: int, id: Byte, err: Byte, index: nat, data: seq<Byte>)
    requires index <= MAX_STR_LENGTH && |data| < 0x7fff_0000 && err < 16
    ensures var m := RespMessage(msgType, serverId, id, err, index, data);
            && |m| >= 3 && m[0] / 16 == msgType && m[1] == id && m[2] % 16 == err
            && ParseIndex(m[3..]) == Some((index, Cursor(data + [MSG_END], |data|)))
  {
    hide CallBody, ParseIndex, Header;
    var m := RespMessage(msgType, serverId, id, err, index, data);
    assert m[3..] == CallBody(index, data) + [MSG_END];
    IndexRoundTrip(index, data, [MSG_END]);
  }

  // The object sits at this place of the stub and can be reached by its id.
  predicate Reachable(st: S.Stub, i: nat, o: S.Object) {
    i < |st.modules| && st.modules[i] == o && 0 <= o.id < 16 && S.PlaceOf(st.modules, o.id) == i
  }

  // The value a method can return: none for a void one.
  predicate Returns(m: Method, v: Value) {
    if m.retType == VOID then v == NoneVal else HasType(v, m.retType) && Wireable(v)
  }

  // The reply to a method call leads to the callback of this same method, with the result.
  lemma ReplyReturnsToTheMethod(st: S.Stub, i: nat, o: S.Object, w: W.Wrapper, serverId: int, j: nat, v: Value)
    requires Mirrors(o, w) && Reachable(st, i, o) && j < |w.methods| && Returns(w.methods[j], v)
    ensures var reply := RespMessage(ATTR_METD_RESP, serverId, o.id, NO_ERRORS, |w.attributes| + j, PackValue(v));
            S.ProcessInput(st, reply)
            == Some(S.Processed(st.(callbacks := st.callbacks
                                      + [S.Callback(S.Text("on") + w.methods[j].name + S.Text("Completed"), v)]),
                                MESG_PROCESSED_OK))
  {
    hide S.ProcessInput, S.OnResponse;
    var index, data := |w.attributes| + j, PackValue(v);
    assert SameMethod(o.metds[j], w.methods[j]);
    MethodCompletes(o, j, v, w.methods[j]);
    ReturnFits(w.methods[j], v);
    hide Mirrors, Returns, PackValue;
    var reply := RespMessage(ATTR_METD_RESP, serverId, o.id, NO_ERRORS, index, data);
    ResponseArrives(ATTR_METD_RESP, serverId, o.id, NO_ERRORS, index, data);
    ResponseIsDispatched(st, i, o, reply, index);
    hide RespMessage, ParseIndex;
    assert st.modules[i := o] == st.modules;
  }

  lemma ReturnFits(m: Method, v: Value)
    requires Returns(m, v)
    ensures |PackValue(v)| <= 40000
  {
    if m.retType != VOID {
      PackedFit(v);
    }
  }

  lemma MethodCompletes(o: S.Object, j: nat, v: Value, m: Method)
    requires j < |o.metds| && SameMethod(o.metds[j], m) && Returns(m, v)
    ensures var data := PackValue(v);
            var r := S.OnResponse(o, |o.attrs| + j, 0, Cursor(data + [MSG_END], |data|));
            r.Some? && r.value.0 == S.Reaction(o, S.Callback(S.Text("on") + m.name + S.Text("Completed"), v))
  {
    if m.retType != VOID {
      StubUnpackOfPacked(v, m.retType, [MSG_END], |PackValue(v)|);
    }
    hide StubUnpack, PackValue;
  }

  // So does the report of an exception.
  lemma ExceptionReturnsToTheMethod(st: S.Stub, i: nat, o: S.Object, w: W.Wrapper, serverId: int, j: nat)
    requires Mirrors(o, w) && Reachable(st, i, o) && j < |w.methods|
    ensures var reply := RespMessage(ATTR_METD_RESP, serverId, o.id, W.METD_EXCEPTION, |w.attributes| + j, []);
            S.ProcessInput(st, reply)
            == Some(S.Processed(st.(callbacks := st.callbacks
                                      + [S.Callback(S.Text("on") + w.methods[j].name + S.Text("Failed"), IntVal(10))]),
                                MESG_PROCESSED_OK))
  {
    hide S.ProcessInput, S.ForModule;
    var index := |w.attributes| + j;
    var reply := RespMessage(ATTR_METD_RESP, serverId, o.id, W.METD_EXCEPTION, index, []);
    assert SameMethod(o.metds[j], w.methods[j]);
    ResponseArrives(ATTR_METD_RESP, serverId, o.id, W.METD_EXCEPTION, index, []);
    ResponseIsDispatched(st, i, o, reply, index);
    assert st.modules[i := o] == st.modules;
  }

  // An answer that carries the value of an attribute sets it, and calls back under another name
  // than an update does.
  lemma AnswerSetsTheAttribute(o: S.Object, index: nat, v: Value, rest: seq<Byte>, remaining: int)
    requires index < |o.attrs| && HasType(v, o.attrs[index].t) && Wireable(v)
    ensures var r := S.OnResponse(o, index, 0, Cursor(PackValue(v) + rest, remaining));
            r.Some? && r.value.0 == S.Reaction(o.(attrs := o.attrs[index := o.attrs[index].(value := v)]),
                                               S.Callback(S.Text("onSet") + o.attrs[index].name, v))
  {
    StubUnpackOfPacked(v, o.attrs[index].t, rest, remaining);
    hide StubUnpack, PackValue;
  }

  // What an error leads to, whatever the answer is about.
  lemma FailureIsReported(o: S.Object, index: nat, err: int, c: Cursor)
    requires err != 0
    ensures index < |o.attrs| ==>
              && Leads(S.OnResponse(o, index, err, c), o, S.Text("onSet") + o.attrs[index].name + S.Text("Failed"), err)
              && Leads(S.OnUpdate(o, index, err, c), o, S.Text("on") + o.attrs[index].name + S.Text("UpdateFailed"),
                       err)
    ensures |o.attrs| <= index < |o.attrs| + |o.metds| ==>
              Leads(S.OnResponse(o, index, err, c), o,
                    S.Text("on") + o.metds[index - |o.attrs|].name + S.Text("Failed"), err)
    ensures index >= |o.attrs| + |o.metds| ==>
              Leads(S.OnResponse(o, index, err, c), o, S.Text("onUnknownAttrMetdError"), index)
    ensures index >= |o.attrs| ==> Leads(S.OnUpdate(o, index, err, c), o, S.Text("onUnknownAttrbuteError"), index)
  {
  }

  // The object stays as it is, and this callback gets this number.
  ghost predicate Leads(r: Parsed<S.Reaction>, o: S.Object, callback: Str, number: int) {
    r.Some? && r.value.0 == S.Reaction(o, S.Callback(callback, IntVal(number)))
  }

  // Both kinds of answer are handed to the object with the id, at the index they carry.
  lemma ResponseIsDispatched(st: S.Stub, i: nat, o: S.Object, m: seq<Byte>, index: nat)
    requires Reachable(st, i, o) && |m| >= 3 && Masked(m[1]) == o.id
    requires m[0] / 16 == ATTR_METD_RESP || m[0] / 16 == ATTR_VALUE_UPDATE
    requires ParseIndex(m[3..]).Some? && ParseIndex(m[3..]).value.0 == index
    ensures var c := ParseIndex(m[3..]).value.1;
            var r := if m[0] / 16 == ATTR_METD_RESP then S.OnResponse(o, index, m[2] % 16, c) else S.OnUpdate(o, index, m[2] % 16, c);
            S.ProcessInput(st, m) == match r case None => None case Some(r) => Some(S.Reacted(st, i, r.0))
  {
    hide S.OnResponse, S.OnUpdate, ParseIndex;
  }

  // An update of an attribute reaches the attribute of that name, and no other.
  lemma UpdateReachesTheAttribute(st: S.Stub, i: nat, o: S.Object, w: W.Wrapper, serverId: int, k: nat, v: Value)
    requires Mirrors(o, w) && Reachable(st, i, o) && k < |w.attributes| && HasType(v, w.attributes[k].t) && Wireable(v)
    ensures var update := RespMessage(ATTR_VALUE_UPDATE, serverId, o.id, NO_ERRORS, k, PackValue(v));
            S.ProcessInput(st, update)
            == Some(S.Processed(
                 st.(modules := st.modules[i := o.(attrs := o.attrs[k := o.attrs[k].(value := v)])],
                     callbacks := st.callbacks
                       + [S.Callback(S.Text("on") + w.attributes[k].name + S.Text("Update"), v)]),
                 MESG_PROCESSED_OK))
  {
    hide S.ProcessInput, S.ForModule;
    var data := PackValue(v);
    var update := RespMessage(ATTR_VALUE_UPDATE, serverId, o.id, NO_ERRORS, k, data);
    assert SameAttribute(o.attrs[k], w.attributes[k]);
    ResponseArrives(ATTR_VALUE_UPDATE, serverId, o.id, NO_ERRORS, k, data);
    ResponseIsDispatched(st, i, o, update, k);
    StubUnpackOfPacked(v, w.attributes[k].t, [MSG_END], |data|);
    hide StubUnpack, RespMessage;
  }

  // ---------------------------------------------------------------- publishing

  // A mirrored element once the descriptions have arrived.
  function FullAttribute(a: Attribute): StubAttribute {
    AttributeView(a).(desc := a.desc)
  }

  function FullMethod(m: Method): StubMethod {
    MethodView(m).(desc := m.desc)
  }

  lemma {:induction false} DescribedAttributes(attrs: seq<Attribute>)
    ensures var r := S.Described(AttributeViews(attrs), AttributeDescs(attrs));
            |r| == |attrs| && forall i :: 0 <= i < |attrs| ==> r[i] == FullAttribute(attrs[i])
  {
    if attrs != [] {
      DescribedAttributes(attrs[1..]);
      assert AttributeViews(attrs)[1..] == AttributeViews(attrs[1..]);
      assert AttributeDescs(attrs)[1..] == AttributeDescs(attrs[1..]);
    }
  }

  lemma {:induction false} DescribedMethods(metds: seq<Method>)
    ensures var r := S.DescribedMethods(MethodViews(metds), MethodDescs(metds));
            |r| == |metds| && forall i :: 0 <= i < |metds| ==> r[i] == FullMethod(metds[i])
  {
    if metds != [] {
      DescribedMethods(metds[1..]);
      assert MethodViews(metds)[1..] == MethodViews(metds[1..]);
      assert MethodDescs(metds)[1..] == MethodDescs(metds[1..]);
    }
  }

  // The object as EXPOSE leaves it.
  function Exposed(o: S.Object, w: W.Wrapper): S.Object {
    o.(attrs := AttributeViews(w.attributes), metds := MethodViews(w.methods))
  }

  // The object as DESC leaves it.
  function Documented(o: S.Object, w: W.Wrapper): (r: S.Object)
    requires o.attrs == AttributeViews(w.attributes) && o.metds == MethodViews(w.methods)
  {
    o.(attrs := S.Described(o.attrs, AttributeDescs(w.attributes)), metds := S.DescribedMethods(o.metds, MethodDescs(w.methods)))
  }

  lemma ExposeArrives(st: S.Stub, i: nat, o: S.Object, w: W.Wrapper, serverId: int)
    requires Reachable(st, i, o) && o.attrs == [] && o.metds == [] && Publishable(w.attributes, w.methods)
    ensures S.ProcessInput(st, ExposeMessage(serverId, o.id, w.attributes, w.methods))
         == Some(S.Processed(st.(modules := st.modules[i := Exposed(o, w)],
                                 callbacks := st.callbacks + [S.CreatedCallback(o.id)]),
                             MESG_PROCESSED_OK))
  {
    hide S.ProcessInput, S.ForModule, ParseExpose, Publishable;
    ExposeRoundTrip(w.attributes, w.methods, [MSG_END], 0);
    var m := ExposeMessage(serverId, o.id, w.attributes, w.methods);
    assert m[2..] == ExposeBody(w.attributes, w.methods) + [MSG_END];
    ModuleMessageIsDispatched(st, i, o, m);
    ExposeIsApplied(st, i, m);
    hide ExposeMessage, ExposeBody;
    assert [] + AttributeViews(w.attributes) == AttributeViews(w.attributes);
    assert [] + MethodViews(w.methods) == MethodViews(w.methods);
  }

  lemma ModuleMessageIsDispatched(st: S.Stub, i: nat, o: S.Object, m: seq<Byte>)
    requires Reachable(st, i, o) && |m| >= 2 && Masked(m[1]) == o.id
    requires m[0] / 16 == ATTR_METD_EXPOSE || m[0] / 16 == ATTR_METD_DESC
    ensures S.ProcessInput(st, m) == S.ForModule(st, i, m)
  {
    hide S.ForModule;
  }

  // A message for a module that is not there is ignored.
  lemma UnknownModule(st: S.Stub, message: seq<Byte>)
    requires |message| >= 2 && message[0] / 16 in [ATTR_METD_EXPOSE, ATTR_METD_RESP, ATTR_VALUE_UPDATE, ATTR_METD_DESC]
    requires S.PlaceOf(st.modules, Masked(message[1])) == |st.modules|
    ensures S.ProcessInput(st, message) == Some(S.Processed(st, MESG_PROCESSED_FAILED))
  {
  }

  lemma ExposeIsApplied(st: S.Stub, i: nat, m: seq<Byte>)
    requires i < |st.modules| && |m| >= 2 && m[0] / 16 == ATTR_METD_EXPOSE && ParseExpose(Cursor(m[2..], 0)).Some?
    ensures var (attrs, metds) := ParseExpose(Cursor(m[2..], 0)).value.0;
            S.ForModule(st, i, m)
            == Some(S.Processed(st.(modules := st.modules[i := S.OnExpose(st.modules[i], attrs, metds)],
                                    callbacks := st.callbacks + [S.CreatedCallback(st.modules[i].id)]),
                                MESG_PROCESSED_OK))
  {
    hide ParseExpose;
  }

  lemma DescIsApplied(st: S.Stub, i: nat, m: seq<Byte>)
    requires i < |st.modules| && |m| >= 2 && m[0] / 16 == ATTR_METD_DESC && ParseDesc(Cursor(m[2..], 0)).Some?
    requires var (attrDescs, metdDescs) := ParseDesc(Cursor(m[2..], 0)).value.0;
             |attrDescs| <= |st.modules[i].attrs| && |metdDescs| <= |st.modules[i].metds|
    ensures var (attrDescs, metdDescs) := ParseDesc(Cursor(m[2..], 0)).value.0;
            var o := st.modules[i];
            var o' := o.(attrs := S.Described(o.attrs, attrDescs), metds := S.DescribedMethods(o.metds, metdDescs));
            S.ForModule(st, i, m) == Some(S.Processed(st.(modules := st.modules[i := o']), MESG_PROCESSED_OK))
  {
    hide ParseDesc, S.Described, S.DescribedMethods;
  }

  lemma DescArrives(st: S.Stub, i: nat, o: S.Object, w: W.Wrapper, serverId: int)
    requires Reachable(st, i, o) && Publishable(w.attributes, w.methods)
    requires o.attrs == AttributeViews(w.attributes) && o.metds == MethodViews(w.methods)
    ensures S.ProcessInput(st, DescMessage(serverId, o.id, w.attributes, w.methods))
         == Some(S.Processed(st.(modules := st.modules[i := Documented(o, w)]), MESG_PROCESSED_OK))
  {
    hide S.ProcessInput, S.ForModule, ParseDesc, Publishable;
    DescRoundTrip(w.attributes, w.methods, [MSG_END], 0);
    var m := DescMessage(serverId, o.id, w.attributes, w.methods);
    assert m[2..] == DescBody(w.attributes, w.methods) + [MSG_END];
    ModuleMessageIsDispatched(st, i, o, m);
    DescIsApplied(st, i, m);
  }

  // The two messages a wrapper sends when it gets its id turn a fresh object into a mirror: every
  // name, type, flag, argument list, current value and description is at the place and under
  // the name where the wrapper has it.
  lemma InterfaceArrives(st: S.Stub, i: nat, o: S.Object, w: W.Wrapper, serverId: int)
    requires Reachable(st, i, o) && o.attrs == [] && o.metds == [] && Publishable(w.attributes, w.methods)
    requires |w.attributes| + |w.methods| <= MAX_STR_LENGTH && o.argEvalReversed == w.leftToRight
    ensures var r1 := S.ProcessInput(st, ExposeMessage(serverId, o.id, w.attributes, w.methods));
            r1.Some? &&
            var r2 := S.ProcessInput(r1.value.stub, DescMessage(serverId, o.id, w.attributes, w.methods));
            r2.Some? && i < |r2.value.stub.modules| &&
            var o' := r2.value.stub.modules[i];
            && Reachable(r2.value.stub, i, o') && o'.id == o.id && Mirrors(o', w)
            && (forall k :: 0 <= k < |w.attributes| ==> o'.attrs[k] == FullAttribute(w.attributes[k]))
            && (forall k :: 0 <= k < |w.methods| ==> o'.metds[k] == FullMethod(w.methods[k]))
  {
    ExposeArrives(st, i, o, w, serverId);
    var o1 := Exposed(o, w);
    var st1 := S.ProcessInput(st, ExposeMessage(serverId, o.id, w.attributes, w.methods)).value.stub;
    SameId(st.modules, i, o1);
    hide S.ProcessInput, ExposeMessage, DescMessage, Publishable, FullAttribute, FullMethod;
    DescArrives(st1, i, o1, w, serverId);
    DescribedAttributes(w.attributes);
    DescribedMethods(w.methods);
    SameId(st1.modules, i, Documented(o1, w));
    FullIsSame(Documented(o1, w), w);
  }

  lemma FullIsSame(o: S.Object, w: W.Wrapper)
    requires |o.attrs| == |w.attributes| && |o.metds| == |w.methods| && o.argEvalReversed == w.leftToRight
    requires |w.attributes| + |w.methods| <= MAX_STR_LENGTH
    requires forall k :: 0 <= k < |w.attributes| ==> o.attrs[k] == FullAttribute(w.attributes[k])
    requires forall k :: 0 <= k < |w.methods| ==> o.metds[k] == FullMethod(w.methods[k])
    ensures Mirrors(o, w)
  {
  }

  lemma {:induction false} SameId(os: seq<S.Object>, i: nat, o: S.Object)
    requires i < |os| && o.id == os[i].id && S.PlaceOf(os, o.id) == i
    ensures S.PlaceOf(os[i := o], o.id) == i
  {
    if i > 0 {
      SameId(os[1..], i - 1, o);
      assert os[i := o][1..] == os[1..][i - 1 := o];
    }
  }

  // What is published does not depend on the order in which the program registered it.
  lemma RegistrationOrderDoesNotMatter(w: W.Wrapper, w': W.Wrapper, serverId: int, id: int)
    requires W.Valid(w) && W.Valid(w')
    requires multiset(w.attributes) == multiset(w'.attributes) && multiset(w.methods) == multiset(w'.methods)
    ensures ExposeMessage(serverId, id, w.attributes, w.methods) == ExposeMessage(serverId, id, w'.attributes, w'.methods)
    ensures DescMessage(serverId, id, w.attributes, w.methods) == DescMessage(serverId, id, w'.attributes, w'.methods)
  {
    SortedUnique(W.AttributeName, w.attributes, w'.attributes);
    SortedUnique(W.MethodName, w.methods, w'.methods);
  }

  lemma PyCallMessage(o: S.Object, serverId: int, j: nat, values: seq<Value>)
    requires o.id >= 0 && j < |o.metds| && |values| == |o.metds[j].args| && S.ArgumentsFit(o.metds[j].args, values)
    ensures var data := S.PackArgs(S.AsDeclared(o.metds[j].args, values), o.argEvalReversed);
            S.PyCall(o, serverId, j, values).sent == [CallMessage(S.CallType(o), serverId, o.id, |o.attrs| + j, data)]
  {
    hide CallMessage, S.PackArgs;
  }

  // If an object were given its interface a second time, as an EXPOSE that follows another one
  // would do, calls would carry the right index only if the wrapper has no attributes at all.
  lemma SecondExposeShiftsMethods(o: S.Object, w: W.Wrapper, serverId: int, j: nat, values: seq<Value>)
    requires Mirrors(o, w) && 0 <= o.id < 256 && j < |w.methods| && Callable(w.methods[j], values)
    ensures var o' := S.OnExpose(o, AttributeViews(w.attributes), MethodViews(w.methods));
            S.PyCall(o', serverId, j, values).sent == S.PyCall(o, serverId, j, values).sent <==> w.attributes == []
  {
    hide S.PyCall, CallMessage, S.PackArgs, Typed;
    var o' := S.OnExpose(o, AttributeViews(w.attributes), MethodViews(w.methods));
    var n := |w.attributes|;
    assert |o'.attrs| == n + n;
    assert o'.metds[j] == o.metds[j] && SameMethod(o.metds[j], w.methods[j]);
    ArgumentsAccepted(w.methods[j], values);
    PyCallMessage(o, serverId, j, values);
    PyCallMessage(o', serverId, j, values);
    hide Mirrors, Callable;
    if n > 0 {
      DifferentIndices(S.CallType(o), serverId, o.id, n + j, n + n + j,
                       S.PackArgs(S.AsDeclared(w.methods[j].args, values), w.leftToRight));
    }
  }

  lemma DifferentIndices(msgType: MsgType, serverId: int, id: Byte, i: nat, j: nat, data: seq<Byte>)
    requires i < j && i <= MAX_STR_LENGTH
    ensures CallMessage(msgType, serverId, id, i, data) != CallMessage(msgType, serverId, id, j, data)
  {
    var a, b := CallMessage(msgType, serverId, id, i, data), CallMessage(msgType, serverId, id, j, data);
    assert a[6..] == PackInt(i) + (data + [MSG_END]) && b[6..] == PackInt(j) + (data + [MSG_END]);
    PackIntRoundTrip(i, data + [MSG_END], 0);
    PackIntRoundTrip(j, data + [MSG_END], 0);
    if j > MAX_STR_LENGTH {
      assert |a| > |b|;
    }
  }
}
