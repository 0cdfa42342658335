// What Python may do with the object of a module: which statements are refused, in which mode the
// others go out, and what the callbacks of a module's life are.
module StubRules {
  import opened Common
  import opened Names
  import opened Registry
  import opened Messages
  import S = StubModel
  import WrapperObject

  // ---------------------------------------------------------------- the mode

  function ModeType(noCallback: bool): MsgType {
    if noCallback then CALL_ATTR_METD_NOCB else CALL_ATTR_METD
  }

  lemma CallHeader(msgType: MsgType, serverId: int, id: int, index: int, data: seq<Byte>)
    ensures var m := CallMessage(msgType, serverId, id, index, data);
            |m| > 2 && m[0] / 16 == msgType && m[1] == id % 256
  {
    hide CallBody;
  }

  // ---------------------------------------------------------------- setting

  // The first attribute of this name.
  predicate FirstNamed(o: S.Object, k: nat, name: Str) {
    k < |o.attrs| && o.attrs[k].name == name && forall h :: 0 <= h < k ==> o.attrs[h].name != name
  }

  predicate HasMethod(o: S.Object, name: Str) {
    exists j :: 0 <= j < |o.metds| && o.metds[j].name == name
  }

  ghost predicate HasAttribute(o: S.Object, name: Str) {
    exists k: nat :: FirstNamed(o, k, name)
  }

  // An assignment that raises an exception.
  ghost predicate Refused(o: S.Object, name: Str, value: Value) {
    || (name == S.Text("__nocallback__") && !value.BoolVal?)
    || name == S.Text("__name__") || name == S.Text("id")
    || (name == S.Text("__doc__") && !value.StrVal?)
    || (name != S.Text("__doc__") &&
        if HasAttribute(o, name) then
          exists k: nat :: FirstNamed(o, k, name) && (o.attrs[k].readOnly || !Suits(value, o.attrs[k].t))
        else HasMethod(o, name))
  }

  lemma FoundFirst(o: S.Object, name: Str)
    ensures var k := IndexOf(S.StubAttributeName, o.attrs, name);
            && (k < |o.attrs| ==> FirstNamed(o, k, name)) && (k == |o.attrs| ==> !HasAttribute(o, name))
            && forall h: nat :: FirstNamed(o, h, name) ==> h == k
    ensures IndexOf(S.StubMethodName, o.metds, name) < |o.metds| <==> HasMethod(o, name)
  {
  }

  // The object after an assignment that is not refused.
  ghost predicate SetTo(o: S.Object, name: Str, value: Value, o': S.Object) {
    && o'.id == o.id && o'.name == o.name && o'.argEvalReversed == o.argEvalReversed && o'.metds == o.metds
    && o'.noCallback == (if name == S.Text("__nocallback__") && value.BoolVal? then value.b else o.noCallback)
    && o'.desc == (if name == S.Text("__doc__") && value.StrVal? then value.s else o.desc)
    && |o'.attrs| == |o.attrs|
    && forall k :: 0 <= k < |o.attrs| ==>
         o'.attrs[k] == if o'.noCallback && name != S.Text("__doc__") && FirstNamed(o, k, name)
                        then o.attrs[k].(value := value) else o.attrs[k]
  }

  lemma WhenRefused(o: S.Object, serverId: int, name: Str, value: Value)
    ensures S.SetAttribute(o, serverId, name, value).ok <==> !Refused(o, name, value)
  {
    hide CallMessage, PackAs, ValidatedSize, S.Text, HasMethod, Suits;
    FoundFirst(o, name);
    Reserved();
    var k := IndexOf(S.StubAttributeName, o.attrs, name);
    if k < |o.attrs| {
      ValidatedSizeExact(value, o.attrs[k].t);
    }
  }

  lemma WhenSent(o: S.Object, serverId: int, name: Str, value: Value)
    ensures var a := S.SetAttribute(o, serverId, name, value);
            a.sent != [] <==> a.ok && o.id >= 0 && name != S.Text("__doc__") && HasAttribute(o, name)
  {
    hide CallMessage, PackAs, ValidatedSize, S.Text, HasMethod, Suits;
    FoundFirst(o, name);
    Reserved();
  }

  lemma WhatIsSet(o: S.Object, serverId: int, name: Str, value: Value)
    requires S.SetAttribute(o, serverId, name, value).ok
    ensures SetTo(o, name, value, S.SetAttribute(o, serverId, name, value).obj)
  {
    hide S.SetRemote, S.Text, HasMethod, Suits, HasAttribute, FirstNamed;
    FoundFirst(o, name);
    Reserved();
    var k := IndexOf(S.StubAttributeName, o.attrs, name);
    var o1 := if name == S.NOCALLBACK then o.(noCallback := value.b) else o;
    if name != S.DOC && k < |o.attrs| {
      RemoteObject(o1, serverId, k, value);
    }
  }

  lemma RemoteObject(o: S.Object, serverId: int, k: nat, value: Value)
    requires k < |o.attrs| && S.SetRemote(o, serverId, k, value).ok
    ensures S.SetRemote(o, serverId, k, value).obj
         == if o.noCallback then o.(attrs := o.attrs[k := o.attrs[k].(value := value)]) else o
  {
    hide CallMessage, PackAs, ValidatedSize;
  }

  // An assignment raises an exception exactly for the names and values that are not to be set.
  // Otherwise it goes out if the name is an attribute's.
  lemma SetIsRefused(o: S.Object, serverId: int, name: Str, value: Value)
    ensures var a := S.SetAttribute(o, serverId, name, value);
            && (!a.ok <==> Refused(o, name, value))
            && (a.ok ==> SetTo(o, name, value, a.obj))
            && (a.sent != [] <==> a.ok && o.id >= 0 && name != S.Text("__doc__") && HasAttribute(o, name))
  {
    hide S.SetAttribute, Refused, SetTo, HasAttribute;
    WhenRefused(o, serverId, name, value);
    WhenSent(o, serverId, name, value);
    if S.SetAttribute(o, serverId, name, value).ok {
      WhatIsSet(o, serverId, name, value);
    }
  }

  // The reserved names are different ones.
  lemma Reserved()
    ensures S.NOCALLBACK == S.Text("__nocallback__") && S.NAME == S.Text("__name__") && S.ID == S.Text("id")
    ensures S.DOC == S.Text("__doc__")
    ensures S.NOCALLBACK != S.DOC && S.NOCALLBACK != S.NAME && S.NOCALLBACK != S.ID && S.DOC != S.NAME && S.DOC != S.ID
  {
    assert |S.NOCALLBACK| == 14 && |S.NAME| == 8 && |S.ID| == 2 && |S.DOC| == 7;
  }

  // What goes out is one message with the attribute's place and value, in the object's mode.
  lemma SetGoesOutInMode(o: S.Object, serverId: int, name: Str, value: Value, k: nat)
    requires FirstNamed(o, k, name) && S.SetAttribute(o, serverId, name, value).sent != []
    ensures var a := S.SetAttribute(o, serverId, name, value);
            a.sent == [CallMessage(ModeType(a.obj.noCallback), serverId, o.id, k, PackAs(value, o.attrs[k].t))]
  {
    hide CallMessage, PackAs, ValidatedSize;
    FoundFirst(o, name);
    Reserved();
  }

  // Switching the mode puts the object in exactly this mode, whatever it was in before: what is
  // set or called next goes out with the message type of this mode.
  lemma SwitchedMode(o: S.Object, serverId: int, on: bool, name: Str, value: Value, j: nat, values: seq<Value>)
    ensures var o1 := S.SetAttribute(o, serverId, S.Text("__nocallback__"), BoolVal(on)).obj;
            && o1.noCallback == on
            && (name != S.Text("__nocallback__") ==>
                  forall m :: m in S.SetAttribute(o1, serverId, name, value).sent ==>
                    m != [] && m[0] / 16 == ModeType(on))
            && (j < |o1.metds| ==>
                  forall m :: m in S.PyCall(o1, serverId, j, values).sent ==> m != [] && m[0] / 16 == ModeType(on))
  {
    hide CallMessage, S.SetAttribute, S.PyCall, PackAs, S.PackArgs;
    SwitchedOnly(o, serverId, on);
    var o1 := S.SetAttribute(o, serverId, S.Text("__nocallback__"), BoolVal(on)).obj;
    if name != S.Text("__nocallback__") {
      SentInMode(o1, serverId, name, value);
    }
    if j < |o1.metds| {
      CalledInMode(o1, serverId, j, values);
    }
  }

  lemma SwitchedOnly(o: S.Object, serverId: int, on: bool)
    ensures S.SetAttribute(o, serverId, S.Text("__nocallback__"), BoolVal(on)).obj.noCallback == on
  {
    hide CallMessage, PackAs, ValidatedSize;
    Reserved();
  }

  lemma SentInMode(o: S.Object, serverId: int, name: Str, value: Value)
    requires name != S.Text("__nocallback__")
    ensures forall m :: m in S.SetAttribute(o, serverId, name, value).sent ==>
              m != [] && m[0] / 16 == ModeType(o.noCallback)
  {
    hide CallMessage, PackAs, ValidatedSize;
    Reserved();
    var k := IndexOf(S.StubAttributeName, o.attrs, name);
    if k < |o.attrs| {
      CallHeader(S.CallType(o), serverId, o.id, k, PackAs(value, o.attrs[k].t));
    }
  }

  lemma CalledInMode(o: S.Object, serverId: int, j: nat, values: seq<Value>)
    requires j < |o.metds|
    ensures forall m :: m in S.PyCall(o, serverId, j, values).sent ==> m != [] && m[0] / 16 == ModeType(o.noCallback)
  {
    hide CallMessage, S.PackArgs, S.OptionalCount;
    var m := o.metds[j];
    if |values| <= |m.args| {
      CallHeader(S.CallType(o), serverId, o.id, |o.attrs| + j,
                 S.PackArgs(S.AsDeclared(m.args, values), o.argEvalReversed));
    }
  }

  // ---------------------------------------------------------------- calling

  // The places of the arguments that a call cannot leave out.
  function Needed(args: seq<Argument>): set<int> {
    set i | 0 <= i < |args| && !args[i].optional
  }

  lemma {:induction false} OptionalLast(args: seq<Argument>)
    requires args != []
    ensures var n := |args| - 1;
            S.OptionalCount(args) == S.OptionalCount(args[..n]) + if args[n].optional then 1 else 0
  {
    var n := |args| - 1;
    if n > 0 {
      OptionalLast(args[1..]);
      assert args[..n][1..] == args[1..][..n - 1] && args[1..][n - 1] == args[n];
    } else {
      assert args[1..] == [] && args[..n] == [];
    }
  }

  lemma {:induction false} NeededCount(args: seq<Argument>)
    ensures |Needed(args)| == |args| - S.OptionalCount(args)
  {
    if args == [] {
      assert Needed(args) == {};
    } else {
      hide S.OptionalCount;
      var n := |args| - 1;
      OptionalLast(args);
      NeededCount(args[..n]);
      assert Needed(args) == Needed(args[..n]) + if args[n].optional then {} else {n};
    }
  }

  // A call that raises an exception: too few values, too many, or one of the wrong type.
  ghost predicate CallRefused(args: seq<Argument>, values: seq<Value>) {
    || |values| < |Needed(args)| || |values| > |args|
    || exists i :: 0 <= i < |values| && !Suits(values[i], args[i].t)
  }

  // It sends nothing; any other call sends one message, in the mode of the object.
  lemma CallIsRefused(o: S.Object, serverId: int, j: nat, values: seq<Value>)
    requires j < |o.metds|
    ensures var a, args := S.PyCall(o, serverId, j, values), o.metds[j].args;
            && a.obj == o && (!a.ok <==> CallRefused(args, values))
            && (!a.ok ==> a.sent == [])
            && (a.ok ==> |values| <= |args| && a.sent == if o.id < 0 then []
                 else [CallMessage(ModeType(o.noCallback), serverId, o.id, |o.attrs| + j,
                                   S.PackArgs(S.AsDeclared(args, values), o.argEvalReversed))])
  {
    hide CallMessage, S.PackArgs, S.OptionalCount, Needed;
    var args := o.metds[j].args;
    NeededCount(args);
    if |values| <= |args| {
      forall i | 0 <= i < |values|
        ensures HasType(Coerced(values[i], args[i].t), args[i].t) <==> Suits(values[i], args[i].t)
      {
        ValidatedSizeExact(values[i], args[i].t);
      }
    }
  }

  predicate NoneOptional(args: seq<Argument>) {
    forall i :: 0 <= i < |args| ==> !args[i].optional
  }

  lemma {:induction false} AllNeeded(args: seq<Argument>)
    requires NoneOptional(args)
    ensures |Needed(args)| == |args|
  {
    if args == [] {
      assert Needed(args) == {};
    } else {
      var n := |args| - 1;
      AllNeeded(args[..n]);
      assert Needed(args) == Needed(args[..n]) + {n};
    }
  }

  // A method without optional arguments, as every exported one is, is called with exactly as many
  // values as it has parameters, or not at all.
  lemma ExportedNeedsAll(o: S.Object, serverId: int, j: nat, params: seq<Type>, values: seq<Value>)
    requires j < |o.metds| && o.metds[j].args == WrapperObject.PlainArguments(params)
    ensures S.PyCall(o, serverId, j, values).ok
       <==> |values| == |params| && forall i :: 0 <= i < |values| ==> Suits(values[i], params[i])
  {
    hide S.PyCall;
    AllNeeded(o.metds[j].args);
    CallIsRefused(o, serverId, j, values);
  }

  // The same of any such method: what goes out has all arguments.
  lemma SentIsComplete(o: S.Object, serverId: int, j: nat, values: seq<Value>)
    requires j < |o.metds| && (NoneOptional(o.metds[j].args) || |values| == |o.metds[j].args|)
    requires S.PyCall(o, serverId, j, values).sent != []
    ensures |values| == |o.metds[j].args|
  {
    hide S.PyCall;
    if NoneOptional(o.metds[j].args) {
      AllNeeded(o.metds[j].args);
      CallIsRefused(o, serverId, j, values);
    }
  }

  // A name that is called is a method's if it is neither reserved nor an attribute's; the first
  // method of that name is meant.
  lemma NamesAMethod(o: S.Object, name: Str)
    ensures S.MethodNamed(o, name).Some?
       <==> && name != S.Text("__doc__") && name != S.Text("__nocallback__") && name != S.Text("__dict__")
            && !HasAttribute(o, name) && HasMethod(o, name)
    ensures S.MethodNamed(o, name).Some? ==>
              var j := S.MethodNamed(o, name).value;
              j < |o.metds| && o.metds[j].name == name && forall h :: 0 <= h < j ==> o.metds[h].name != name
  {
    hide S.Text;
    FoundFirst(o, name);
    Reserved();
    assert S.DICT == S.Text("__dict__");
  }

  // ---------------------------------------------------------------- what a module's life is told by

  // A new module is listed last, in callback mode and without an interface, and its id is sent.
  lemma NewModuleIsEmpty(st: S.Stub, name: Str, desc: Str, option: Byte)
    requires name != [] && st.nextObjId <= 255
    ensures var st' := S.AddNewModule(st, name, desc, option);
            && |st'.modules| == |st.modules| + 1 && st'.modules[..|st.modules|] == st.modules
            && st'.nextObjId == st.nextObjId + 1 && st'.callbacks == st.callbacks
            && st'.sent == st.sent + [AssignMessage(st.serverId, st.nextObjId, name)]
    ensures var o := S.AddNewModule(st, name, desc, option).modules[|st.modules|];
            && o.id == st.nextObjId && o.name == name && !o.noCallback && o.attrs == [] && o.metds == []
            && (o.argEvalReversed <==> option == 1)
            && o.desc == if desc == [] then S.Text("Undocumented PyConnect object") else desc
  {
    hide AssignMessage, S.Text;
  }

  // A module that gets its interface, one that is shut down from either side, and a message from
  // another interpreter each lead to one callback.
  lemma InterfaceIsTold(st: S.Stub, message: seq<Byte>)
    requires |message| >= 2 && message[0] / 16 == ATTR_METD_EXPOSE && S.ProcessInput(st, message).Some?
    requires S.PlaceOf(st.modules, Masked(message[1])) < |st.modules|
    ensures var id, r := Masked(message[1]), S.ProcessInput(st, message).value;
            r.stub.callbacks == st.callbacks + [S.Callback(S.Text("onModuleCreated"), IntVal(id))]
  {
    hide ParseExpose, S.OnExpose;
  }

  lemma ShutdownIsTold(st: S.Stub, message: seq<Byte>)
    requires |message| >= 2 && message[0] / 16 == MODULE_SHUTDOWN
    requires S.PlaceOf(st.modules, Masked(message[1])) < |st.modules|
    ensures var i := S.PlaceOf(st.modules, Masked(message[1]));
            S.ProcessInput(st, message)
            == Some(S.Processed(st.(modules := st.modules[..i] + st.modules[i + 1..],
                                    callbacks := st.callbacks
                                      + [S.Callback(S.Text("onModuleDestroyed"), StrVal(st.modules[i].name))]),
                                MESG_TO_SHUTDOWN))
  {
  }

  lemma DisconnectIsTold(st: S.Stub, i: nat)
    requires i < |st.modules|
    ensures S.ShutdownModule(st, i).callbacks
         == st.callbacks + [S.Callback(S.Text("onModuleDestroyed"), StrVal(st.modules[i].name))]
    ensures S.ShutdownModule(st, i).modules == st.modules[..i] + st.modules[i + 1..]
  {
  }

  lemma PeerIsTold(st: S.Stub, serverId: int, text: Str)
    requires LongText(text)
    ensures S.ProcessInput(st, [Header(PEER_SERVER_MSG, serverId)] + PackLongString(text) + [MSG_END])
         == Some(S.Processed(st.(callbacks := st.callbacks + [S.Callback(S.Text("onPeerMessage"), StrVal(text))]),
                             MESG_PROCESSED_OK))
  {
    hide PackLongString, UnpackLongString, LongText;
    var message := [Header(PEER_SERVER_MSG, serverId)] + PackLongString(text) + [MSG_END];
    assert message[1..] == PackLongString(text) + [MSG_END];
    LongStringRoundTrip(text, [MSG_END], 0);
  }
}
