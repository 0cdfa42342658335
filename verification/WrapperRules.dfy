// What a wrapper answers to a request for a value or a description, what it makes of arguments that
// are missing, and what it does when the connection to a stub closes.
module WrapperRules {
  import opened Common
  import opened OrderedMap
  import opened Names
  import opened Messages
  import opened Calls
  import opened Refinement
  import opened Routing
  import W = WrapperModel

  function Response(serverId: int, id: Byte, err: Byte, index: nat, data: seq<Byte>): W.Dispatched {
    W.Dispatched(RespMessage(ATTR_METD_RESP, serverId, id, err, index, data), false)
  }

  // ---------------------------------------------------------------- requests

  // A stub that asks for the value of an attribute gets it; for any other index it gets nothing.
  lemma ValueIsAnswered(w: W.Wrapper, s: int, id: Byte, index: nat, b: W.Behaviour)
    requires W.Valid(w) && 0 <= s < 16 && index <= MAX_STR_LENGTH
    requires Lookup(w.serverMap, s).Some? && Lookup(w.serverMap, s).value.assignedModuleID == id
    ensures W.ProcessInput(w, CallMessage(ATTR_VALUE_UPDATE, s, id, index, []), b)
         == Some(W.Processed(
              w.(sent := w.sent + if index < |w.attributes|
                                  then [Response(s, id, 0, index, PackValue(w.attributes[index].value))] else []),
              MESG_PROCESSED_OK))
  {
    hide CallMessage, ParseIndex, RespMessage, PackValue, W.Valid;
    CallArrives(ATTR_VALUE_UPDATE, s, id, index, []);
    if index < |w.attributes| {
      ValidFound(w, index);
    }
    assert w.sent + [] == w.sent;
  }

  lemma ValidFound(w: W.Wrapper, i: nat)
    requires W.Valid(w) && i < |w.attributes|
    ensures W.ValidateAttribute(w, i, w.attributes[i].name) == NO_ERRORS
  {
    FoundAt(W.AttributeName, w.attributes, i);
  }

  // A stub that asks for a description gets that of the attribute or method at the index. The
  // answer for a method has its index among the methods.
  lemma DescriptionIsAnswered(w: W.Wrapper, s: int, id: Byte, index: nat, b: W.Behaviour)
    requires 0 <= s < 16 && index <= MAX_STR_LENGTH
    requires Lookup(w.serverMap, s).Some? && Lookup(w.serverMap, s).value.assignedModuleID == id
    ensures var request, n := [Header(W.GET_ATTR_METD_DESC, s), id] + PackInt(index) + [MSG_END], |w.attributes|;
            var r := W.ProcessInput(w, request, b);
            && (index < n ==>
                  r == Some(W.Processed(w.(sent := w.sent + [Response(s, id, 0, index, w.attributes[index].desc)]),
                                        MESG_PROCESSED_OK)))
            && (n <= index < n + |w.methods| ==>
                  r == Some(W.Processed(w.(sent := w.sent + [Response(s, id, 0, index - n, w.methods[index - n].desc)]),
                                        MESG_PROCESSED_OK)))
            && (index >= n + |w.methods| ==> r == None)
  {
    hide PackInt, UnpackInt, RespMessage;
    var request := [Header(W.GET_ATTR_METD_DESC, s), id] + PackInt(index) + [MSG_END];
    assert request[2..] == PackInt(index) + [MSG_END];
    PackIntRoundTrip(index, [MSG_END], 1);
  }

  // ---------------------------------------------------------------- updates

  predicate Numbered(servers: seq<Entry<W.ServerInfo>>) {
    forall e :: e in servers ==> 0 <= e.key < 16
  }

  // An update goes out once to every stub that wants updates, with the id it assigned, and to no
  // other stub.
  lemma {:induction false} UpdatesGoToListeners(servers: seq<Entry<W.ServerInfo>>, index: nat, value: Value, s: int)
    requires Ascending(servers) && Numbered(servers)
    ensures For(W.Updates(servers, index, value), s)
         == match Lookup(servers, s)
            case None => []
            case Some(info) =>
              if info.attributeUpdate
              then [RespMessage(ATTR_VALUE_UPDATE, s, info.assignedModuleID, NO_ERRORS, index, PackValue(value))]
              else []
  {
    hide RespMessage;
    if servers != [] {
      var e := servers[0];
      assert e in servers;
      UpdatesGoToListeners(servers[1..], index, value, s);
      RespIsFor(ATTR_VALUE_UPDATE, e.key, e.value.assignedModuleID, NO_ERRORS, index, PackValue(value));
      assert e.value.attributeUpdate ==> W.Updates(servers, index, value)[1..] == W.Updates(servers[1..], index, value);
      assert !e.value.attributeUpdate ==> W.Updates(servers, index, value) == W.Updates(servers[1..], index, value);
      if s == e.key {
        NotBefore(servers[1..], s);
      }
    }
  }

  // ---------------------------------------------------------------- missing arguments

  // Once a bool is due and no byte is left to count, this argument and all that are evaluated after
  // it are zero, and nothing more is read.
  lemma {:induction false} MissingFromHere(types: seq<Type>, leftToRight: bool, c: Cursor)
    requires types != [] && c.remaining < 1 && types[if leftToRight then 0 else |types| - 1] == BOOL
    ensures var p := W.DecodeArgs(types, leftToRight, c);
            && p.Some? && p.value.1 == c && |p.value.0| == |types|
            && forall i :: 0 <= i < |types| && types[i] != COMPOSITE && types[i] != VOID ==>
                 && HasType(p.value.0[i], types[i])
                 && forall b :: b in PackValue(p.value.0[i]) ==> b == 0
  {
    hide PackValue, HasType;
    forall i | 0 <= i < |types| && types[i] != COMPOSITE && types[i] != VOID
      ensures HasType(W.ZeroOf(types[i]), types[i]) && forall b :: b in PackValue(W.ZeroOf(types[i])) ==> b == 0
    {
      ZeroIsZero(types[i]);
    }
  }

  // A zero of the type, in all its bytes.
  lemma ZeroIsZero(t: Type)
    ensures t != COMPOSITE && t != VOID ==> HasType(W.ZeroOf(t), t)
    ensures forall b :: b in PackValue(W.ZeroOf(t)) ==> b == 0
  {
  }

  // ---------------------------------------------------------------- a closed connection

  // The notice that a closed connection leads to makes a wrapper forget the stub that was routed
  // there, and no other one.
  lemma ClosingForgetsTheStub(w: W.Wrapper, c: Comm, fd: int, b: W.Behaviour, s: int)
    requires Ascending(w.serverMap) && FirstWith(c.routes, fd).Some? && 0 <= FirstWith(c.routes, fd).value < 16
    ensures var r, gone := W.ProcessInput(w, ShutdownNotice(c, false, fd), b), FirstWith(c.routes, fd).value;
            && r.Some? && r.value.verdict == MESG_TO_SHUTDOWN
            && r.value.wrapper == w.(serverMap := r.value.wrapper.serverMap)
            && Lookup(r.value.wrapper.serverMap, s) == if s == gone then None else Lookup(w.serverMap, s)
  {
    RemoveClears(w.serverMap, FirstWith(c.routes, fd).value, s);
  }
}
