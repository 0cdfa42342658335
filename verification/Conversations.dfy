// Whole conversations: what one Python statement brings about at both ends, there and back.
module Conversations {
  import opened Common
  import opened OrderedMap
  import opened Names
  import opened Messages
  import opened Calls
  import opened Refinement
  import W = WrapperModel
  import S = StubModel

  // The two ends of one module: the object at place i of the stub mirrors the wrapper.
  ghost predicate Connected(st: S.Stub, i: nat, w: W.Wrapper) {
    && i < |st.modules| && Reachable(st, i, st.modules[i])
    && Mirrors(st.modules[i], w) && W.Valid(w) && Paired(st.modules[i], w, st.serverId)
    && Listening(w.serverMap)
  }

  // ---------------------------------------------------------------- setting

  // The wrapper once an attribute has been set and announced.
  function Assigned(w: W.Wrapper, k: nat, value: Value): W.Wrapper
    requires k < |w.attributes|
  {
    w.(attributes := w.attributes[k := w.attributes[k].(value := value)], sent := w.sent + W.Updates(w.serverMap, k, value))
  }

  // The stub once the update of an attribute has arrived.
  function Updated(st: S.Stub, i: nat, k: nat, value: Value): S.Stub
    requires i < |st.modules| && k < |st.modules[i].attrs|
  {
    var o := st.modules[i];
    var a := o.attrs[k];
    st.(modules := st.modules[i := o.(attrs := o.attrs[k := a.(value := value)])],
        callbacks := st.callbacks + [S.Callback(S.Text("on") + a.name + S.Text("Update"), value)])
  }

  // A request that sets attribute k of the wrapper, in callback mode, and what it brings about:
  // the wrapper takes the value over and sends this stub one answer, after which the mirror
  // shows the wrapper's new value and the update callback has been called.
  ghost predicate SetExchange(st: S.Stub, i: nat, w: W.Wrapper, k: nat, value: Value, b: W.Behaviour,
                              request: seq<Byte>, answer: seq<Byte>)
    requires i < |st.modules| && k < |st.modules[i].attrs| && k < |w.attributes|
  {
    && W.ProcessInput(w, request, b) == Some(W.Processed(Assigned(w, k, value), MESG_PROCESSED_OK))
    && For(W.Updates(w.serverMap, k, value), st.serverId) == [answer]
    && S.ProcessInput(st, answer) == Some(S.Processed(Updated(st, i, k, value), MESG_PROCESSED_OK))
  }

  // Setting an attribute by its name in callback mode is such an exchange.
  lemma SetComesBack(st: S.Stub, i: nat, w: W.Wrapper, name: Str, k: nat, value: Value, b: W.Behaviour)
    returns (request: seq<Byte>, answer: seq<Byte>)
    requires Connected(st, i, w) && !st.modules[i].noCallback && !Reserved(name)
    requires k < |w.attributes| && w.attributes[k].name == name && w.attributes[k].writable
    requires Suits(value, w.attributes[k].t) && Wireable(Arrival(value, w.attributes[k].t))
    ensures S.SetAttribute(st.modules[i], st.serverId, name, value) == S.Attempt(st.modules[i], [request], true)
    ensures k < |st.modules[i].attrs| && st.modules[i].attrs[k].name == name
    ensures SetExchange(st, i, w, k, Arrival(value, w.attributes[k].t), b, request, answer)
    ensures HasType(value, w.attributes[k].t) && Wireable(value) ==> SetExchange(st, i, w, k, value, b, request, answer)
  {
    ArrivesAsGiven(value, w.attributes[k].t);
    var o, s, v := st.modules[i], st.serverId, Arrival(value, w.attributes[k].t);
    assert k < |o.attrs| && SameAttribute(o.attrs[k], w.attributes[k]);
    hide S.SetAttribute, S.ProcessInput, W.ProcessInput, W.Updates, RespMessage, Mirrors, W.Valid;
    SetByName(o, w, s, name, k, value, b);
    SetLeavesObject(o, w, s, name, k, value);
    request := S.SetAttribute(o, s, name, value).sent[0];
    answer := RespMessage(ATTR_VALUE_UPDATE, s, o.id, NO_ERRORS, k, PackValue(v));
    AnnouncedTo(w, s, o.id, k, v);
    UpdateReachesTheAttribute(st, i, o, w, s, k, v);
  }

  lemma AnnouncedTo(w: W.Wrapper, s: int, id: Byte, k: nat, v: Value)
    requires W.Valid(w) && Listening(w.serverMap)
    requires Lookup(w.serverMap, s).Some? && Lookup(w.serverMap, s).value.assignedModuleID == id
    ensures For(W.Updates(w.serverMap, k, v), s) == [RespMessage(ATTR_VALUE_UPDATE, s, id, NO_ERRORS, k, PackValue(v))]
  {
    hide RespMessage, PackValue;
    UpdatesFor(w.serverMap, k, v, s);
  }

  lemma SetLeavesObject(o: S.Object, w: W.Wrapper, s: int, name: Str, k: nat, value: Value)
    requires Mirrors(o, w) && W.Valid(w) && !Reserved(name) && !o.noCallback
    requires k < |w.attributes| && w.attributes[k].name == name
    ensures S.SetAttribute(o, s, name, value).obj == o
  {
    SamePlace(o, w, name, k);
    hide W.Valid, PackAs, CallMessage;
  }

  // ---------------------------------------------------------------- calling

  // The wrapper once a method has been called and answered.
  function Called(w: W.Wrapper, call: W.Call, reply: seq<Byte>): W.Wrapper {
    w.(calls := w.calls + [call], sent := w.sent + [W.Dispatched(reply, false)])
  }

  // The stub once the reply of a method has arrived.
  function Completed(st: S.Stub, name: Str, result: Value): S.Stub {
    st.(callbacks := st.callbacks + [S.Callback(S.Text("on") + name + S.Text("Completed"), result)])
  }

  // A request that calls method j of the wrapper, in callback mode, and what it brings about: the
  // wrapper calls the C++ member once, with exactly these arguments, and sends one reply, which
  // calls the completion callback of this method with the result.
  ghost predicate CallExchange(st: S.Stub, w: W.Wrapper, j: nat, args: seq<Value>, v: Value,
                               request: seq<Byte>, reply: seq<Byte>)
    requires j < |w.methods|
  {
    var m := w.methods[j];
    && W.ProcessInput(w, request, W.Returned(v)) == Some(W.Processed(Called(w, W.Call(m.name, args), reply), MESG_PROCESSED_OK))
    && S.ProcessInput(st, reply) == Some(S.Processed(Completed(st, m.name, Result(m, v)), MESG_PROCESSED_OK))
  }

  // Calling a method by its name in callback mode is such an exchange.
  lemma CallComesBack(st: S.Stub, i: nat, w: W.Wrapper, name: Str, j: nat, values: seq<Value>, v: Value)
    returns (request: seq<Byte>, reply: seq<Byte>)
    requires Connected(st, i, w) && !st.modules[i].noCallback && name !in [S.DOC, S.NOCALLBACK, S.DICT]
    requires j < |w.methods| && w.methods[j].name == name && |w.methods[j].args| <= 15
    requires IndexOf(W.AttributeName, w.attributes, name) == |w.attributes|
    requires Callable(w.methods[j], values) && Returns(w.methods[j], Result(w.methods[j], v))
    ensures S.MethodNamed(st.modules[i], name) == Some(j)
    ensures S.PyCall(st.modules[i], st.serverId, j, values) == S.Attempt(st.modules[i], [request], true)
    ensures CallExchange(st, w, j, ArrivalAll(w.methods[j], values), v, request, reply)
    ensures Typed(W.ArgTypes(w.methods[j]), values) ==> CallExchange(st, w, j, values, v, request, reply)
  {
    assert j < |st.modules[i].metds|;
    hide S.PyCall, S.MethodNamed, S.ProcessInput, W.ProcessInput, W.Replies, RespMessage, Mirrors, W.Valid, PackValue,
         Typed, Callable, Returns, ArrivalAll, Result;
    if Typed(W.ArgTypes(w.methods[j]), values) {
      AllArriveAsGiven(w.methods[j], values);
    }
    var o, s, m := st.modules[i], st.serverId, w.methods[j];
    CallByName(o, w, s, name, j, values, W.Returned(v));
    OneReplyOnly(o.id, m, |w.attributes| + j, s, v);
    ReplyReturnsToTheMethod(st, i, o, w, s, j, Result(m, v));
    request := S.PyCall(o, s, j, values).sent[0];
    reply := RespMessage(ATTR_METD_RESP, s, o.id, NO_ERRORS, |w.attributes| + j, PackValue(Result(m, v)));
  }

  lemma OneReplyOnly(id: int, m: Method, index: int, s: int, v: Value)
    ensures W.Replies(id, m, index, s, false, W.Returned(v))
         == [W.Dispatched(RespMessage(ATTR_METD_RESP, s, id, NO_ERRORS, index, PackValue(Result(m, v))), false)]
  {
    hide RespMessage;
  }

  // ---------------------------------------------------------------- calling a method that throws

  // The stub once the report of an exception has arrived.
  function Reported(st: S.Stub, name: Str): S.Stub {
    st.(callbacks := st.callbacks + [S.Callback(S.Text("on") + name + S.Text("Failed"), IntVal(10))])
  }

  // What a void method that threw leads to: the report, and then the success.
  function Failing(st: S.Stub, m: Method): S.Stub {
    if m.retType == VOID then Completed(Reported(st, m.name), m.name, NoneVal) else Reported(st, m.name)
  }

  // The stub takes these messages, one after the other.
  ghost predicate TakesAll(st: S.Stub, messages: seq<seq<Byte>>, st': S.Stub)
    decreases |messages|
  {
    if messages == [] then st' == st
    else
      var r := S.ProcessInput(st, messages[0]);
      r.Some? && r.value.verdict == MESG_PROCESSED_OK && TakesAll(r.value.stub, messages[1..], st')
  }

  // A request that calls method j of the wrapper, and the answers it brings about: the wrapper
  // calls the C++ member once, with exactly these arguments, and the answers take the stub to st'.
  ghost predicate Exchange(st: S.Stub, w: W.Wrapper, call: W.Call, b: W.Behaviour, request: seq<Byte>,
                           answers: seq<seq<Byte>>, st': S.Stub)
  {
    && W.ProcessInput(w, request, b)
       == Some(W.Processed(w.(calls := w.calls + [call], sent := w.sent + AllDirect(answers)), MESG_PROCESSED_OK))
    && TakesAll(st, answers, st')
  }

  // The stub once it has taken them.
  function Answered(st: S.Stub, m: Method, silent: bool, b: W.Behaviour): S.Stub {
    if b.Returned? then if silent then st else Completed(st, m.name, Result(m, b.value))
    else if silent then Reported(st, m.name)
    else Failing(st, m)
  }

  lemma ReportIsTaken(st: S.Stub, i: nat, w: W.Wrapper, s: int, j: nat)
    requires i < |st.modules| && Reachable(st, i, st.modules[i]) && Mirrors(st.modules[i], w) && j < |w.methods|
    ensures var report := RespMessage(ATTR_METD_RESP, s, st.modules[i].id, 10, |w.attributes| + j, []);
            S.ProcessInput(st, report) == Some(S.Processed(Reported(st, w.methods[j].name), MESG_PROCESSED_OK))
  {
    hide S.ProcessInput, Mirrors;
    ExceptionReturnsToTheMethod(st, i, st.modules[i], w, s, j);
  }

  lemma ResultIsTaken(st: S.Stub, i: nat, w: W.Wrapper, s: int, j: nat, result: Value)
    requires i < |st.modules| && Reachable(st, i, st.modules[i]) && Mirrors(st.modules[i], w) && j < |w.methods|
    requires Returns(w.methods[j], result)
    ensures var reply := RespMessage(ATTR_METD_RESP, s, st.modules[i].id, 0, |w.attributes| + j, PackValue(result));
            S.ProcessInput(st, reply)
            == Some(S.Processed(Completed(st, w.methods[j].name, result), MESG_PROCESSED_OK))
  {
    hide S.ProcessInput, Mirrors;
    ReplyReturnsToTheMethod(st, i, st.modules[i], w, s, j, result);
  }

  lemma TakesOne(st: S.Stub, message: seq<Byte>, st': S.Stub)
    requires S.ProcessInput(st, message) == Some(S.Processed(st', MESG_PROCESSED_OK))
    ensures TakesAll(st, [message], st')
  {
    hide S.ProcessInput;
    assert [message][1..] == [];
  }

  lemma TakesTwo(st: S.Stub, first: seq<Byte>, st1: S.Stub, second: seq<Byte>, st2: S.Stub)
    requires S.ProcessInput(st, first) == Some(S.Processed(st1, MESG_PROCESSED_OK))
    requires S.ProcessInput(st1, second) == Some(S.Processed(st2, MESG_PROCESSED_OK))
    ensures TakesAll(st, [first, second], st2)
  {
    hide S.ProcessInput;
    TakesOne(st1, second, st2);
    assert [first, second][1..] == [second];
  }

  lemma AnswersAreTaken(st: S.Stub, i: nat, w: W.Wrapper, s: int, j: nat, silent: bool, b: W.Behaviour)
    requires i < |st.modules| && Reachable(st, i, st.modules[i]) && Mirrors(st.modules[i], w) && j < |w.methods|
    requires b.Returned? ==> Returns(w.methods[j], Result(w.methods[j], b.value))
    ensures TakesAll(st, Answers(w, s, st.modules[i].id, j, silent, b), Answered(st, w.methods[j], silent, b))
  {
    hide S.ProcessInput, Mirrors, PackValue, RespMessage, Returns, Completed, Reported, TakesAll;
    var m, id, index := w.methods[j], st.modules[i].id, |w.attributes| + j;
    var report := RespMessage(ATTR_METD_RESP, s, id, 10, index, []);
    if b.Threw? {
      ReportIsTaken(st, i, w, s, j);
      assert [report] + [] == [report];
      if silent || m.retType != VOID {
        TakesOne(st, report, Reported(st, m.name));
      } else {
        NothingReturned(m);
        ReportedModules(st, m.name);
        ResultIsTaken(Reported(st, m.name), i, w, s, j, NoneVal);
        var done := RespMessage(ATTR_METD_RESP, s, id, 0, index, PackValue(NoneVal));
        TakesTwo(st, report, Reported(st, m.name), done, Completed(Reported(st, m.name), m.name, NoneVal));
        assert [report] + [done] == [report, done];
      }
    } else if silent {
      assert TakesAll(st, [], st) by { NothingTaken(st); }
    } else {
      ResultIsTaken(st, i, w, s, j, Result(m, b.value));
      var reply := RespMessage(ATTR_METD_RESP, s, id, 0, index, PackValue(Result(m, b.value)));
      TakesOne(st, reply, Completed(st, m.name, Result(m, b.value)));
      assert [] + [reply] == [reply];
    }
  }

  lemma ReportedModules(st: S.Stub, name: Str)
    ensures Reported(st, name).modules == st.modules
  {
  }

  lemma NothingTaken(st: S.Stub)
    ensures TakesAll(st, [], st)
  {
  }

  lemma NothingReturned(m: Method)
    ensures m.retType == VOID ==> Returns(m, NoneVal)
  {
  }

  // Calling a method by its name, whatever the mode and whatever the method does. In callback mode
  // one callback of the method is called, with its result or for its exception, and for a void
  // method that threw both are. In no-callback mode none is, but for an exception.
  lemma CallIsCarriedOut(st: S.Stub, i: nat, w: W.Wrapper, name: Str, j: nat, values: seq<Value>, b: W.Behaviour)
    returns (request: seq<Byte>, answers: seq<seq<Byte>>)
    requires Connected(st, i, w) && name !in [S.DOC, S.NOCALLBACK, S.DICT]
    requires j < |w.methods| && w.methods[j].name == name && |w.methods[j].args| <= 15
    requires IndexOf(W.AttributeName, w.attributes, name) == |w.attributes|
    requires Typed(W.ArgTypes(w.methods[j]), values)
    requires b.Returned? ==> Returns(w.methods[j], Result(w.methods[j], b.value))
    ensures S.PyCall(st.modules[i], st.serverId, j, values) == S.Attempt(st.modules[i], [request], true)
    ensures request != [] && request[0] / 16 == if st.modules[i].noCallback then CALL_ATTR_METD_NOCB else CALL_ATTR_METD
    ensures Exchange(st, w, W.Call(name, values), b, request, answers,
                     Answered(st, w.methods[j], st.modules[i].noCallback, b))
  {
    var o, s, m, silent := st.modules[i], st.serverId, w.methods[j], st.modules[i].noCallback;
    hide S.PyCall, S.ProcessInput, W.ProcessInput, W.Replies, Mirrors, W.Valid, PackValue, CallMessage, RespMessage,
         S.PackArgs, TakesAll, Typed, Returns, Answered, S.CallType;
    AllArriveAsGiven(m, values);
    CallableAsGiven(m, values);
    CallByName(o, w, s, name, j, values, b);
    PyCallSends(o, w, s, j, values);
    request := CallMessage(S.CallType(o), s, o.id, |w.attributes| + j, S.PackArgs(values, w.leftToRight));
    answers := Answers(w, s, o.id, j, silent, b);
    TypeOfCall(o, s, |w.attributes| + j, S.PackArgs(values, w.leftToRight));
    CallIsAnswered(w, s, S.CallType(o), o.id, j, values, b);
    AnswersAreTaken(st, i, w, s, j, silent, b);
  }

  lemma CallableAsGiven(m: Method, values: seq<Value>)
    requires Typed(W.ArgTypes(m), values) && ArrivalAll(m, values) == values
    ensures Callable(m, values)
  {
  }

  lemma TypeOfCall(o: S.Object, s: int, index: nat, data: seq<Byte>)
    ensures var m := CallMessage(S.CallType(o), s, o.id, index, data);
            m != [] && m[0] / 16 == S.CallType(o) == if o.noCallback then CALL_ATTR_METD_NOCB else CALL_ATTR_METD
  {
    hide CallBody;
  }
}
