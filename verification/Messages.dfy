// The messages between wrapper and stub: their bytes, the sizes the senders reserve for
// them, and what the receivers read out of them.
module Messages {
  import opened Common

  // Message types, in the upper half of the first byte.
  const MODULE_DISCOVERY := 0x1
  const MODULE_DECLARE := 0x2
  const MODULE_ASSIGN_ID := 0x3
  const ATTR_METD_EXPOSE := 0x4
  const CALL_ATTR_METD := 0x5
  const CALL_ATTR_METD_NOCB := 0x6
  const ATTR_METD_RESP := 0x7
  const ATTR_VALUE_UPDATE := 0x8
  const ATTR_METD_DESC := 0xa
  const MODULE_SHUTDOWN := 0xb
  const SERVER_SHUTDOWN := 0xc
  const PEER_SERVER_DISCOVERY := 0xd
  const PEER_SERVER_MSG := 0xe

  // MesgProcessResult
  datatype Verdict = MESG_PROCESSED_OK | MESG_PROCESSED_FAILED | MESG_TO_SHUTDOWN

  // What a wrapper keeps for a stub that has not assigned it an id.
  const UNASSIGNED := -1

  type MsgType = x: int | 0 <= x < 16

  const NO_ERRORS: Byte := 0x0
  const INDEX_MISMATCH: Byte := 0x4

  function Header(msgType: MsgType, serverId: int): (h: Byte)
    ensures h / 16 == msgType && h % 16 == serverId % 16
  {
    msgType * 16 + serverId % 16
  }

  // ---------------------------------------------------------------- what a wrapper publishes

  datatype Argument = Argument(t: Type, optional: bool)

  datatype Attribute = Attribute(name: Str, desc: Str, t: Type, writable: bool, value: Value)

  datatype Method = Method(name: Str, desc: Str, retType: Type, args: seq<Argument>)

  // What the stub keeps of them; descriptions arrive later.
  datatype StubAttribute = StubAttribute(name: Str, t: Type, readOnly: bool, value: Value, desc: Str)

  datatype StubMethod = StubMethod(name: Str, retType: Type, args: seq<Argument>, desc: Str)

  function AttributeView(a: Attribute): StubAttribute {
    StubAttribute(a.name, a.t, !a.writable, a.value, [])
  }

  function MethodView(m: Method): StubMethod {
    StubMethod(m.name, m.retType, m.args, [])
  }

  // What the encoding can carry: names of at most 255 bytes, at most 15 arguments, values of
  // the declared type that are wireable, descriptions and counts of at most 32767.
  predicate PublishableAttribute(a: Attribute) {
    ShortName(a.name) && LongText(a.desc) && HasType(a.value, a.t) && Wireable(a.value)
  }

  predicate PublishableMethod(m: Method) {
    ShortName(m.name) && LongText(m.desc) && |m.args| <= 15
  }

  ghost predicate Publishable(attrs: seq<Attribute>, metds: seq<Method>) {
    && |attrs| <= MAX_STR_LENGTH && |metds| <= MAX_STR_LENGTH
    && (forall a :: a in attrs ==> PublishableAttribute(a))
    && (forall m :: m in metds ==> PublishableMethod(m))
  }

  // ---------------------------------------------------------------- EXPOSE: bytes

  function FlagByte(flag: bool, t: Type): Byte {
    (if flag then 64 else 0) + TypeCode(t)
  }

  function EncodeAttribute(a: Attribute): seq<Byte> {
    [FlagByte(a.writable, a.t)] + PackShortString(a.name) + PackValue(a.value)
  }

  function EncodeArgument(arg: Argument): seq<Byte> {
    [FlagByte(arg.optional, arg.t)]
  }

  function EncodeMethod(m: Method): seq<Byte> {
    [TypeCode(m.retType)] + PackShortString(m.name) + [|m.args| % 256] + Flatten(EncodeArgument, m.args)
  }

  // A count and a list.
  function Counted<T>(encode: T -> seq<Byte>, xs: seq<T>): seq<Byte> {
    PackInt(|xs|) + Flatten(encode, xs)
  }

  function ExposeBody(attrs: seq<Attribute>, metds: seq<Method>): seq<Byte> {
    Counted(EncodeAttribute, attrs) + Counted(EncodeMethod, metds)
  }

  function ExposeMessage(serverId: int, moduleId: int, attrs: seq<Attribute>, metds: seq<Method>): seq<Byte> {
    [Header(ATTR_METD_EXPOSE, serverId), moduleId % 256] + ExposeBody(attrs, metds) + [MSG_END]
  }

  // ---------------------------------------------------------------- EXPOSE: reading

  // What a loop that unpacks n items one after the other reads.
  function ParseMany<T>(parse: Cursor -> Parsed<T>, n: nat, c: Cursor): Parsed<seq<T>> {
    if n == 0 then Some(([], c))
    else
      var (x, c1) :- parse(c);
      var (xs, c2) :- ParseMany(parse, n - 1, c1);
      Some(([x] + xs, c2))
  }

  function ParseFlag(c: Cursor): Parsed<(bool, Type)> {
    if c.rest == [] then None
    else Some(((c.rest[0] / 64 != 0, TypeOfCode(c.rest[0] % 64)), Cursor(c.rest[1..], c.remaining)))
  }

  function ParseAttribute(c: Cursor): Parsed<StubAttribute> {
    var (flag, c1) :- ParseFlag(c);
    var (name, c2) :- UnpackShortString(c1);
    var (value, c3) :- StubUnpack(flag.1, c2);
    Some((StubAttribute(name, flag.1, !flag.0, value, []), c3))
  }

  function ParseArgument(c: Cursor): Parsed<Argument> {
    var (flag, c1) :- ParseFlag(c);
    Some((Argument(flag.1, flag.0), c1))
  }

  // The number of arguments is masked to four bits.
  function ParseMethod(c: Cursor): Parsed<StubMethod> {
    var (flag, c1) :- ParseFlag(c);
    var (name, c2) :- UnpackShortString(c1);
    if c2.rest == [] then None
    else
      var (args, c3) :- ParseMany(ParseArgument, c2.rest[0] % 16, Cursor(c2.rest[1..], c2.remaining));
      Some((StubMethod(name, flag.1, args, []), c3))
  }

  function ParseList<T>(parse: Cursor -> Parsed<T>, c: Cursor): Parsed<seq<T>> {
    var (n, c1) :- UnpackInt(c);
    ParseMany(parse, n, c1)
  }

  function ParseExpose(c: Cursor): Parsed<(seq<StubAttribute>, seq<StubMethod>)> {
    var (attrs, c1) :- ParseList(ParseAttribute, c);
    var (metds, c2) :- ParseList(ParseMethod, c1);
    Some(((attrs, metds), c2))
  }

  // ---------------------------------------------------------------- round trips of lists

  // Reading x's bytes gives y and stops right behind them, whatever follows.
  ghost predicate Reads<T, U>(parse: Cursor -> Parsed<U>, encode: T -> seq<Byte>, x: T, y: U) {
    forall rest, remaining :: ReadsFrom(parse, encode(x), y, rest, remaining)
  }

  ghost predicate ReadsFrom<U>(parse: Cursor -> Parsed<U>, bytes: seq<Byte>, y: U, rest: seq<Byte>, remaining: int) {
    var r := parse(Cursor(bytes + rest, remaining));
    r.Some? && r.value.0 == y && r.value.1.rest == rest
  }

  lemma {:induction false} ManyRoundTrip<T, U>(parse: Cursor -> Parsed<U>, encode: T -> seq<Byte>, xs: seq<T>, ys: seq<U>,
                                                rest: seq<Byte>, remaining: int)
    requires |xs| == |ys| && forall i :: 0 <= i < |xs| ==> Reads(parse, encode, xs[i], ys[i])
    ensures ReadsFrom(c => ParseMany(parse, |xs|, c), Flatten(encode, xs), ys, rest, remaining)
  {
    if xs == [] {
      assert [] + rest == rest;
    } else {
      assert Reads(parse, encode, xs[0], ys[0]);
      var tail := Flatten(encode, xs[1..]) + rest;
      assert Flatten(encode, xs) + rest == encode(xs[0]) + tail;
      assert ReadsFrom(parse, encode(xs[0]), ys[0], tail, remaining);
      var c1 := parse(Cursor(encode(xs[0]) + tail, remaining)).value.1;
      ManyRoundTrip(parse, encode, xs[1..], ys[1..], rest, c1.remaining);
      assert ReadsFrom(c => ParseMany(parse, |xs[1..]|, c), Flatten(encode, xs[1..]), ys[1..], rest, c1.remaining);
      assert ys == [ys[0]] + ys[1..];
    }
  }

  lemma ListRoundTrip<T, U>(parse: Cursor -> Parsed<U>, encode: T -> seq<Byte>, xs: seq<T>, ys: seq<U>,
                            rest: seq<Byte>, remaining: int)
    requires |xs| == |ys| <= MAX_STR_LENGTH && forall i :: 0 <= i < |xs| ==> Reads(parse, encode, xs[i], ys[i])
    ensures ReadsFrom(c => ParseList(parse, c), Counted(encode, xs), ys, rest, remaining)
  {
    var body := Flatten(encode, xs) + rest;
    ConcatAssoc(PackInt(|xs|), Flatten(encode, xs), rest);
    PackIntRoundTrip(|xs|, body, remaining);
    var c1 := UnpackInt(Cursor(PackInt(|xs|) + body, remaining)).value.1;
    ManyRoundTrip(parse, encode, xs, ys, rest, c1.remaining);
  }

  // ---------------------------------------------------------------- EXPOSE: round trip

  lemma FlagRoundTrip(flag: bool, t: Type, rest: seq<Byte>, remaining: int)
    ensures ParseFlag(Cursor([FlagByte(flag, t)] + rest, remaining)) == Some(((flag, t), Cursor(rest, remaining)))
  {
    assert ([FlagByte(flag, t)] + rest)[1..] == rest;
  }

  lemma AttributeReads(a: Attribute)
    requires PublishableAttribute(a)
    ensures Reads(ParseAttribute, EncodeAttribute, a, AttributeView(a))
  {
    forall rest, remaining
      ensures ReadsFrom(ParseAttribute, EncodeAttribute(a), AttributeView(a), rest, remaining)
    {
      AttributeReadsFrom(a, rest, remaining);
    }
  }

  lemma AttributeReadsFrom(a: Attribute, rest: seq<Byte>, remaining: int)
    requires PublishableAttribute(a)
    ensures ReadsFrom(ParseAttribute, EncodeAttribute(a), AttributeView(a), rest, remaining)
  {
    hide PackShortString, PackValue, ParseFlag, UnpackShortString, StubUnpack;
    var behindName := PackValue(a.value) + rest;
    var behindFlag := PackShortString(a.name) + behindName;
    ConcatRight([FlagByte(a.writable, a.t)], PackShortString(a.name), PackValue(a.value), rest);
    FlagRoundTrip(a.writable, a.t, behindFlag, remaining);
    ShortStringRoundTrip(a.name, behindName, remaining);
    StubUnpackOfPacked(a.value, a.t, rest, remaining - |a.name|);
  }

  lemma ArgumentReads(arg: Argument)
    ensures Reads(ParseArgument, EncodeArgument, arg, arg)
  {
    forall rest, remaining
      ensures ReadsFrom(ParseArgument, EncodeArgument(arg), arg, rest, remaining)
    {
      FlagRoundTrip(arg.optional, arg.t, rest, remaining);
    }
  }

  // The part of a method in front of its arguments; the count of them is cast and then masked.
  lemma MethodHead(m: Method, rest: seq<Byte>, remaining: int)
    requires ShortName(m.name)
    ensures var args := Flatten(EncodeArgument, m.args);
            var r := ParseMany(ParseArgument, |m.args| % 256 % 16, Cursor(args + rest, remaining - |m.name|));
            ParseMethod(Cursor(EncodeMethod(m) + rest, remaining))
            == if r.None? then None
               else Some((StubMethod(m.name, m.retType, r.value.0, []), r.value.1))
  {
    hide PackShortString, ParseFlag, UnpackShortString, ParseMany;
    var args, count := Flatten(EncodeArgument, m.args), [|m.args| % 256];
    var behindName := count + (args + rest);
    var behindFlag := PackShortString(m.name) + behindName;
    ConcatRight([TypeCode(m.retType)] + PackShortString(m.name), count, args, rest);
    ConcatAssoc([TypeCode(m.retType)], PackShortString(m.name), behindName);
    FlagRoundTrip(false, m.retType, behindFlag, remaining);
    ShortStringRoundTrip(m.name, behindName, remaining);
    assert behindName[1..] == args + rest;
  }

  lemma MethodReadsFrom(m: Method, rest: seq<Byte>, remaining: int)
    requires ShortName(m.name) && |m.args| <= 15
    ensures ReadsFrom(ParseMethod, EncodeMethod(m), MethodView(m), rest, remaining)
  {
    hide ParseMethod, EncodeMethod, Reads, ParseMany;
    MethodHead(m, rest, remaining);
    forall i | 0 <= i < |m.args|
      ensures Reads(ParseArgument, EncodeArgument, m.args[i], m.args[i])
    {
      ArgumentReads(m.args[i]);
    }
    ManyRoundTrip(ParseArgument, EncodeArgument, m.args, m.args, rest, remaining - |m.name|);
  }

  lemma MethodReads(m: Method)
    requires PublishableMethod(m)
    ensures Reads(ParseMethod, EncodeMethod, m, MethodView(m))
  {
    forall rest, remaining
      ensures ReadsFrom(ParseMethod, EncodeMethod(m), MethodView(m), rest, remaining)
    {
      MethodReadsFrom(m, rest, remaining);
    }
  }

  function AttributeViews(attrs: seq<Attribute>): (views: seq<StubAttribute>)
    ensures |views| == |attrs| && forall i :: 0 <= i < |attrs| ==> views[i] == AttributeView(attrs[i])
  {
    seq(|attrs|, i requires 0 <= i < |attrs| => AttributeView(attrs[i]))
  }

  function MethodViews(metds: seq<Method>): (views: seq<StubMethod>)
    ensures |views| == |metds| && forall i :: 0 <= i < |metds| ==> views[i] == MethodView(metds[i])
  {
    seq(|metds|, i requires 0 <= i < |metds| => MethodView(metds[i]))
  }

  // Decoding an EXPOSE message gives back the whole interface in order, and stops at its end.
  lemma ExposeRoundTrip(attrs: seq<Attribute>, metds: seq<Method>, rest: seq<Byte>, remaining: int)
    requires Publishable(attrs, metds)
    ensures var r := ParseExpose(Cursor(ExposeBody(attrs, metds) + rest, remaining));
            && r.Some? && r.value.0 == (AttributeViews(attrs), MethodViews(metds)) && r.value.1.rest == rest
  {
    forall i | 0 <= i < |attrs|
      ensures Reads(ParseAttribute, EncodeAttribute, attrs[i], AttributeViews(attrs)[i])
    {
      AttributeReads(attrs[i]);
    }
    forall i | 0 <= i < |metds|
      ensures Reads(ParseMethod, EncodeMethod, metds[i], MethodViews(metds)[i])
    {
      MethodReads(metds[i]);
    }
    var a, m := Counted(EncodeAttribute, attrs), Counted(EncodeMethod, metds);
    assert ExposeBody(attrs, metds) + rest == a + (m + rest);
    ListRoundTrip(ParseAttribute, EncodeAttribute, attrs, AttributeViews(attrs), m + rest, remaining);
    var c1 := ParseList(ParseAttribute, Cursor(a + (m + rest), remaining)).value.1;
    ListRoundTrip(ParseMethod, EncodeMethod, metds, MethodViews(metds), rest, c1.remaining);
  }

  // A method with its interface survives the encoding exactly when it has at most 15 arguments.
  lemma ArgumentCountLimit(m: Method, rest: seq<Byte>, remaining: int)
    requires ShortName(m.name)
    ensures ReadsFrom(ParseMethod, EncodeMethod(m), MethodView(m), rest, remaining) <==> |m.args| <= 15
  {
    if |m.args| <= 15 {
      MethodReadsFrom(m, rest, remaining);
    } else {
      MethodHead(m, rest, remaining);
      ManyCount(ParseArgument, |m.args| % 256 % 16, Cursor(Flatten(EncodeArgument, m.args) + rest, remaining - |m.name|));
    }
  }

  lemma {:induction false} ManyCount<T>(parse: Cursor -> Parsed<T>, n: nat, c: Cursor)
    ensures var r := ParseMany(parse, n, c); r.Some? ==> |r.value.0| == n
  {
    if n > 0 {
      var p := parse(c);
      if p.Some? {
        ManyCount(parse, n - 1, p.value.1);
      }
    }
  }

  // ---------------------------------------------------------------- DESC

  function AttributeDesc(a: Attribute): seq<Byte> {
    PackLongString(a.desc)
  }

  function MethodDesc(m: Method): seq<Byte> {
    PackLongString(m.desc)
  }

  function DescBody(attrs: seq<Attribute>, metds: seq<Method>): seq<Byte> {
    Counted(AttributeDesc, attrs) + Counted(MethodDesc, metds)
  }

  function DescMessage(serverId: int, moduleId: int, attrs: seq<Attribute>, metds: seq<Method>): seq<Byte> {
    [Header(ATTR_METD_DESC, serverId), moduleId % 256] + DescBody(attrs, metds) + [MSG_END]
  }

  function ParseDesc(c: Cursor): Parsed<(seq<Str>, seq<Str>)> {
    var (attrDescs, c1) :- ParseList(UnpackLongString, c);
    var (metdDescs, c2) :- ParseList(UnpackLongString, c1);
    Some(((attrDescs, metdDescs), c2))
  }

  function AttributeDescs(attrs: seq<Attribute>): (ds: seq<Str>)
    ensures |ds| == |attrs| && forall i :: 0 <= i < |attrs| ==> ds[i] == attrs[i].desc
  {
    seq(|attrs|, i requires 0 <= i < |attrs| => attrs[i].desc)
  }

  function MethodDescs(metds: seq<Method>): (ds: seq<Str>)
    ensures |ds| == |metds| && forall i :: 0 <= i < |metds| ==> ds[i] == metds[i].desc
  {
    seq(|metds|, i requires 0 <= i < |metds| => metds[i].desc)
  }

  // Decoding a DESC message gives back every description, in the order of the interface.
  lemma DescRoundTrip(attrs: seq<Attribute>, metds: seq<Method>, rest: seq<Byte>, remaining: int)
    requires Publishable(attrs, metds)
    ensures var r := ParseDesc(Cursor(DescBody(attrs, metds) + rest, remaining));
            && r.Some? && r.value.0 == (AttributeDescs(attrs), MethodDescs(metds)) && r.value.1.rest == rest
  {
    forall i | 0 <= i < |attrs|
      ensures Reads(UnpackLongString, AttributeDesc, attrs[i], AttributeDescs(attrs)[i])
    {
      assert PublishableAttribute(attrs[i]);
      LongReads(AttributeDesc, attrs[i], attrs[i].desc);
    }
    forall i | 0 <= i < |metds|
      ensures Reads(UnpackLongString, MethodDesc, metds[i], MethodDescs(metds)[i])
    {
      assert PublishableMethod(metds[i]);
      LongReads(MethodDesc, metds[i], metds[i].desc);
    }
    var a, m := Counted(AttributeDesc, attrs), Counted(MethodDesc, metds);
    assert DescBody(attrs, metds) + rest == a + (m + rest);
    ListRoundTrip(UnpackLongString, AttributeDesc, attrs, AttributeDescs(attrs), m + rest, remaining);
    var c1 := ParseList(UnpackLongString, Cursor(a + (m + rest), remaining)).value.1;
    ListRoundTrip(UnpackLongString, MethodDesc, metds, MethodDescs(metds), rest, c1.remaining);
  }

  lemma LongReads<T>(encode: T -> seq<Byte>, x: T, s: Str)
    requires encode(x) == PackLongString(s) && LongText(s)
    ensures Reads(UnpackLongString, encode, x, s)
  {
    forall rest, remaining
      ensures ReadsFrom(UnpackLongString, encode(x), s, rest, remaining)
    {
      LongStringRoundTrip(s, rest, remaining);
    }
  }

  // ---------------------------------------------------------------- DECLARE and the port

  function DeclareMessage(serverId: int, option: Byte, name: Str, desc: Str): seq<Byte> {
    [Header(MODULE_DECLARE, serverId), option] + (PackShortString(name) + PackLongString(desc)) + [MSG_END]
  }

  // What the stub reads of a declaration behind the header: option, name and description.
  function ParseDeclare(c: Cursor): Parsed<(Byte, Str, Str)> {
    if c.rest == [] then None
    else
      var (name, c1) :- UnpackShortString(Cursor(c.rest[1..], c.remaining));
      var (desc, c2) :- UnpackLongString(c1);
      Some(((c.rest[0], name, desc), c2))
  }

  lemma DeclareRoundTrip(serverId: int, option: Byte, name: Str, desc: Str)
    requires ShortName(name) && LongText(desc)
    ensures var r := ParseDeclare(Cursor(DeclareMessage(serverId, option, name, desc)[1..], 0));
            r.Some? && r.value.0 == (option, name, desc) && r.value.1.rest == [MSG_END]
  {
    var m := DeclareMessage(serverId, option, name, desc);
    var tail := PackLongString(desc) + [MSG_END];
    assert m[1..][1..] == PackShortString(name) + tail;
    ShortStringRoundTrip(name, tail, 0);
    LongStringRoundTrip(desc, [MSG_END], -|name|);
  }

  // dataPacketSender: the port goes in front of the end byte.
  function SplicePort(message: seq<Byte>, port: seq<Byte>): seq<Byte>
    requires message != []
  {
    message[..|message| - 1] + port + [MSG_END]
  }

  // processUDPInput: take the two bytes in front of the end byte and end the message there.
  function TakePort(packet: seq<Byte>): (seq<Byte>, seq<Byte>)
    requires |packet| >= 3
  {
    var at := |packet| - 3;
    (packet[at..at + 2], packet[at := MSG_END][..|packet| - 2])
  }

  // The receiver of a broadcast gets the port and, byte for byte, the original message.
  lemma PortRoundTrip(message: seq<Byte>, port: seq<Byte>)
    requires message != [] && message[|message| - 1] == MSG_END && |port| == 2
    ensures TakePort(SplicePort(message, port)) == (port, message)
  {
    var packet, n := SplicePort(message, port), |message|;
    assert packet[n - 1..n + 1] == port;
    assert packet[n - 1 := MSG_END][..n] == message;
  }

  // So name and description of a broadcast declaration reach the stub unchanged.
  lemma BroadcastDeclareRoundTrip(serverId: int, option: Byte, name: Str, desc: Str, port: seq<Byte>)
    requires ShortName(name) && LongText(desc) && |port| == 2
    ensures var (port', message) := TakePort(SplicePort(DeclareMessage(serverId, option, name, desc), port));
            && port' == port
            && ParseDeclare(Cursor(message[1..], 0)).Some?
            && ParseDeclare(Cursor(message[1..], 0)).value.0 == (option, name, desc)
  {
    PortRoundTrip(DeclareMessage(serverId, option, name, desc), port);
    DeclareRoundTrip(serverId, option, name, desc);
  }

  // ---------------------------------------------------------------- CALL, RESP, UPDATE, ASSIGN_ID

  function CallMessage(msgType: MsgType, serverId: int, objId: int, index: int, args: seq<Byte>): seq<Byte> {
    [Header(msgType, serverId), objId % 256] + CallBody(index, args) + [MSG_END]
  }

  // The length covers the index and the data behind it.
  function CallBody(index: int, data: seq<Byte>): seq<Byte> {
    LEInt(PackedIntLen(index) + |data|) + PackInt(index) + data
  }

  function RespMessage(msgType: MsgType, serverId: int, moduleId: int, err: Byte, index: int, data: seq<Byte>): seq<Byte> {
    [Header(msgType, serverId), moduleId % 256, err] + CallBody(index, data) + [MSG_END]
  }

  function AssignMessage(serverId: int, id: int, name: Str): seq<Byte> {
    [Header(MODULE_ASSIGN_ID, serverId), id % 256] + PackShortString(name) + [MSG_END]
  }

  // Both receivers read the length, then the index, which is taken off the length.
  function ParseIndex(rest: seq<Byte>): (r: Parsed<int>)
    ensures r.Some? ==> 0 <= r.value.0 <= 32767
  {
    var (size, c) :- UnpackLEInt(Cursor(rest, 0));
    UnpackInt(Cursor(c.rest, size))
  }

  lemma IndexRoundTrip(index: int, data: seq<Byte>, tail: seq<Byte>)
    requires 0 <= index < 32768 && |data| < 0x7fff_0000
    ensures ParseIndex(CallBody(index, data) + tail) == Some((index, Cursor(data + tail, |data|)))
  {
    hide LEInt, PackInt, UnpackInt, UnpackLEInt;
    var size := PackedIntLen(index) + |data|;
    var behind := PackInt(index) + (data + tail);
    ConcatRight(LEInt(size), PackInt(index), data, tail);
    UnpackLEIntOfPacked(size, behind, 0);
    PackIntRoundTrip(index, data + tail, size);
  }

  lemma AssignRoundTrip(serverId: int, id: Byte, name: Str)
    requires ShortName(name)
    ensures var m := AssignMessage(serverId, id, name);
            && m[1] == id
            && UnpackShortString(Cursor(m[2..], 0)) == Some((name, Cursor([MSG_END], -|name|)))
  {
    assert AssignMessage(serverId, id, name)[2..] == PackShortString(name) + [MSG_END];
    ShortStringRoundTrip(name, [MSG_END], 0);
  }
}
