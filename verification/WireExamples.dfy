// The messages of one small module, byte by byte: what goes over the wire is fixed by older
// programs, so that an encoder and a decoder that change together are still wrong.
module WireExamples {
  import opened Common
  import opened Messages
  import S = StubModel

  lemma IndexedBytes()
    ensures CallMessage(CALL_ATTR_METD, 3, 9, 1, [7]) == [0x53, 9, 2, 0, 0, 0, 1, 7, 64]
    ensures CallMessage(CALL_ATTR_METD_NOCB, 3, 9, 1, []) == [0x63, 9, 1, 0, 0, 0, 1, 64]
    ensures RespMessage(ATTR_METD_RESP, 3, 9, 0xa, 200, []) == [0x73, 9, 0xa, 2, 0, 0, 0, 200, 1, 64]
    ensures RespMessage(ATTR_VALUE_UPDATE, 3, 9, 0, 0, [1]) == [0x83, 9, 0, 2, 0, 0, 0, 0, 1, 64]
  {
  }

  lemma NegotiationBytes()
    ensures S.DiscoveryMessage(3) == [0x13, 64]
    ensures DeclareMessage(3, 1, [109, 49], [104, 105]) == [0x23, 1, 2, 109, 49, 2, 104, 105, 64]
    ensures AssignMessage(3, 9, [109, 49]) == [0x33, 9, 2, 109, 49, 64]
  {
  }

  lemma TypeBytes()
    ensures TypeCode(INT) == 0 && TypeCode(FLOAT) == 1 && TypeCode(DOUBLE) == 2 && TypeCode(STRING) == 3
    ensures TypeCode(BOOL) == 4 && TypeCode(COMPOSITE) == 5 && TypeCode(VOID) == 6
  {
  }

  lemma ValueBytes()
    ensures PackValue(IntVal(-2)) == [0xfe, 0xff, 0xff, 0xff] && PackValue(IntVal(0x1020304)) == [4, 3, 2, 1]
    ensures PackValue(BoolVal(true)) == [1] && PackValue(StrVal([104, 105])) == [2, 104, 105]
  {
  }

  // Two attributes and a method: the count, and then each attribute with its flag and type, its
  // name and its value, and each method with its type, its name and its arguments.
  function Attributes(): seq<Attribute> {
    [Attribute([97], [104, 105], INT, true, IntVal(5)), Attribute([98], [], BOOL, false, BoolVal(true))]
  }

  function Methods(): seq<Method> {
    [Method([102], [111], VOID, [Argument(STRING, false), Argument(DOUBLE, true)])]
  }

  lemma ElementBytes()
    ensures EncodeAttribute(Attributes()[0]) == [64, 1, 97, 5, 0, 0, 0]
    ensures EncodeAttribute(Attributes()[1]) == [4, 1, 98, 1]
    ensures EncodeArgument(Argument(STRING, false)) == [3] && EncodeArgument(Argument(DOUBLE, true)) == [66]
  {
  }

  lemma MethodBytes()
    ensures EncodeMethod(Methods()[0]) == [6, 1, 102, 2, 3, 66]
  {
    var args := Methods()[0].args;
    ElementBytes();
    assert args[1..] == [args[1]] && args[1..][1..] == [];
    assert Flatten(EncodeArgument, args) == [3] + ([66] + []);
  }

  lemma ListOfOne<T>(encode: T -> seq<Byte>, x: T)
    ensures Counted(encode, [x]) == [1] + encode(x)
  {
    assert [x][1..] == [] && Flatten(encode, []) == [];
    assert encode(x) + [] == encode(x);
  }

  lemma ListOfTwo<T>(encode: T -> seq<Byte>, x: T, y: T)
    ensures Counted(encode, [x, y]) == [2] + (encode(x) + encode(y))
  {
    var xs := [x, y];
    assert xs[1..] == [y] && xs[1..][1..] == [] && Flatten(encode, []) == [];
    assert Flatten(encode, xs[1..]) == encode(y) + [] == encode(y);
    assert Flatten(encode, xs) == encode(x) + encode(y);
  }

  lemma ExposeBytes()
    ensures ExposeMessage(3, 9, Attributes(), Methods())
         == [0x43, 9, 2, 64, 1, 97, 5, 0, 0, 0, 4, 1, 98, 1, 1, 6, 1, 102, 2, 3, 66, 64]
  {
    ElementBytes();
    MethodBytes();
    hide EncodeAttribute, EncodeMethod, Counted;
    var attrs, metds := Attributes(), Methods();
    ListOfTwo(EncodeAttribute, attrs[0], attrs[1]);
    ListOfOne(EncodeMethod, metds[0]);
    assert attrs == [attrs[0], attrs[1]] && metds == [metds[0]];
    assert Counted(EncodeAttribute, attrs) == [2, 64, 1, 97, 5, 0, 0, 0, 4, 1, 98, 1];
    assert Counted(EncodeMethod, metds) == [1, 6, 1, 102, 2, 3, 66];
  }

  lemma DescBytes()
    ensures DescMessage(3, 9, Attributes(), Methods()) == [0xa3, 9, 2, 2, 104, 105, 0, 1, 1, 111, 64]
  {
    var attrs, metds := Attributes(), Methods();
    assert AttributeDesc(attrs[0]) == [2, 104, 105] && AttributeDesc(attrs[1]) == [0];
    assert MethodDesc(metds[0]) == [1, 111];
    hide AttributeDesc, MethodDesc, Counted;
    ListOfTwo(AttributeDesc, attrs[0], attrs[1]);
    ListOfOne(MethodDesc, metds[0]);
    assert attrs == [attrs[0], attrs[1]] && metds == [metds[0]];
    assert Counted(AttributeDesc, attrs) == [2, 2, 104, 105, 0] && Counted(MethodDesc, metds) == [1, 1, 111];
  }
}
