// The shared encoding primitives of PyConnectCommon: bytes, variable-length integers,
// strings, numbers and typed values, together with the cursor that decoding moves.
module Common {

  datatype Option<+T> = None | Some(value: T) {
    predicate IsFailure() {
      None?
    }

    function PropagateFailure<U>(): Option<U>
      requires None?
    {
      None
    }

    function Extract(): T
      requires Some?
    {
      value
    }
  }

  type Byte = x: int | 0 <= x < 256

  // A std::string or a C string: bytes without an encoding.
  type Str = seq<Byte>

  const MSG_INIT: Byte := 35  // '#'
  const MSG_END: Byte := 64   // '@'
  const MAX_STR_LENGTH := 32767

  lemma ConcatAssoc<T>(a: seq<T>, b: seq<T>, c: seq<T>)
    ensures a + (b + c) == (a + b) + c
  {
  }

  lemma Halves<T>(a: seq<T>, b: seq<T>)
    ensures (a + b)[..|a|] == a && (a + b)[|a|..] == b
  {
  }

  lemma SplitPrefix<T>(a: seq<T>, b: seq<T>, p: seq<T>, q: seq<T>)
    requires a + b == p + q && |a| <= |p|
    ensures a == p[..|a|] && b == p[|a|..] + q
  {
    assert a == (a + b)[..|a|] == (p + q)[..|a|];
    assert b == (a + b)[|a|..] == (p + q)[|a|..];
  }

  lemma ConcatRight<T>(a: seq<T>, b: seq<T>, c: seq<T>, d: seq<T>)
    ensures a + b + c + d == a + (b + (c + d))
  {
  }

  // ---------------------------------------------------------------- encoding lists

  // What a loop that packs xs one after the other has written.
  function Flatten<T>(f: T -> seq<Byte>, xs: seq<T>): seq<Byte> {
    if xs == [] then [] else f(xs[0]) + Flatten(f, xs[1..])
  }

  // ---------------------------------------------------------------- cursor

  // The moving pointer of a decoder: what is still ahead of it, and the count of
  // remaining bytes that the caller handed in.
  datatype Cursor = Cursor(rest: seq<Byte>, remaining: int)

  // None stands for a read beyond the end of the message, which the original does not check.
  type Parsed<T> = Option<(T, Cursor)>

  // ---------------------------------------------------------------- variable-length integers

  // The bytes packIntToStr writes: seven low bits, then up to eight high bits.
  function PackInt(num: int): seq<Byte> {
    if num < 0 then []
    else if num < 128 then [num]
    else if num < 32768 then [num % 128 + 128, num / 128]
    else []
  }

  function PackedIntLen(num: int): nat {
    if 0 <= num < 128 then 1
    else if num < 32768 then 2
    else 0
  }

  function UnpackInt(c: Cursor): (r: Parsed<int>)
    ensures r.Some? ==> 0 <= r.value.0 <= 32767
  {
    if c.rest == [] then None
    else if c.rest[0] >= 128 then
      if |c.rest| < 2 then None
      else Some(((c.rest[1] as int) * 128 + (c.rest[0] - 128), Cursor(c.rest[2..], c.remaining - 2)))
    else Some((c.rest[0], Cursor(c.rest[1..], c.remaining - 1)))
  }

  // The reserved size is the written size exactly for the integers that are not negative:
  // for a negative one two bytes are reserved and none is written.
  lemma PackedIntLenExact(num: int)
    ensures |PackInt(num)| == PackedIntLen(num) <==> num >= 0
  {
  }

  // An integer survives packing, with the cursor behind it, exactly when it is in 0..32767.
  lemma PackIntRoundTrip(num: int, rest: seq<Byte>, remaining: int)
    ensures (UnpackInt(Cursor(PackInt(num) + rest, remaining))
             == Some((num, Cursor(rest, remaining - PackedIntLen(num)))))
       <==> 0 <= num < 32768
  {
    var c := Cursor(PackInt(num) + rest, remaining);
    if 0 <= num < 32768 {
      assert c.rest[|PackInt(num)|..] == rest;
    } else {
      assert c.rest == rest;
      var p := UnpackInt(c);
      if p.Some? {
        assert |p.value.1.rest| < |rest|;
      }
    }
  }

  // ---------------------------------------------------------------- strings

  // What std::string(char *) keeps of a block of characters: everything before the first NUL.
  function CString(s: Str): (r: Str)
    ensures r <= s && 0 !in r
    ensures |r| < |s| ==> s[|r|] == 0
    ensures r == s <==> 0 !in s
  {
    if s == [] || s[0] == 0 then []
    else
      var r := CString(s[1..]);
      assert s == [s[0]] + s[1..];
      [s[0]] + r
  }

  // packString without extendSize: the length is cast to one char.
  function PackShortString(s: Str): seq<Byte> {
    [|s| % 256] + s
  }

  // packString with extendSize.
  function PackLongString(s: Str): seq<Byte> {
    PackInt(|s|) + s
  }

  // The length byte of a short string is not taken off the remaining count.
  function UnpackShortString(c: Cursor): Parsed<Str> {
    if c.rest == [] then None
    else TakeString(Cursor(c.rest[1..], c.remaining), c.rest[0])
  }

  function UnpackLongString(c: Cursor): Parsed<Str> {
    var (strLen, c1) :- UnpackInt(c);
    TakeString(c1, strLen)
  }

  function TakeString(c: Cursor, strLen: nat): Parsed<Str> {
    if |c.rest| < strLen then None
    else Some((CString(c.rest[..strLen]), Cursor(c.rest[strLen..], c.remaining - strLen)))
  }

  lemma TakeAll(s: Str, rest: seq<Byte>, remaining: int)
    ensures TakeString(Cursor(s + rest, remaining), |s|) == Some((CString(s), Cursor(rest, remaining - |s|)))
  {
    hide CString;
    Halves(s, rest);
  }

  lemma TakeShort(c: Cursor, n: nat)
    ensures TakeString(c, n).Some? ==> |TakeString(c, n).value.0| <= n
  {
    hide CString;
  }

  predicate ShortName(s: Str) {
    |s| <= 255 && 0 !in s
  }

  predicate LongText(s: Str) {
    |s| <= MAX_STR_LENGTH && 0 !in s
  }

  // A name survives the one-byte form exactly when it has at most 255 bytes and no NUL.
  lemma ShortStringRoundTrip(s: Str, rest: seq<Byte>, remaining: int)
    ensures (UnpackShortString(Cursor(PackShortString(s) + rest, remaining))
             == Some((s, Cursor(rest, remaining - |s|))))
       <==> ShortName(s)
  {
    hide CString, TakeString;
    var c, n := Cursor(PackShortString(s) + rest, remaining), |s| % 256;
    assert c.rest[0] == n && c.rest[1..] == s + rest;
    assert UnpackShortString(c) == TakeString(Cursor(s + rest, remaining), n);
    hide PackShortString, UnpackShortString;
    if |s| <= 255 {
      TakeAll(s, rest, remaining);
    } else {
      TakeShort(Cursor(s + rest, remaining), n);
    }
  }

  // A text survives the extended form exactly when it has at most 32767 bytes and no NUL.
  lemma LongStringRoundTrip(s: Str, rest: seq<Byte>, remaining: int)
    ensures (UnpackLongString(Cursor(PackLongString(s) + rest, remaining))
             == Some((s, Cursor(rest, remaining - |PackLongString(s)|))))
       <==> LongText(s)
  {
    var c := Cursor(PackLongString(s) + rest, remaining);
    if |s| <= MAX_STR_LENGTH {
      assert c.rest == PackInt(|s|) + (s + rest);
      PackIntRoundTrip(|s|, s + rest, remaining);
      TakeAll(s, rest, remaining - |PackInt(|s|)|);
    } else {
      var p := UnpackLongString(c);
      assert p.Some? ==> |p.value.0| <= UnpackInt(c).value.0;
    }
  }

  // ---------------------------------------------------------------- numbers

  const TWO32 := 0x1_0000_0000

  predicate IsInt32(n: int) {
    -0x8000_0000 <= n < 0x8000_0000
  }

  // The cast (int) of a wider integer.
  function ToInt32(n: int): (r: int)
    ensures IsInt32(r)
    ensures r == n <==> IsInt32(n)
  {
    var u := n % TWO32;
    if u < 0x8000_0000 then u else u - TWO32
  }

  // The four bytes of (int)n, lowest first.
  function LEInt(n: int): (b: seq<Byte>)
    ensures |b| == 4
  {
    var u := n % TWO32;
    [u % 256, u / 0x100 % 256, u / 0x1_0000 % 256, u / 0x100_0000]
  }

  function FromLEInt(b: seq<Byte>): int
    requires |b| == 4
  {
    var b0: int, b1: int, b2: int, b3: int := b[0], b[1], b[2], b[3];
    ToInt32(b0 + 0x100 * b1 + 0x1_0000 * b2 + 0x100_0000 * b3)
  }

  // The four bytes carry the cast value, so an integer survives exactly when it is 32 bits wide.
  lemma LEIntRoundTrip(n: int)
    ensures FromLEInt(LEInt(n)) == ToInt32(n)
    ensures FromLEInt(LEInt(n)) == n <==> IsInt32(n)
  {
    var u := n % TWO32;
    var q1, q2 := u / 0x100, u / 0x1_0000;
    assert q1 / 256 == q2 && q2 / 256 == u / 0x100_0000;
    assert u == u % 256 + 256 * q1;
    assert q1 == q1 % 256 + 256 * q2;
    assert q2 == q2 % 256 + 256 * (u / 0x100_0000);
  }

  function Reverse(b: seq<Byte>): (r: seq<Byte>)
    ensures |r| == |b|
    ensures forall i :: 0 <= i < |b| ==> r[i] == b[|b| - 1 - i]
  {
    if b == [] then [] else Reverse(b[1..]) + [b[0]]
  }

  // How a host keeps a number whose bytes, lowest first, are le.
  function HostImage(bigEndian: bool, le: seq<Byte>): seq<Byte> {
    if bigEndian then Reverse(le) else le
  }

  // What packToLENumber writes for a number kept as image on this host.
  function HostToWire(bigEndian: bool, image: seq<Byte>): seq<Byte> {
    if bigEndian then Reverse(image) else image
  }

  // The two builds of the number packer put the same bytes on the wire.
  lemma WireIsHostIndependent(bigEndian: bool, le: seq<Byte>)
    ensures HostToWire(bigEndian, HostImage(bigEndian, le)) == le
  {
  }

  function TakeBytes(c: Cursor, n: nat): Parsed<seq<Byte>> {
    if |c.rest| < n then None
    else Some((c.rest[..n], Cursor(c.rest[n..], c.remaining - n)))
  }

  function UnpackLEInt(c: Cursor): Parsed<int> {
    var (b, c1) :- TakeBytes(c, 4);
    Some((FromLEInt(b), c1))
  }

  lemma UnpackLEIntOfPacked(n: int, rest: seq<Byte>, remaining: int)
    ensures UnpackLEInt(Cursor(LEInt(n) + rest, remaining)) == Some((ToInt32(n), Cursor(rest, remaining - 4)))
  {
    assert (LEInt(n) + rest)[..4] == LEInt(n);
    assert (LEInt(n) + rest)[4..] == rest;
    LEIntRoundTrip(n);
  }

  // ---------------------------------------------------------------- typed values

  datatype Type = INT | FLOAT | DOUBLE | STRING | BOOL | COMPOSITE | VOID

  function TypeCode(t: Type): (code: Byte)
    ensures code < 64
  {
    match t
    case INT => 0
    case FLOAT => 1
    case DOUBLE => 2
    case STRING => 3
    case BOOL => 4
    case COMPOSITE => 5
    case VOID => 6
  }

  // A code beyond the listed ones is decoded like COMPOSITE: no bytes, no value.
  function TypeOfCode(code: Byte): Type {
    if code == 0 then INT
    else if code == 1 then FLOAT
    else if code == 2 then DOUBLE
    else if code == 3 then STRING
    else if code == 4 then BOOL
    else if code == 6 then VOID
    else COMPOSITE
  }

  // Floating-point numbers are opaque blocks of four and eight bytes.
  datatype Value =
    | IntVal(n: int)
    | FloatVal(bits4: seq<Byte>)
    | DoubleVal(bits8: seq<Byte>)
    | StrVal(s: Str)
    | BoolVal(b: bool)
    | NoneVal

  // What validateTypeAndSize accepts for a declared type.
  predicate HasType(v: Value, t: Type) {
    match t
    case INT => v.IntVal?
    case FLOAT => v.FloatVal? && |v.bits4| == 4
    case DOUBLE => v.DoubleVal? && |v.bits8| == 8
    case STRING => v.StrVal?
    case BOOL => v.BoolVal?
    case COMPOSITE => false
    case VOID => false
  }

  // The values that the encoding can carry without changing them.
  predicate Wireable(v: Value) {
    match v
    case IntVal(n) => IsInt32(n)
    case FloatVal(bits) => |bits| == 4
    case DoubleVal(bits) => |bits| == 8
    case StrVal(s) => LongText(s)
    case BoolVal(_) => true
    case NoneVal => true
  }

  // packToStr on the stub and setData on the wrapper.
  function PackValue(v: Value): seq<Byte> {
    match v
    case IntVal(n) => LEInt(n)
    case FloatVal(bits) => bits
    case DoubleVal(bits) => bits
    case StrVal(s) => PackLongString(s)
    case BoolVal(b) => if b then [1] else [0]
    case NoneVal => []
  }

  // What arrives of a value: an int is sent as 32 bits.
  function Narrow(v: Value): Value {
    if v.IntVal? then IntVal(ToInt32(v.n)) else v
  }

  // A Python string is measured with strlen, and ends at its first NUL.
  function Cut(v: Value): Value {
    if v.StrVal? then StrVal(CString(v.s)) else v
  }

  // A Python bool is an int, and taken for one where an int is declared.
  function Coerced(v: Value, t: Type): Value {
    if t == INT && v.BoolVal? then IntVal(if v.b then 1 else 0) else Cut(v)
  }

  // What arrives of a Python value given for a declared type.
  function Arrival(v: Value, t: Type): Value {
    Narrow(Coerced(v, t))
  }

  // packToStr for a declared type
  function PackAs(v: Value, t: Type): seq<Byte> {
    PackValue(Coerced(v, t))
  }

  // What a declared type takes from Python: a bool for an int as well, and otherwise its own kind.
  predicate Suits(v: Value, t: Type) {
    match t
    case INT => v.IntVal? || v.BoolVal?
    case FLOAT => v.FloatVal? && |v.bits4| == 4
    case DOUBLE => v.DoubleVal? && |v.bits8| == 8
    case STRING => v.StrVal?
    case BOOL => v.BoolVal?
    case COMPOSITE => false
    case VOID => false
  }

  // A value of the declared type that the encoding can carry arrives as it was given. An int loses
  // what is beyond 32 bits and a string what is behind a NUL, and a bool given for an int is 0 or 1.
  lemma ArrivesAsGiven(v: Value, t: Type)
    requires Suits(v, t)
    ensures HasType(Arrival(v, t), t)
    ensures HasType(v, t) && Wireable(v) ==> Arrival(v, t) == v
    ensures v.IntVal? ==> Arrival(v, t) == IntVal(ToInt32(v.n))
    ensures v.StrVal? ==> Arrival(v, t) == StrVal(CString(v.s))
    ensures v.FloatVal? || v.DoubleVal? ==> Arrival(v, t) == v
    ensures v.BoolVal? ==> Arrival(v, t) == if t == BOOL then v else if v.b then IntVal(1) else IntVal(0)
  {
    hide ToInt32, CString, LongText;
    if v.StrVal? && Wireable(v) {
      LongTextIsWhole(v.s);
    }
  }

  lemma LongTextIsWhole(s: Str)
    requires LongText(s)
    ensures CString(s) == s
  {
    hide CString;
  }

  lemma ArrivalPacks(v: Value, t: Type)
    ensures PackValue(Arrival(v, t)) == PackAs(v, t)
  {
    var w := Coerced(v, t);
    if w.IntVal? {
      assert ToInt32(w.n) % TWO32 == w.n % TWO32;
    }
  }

  // validateTypeAndSize: the size to reserve, 0 for a value of the wrong type.
  function ValidatedSize(v: Value, t: Type): int {
    if !HasType(Coerced(v, t), t) then 0
    else match t
      case INT => 4
      case FLOAT => 4
      case DOUBLE => 8
      case STRING => var s := CString(v.s); |s| + PackedIntLen(|s|)
      case BOOL => 1
      case COMPOSITE => 0
      case VOID => 0
  }

  // The reserved size is the written size; 0 is answered for a wrong type and nothing else.
  lemma ValidatedSizeExact(v: Value, t: Type)
    ensures ValidatedSize(v, t) == 0 <==> !HasType(Coerced(v, t), t)
    ensures ValidatedSize(v, t) == 0 <==> !Suits(v, t)
    ensures HasType(Coerced(v, t), t) ==> ValidatedSize(v, t) == |PackAs(v, t)|
  {
  }

  // unpackStr on the stub: a bool is masked, and not taken off the remaining count.
  function StubUnpack(t: Type, c: Cursor): Parsed<Value> {
    match t
    case INT => var (n, c1) :- UnpackLEInt(c); Some((IntVal(n), c1))
    case FLOAT => var (b, c1) :- TakeBytes(c, 4); Some((FloatVal(b), c1))
    case DOUBLE => var (b, c1) :- TakeBytes(c, 8); Some((DoubleVal(b), c1))
    case STRING => var (s, c1) :- UnpackLongString(c); Some((StrVal(s), c1))
    case BOOL =>
      if c.rest == [] then None
      else Some((BoolVal(c.rest[0] % 16 != 0), Cursor(c.rest[1..], c.remaining)))
    case COMPOSITE => Some((NoneVal, c))
    case VOID => Some((NoneVal, c))
  }

  // getData finds no byte left for a bool: the message counts as corrupted.
  predicate Corrupted(t: Type, c: Cursor) {
    t == BOOL && c.remaining < 1
  }

  // getData on the wrapper; of a corrupted message nothing is read.
  function WrapperGet(t: Type, c: Cursor): Parsed<Value> {
    match t
    case BOOL =>
      if Corrupted(t, c) then Some((BoolVal(false), c))
      else if c.rest == [] then None
      else Some((BoolVal(c.rest[0] != 0), Cursor(c.rest[1..], c.remaining - 1)))
    case _ => StubUnpack(t, c)
  }

  // Any byte is a bool: the stub looks at its lower four bits, the wrapper at all of it. Without a
  // byte left to count, the wrapper takes a bool for false and reads nothing.
  lemma AnyByteIsBool(b: Byte, rest: seq<Byte>, remaining: int)
    ensures StubUnpack(BOOL, Cursor([b] + rest, remaining)) == Some((BoolVal(b % 16 != 0), Cursor(rest, remaining)))
    ensures WrapperGet(BOOL, Cursor([b] + rest, remaining))
         == Some(if remaining >= 1 then (BoolVal(b != 0), Cursor(rest, remaining - 1))
                 else (BoolVal(false), Cursor([b] + rest, remaining)))
  {
    assert ([b] + rest)[1..] == rest;
  }

  lemma StubUnpackOfPacked(v: Value, t: Type, rest: seq<Byte>, remaining: int)
    requires HasType(v, t) && Wireable(v)
    ensures StubUnpack(t, Cursor(PackValue(v) + rest, remaining))
         == Some((v, Cursor(rest, remaining - (if t == BOOL then 0 else |PackValue(v)|))))
  {
    hide UnpackLEInt, UnpackLongString, PackLongString, LEInt;
    Halves(PackValue(v), rest);
    match v
    case IntVal(n) => UnpackLEIntOfPacked(n, rest, remaining);
    case StrVal(s) => LongStringRoundTrip(s, rest, remaining);
    case _ =>
  }

  // The wrapper reads a packed value back, takes its exact size off the count and stops behind it.
  lemma WrapperGetOfPacked(v: Value, t: Type, rest: seq<Byte>, remaining: int)
    requires HasType(v, t) && Wireable(v) && |PackValue(v)| <= remaining
    ensures !Corrupted(t, Cursor(PackValue(v) + rest, remaining))
    ensures WrapperGet(t, Cursor(PackValue(v) + rest, remaining))
         == Some((v, Cursor(rest, remaining - |PackValue(v)|)))
  {
    if t == BOOL {
      assert (PackValue(v) + rest)[1..] == rest;
    } else {
      StubUnpackOfPacked(v, t, rest, remaining);
    }
  }
}
