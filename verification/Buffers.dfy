// The writers of PyConnectCommon over a message buffer: each one writes at bufPtr and moves
// it on. Here bufPtr is the index of the next byte, and `next` its new value.
module Buffers {
  import opened Common

  // memcpy(bufPtr, data, length)
  method CopyBytes(data: seq<Byte>, buf: array<Byte>, bufPtr: nat) returns (next: nat)
    requires bufPtr + |data| <= buf.Length
    modifies buf
    ensures next == bufPtr + |data| && buf[..next] == old(buf[..bufPtr]) + data
  {
    forall i | 0 <= i < |data| {
      buf[bufPtr + i] := data[i];
    }
    next := bufPtr + |data|;
  }

  method WriteByte(b: Byte, buf: array<Byte>, bufPtr: nat) returns (next: nat)
    requires bufPtr < buf.Length
    modifies buf
    ensures next == bufPtr + 1 && buf[..next] == old(buf[..bufPtr]) + [b]
  {
    buf[bufPtr] := b;
    next := bufPtr + 1;
  }

  method PackIntToStr(num: int, buf: array<Byte>, bufPtr: nat) returns (next: nat, written: nat)
    requires bufPtr + |PackInt(num)| <= buf.Length
    modifies buf
    ensures next == bufPtr + written && written == |PackInt(num)|
    ensures buf[..next] == old(buf[..bufPtr]) + PackInt(num)
  {
    if num < 0 {
      next, written := bufPtr, 0;
    } else if num < 128 {
      buf[bufPtr] := num;
      next, written := bufPtr + 1, 1;
    } else if num < 32768 {
      buf[bufPtr] := num % 128 + 128;
      buf[bufPtr + 1] := num / 128;
      next, written := bufPtr + 2, 2;
    } else {
      next, written := bufPtr, 0;
    }
  }

  function PackedString(str: Str, extendSize: bool): seq<Byte> {
    if extendSize then PackLongString(str) else PackShortString(str)
  }

  method PackString(str: Str, buf: array<Byte>, bufPtr: nat, extendSize: bool) returns (next: nat)
    requires bufPtr + |PackedString(str, extendSize)| <= buf.Length
    modifies buf
    ensures next == bufPtr + |PackedString(str, extendSize)|
    ensures buf[..next] == old(buf[..bufPtr]) + PackedString(str, extendSize)
  {
    ghost var before := buf[..bufPtr];
    if extendSize {
      var written: nat;
      next, written := PackIntToStr(|str|, buf, bufPtr);
      ConcatAssoc(before, PackInt(|str|), str);
    } else {
      next := WriteByte(|str| % 256, buf, bufPtr);
      ConcatAssoc(before, [|str| % 256], str);
    }
    if |str| > 0 {
      next := CopyBytes(str, buf, next);
    } else {
      assert PackedString(str, extendSize) == (if extendSize then PackInt(|str|) else [|str| % 256]) + [];
    }
  }

  // packToLENumber: `image` is the number as this host keeps it in memory.
  method PackToLENumber(bigEndian: bool, image: seq<Byte>, buf: array<Byte>, bufPtr: nat) returns (next: nat)
    requires bufPtr + |image| <= buf.Length
    modifies buf
    ensures next == bufPtr + |image| && buf[..next] == old(buf[..bufPtr]) + HostToWire(bigEndian, image)
  {
    if bigEndian {
      next := bufPtr;
      var i := |image|;
      while i > 0
        invariant 0 <= i <= |image| && next == bufPtr + |image| - i
        invariant buf[..next] == old(buf[..bufPtr]) + Reverse(image)[..|image| - i]
      {
        i := i - 1;
        buf[next] := image[i];
        next := next + 1;
      }
      assert Reverse(image)[..|image|] == Reverse(image);
    } else {
      next := CopyBytes(image, buf, bufPtr);
    }
  }

  // unpackLENumber: the bytes at dataPtr become the memory of a number on this host.
  method UnpackLENumber(bigEndian: bool, data: seq<Byte>, dataPtr: nat, remainingLength: int, val: array<Byte>)
    returns (next: nat, remaining: int)
    requires dataPtr + val.Length <= |data|
    modifies val
    ensures next == dataPtr + val.Length && remaining == remainingLength - val.Length
    ensures val[..] == HostImage(bigEndian, data[dataPtr..next])
  {
    ghost var wire := data[dataPtr..dataPtr + val.Length];
    if bigEndian {
      next := dataPtr;
      var i := val.Length;
      while i > 0
        invariant 0 <= i <= val.Length && next == dataPtr + val.Length - i
        invariant forall k :: i <= k < val.Length ==> val[k] == wire[val.Length - 1 - k]
      {
        i := i - 1;
        val[i] := data[next];
        next := next + 1;
      }
      assert val[..] == Reverse(wire);
    } else {
      next := dataPtr;
      forall i | 0 <= i < val.Length {
        val[i] := data[dataPtr + i];
      }
      next := dataPtr + val.Length;
    }
    remaining := remainingLength - val.Length;
  }
}
