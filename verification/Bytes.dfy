/** Bytes, big-endian integers, UTF-8 validity and the small datatypes shared by every protocol. */
module Bytes {

  type byte = b: int | 0 <= b < 0x100
  type u16 = x: int | 0 <= x < 0x1_0000
  type u32 = x: int | 0 <= x < 0x1_0000_0000

  datatype Option<+T> = None | Some(value: T)

  /** A fallible operation; the source's error texts are not modelled. */
  datatype Result<+T> = Ok(value: T) | Err {
    predicate IsFailure() {
      Err?
    }

    function PropagateFailure<U>(): Result<U>
      requires Err?
    {
      Err
    }

    function Extract(): T
      requires Ok?
    {
      value
    }
  }

  /** What a parser says of a stream prefix: a value and the bytes it used, not enough bytes yet, or malformed. */
  datatype Parse<+T> = Done(value: T, used: nat) | NeedMore | Invalid

  // Big-endian integers

  function Be16(x: u16): (r: seq<byte>)
    ensures |r| == 2
  {
    [x / 0x100, x % 0x100]
  }

  function U16(hi: byte, lo: byte): u16 {
    hi * 0x100 + lo
  }

  lemma Be16RoundTrip(x: u16)
    ensures U16(Be16(x)[0], Be16(x)[1]) == x
  {}

  lemma U16RoundTrip(hi: byte, lo: byte)
    ensures Be16(U16(hi, lo)) == [hi, lo]
  {}

  function Be32(x: u32): (r: seq<byte>)
    ensures |r| == 4
  {
    Be16(x / 0x1_0000) + Be16(x % 0x1_0000)
  }

  function U32(a: byte, b: byte, c: byte, d: byte): u32 {
    U16(a, b) * 0x1_0000 + U16(c, d)
  }

  lemma Be32RoundTrip(x: u32)
    ensures U32(Be32(x)[0], Be32(x)[1], Be32(x)[2], Be32(x)[3]) == x
  {
    Be16RoundTrip(x / 0x1_0000);
    Be16RoundTrip(x % 0x1_0000);
  }

  // Concatenation

  function Flatten<T>(parts: seq<seq<T>>): (r: seq<T>) {
    if parts == [] then [] else parts[0] + Flatten(parts[1..])
  }

  lemma {:induction false} FlattenAppend<T>(a: seq<seq<T>>, b: seq<seq<T>>)
    ensures Flatten(a + b) == Flatten(a) + Flatten(b)
  {
    if a == [] {
      assert a + b == b;
    } else {
      assert (a + b)[1..] == a[1..] + b;
      FlattenAppend(a[1..], b);
    }
  }

  lemma Associate<T>(a: seq<T>, b: seq<T>, c: seq<T>)
    ensures a + (b + c) == (a + b) + c
  {}

  lemma TakeDrop<T>(s: seq<T>, n: nat)
    requires n <= |s|
    ensures s == s[..n] + s[n..]
  {}

  lemma DropPrefix<T>(a: seq<T>, b: seq<T>)
    ensures (a + b)[|a|..] == b
  {}

  lemma FlattenSingle<T>(part: seq<T>)
    ensures Flatten([part]) == part
  {
    assert [part][1..] == [];
    assert Flatten([part]) == part + Flatten([part][1..]);
  }

  lemma FlattenSnoc<T>(parts: seq<seq<T>>, last: seq<T>)
    ensures Flatten(parts + [last]) == Flatten(parts) + last
  {
    FlattenAppend(parts, [last]);
    FlattenSingle(last);
  }

  // UTF-8 (section 4 of RFC 3629)

  predicate Continuation(b: byte) {
    0x80 <= b <= 0xBF
  }

  /** Length of the well-formed character that `s` starts with, or 0 if it starts with none. */
  function CharLen(s: seq<byte>): (n: nat)
    ensures n <= |s| && (n == 0 || 1 <= n <= 4)
  {
    if |s| >= 1 && s[0] <= 0x7F then 1
    else if |s| >= 2 && 0xC2 <= s[0] <= 0xDF && Continuation(s[1]) then 2
    else if |s| >= 3 && 0xE0 <= s[0] <= 0xEF && Continuation(s[1]) && Continuation(s[2])
            && (s[0] == 0xE0 ==> s[1] >= 0xA0) && (s[0] == 0xED ==> s[1] <= 0x9F) then 3
    else if |s| >= 4 && 0xF0 <= s[0] <= 0xF4 && Continuation(s[1]) && Continuation(s[2]) && Continuation(s[3])
            && (s[0] == 0xF0 ==> s[1] >= 0x90) && (s[0] == 0xF4 ==> s[1] <= 0x8F) then 4
    else 0
  }

  predicate ValidUtf8(s: seq<byte>)
    decreases |s|
  {
    s == [] || (CharLen(s) > 0 && ValidUtf8(s[CharLen(s)..]))
  }

  /** The bytes of a Rust `String`. */
  type Utf8 = s: seq<byte> | ValidUtf8(s) witness []

  lemma {:induction false} ValidUtf8Append(a: seq<byte>, b: seq<byte>)
    requires ValidUtf8(a) && ValidUtf8(b)
    ensures ValidUtf8(a + b)
    decreases |a|
  {
    if a == [] {
      assert a + b == b;
    } else {
      var n := CharLen(a);
      assert (a + b)[n..] == a[n..] + b;
      assert CharLen(a + b) == n;
      ValidUtf8Append(a[n..], b);
    }
  }

  lemma {:induction false} AsciiIsUtf8(s: seq<byte>)
    requires forall i :: 0 <= i < |s| ==> s[i] <= 0x7F
    ensures ValidUtf8(s)
    decreases |s|
  {
    if s != [] {
      AsciiIsUtf8(s[1..]);
    }
  }
}
