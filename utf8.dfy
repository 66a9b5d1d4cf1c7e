/**
 * Go's conversion `[]byte(s)` of a string to its bytes. A Go string that holds
 * valid UTF-8 is modelled as a Dafny `string` (a sequence of Unicode scalar
 * values), and its bytes are the UTF-8 encoding of those scalar values
 * (section 3 of RFC 3629).
 */
module Utf8 {

  type Byte = x: int | 0 <= x < 256

  /** True of the bytes that continue a multi-byte UTF-8 sequence. */
  predicate IsContinuation(b: Byte) {
    0x80 <= b < 0xC0
  }

  /** The UTF-8 bytes of one scalar value: ASCII stays one byte, every other
      value becomes a lead byte of at least 0xC0 followed by continuation bytes. */
  function EncodeRune(c: char): (r: seq<Byte>)
    ensures 1 <= |r| <= 4
    ensures c as int < 0x80 <==> |r| == 1
    ensures |r| == 1 ==> r[0] == c as int
    ensures |r| > 1 ==> r[0] >= 0xC0 && forall i :: 1 <= i < |r| ==> IsContinuation(r[i])
  {
    var cp := c as int;
    if cp < 0x80 then [cp]
    else if cp < 0x800 then [0xC0 + cp / 0x40, 0x80 + cp % 0x40]
    else if cp < 0x10000 then [0xE0 + cp / 0x1000, 0x80 + cp / 0x40 % 0x40, 0x80 + cp % 0x40]
    else [0xF0 + cp / 0x40000, 0x80 + cp / 0x1000 % 0x40, 0x80 + cp / 0x40 % 0x40, 0x80 + cp % 0x40]
  }

  /** The bytes of a string: the encodings of its scalar values, in order. */
  function Encode(s: string): (r: seq<Byte>)
    ensures |r| >= |s|
  {
    if s == [] then [] else EncodeRune(s[0]) + Encode(s[1..])
  }

  /** Converting a concatenation gives the concatenated bytes. */
  lemma {:induction false} EncodeAppend(a: string, b: string)
    ensures Encode(a + b) == Encode(a) + Encode(b)
  {
    if a == [] {
      assert a + b == b;
    } else {
      var r := EncodeRune(a[0]);
      assert (a + b)[0] == a[0];
      assert (a + b)[1..] == a[1..] + b;
      EncodeAppend(a[1..], b);
      assert Encode(a + b) == r + (Encode(a[1..]) + Encode(b));
      assert r + (Encode(a[1..]) + Encode(b)) == (r + Encode(a[1..])) + Encode(b);
    }
  }

  /** An ASCII byte occurs in the bytes of a string exactly where its
      character occurs in the string: multi-byte encodings never contain one. */
  lemma {:induction false} AsciiByteOccurs(s: string, c: char)
    requires c as int < 0x80
    ensures (c as int in Encode(s)) <==> c in s
  {
    if s != [] {
      AsciiByteOccurs(s[1..], c);
      var r := EncodeRune(s[0]);
      assert Encode(s) == r + Encode(s[1..]);
      if |r| > 1 {
        assert c as int !in r by {
          forall i | 0 <= i < |r| ensures r[i] != c as int {
            if i > 0 { assert IsContinuation(r[i]); }
          }
        }
      }
      assert s == [s[0]] + s[1..];
    }
  }
}
