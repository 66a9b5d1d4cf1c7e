/**
 * Base 64 encoding with the standard alphabet and padding, section 4 of
 * RFC 4648, as Go's `base64.StdEncoding.EncodeToString` computes it. Every
 * three input bytes become four characters; a final group of one or two
 * bytes is padded with `=` to four characters. The decoder is the strict
 * inverse: it accepts exactly the strings the encoder produces.
 */
module Base64 {
  import opened Wrappers
  import opened Utf8

  const Padding: char := '='

  /** The character that stands for the 6-bit value `i`: A-Z, a-z, 0-9, `+`, `/`. */
  function Alphabet(i: int): (c: char)
    requires 0 <= i < 64
    ensures c != Padding
  {
    if i < 26 then ('A' as int + i) as char
    else if i < 52 then ('a' as int + i - 26) as char
    else if i < 62 then ('0' as int + i - 52) as char
    else if i == 62 then '+'
    else '/'
  }

  /** The 6-bit value a character stands for, if it is in the alphabet. */
  function IndexOf(c: char): (r: Option<int>)
    ensures r.Some? ==> 0 <= r.value < 64 && Alphabet(r.value) == c
  {
    if 'A' <= c <= 'Z' then Some(c as int - 'A' as int)
    else if 'a' <= c <= 'z' then Some(c as int - 'a' as int + 26)
    else if '0' <= c <= '9' then Some(c as int - '0' as int + 52)
    else if c == '+' then Some(62)
    else if c == '/' then Some(63)
    else None
  }

  lemma IndexOfAlphabet(i: int)
    requires 0 <= i < 64
    ensures IndexOf(Alphabet(i)) == Some(i)
  {
  }

  /** The characters a padded encoding is made of. */
  predicate IsEncodingChar(c: char) {
    c == Padding || IndexOf(c).Some?
  }

  /** Three bytes as four characters. */
  function EncodeGroup(b0: Byte, b1: Byte, b2: Byte): string {
    [Alphabet(b0 / 4), Alphabet(b0 % 4 * 16 + b1 / 16), Alphabet(b1 % 16 * 4 + b2 / 64), Alphabet(b2 % 64)]
  }

  /** A final single byte: two characters and two padding characters. */
  function EncodeFinal1(b0: Byte): string {
    [Alphabet(b0 / 4), Alphabet(b0 % 4 * 16), Padding, Padding]
  }

  /** A final pair of bytes: three characters and one padding character. */
  function EncodeFinal2(b0: Byte, b1: Byte): string {
    [Alphabet(b0 / 4), Alphabet(b0 % 4 * 16 + b1 / 16), Alphabet(b1 % 16 * 4), Padding]
  }

  /** The padded encoding; it has four characters for each started group of three bytes. */
  function Encode(b: seq<Byte>): (s: string)
    ensures |s| == 4 * ((|b| + 2) / 3)
    decreases |b|
  {
    if |b| == 0 then ""
    else if |b| == 1 then EncodeFinal1(b[0])
    else if |b| == 2 then EncodeFinal2(b[0], b[1])
    else
      assert (|b[3..]| + 2) / 3 == (|b| + 2) / 3 - 1;
      EncodeGroup(b[0], b[1], b[2]) + Encode(b[3..])
  }

  /** Encoding works group by group: bytes split after a whole number of
      groups encode to the concatenation of their encodings. */
  lemma {:induction false} EncodeConcat(a: seq<Byte>, c: seq<Byte>)
    requires |a| % 3 == 0
    ensures Encode(a + c) == Encode(a) + Encode(c)
  {
    if a == [] {
      assert a + c == c;
    } else {
      assert (a + c)[3..] == a[3..] + c;
      EncodeConcat(a[3..], c);
    }
  }

  /** The test vectors of section 10 of RFC 4648 for "", "f", "fo" and "foo". */
  lemma Rfc4648ShortVectors()
    ensures Encode([]) == ""
    ensures Encode([102]) == "Zg=="
    ensures Encode([102, 111]) == "Zm8="
    ensures Encode([102, 111, 111]) == "Zm9v"
  {
  }

  /** The test vectors of section 10 of RFC 4648 for "foob" and "fooba". */
  lemma Rfc4648PaddedVectors()
    ensures Encode([102, 111, 111, 98]) == "Zm9vYg=="
    ensures Encode([102, 111, 111, 98, 97]) == "Zm9vYmE="
  {
  }

  /** The test vector of section 10 of RFC 4648 for "foobar". */
  lemma Rfc4648FoobarVector()
    ensures Encode([102, 111, 111, 98, 97, 114]) == "Zm9vYmFy"
  {
  }

  /** Four alphabet characters as three bytes. */
  function DecodeGroup(q: string): Option<seq<Byte>>
    requires |q| == 4
  {
    var s0 :- IndexOf(q[0]);
    var s1 :- IndexOf(q[1]);
    var s2 :- IndexOf(q[2]);
    var s3 :- IndexOf(q[3]);
    Some([s0 * 4 + s1 / 16, s1 % 16 * 16 + s2 / 4, s2 % 4 * 64 + s3])
  }

  /** The last four characters, which may end in padding; the bits that the
      padding leaves over must be zero, as the encoder writes them. */
  function DecodeFinal(q: string): Option<seq<Byte>>
    requires |q| == 4
  {
    if q[2] == Padding && q[3] == Padding then
      var s0 :- IndexOf(q[0]);
      var s1 :- IndexOf(q[1]);
      if s1 % 16 != 0 then None else Some([s0 * 4 + s1 / 16])
    else if q[3] == Padding then
      var s0 :- IndexOf(q[0]);
      var s1 :- IndexOf(q[1]);
      var s2 :- IndexOf(q[2]);
      if s2 % 4 != 0 then None else Some([s0 * 4 + s1 / 16, s1 % 16 * 16 + s2 / 4])
    else
      DecodeGroup(q)
  }

  /** The bytes a padded encoding stands for, or None for a string no
      encoding produces. */
  function Decode(s: string): Option<seq<Byte>>
    decreases |s|
  {
    if |s| == 0 then Some([])
    else if |s| < 4 then None
    else if |s| == 4 then DecodeFinal(s)
    else
      var head :- DecodeGroup(s[..4]);
      var tail :- Decode(s[4..]);
      Some(head + tail)
  }

  lemma DecodeEncodeGroup(b0: Byte, b1: Byte, b2: Byte)
    ensures DecodeGroup(EncodeGroup(b0, b1, b2)) == Some([b0, b1, b2])
  {
    var s0, s1, s2, s3 := b0 / 4, b0 % 4 * 16 + b1 / 16, b1 % 16 * 4 + b2 / 64, b2 % 64;
    IndexOfAlphabet(s0);
    IndexOfAlphabet(s1);
    IndexOfAlphabet(s2);
    IndexOfAlphabet(s3);
    assert s1 / 16 == b0 % 4 && s1 % 16 == b1 / 16;
    assert s2 / 4 == b1 % 16 && s2 % 4 == b2 / 64;
    assert DecodeGroup(EncodeGroup(b0, b1, b2)) == Some([s0 * 4 + s1 / 16, s1 % 16 * 16 + s2 / 4, s2 % 4 * 64 + s3]);
  }

  lemma DecodeEncodeFinal1(b0: Byte)
    ensures DecodeFinal(EncodeFinal1(b0)) == Some([b0])
  {
    var s0, s1 := b0 / 4, b0 % 4 * 16;
    IndexOfAlphabet(s0);
    IndexOfAlphabet(s1);
    assert s1 % 16 == 0 && s1 / 16 == b0 % 4;
  }

  lemma DecodeEncodeFinal2(b0: Byte, b1: Byte)
    ensures DecodeFinal(EncodeFinal2(b0, b1)) == Some([b0, b1])
  {
    var s0, s1, s2 := b0 / 4, b0 % 4 * 16 + b1 / 16, b1 % 16 * 4;
    IndexOfAlphabet(s0);
    IndexOfAlphabet(s1);
    IndexOfAlphabet(s2);
    assert s2 % 4 == 0 && s2 / 4 == b1 % 16;
    assert s1 / 16 == b0 % 4 && s1 % 16 == b1 / 16;
  }

  /** Decoding a group followed by more characters decodes the group, then the rest. */
  lemma DecodeGroupThen(g: string, rest: string)
    requires |g| == 4 && DecodeGroup(g).Some? && rest != []
    ensures Decode(g + rest) == match Decode(rest)
                                case None => None
                                case Some(tail) => Some(DecodeGroup(g).value + tail)
  {
    var s := g + rest;
    assert s[..4] == g && s[4..] == rest;
  }

  lemma DecodeEncode1(b: seq<Byte>)
    requires |b| == 1
    ensures Decode(Encode(b)) == Some(b)
  {
    DecodeEncodeFinal1(b[0]);
    assert b == [b[0]];
  }

  lemma DecodeEncode2(b: seq<Byte>)
    requires |b| == 2
    ensures Decode(Encode(b)) == Some(b)
  {
    DecodeEncodeFinal2(b[0], b[1]);
    assert b == [b[0], b[1]];
  }

  lemma DecodeEncode3(b: seq<Byte>)
    requires |b| == 3
    ensures Decode(Encode(b)) == Some(b)
  {
    var g := EncodeGroup(b[0], b[1], b[2]);
    assert b[3..] == [];
    assert Encode(b) == g + "";
    assert Encode(b) == g;
    assert g[2] != Padding && g[3] != Padding;
    assert Decode(g) == DecodeGroup(g);
    DecodeEncodeGroup(b[0], b[1], b[2]);
    assert b == [b[0], b[1], b[2]];
  }

  lemma SplitFirstThree(b: seq<Byte>)
    requires |b| >= 3
    ensures b == [b[0], b[1], b[2]] + b[3..]
  {
  }

  lemma DecodeEncodeLonger(b: seq<Byte>)
    requires |b| > 3 && Decode(Encode(b[3..])) == Some(b[3..])
    ensures Decode(Encode(b)) == Some(b)
  {
    var g := EncodeGroup(b[0], b[1], b[2]);
    DecodeEncodeGroup(b[0], b[1], b[2]);
    assert Encode(b) == g + Encode(b[3..]);
    DecodeGroupThen(g, Encode(b[3..]));
    SplitFirstThree(b);
  }

  /** Decoding undoes encoding, so the encoding loses nothing. */
  lemma {:induction false} DecodeEncode(b: seq<Byte>)
    ensures Decode(Encode(b)) == Some(b)
    decreases |b|
  {
    if |b| == 1 {
      DecodeEncode1(b);
    } else if |b| == 2 {
      DecodeEncode2(b);
    } else if |b| == 3 {
      DecodeEncode3(b);
    } else if |b| > 3 {
      DecodeEncode(b[3..]);
      DecodeEncodeLonger(b);
    }
  }

  /** An encoding is made of alphabet and padding characters only, so it can
      stand in an HTTP header as it is. */
  lemma {:induction false} EncodeChars(b: seq<Byte>)
    ensures forall i :: 0 <= i < |Encode(b)| ==> IsEncodingChar(Encode(b)[i])
    decreases |b|
  {
    if |b| >= 3 {
      EncodeChars(b[3..]);
      var g := EncodeGroup(b[0], b[1], b[2]);
      assert Encode(b) == g + Encode(b[3..]);
      forall i | 0 <= i < |g| ensures IsEncodingChar(g[i]) {
        var x := if i == 0 then b[0] / 4 else if i == 1 then b[0] % 4 * 16 + b[1] / 16
                 else if i == 2 then b[1] % 16 * 4 + b[2] / 64 else b[2] % 64;
        assert g[i] == Alphabet(x);
        IndexOfAlphabet(x);
      }
    } else if |b| == 2 {
      IndexOfAlphabet(b[0] / 4);
      IndexOfAlphabet(b[0] % 4 * 16 + b[1] / 16);
      IndexOfAlphabet(b[1] % 16 * 4);
    } else if |b| == 1 {
      IndexOfAlphabet(b[0] / 4);
      IndexOfAlphabet(b[0] % 4 * 16);
    }
  }

  /** Encoding is one-to-one: different credentials give different headers. */
  lemma EncodeInjective(a: seq<Byte>, b: seq<Byte>)
    requires Encode(a) == Encode(b)
    ensures a == b
  {
    DecodeEncode(a);
    DecodeEncode(b);
  }

  lemma EncodeDecodeGroup(q: string)
    requires |q| == 4
    requires DecodeGroup(q).Some?
    ensures var d := DecodeGroup(q).value; EncodeGroup(d[0], d[1], d[2]) == q
  {
    var s0, s1, s2, s3 := IndexOf(q[0]).value, IndexOf(q[1]).value, IndexOf(q[2]).value, IndexOf(q[3]).value;
    var d := DecodeGroup(q).value;
    assert d[0] / 4 == s0 && d[0] % 4 * 16 + d[1] / 16 == s1;
    assert d[1] % 16 * 4 + d[2] / 64 == s2 && d[2] % 64 == s3;
  }

  lemma EncodeDecodeFinal(q: string)
    requires |q| == 4 && DecodeFinal(q).Some?
    requires q[2] == Padding || q[3] == Padding
    ensures Encode(DecodeFinal(q).value) == q
  {
    var d := DecodeFinal(q).value;
    if q[2] == Padding && q[3] == Padding {
      var s0, s1 := IndexOf(q[0]).value, IndexOf(q[1]).value;
      assert d == [s0 * 4 + s1 / 16];
      assert d[0] / 4 == s0 && d[0] % 4 * 16 == s1;
    } else {
      var s0, s1, s2 := IndexOf(q[0]).value, IndexOf(q[1]).value, IndexOf(q[2]).value;
      assert d == [s0 * 4 + s1 / 16, s1 % 16 * 16 + s2 / 4];
      assert d[0] / 4 == s0 && d[0] % 4 * 16 + d[1] / 16 == s1 && d[1] % 16 * 4 == s2;
    }
  }

  lemma EncodeDecodeLast(q: string)
    requires |q| == 4 && Decode(q).Some?
    ensures Encode(Decode(q).value) == q
  {
    if q[2] == Padding || q[3] == Padding {
      EncodeDecodeFinal(q);
    } else {
      var d := DecodeGroup(q).value;
      EncodeDecodeGroup(q);
      assert Encode(d) == EncodeGroup(d[0], d[1], d[2]) + Encode(d[3..]);
      assert d[3..] == [];
    }
  }

  lemma EncodeDecodeLonger(s: string)
    requires |s| > 4 && Decode(s).Some? && Decode(s[4..]).Some?
    requires Encode(Decode(s[4..]).value) == s[4..]
    ensures Encode(Decode(s).value) == s
  {
    var head := DecodeGroup(s[..4]).value;
    var tail := Decode(s[4..]).value;
    EncodeDecodeGroup(s[..4]);
    var d := head + tail;
    assert Decode(s).value == d;
    assert d[3..] == tail;
    assert Encode(d) == EncodeGroup(d[0], d[1], d[2]) + Encode(tail);
    assert s == s[..4] + s[4..];
  }

  /** Every string the decoder accepts is the encoding of what it decodes to. */
  lemma {:induction false} EncodeDecode(s: string)
    requires Decode(s).Some?
    ensures Encode(Decode(s).value) == s
    decreases |s|
  {
    if |s| == 4 {
      EncodeDecodeLast(s);
    } else if |s| > 4 {
      EncodeDecode(s[4..]);
      EncodeDecodeLonger(s);
    }
  }
}
