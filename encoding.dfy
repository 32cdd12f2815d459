/**
 * The encodings the authentication listener writes into requests:
 * base64 with the standard alphabet and padding (section 4 of RFC 4648),
 * PHP's `urlencode`, and `http_build_query` producing an
 * `application/x-www-form-urlencoded` query string.
 *
 * A PHP string is a byte string; the model writes it as a Dafny string
 * whose characters stand for bytes (a character's code modulo 256).
 */
module Encoding {
  import opened Php

  type Byte = x: int | 0 <= x < 256

  /** The bytes of a PHP string. */
  function Bytes(s: string): (b: seq<Byte>)
    ensures |b| == |s|
    ensures forall i :: 0 <= i < |s| ==> b[i] == (s[i] as int) % 256
  {
    seq(|s|, i requires 0 <= i < |s| => (s[i] as int) % 256)
  }

  // ---------------------------------------------------------------------
  // Base64, section 4 of RFC 4648

  /** The base64 alphabet: `A`-`Z`, `a`-`z`, `0`-`9`, `+`, `/`. */
  function Symbol(i: int): char
    requires 0 <= i < 64
  {
    if i < 26 then ('A' as int + i) as char
    else if i < 52 then ('a' as int + (i - 26)) as char
    else if i < 62 then ('0' as int + (i - 52)) as char
    else if i == 62 then '+'
    else '/'
  }

  /** The position of a character in the base64 alphabet; `None` for padding and other characters. */
  function SymbolIndex(c: char): (r: Option<int>)
    ensures r.Some? ==> 0 <= r.value < 64 && Symbol(r.value) == c
  {
    if 'A' <= c <= 'Z' then Some(c as int - 'A' as int)
    else if 'a' <= c <= 'z' then Some(c as int - 'a' as int + 26)
    else if '0' <= c <= '9' then Some(c as int - '0' as int + 52)
    else if c == '+' then Some(62)
    else if c == '/' then Some(63)
    else None
  }

  lemma SymbolIndexOfSymbol(i: int)
    requires 0 <= i < 64
    ensures SymbolIndex(Symbol(i)) == Some(i)
  {
  }

  /** The four symbols for three bytes. */
  function EncodeGroup(b0: Byte, b1: Byte, b2: Byte): (q: string)
    ensures |q| == 4
  {
    [Symbol(b0 / 4), Symbol(b0 % 4 * 16 + b1 / 16), Symbol(b1 % 16 * 4 + b2 / 64), Symbol(b2 % 64)]
  }

  /** The padded quantum for a last group of two bytes. */
  function EncodeTwo(b0: Byte, b1: Byte): (q: string)
    ensures |q| == 4
  {
    [Symbol(b0 / 4), Symbol(b0 % 4 * 16 + b1 / 16), Symbol(b1 % 16 * 4), '=']
  }

  /** The padded quantum for a last group of one byte. */
  function EncodeOne(b0: Byte): (q: string)
    ensures |q| == 4
  {
    [Symbol(b0 / 4), Symbol(b0 % 4 * 16), '=', '=']
  }

  /** `base64_encode`: each group of three bytes becomes four symbols; a short last group is padded with `=`. */
  function Base64Encode(b: seq<Byte>): (s: string)
    ensures |s| == (|b| + 2) / 3 * 4
    decreases |b|
  {
    if |b| == 0 then ""
    else if |b| == 1 then EncodeOne(b[0])
    else if |b| == 2 then EncodeTwo(b[0], b[1])
    else QuantaStep(|b|); EncodeGroup(b[0], b[1], b[2]) + Base64Encode(b[3..])
  }

  /** Three more bytes take one more quantum. */
  lemma QuantaStep(n: nat)
    requires n >= 3
    ensures (n + 2) / 3 * 4 == 4 + (n - 3 + 2) / 3 * 4
  {
  }

  /** The bytes one four-character quantum stands for; padding is accepted only in the last one. */
  function DecodeQuantum(q: string, last: bool): Option<seq<Byte>>
    requires |q| == 4
  {
    var i0, i1, i2, i3 := SymbolIndex(q[0]), SymbolIndex(q[1]), SymbolIndex(q[2]), SymbolIndex(q[3]);
    if i0.Some? && i1.Some? && i2.Some? && i3.Some? then
      Some([i0.value * 4 + i1.value / 16, i1.value % 16 * 16 + i2.value / 4, i2.value % 4 * 64 + i3.value])
    else if last && i0.Some? && i1.Some? && i2.Some? && q[3] == '=' then
      Some([i0.value * 4 + i1.value / 16, i1.value % 16 * 16 + i2.value / 4])
    else if last && i0.Some? && i1.Some? && q[2] == '=' && q[3] == '=' then
      Some([i0.value * 4 + i1.value / 16])
    else None
  }

  /** Base64 decoding; `None` for text that is not a sequence of well-formed quanta. */
  function Base64Decode(s: string): Option<seq<Byte>>
    decreases |s|
  {
    if |s| == 0 then Some([])
    else if |s| < 4 then None
    else
      match DecodeQuantum(s[..4], |s| == 4)
      case None => None
      case Some(q) =>
        match Base64Decode(s[4..])
        case None => None
        case Some(rest) => Some(q + rest)
  }

  lemma QuantumArithmetic(b0: Byte, b1: Byte, b2: Byte)
    ensures b0 / 4 * 4 + (b0 % 4 * 16 + b1 / 16) / 16 == b0
    ensures (b0 % 4 * 16 + b1 / 16) % 16 * 16 + (b1 % 16 * 4 + b2 / 64) / 4 == b1
    ensures (b1 % 16 * 4 + b2 / 64) % 4 * 64 + b2 % 64 == b2
    ensures (b0 % 4 * 16) / 16 == b0 % 4
    ensures (b1 % 16 * 4) / 4 == b1 % 16
  {
  }

  /** A quantum of four alphabet symbols decodes to the three bytes their indices spell. */
  lemma QuantumOfIndices(q: string, last: bool, i0: int, i1: int, i2: int, i3: int)
    requires |q| == 4
    requires SymbolIndex(q[0]) == Some(i0) && SymbolIndex(q[1]) == Some(i1)
    requires SymbolIndex(q[2]) == Some(i2) && SymbolIndex(q[3]) == Some(i3)
    ensures DecodeQuantum(q, last) == Some([i0 * 4 + i1 / 16, i1 % 16 * 16 + i2 / 4, i2 % 4 * 64 + i3])
  {
  }

  lemma FullQuantum(b0: Byte, b1: Byte, b2: Byte, last: bool)
    ensures DecodeQuantum(EncodeGroup(b0, b1, b2), last) == Some([b0, b1, b2])
  {
    var i0, i1, i2, i3 := b0 / 4, b0 % 4 * 16 + b1 / 16, b1 % 16 * 4 + b2 / 64, b2 % 64;
    QuantumArithmetic(b0, b1, b2);
    SymbolIndexOfSymbol(i0);
    SymbolIndexOfSymbol(i1);
    SymbolIndexOfSymbol(i2);
    SymbolIndexOfSymbol(i3);
    QuantumOfIndices(EncodeGroup(b0, b1, b2), last, i0, i1, i2, i3);
  }

  lemma TwoByteQuantum(b0: Byte, b1: Byte)
    ensures DecodeQuantum(EncodeTwo(b0, b1), true) == Some([b0, b1])
  {
    QuantumArithmetic(b0, b1, 0);
    SymbolIndexOfSymbol(b0 / 4);
    SymbolIndexOfSymbol(b0 % 4 * 16 + b1 / 16);
    SymbolIndexOfSymbol(b1 % 16 * 4);
  }

  lemma OneByteQuantum(b0: Byte)
    ensures DecodeQuantum(EncodeOne(b0), true) == Some([b0])
  {
    QuantumArithmetic(b0, 0, 0);
    SymbolIndexOfSymbol(b0 / 4);
    SymbolIndexOfSymbol(b0 % 4 * 16);
  }

  lemma DecodeCons(q: string, t: string, x: seq<Byte>, y: seq<Byte>)
    requires |q| == 4
    requires DecodeQuantum(q, |t| == 0) == Some(x)
    requires Base64Decode(t) == Some(y)
    ensures Base64Decode(q + t) == Some(x + y)
  {
    assert (q + t)[..4] == q;
    assert (q + t)[4..] == t;
  }

  lemma ShortRoundTrip(q: string, x: seq<Byte>)
    requires |q| == 4 && DecodeQuantum(q, true) == Some(x)
    ensures Base64Decode(q) == Some(x)
  {
    DecodeCons(q, "", x, []);
    assert q + "" == q;
    assert x + [] == x;
  }

  lemma OneByteRoundTrip(b0: Byte)
    ensures Base64Decode(EncodeOne(b0)) == Some([b0])
  {
    OneByteQuantum(b0);
    ShortRoundTrip(EncodeOne(b0), [b0]);
  }

  lemma TwoByteRoundTrip(b0: Byte, b1: Byte)
    ensures Base64Decode(EncodeTwo(b0, b1)) == Some([b0, b1])
  {
    TwoByteQuantum(b0, b1);
    ShortRoundTrip(EncodeTwo(b0, b1), [b0, b1]);
  }

  lemma OneGroupRoundTrip(b: seq<Byte>)
    requires |b| == 1
    ensures Base64Decode(Base64Encode(b)) == Some(b)
  {
    assert b == [b[0]];
    assert Base64Encode(b) == EncodeOne(b[0]);
    OneByteRoundTrip(b[0]);
  }

  lemma TwoGroupRoundTrip(b: seq<Byte>)
    requires |b| == 2
    ensures Base64Decode(Base64Encode(b)) == Some(b)
  {
    assert b == [b[0], b[1]];
    assert Base64Encode(b) == EncodeTwo(b[0], b[1]);
    TwoByteRoundTrip(b[0], b[1]);
  }

  lemma FullGroupStep(b0: Byte, b1: Byte, b2: Byte, t: string, y: seq<Byte>)
    requires Base64Decode(t) == Some(y)
    ensures Base64Decode(EncodeGroup(b0, b1, b2) + t) == Some([b0, b1, b2] + y)
  {
    FullQuantum(b0, b1, b2, |t| == 0);
    DecodeCons(EncodeGroup(b0, b1, b2), t, [b0, b1, b2], y);
  }

  lemma EncodeCons(b: seq<Byte>)
    requires |b| >= 3
    ensures Base64Encode(b) == EncodeGroup(b[0], b[1], b[2]) + Base64Encode(b[3..])
  {
  }

  lemma SplitThree(b: seq<Byte>)
    requires |b| >= 3
    ensures b == [b[0], b[1], b[2]] + b[3..]
  {
  }

  lemma LongRoundTrip(b: seq<Byte>)
    requires |b| >= 3 && Base64Decode(Base64Encode(b[3..])) == Some(b[3..])
    ensures Base64Decode(Base64Encode(b)) == Some(b)
  {
    EncodeCons(b);
    SplitThree(b);
    FullGroupStep(b[0], b[1], b[2], Base64Encode(b[3..]), b[3..]);
  }

  /** Decoding what `base64_encode` produced gives back the bytes. */
  lemma {:induction false} Base64RoundTrip(b: seq<Byte>)
    ensures Base64Decode(Base64Encode(b)) == Some(b)
    decreases |b|
  {
    if |b| >= 3 {
      Base64RoundTrip(b[3..]);
      LongRoundTrip(b);
    } else if |b| == 2 {
      TwoGroupRoundTrip(b);
    } else if |b| == 1 {
      OneGroupRoundTrip(b);
    }
  }

  /** Every character of the encoding is in the base64 alphabet or is padding. */
  lemma {:induction false} Base64Alphabet(b: seq<Byte>)
    ensures forall i :: 0 <= i < |Base64Encode(b)| ==>
      SymbolIndex(Base64Encode(b)[i]).Some? || Base64Encode(b)[i] == '='
    decreases |b|
  {
    if |b| >= 3 {
      Base64Alphabet(b[3..]);
      SymbolIndexOfSymbol(b[0] / 4);
      SymbolIndexOfSymbol(b[0] % 4 * 16 + b[1] / 16);
      SymbolIndexOfSymbol(b[1] % 16 * 4 + b[2] / 64);
      SymbolIndexOfSymbol(b[2] % 64);
      var q, t := EncodeGroup(b[0], b[1], b[2]), Base64Encode(b[3..]);
      assert Base64Encode(b) == q + t;
      forall i | 0 <= i < |q + t|
        ensures SymbolIndex((q + t)[i]).Some? || (q + t)[i] == '='
      {
        if i >= 4 { assert (q + t)[i] == t[i - 4]; }
      }
    } else if |b| == 2 {
      SymbolIndexOfSymbol(b[0] / 4);
      SymbolIndexOfSymbol(b[0] % 4 * 16 + b[1] / 16);
      SymbolIndexOfSymbol(b[1] % 16 * 4);
    } else if |b| == 1 {
      SymbolIndexOfSymbol(b[0] / 4);
      SymbolIndexOfSymbol(b[0] % 4 * 16);
    }
  }

  // ---------------------------------------------------------------------
  // urlencode and http_build_query

  /** The bytes `urlencode` leaves as they are: ASCII letters, digits, `-`, `_` and `.`. */
  predicate Unreserved(b: Byte)
  {
    ('a' as int <= b <= 'z' as int) || ('A' as int <= b <= 'Z' as int) || ('0' as int <= b <= '9' as int)
    || b == '-' as int || b == '_' as int || b == '.' as int
  }

  function HexDigit(d: int): char
    requires 0 <= d < 16
  {
    if d < 10 then ('0' as int + d) as char else ('A' as int + (d - 10)) as char
  }

  function HexValue(c: char): (r: Option<int>)
    ensures r.Some? ==> 0 <= r.value < 16
  {
    if '0' <= c <= '9' then Some(c as int - '0' as int)
    else if 'A' <= c <= 'F' then Some(c as int - 'A' as int + 10)
    else if 'a' <= c <= 'f' then Some(c as int - 'a' as int + 10)
    else None
  }

  /** The characters `urlencode` can produce. */
  predicate QueryChar(c: char)
  {
    ('a' <= c <= 'z') || ('A' <= c <= 'Z') || ('0' <= c <= '9')
    || c == '-' || c == '_' || c == '.' || c == '+' || c == '%'
  }

  function EncodeByte(b: Byte): (s: string)
    ensures forall i :: 0 <= i < |s| ==> QueryChar(s[i])
  {
    if Unreserved(b) then [b as char]
    else if b == 32 then "+"
    else ['%', HexDigit(b / 16), HexDigit(b % 16)]
  }

  /** `urlencode`: unreserved bytes stay, a space becomes `+`, every other byte becomes `%XX` in upper-case hex. */
  function UrlEncode(b: seq<Byte>): (s: string)
    ensures forall i :: 0 <= i < |s| ==> QueryChar(s[i])
    decreases |b|
  {
    if |b| == 0 then "" else EncodeByte(b[0]) + UrlEncode(b[1..])
  }

  /** `urldecode`: `+` is a space, `%XX` is the byte XX, anything else stands for itself. */
  function UrlDecode(s: string): seq<Byte>
    decreases |s|
  {
    if |s| == 0 then []
    else if s[0] == '+' then [32] + UrlDecode(s[1..])
    else if s[0] == '%' && |s| >= 3 && HexValue(s[1]).Some? && HexValue(s[2]).Some? then
      [HexValue(s[1]).value * 16 + HexValue(s[2]).value] + UrlDecode(s[3..])
    else [(s[0] as int) % 256] + UrlDecode(s[1..])
  }

  lemma DecodeEncodedByte(b: Byte, tail: string)
    ensures UrlDecode(EncodeByte(b) + tail) == [b] + UrlDecode(tail)
  {
    var s := EncodeByte(b) + tail;
    if Unreserved(b) {
      assert s[1..] == tail;
    } else if b == 32 {
      assert s[1..] == tail;
    } else {
      assert s[3..] == tail;
      assert HexValue(HexDigit(b / 16)) == Some(b / 16);
      assert HexValue(HexDigit(b % 16)) == Some(b % 16);
    }
  }

  /** `urldecode` undoes `urlencode`. */
  lemma {:induction false} UrlRoundTrip(b: seq<Byte>)
    ensures UrlDecode(UrlEncode(b)) == b
    decreases |b|
  {
    if |b| > 0 {
      DecodeEncodedByte(b[0], UrlEncode(b[1..]));
      UrlRoundTrip(b[1..]);
      assert [b[0]] + b[1..] == b;
    }
  }

  /** `urlencode`'s output is ASCII and holds none of the characters that structure a query string. */
  lemma UrlEncodeIsInert(b: seq<Byte>)
    ensures forall i :: 0 <= i < |UrlEncode(b)| ==>
      UrlEncode(b)[i] as int < 128 && UrlEncode(b)[i] !in "&=?#"
  {
    var s := UrlEncode(b);
    forall i | 0 <= i < |s|
      ensures s[i] as int < 128 && s[i] !in "&=?#"
    {
      assert QueryChar(s[i]);
    }
  }

  /** The `key=value` parts of `http_build_query`; pairs whose value is null are skipped. */
  function QueryParts(pairs: seq<(string, Option<string>)>): (parts: seq<string>)
    ensures |parts| <= |pairs|
    decreases |pairs|
  {
    if |pairs| == 0 then []
    else
      var (k, v) := pairs[0];
      (if v.None? then [] else [UrlEncode(Bytes(k)) + "=" + UrlEncode(Bytes(v.value))])
      + QueryParts(pairs[1..])
  }

  /** `http_build_query($pairs, '', '&')` for string or null values. */
  function BuildQuery(pairs: seq<(string, Option<string>)>): string
  {
    Implode("&", QueryParts(pairs))
  }

  /** The pairs with a value, as bytes: what a form decoder should read back. */
  function PresentPairs(pairs: seq<(string, Option<string>)>): seq<(seq<Byte>, seq<Byte>)>
    decreases |pairs|
  {
    if |pairs| == 0 then []
    else
      var (k, v) := pairs[0];
      (if v.None? then [] else [(Bytes(k), Bytes(v.value))]) + PresentPairs(pairs[1..])
  }

  /** The index of the first occurrence of `c` in `s`. */
  function FirstIndex(s: string, c: char): (r: Option<nat>)
    ensures r.Some? ==> r.value < |s| && s[r.value] == c && c !in s[..r.value]
    ensures r.None? ==> c !in s
    decreases |s|
  {
    if |s| == 0 then None
    else if s[0] == c then Some(0)
    else
      match FirstIndex(s[1..], c)
      case None => None
      case Some(i) => Some(i + 1)
  }

  /** Splits one `key=value` part at its first `=` and decodes both halves. */
  function SplitPair(part: string): (seq<Byte>, seq<Byte>)
  {
    match FirstIndex(part, '=')
    case None => (UrlDecode(part), [])
    case Some(i) => (UrlDecode(part[..i]), UrlDecode(part[i + 1..]))
  }

  function ParseParts(parts: seq<string>): seq<(seq<Byte>, seq<Byte>)>
    decreases |parts|
  {
    if |parts| == 0 then [] else [SplitPair(parts[0])] + ParseParts(parts[1..])
  }

  /** An `application/x-www-form-urlencoded` decoder: split on `&`, then each part at its first `=`. */
  function ParseQuery(q: string): seq<(seq<Byte>, seq<Byte>)>
  {
    if q == "" then [] else ParseParts(Explode('&', q))
  }

  lemma {:induction false} FirstIndexAfter(x: string, c: char, y: string)
    requires c !in x
    ensures FirstIndex(x + [c] + y, c) == Some(|x|)
    decreases |x|
  {
    if |x| > 0 {
      assert (x + [c] + y)[1..] == x[1..] + [c] + y;
      FirstIndexAfter(x[1..], c, y);
    }
  }

  lemma SplitPairOfEncoded(k: seq<Byte>, v: seq<Byte>)
    ensures SplitPair(UrlEncode(k) + "=" + UrlEncode(v)) == (k, v)
  {
    var ek, ev := UrlEncode(k), UrlEncode(v);
    var part := ek + "=" + ev;
    UrlEncodeIsInert(k);
    assert '=' !in ek;
    FirstIndexAfter(ek, '=', ev);
    assert part[..|ek|] == ek;
    assert part[|ek| + 1..] == ev;
    UrlRoundTrip(k);
    UrlRoundTrip(v);
  }

  lemma {:induction false} ParsePartsAppend(a: seq<string>, b: seq<string>)
    ensures ParseParts(a + b) == ParseParts(a) + ParseParts(b)
    decreases |a|
  {
    if |a| > 0 {
      assert (a + b)[0] == a[0];
      assert (a + b)[1..] == a[1..] + b;
      ParsePartsAppend(a[1..], b);
      calc {
        ParseParts(a + b);
        [SplitPair(a[0])] + ParseParts(a[1..] + b);
        [SplitPair(a[0])] + (ParseParts(a[1..]) + ParseParts(b));
        ([SplitPair(a[0])] + ParseParts(a[1..])) + ParseParts(b);
        ParseParts(a) + ParseParts(b);
      }
    } else {
      assert a + b == b;
    }
  }

  /** No part that `http_build_query` emits holds `&`, and each holds one `=` after the encoded key. */
  lemma {:induction false} QueryPartsShape(pairs: seq<(string, Option<string>)>)
    ensures forall i :: 0 <= i < |QueryParts(pairs)| ==> '&' !in QueryParts(pairs)[i] && |QueryParts(pairs)[i]| >= 1
    decreases |pairs|
  {
    if |pairs| > 0 {
      QueryPartsShape(pairs[1..]);
      var (k, v) := pairs[0];
      if v.Some? {
        var ek, ev := UrlEncode(Bytes(k)), UrlEncode(Bytes(v.value));
        UrlEncodeIsInert(Bytes(k));
        UrlEncodeIsInert(Bytes(v.value));
        var part := ek + "=" + ev;
        assert forall j :: 0 <= j < |part| ==> part[j] != '&' by {
          forall j | 0 <= j < |part| ensures part[j] != '&' {
            if j < |ek| { assert part[j] == ek[j]; }
            else if j > |ek| { assert part[j] == ev[j - |ek| - 1]; }
          }
        }
      }
    }
  }

  lemma {:induction false} ParseQueryParts(pairs: seq<(string, Option<string>)>)
    ensures ParseParts(QueryParts(pairs)) == PresentPairs(pairs)
    decreases |pairs|
  {
    if |pairs| > 0 {
      var (k, v) := pairs[0];
      var head := if v.None? then [] else [UrlEncode(Bytes(k)) + "=" + UrlEncode(Bytes(v.value))];
      assert QueryParts(pairs) == head + QueryParts(pairs[1..]);
      ParsePartsAppend(head, QueryParts(pairs[1..]));
      ParseQueryParts(pairs[1..]);
      if v.Some? {
        SplitPairOfEncoded(Bytes(k), Bytes(v.value));
      }
    }
  }

  /** A form decoder reads back from `http_build_query` exactly the pairs whose value is not null, in order. */
  lemma QueryRoundTrip(pairs: seq<(string, Option<string>)>)
    ensures ParseQuery(BuildQuery(pairs)) == PresentPairs(pairs)
  {
    var parts := QueryParts(pairs);
    ParseQueryParts(pairs);
    QueryPartsShape(pairs);
    if |parts| == 0 {
    } else {
      ExplodeImplode('&', parts);
      ImplodeNonEmpty("&", parts);
    }
  }

  lemma {:induction false} ImplodeNonEmpty(glue: string, parts: seq<string>)
    requires |parts| >= 1 && |parts[0]| >= 1
    ensures Implode(glue, parts) != ""
  {
  }
}
