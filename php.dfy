/**
 * PHP values and the PHP built-ins the remote client leans on: arrays as
 * ordered key/value lists, conversion to string, numeric strings,
 * `explode`/`implode`, `substr`, `trim` and `empty` on strings.
 */
module Php {

  datatype Option<+T> = None | Some(value: T)

  datatype Result<+T, +E> = Success(value: T) | Failure(error: E)

  /** What a PHP function that returns nothing but may throw ends with. */
  datatype Outcome<+E> = Pass | Fail(error: E)

  /** A PHP array key. */
  datatype Key = IntKey(i: int) | StrKey(s: string)

  /**
   * A PHP value as `json_decode($body, true)` yields it and as the client's
   * option table stores it. An array is an ordered list of entries.
   */
  datatype Value =
    | Null
    | Bool(b: bool)
    | Int(i: int)
    | Str(s: string)
    | Arr(entries: seq<Entry>)

  datatype Entry = Entry(key: Key, val: Value)

  /**
   * `$v == $w` as PHP 8 compares a value with a word, a string that is
   * neither empty nor numeric: only the word itself and `true` equal it.
   */
  predicate LooselyEqualsWord(v: Value, w: string)
  {
    v == Str(w) || v == Bool(true)
  }

  /** The value stored under `k` in an ordered list of entries. */
  function Find(entries: seq<Entry>, k: Key): Option<Value>
    decreases |entries|
  {
    if |entries| == 0 then None
    else if entries[0].key == k then Some(entries[0].val)
    else Find(entries[1..], k)
  }

  /** A key none of the entries carries is not found. */
  lemma {:induction false} FindAbsent(entries: seq<Entry>, k: Key)
    requires forall i :: 0 <= i < |entries| ==> entries[i].key != k
    ensures Find(entries, k) == None
    decreases |entries|
  {
    if |entries| > 0 {
      FindAbsent(entries[1..], k);
    }
  }

  /** `$v[$k]` for a non-numeric string key; `None` when `$v` is no array or lacks the key. */
  function Lookup(v: Value, k: string): Option<Value>
  {
    if v.Arr? then Find(v.entries, StrKey(k)) else None
  }

  /** `isset($v[$k])`: the key is there and its value is not null. */
  predicate IsSet(v: Value, k: string)
  {
    Lookup(v, k).Some? && Lookup(v, k).value != Null
  }

  /** `$v[$k]` as PHP reads it: null when absent. */
  function Get(v: Value, k: string): Value
  {
    match Lookup(v, k)
    case Some(x) => x
    case None => Null
  }

  /** The values a `foreach` over `$v` visits; none when `$v` is no array. */
  function Values(v: Value): (r: seq<Value>)
    ensures v.Arr? ==> |r| == |v.entries|
    ensures v.Arr? ==> forall i :: 0 <= i < |r| ==> r[i] == v.entries[i].val
    ensures !v.Arr? ==> r == []
  {
    if v.Arr? then seq(|v.entries|, i requires 0 <= i < |v.entries| => v.entries[i].val) else []
  }

  /** PHP's conversion of a value to string, as `sprintf('%s', …)` and `implode` apply it. */
  function StringOf(v: Value): string
  {
    match v
    case Null => ""
    case Bool(b) => if b then "1" else ""
    case Int(i) => IntToString(i)
    case Str(s) => s
    case Arr(_) => "Array"
  }

  /** `$s ?? ''` for a possibly-null string, as `.` concatenation reads null. */
  function OrEmpty(s: Option<string>): string
  {
    match s
    case Some(x) => x
    case None => ""
  }

  // ---------------------------------------------------------------------
  // Decimal integers

  predicate IsDigit(c: char)
  {
    '0' <= c <= '9'
  }

  predicate IsDigits(s: string)
  {
    forall i :: 0 <= i < |s| ==> IsDigit(s[i])
  }

  function DigitChar(d: nat): (c: char)
    requires d < 10
    ensures IsDigit(c)
  {
    ('0' as int + d) as char
  }

  /** The decimal digits of `n`, most significant first, without leading zeros. */
  function NatToString(n: nat): (s: string)
    ensures |s| >= 1 && IsDigits(s)
    ensures n >= 10 ==> s[0] != '0'
    decreases n
  {
    if n < 10 then [DigitChar(n)]
    else NatToString(n / 10) + [DigitChar(n % 10)]
  }

  /** PHP's decimal rendering of an integer. */
  function IntToString(i: int): string
  {
    if i < 0 then "-" + NatToString(-i) else NatToString(i)
  }

  /** The value of a string of decimal digits. */
  function DigitsValue(s: string): nat
    requires IsDigits(s)
    decreases |s|
  {
    if |s| == 0 then 0
    else DigitsValue(s[..|s| - 1]) * 10 + (s[|s| - 1] as int - '0' as int)
  }

  /**
   * The integer an integer-shaped numeric string denotes: an optional sign
   * followed by one or more decimal digits. Anything else is not read as a
   * number here.
   */
  function ParseInt(s: string): Option<int>
  {
    if |s| >= 2 && s[0] == '-' && IsDigits(s[1..]) then Some(-(DigitsValue(s[1..]) as int))
    else if |s| >= 2 && s[0] == '+' && IsDigits(s[1..]) then Some(DigitsValue(s[1..]))
    else if |s| >= 1 && IsDigits(s) then Some(DigitsValue(s))
    else None
  }

  lemma {:induction false} DigitsValueOfNatToString(n: nat)
    ensures DigitsValue(NatToString(n)) == n
    decreases n
  {
    if n >= 10 {
      var s := NatToString(n / 10) + [DigitChar(n % 10)];
      assert s[..|s| - 1] == NatToString(n / 10);
      DigitsValueOfNatToString(n / 10);
    }
  }

  /** Reading back a rendered integer gives the integer. */
  lemma {:induction false} ParseIntOfIntToString(i: int)
    ensures ParseInt(IntToString(i)) == Some(i)
  {
    if i < 0 {
      var s := "-" + NatToString(-i);
      assert s[1..] == NatToString(-i);
      DigitsValueOfNatToString(-i);
    } else {
      DigitsValueOfNatToString(i);
    }
  }

  /**
   * `1 > $s` for a string `$s`, as PHP 8 compares: numerically when `$s`
   * is an integer-shaped numeric string, otherwise as the strings "1" and
   * `$s`, byte by byte.
   */
  predicate OneExceeds(s: string)
  {
    match ParseInt(s)
    case Some(n) => n < 1
    case None => s == "" || s[0] < '1'
  }

  /** For a rendered integer, PHP's `1 > $s` is the integer comparison. */
  lemma OneExceedsCount(n: int)
    ensures OneExceeds(IntToString(n)) <==> n < 1
  {
    ParseIntOfIntToString(n);
  }

  // ---------------------------------------------------------------------
  // String built-ins

  predicate StartsWith(s: string, prefix: string)
  {
    |prefix| <= |s| && s[..|prefix|] == prefix
  }

  function Min(a: int, b: int): int
  {
    if a <= b then a else b
  }

  /** `substr($s, $start, $length)` for a non-negative start and length. */
  function Substr(s: string, start: nat, length: nat): (r: string)
    ensures |r| <= length
  {
    if start >= |s| then "" else s[start..Min(|s|, start + length)]
  }

  /** `empty($s)` for a string: the empty string and "0" are empty. */
  predicate EmptyString(s: string)
  {
    s == "" || s == "0"
  }

  /** `explode($sep, $s)` for a one-character separator. */
  function Explode(sep: char, s: string): (r: seq<string>)
    ensures |r| >= 1
    decreases |s|
  {
    if |s| == 0 then [""]
    else
      var rest := Explode(sep, s[1..]);
      if s[0] == sep then [""] + rest
      else [[s[0]] + rest[0]] + rest[1..]
  }

  /** `implode($glue, $parts)`. */
  function Implode(glue: string, parts: seq<string>): string
    decreases |parts|
  {
    if |parts| == 0 then ""
    else if |parts| == 1 then parts[0]
    else parts[0] + glue + Implode(glue, parts[1..])
  }

  /** `trim($s, $c)` for a single character `c`. */
  function Trim(s: string, c: char): string
  {
    TrimRight(TrimLeft(s, c), c)
  }

  function TrimLeft(s: string, c: char): string
    decreases |s|
  {
    if |s| > 0 && s[0] == c then TrimLeft(s[1..], c) else s
  }

  function TrimRight(s: string, c: char): string
    decreases |s|
  {
    if |s| > 0 && s[|s| - 1] == c then TrimRight(s[..|s| - 1], c) else s
  }

  /** Trimming a character that does not occur changes nothing. */
  lemma TrimAbsent(s: string, c: char)
    requires c !in s
    ensures Trim(s, c) == s
  {
  }

  /** No piece that `explode` returns holds the separator. */
  lemma {:induction false} ExplodePiecesLackSeparator(sep: char, s: string)
    ensures forall i :: 0 <= i < |Explode(sep, s)| ==> sep !in Explode(sep, s)[i]
    decreases |s|
  {
    if |s| > 0 {
      ExplodePiecesLackSeparator(sep, s[1..]);
    }
  }

  lemma ImplodeCons(glue: string, p: string, parts: seq<string>)
    requires |parts| >= 1
    ensures Implode(glue, [p] + parts) == p + glue + Implode(glue, parts)
  {
    assert ([p] + parts)[1..] == parts;
  }

  /** Gluing `explode`'s pieces back together restores the string. */
  lemma {:induction false} ImplodeExplode(sep: char, s: string)
    ensures Implode([sep], Explode(sep, s)) == s
    decreases |s|
  {
    if |s| > 0 {
      var rest := Explode(sep, s[1..]);
      ImplodeExplode(sep, s[1..]);
      if s[0] == sep {
        ImplodeCons([sep], "", rest);
      } else if |rest| == 1 {
      } else {
        var head := [s[0]] + rest[0];
        ImplodeCons([sep], head, rest[1..]);
        ImplodeCons([sep], rest[0], rest[1..]);
        assert rest == [rest[0]] + rest[1..];
      }
    }
  }

  lemma {:induction false} ExplodeWithoutSeparator(sep: char, x: string)
    requires sep !in x
    ensures Explode(sep, x) == [x]
    decreases |x|
  {
    if |x| > 0 {
      ExplodeWithoutSeparator(sep, x[1..]);
      assert [x[0]] + x[1..] == x;
    }
  }

  lemma {:induction false} ExplodeAfterPiece(sep: char, x: string, y: string)
    requires sep !in x
    ensures Explode(sep, x + [sep] + y) == [x] + Explode(sep, y)
    decreases |x|
  {
    var s := x + [sep] + y;
    if |x| == 0 {
      assert s[1..] == y;
    } else {
      assert s[1..] == x[1..] + [sep] + y;
      ExplodeAfterPiece(sep, x[1..], y);
      assert [x[0]] + x[1..] == x;
    }
  }

  /** Splitting glued pieces, none of which holds the separator, gives the pieces back. */
  lemma {:induction false} ExplodeImplode(sep: char, parts: seq<string>)
    requires |parts| >= 1
    requires forall i :: 0 <= i < |parts| ==> sep !in parts[i]
    ensures Explode(sep, Implode([sep], parts)) == parts
    decreases |parts|
  {
    if |parts| == 1 {
      ExplodeWithoutSeparator(sep, parts[0]);
    } else {
      ExplodeImplode(sep, parts[1..]);
      ExplodeAfterPiece(sep, parts[0], Implode([sep], parts[1..]));
      assert [parts[0]] + parts[1..] == parts;
    }
  }

  /** Appending one more part adds the glue and that part at the end. */
  lemma {:induction false} ImplodeSnoc(glue: string, parts: seq<string>, p: string)
    requires |parts| >= 1
    ensures Implode(glue, parts + [p]) == Implode(glue, parts) + glue + p
    decreases |parts|
  {
    if |parts| == 1 {
      assert (parts + [p])[1..] == [p];
    } else {
      assert (parts + [p])[1..] == parts[1..] + [p];
      ImplodeSnoc(glue, parts[1..], p);
    }
  }
}
