/**
 * The `Link` header reader of the response mediator: a piece of the header
 * is matched against the pattern `<(.*)>; rel="(.*)"` with the `i` flag, as
 * PCRE matches it. A match starts at the leftmost `<` from which the pattern
 * can match at all; both groups are greedy, so the first group takes the
 * longest text it can and the second the longest that remains; `.` matches
 * any character except a line feed; the letters of `rel` match in either
 * case. This is the subset of the link syntax of RFC 8288, section 3, that
 * the client reads.
 */
module LinkHeader {
  import opened Php

  /** One link: the target and its relation name. */
  datatype Link = Link(url: string, rel: string)

  /** ASCII lower case, as the `i` flag folds letters. */
  function Lower(c: char): char
  {
    if 'A' <= c <= 'Z' then (c as int + 32) as char else c
  }

  /** The literal text `>; rel="` of the pattern starts at `e`. */
  predicate SepAt(p: string, e: int)
  {
    0 <= e && e + 8 <= |p|
    && p[e] == '>' && p[e + 1] == ';' && p[e + 2] == ' '
    && Lower(p[e + 3]) == 'r' && Lower(p[e + 4]) == 'e' && Lower(p[e + 5]) == 'l'
    && p[e + 6] == '=' && p[e + 7] == '"'
  }

  /**
   * The pattern matches `p` with `<` at `i`, the first group ending at `e1`
   * (where `>; rel="` starts) and the closing quote at `e2`.
   */
  predicate IsMatch(p: string, i: int, e1: int, e2: int)
  {
    0 <= i < e1 && e1 + 8 <= e2 < |p|
    && p[i] == '<' && SepAt(p, e1) && p[e2] == '"'
    && (forall k :: i < k < e1 ==> p[k] != '\n')
    && (forall k :: e1 + 8 <= k < e2 ==> p[k] != '\n')
  }

  /**
   * The match PCRE reports: no match starts further left, and among the
   * matches from `i` the first group is longest and then the second.
   */
  ghost predicate PreferredMatch(p: string, i: int, e1: int, e2: int)
  {
    IsMatch(p, i, e1, e2)
    && (forall j, a, b :: IsMatch(p, j, a, b) ==> i <= j)
    && (forall a, b :: IsMatch(p, i, a, b) ==> a < e1 || (a == e1 && b <= e2))
  }

  /** The first line feed at or after `j`, or the end of `p`. */
  function NextNewline(p: string, j: nat): (r: nat)
    requires j <= |p|
    ensures j <= r <= |p|
    ensures r < |p| ==> p[r] == '\n'
    ensures forall k :: j <= k < r ==> p[k] != '\n'
    decreases |p| - j
  {
    if j == |p| || p[j] == '\n' then j else NextNewline(p, j + 1)
  }

  /** The last `"` in `p[lo..hi]`. */
  function LastQuote(p: string, lo: nat, hi: nat): (r: Option<nat>)
    requires lo <= hi <= |p|
    ensures r.Some? ==> lo <= r.value < hi && p[r.value] == '"'
    ensures r.Some? ==> forall k :: r.value < k < hi ==> p[k] != '"'
    ensures r.None? ==> forall k :: lo <= k < hi ==> p[k] != '"'
    decreases hi - lo
  {
    if hi == lo then None
    else if p[hi - 1] == '"' then Some(hi - 1)
    else LastQuote(p, lo, hi - 1)
  }

  /** The last start of `>; rel="` that lies wholly inside `p[lo..hi]`. */
  function LastSeparator(p: string, lo: nat, hi: nat): (r: Option<nat>)
    requires hi <= |p|
    ensures r.Some? ==> lo <= r.value && r.value + 8 <= hi && SepAt(p, r.value)
    ensures r.Some? ==> forall e :: r.value < e && e + 8 <= hi ==> !SepAt(p, e)
    ensures r.None? ==> forall e :: lo <= e && e + 8 <= hi ==> !SepAt(p, e)
    decreases hi
  {
    if hi < lo + 8 then None
    else if SepAt(p, hi - 8) then Some(hi - 8)
    else LastSeparator(p, lo, hi - 1)
  }

  /**
   * The greedy match from the `<` at `i`: the closing quote is the last `"`
   * before the first line feed, and the first group ends at the last
   * separator that still leaves room before that quote.
   */
  function MatchAt(p: string, i: nat): Option<(nat, nat)>
    requires i < |p| && p[i] == '<'
  {
    var n := NextNewline(p, i + 1);
    match LastQuote(p, i + 1, n)
    case None => None
    case Some(q) =>
      match LastSeparator(p, i + 1, q)
      case None => None
      case Some(e1) => Some((e1, q))
  }

  /** The leftmost `<` at or after `from` from which the pattern matches, with that match. */
  function FirstMatch(p: string, from: nat): (r: Option<(nat, nat, nat)>)
    requires from <= |p|
    ensures r.Some? ==> from <= r.value.0 < |p| && p[r.value.0] == '<'
    ensures r.Some? ==> MatchAt(p, r.value.0) == Some((r.value.1, r.value.2))
    ensures forall j :: from <= j < |p| && p[j] == '<' && (r.None? || j < r.value.0) ==> MatchAt(p, j).None?
    decreases |p| - from
  {
    if from == |p| then None
    else if p[from] == '<' && MatchAt(p, from).Some? then
      Some((from, MatchAt(p, from).value.0, MatchAt(p, from).value.1))
    else FirstMatch(p, from + 1)
  }

  /** `preg_match('/<(.*)>; rel="(.*)"/i', $p, $match)`: the two groups, or `None` when nothing matches. */
  function MatchLink(p: string): Option<Link>
  {
    match FirstMatch(p, 0)
    case None => None
    case Some((i, e1, e2)) => Some(Link(p[i + 1..e1], p[e1 + 8..e2]))
  }

  /** What `MatchAt` returns is a match. */
  lemma MatchAtSound(p: string, i: nat)
    requires i < |p| && p[i] == '<' && MatchAt(p, i).Some?
    ensures IsMatch(p, i, MatchAt(p, i).value.0, MatchAt(p, i).value.1)
  {
    var n := NextNewline(p, i + 1);
    var q := LastQuote(p, i + 1, n).value;
    var e1 := LastSeparator(p, i + 1, q).value;
    assert MatchAt(p, i) == Some((e1, q));
    assert forall k :: i < k < e1 ==> p[k] != '\n' by {
      forall k | i < k < e1 ensures p[k] != '\n' { assert i + 1 <= k < n; }
    }
    assert forall k :: e1 + 8 <= k < q ==> p[k] != '\n' by {
      forall k | e1 + 8 <= k < q ensures p[k] != '\n' { assert i + 1 <= k < n; }
    }
  }

  /** The separator holds no line feed. */
  lemma SeparatorLacksNewline(p: string, e: int, k: int)
    requires SepAt(p, e) && e <= k < e + 8
    ensures p[k] != '\n'
  {
    if k == e + 3 || k == e + 4 || k == e + 5 {
      assert Lower(p[k]) != '\n';
    }
  }

  /** Every match from `i` is found by `MatchAt`, and none has a longer first group, or an equal one and a longer second. */
  lemma MatchAtGreatest(p: string, i: nat, a: int, b: int)
    requires IsMatch(p, i, a, b)
    ensures MatchAt(p, i).Some?
    ensures a < MatchAt(p, i).value.0 || (a == MatchAt(p, i).value.0 && b <= MatchAt(p, i).value.1)
  {
    var n := NextNewline(p, i + 1);
    forall k | i < k <= b
      ensures p[k] != '\n'
    {
      if a <= k < a + 8 { SeparatorLacksNewline(p, a, k); }
    }
    assert b < n;
    assert i + 1 <= b < n && p[b] == '"';
    var q := LastQuote(p, i + 1, n).value;
    assert b <= q;
    assert i + 1 <= a && a + 8 <= q && SepAt(p, a);
  }

  /** The parser returns the groups of the match PCRE reports. */
  lemma MatchLinkPreferred(p: string, i: int, e1: int, e2: int)
    requires PreferredMatch(p, i, e1, e2)
    ensures MatchLink(p) == Some(Link(p[i + 1..e1], p[e1 + 8..e2]))
  {
    var fm := FirstMatch(p, 0);
    MatchAtGreatest(p, i, e1, e2);
    assert fm.Some?;
    var (j, a, b) := fm.value;
    MatchAtSound(p, j);
    assert IsMatch(p, j, a, b);
    assert i <= j;
    assert j == i;
    assert MatchAt(p, i) == Some((a, b));
    assert a < e1 || (a == e1 && b <= e2);
    assert e1 < a || (e1 == a && e2 <= b);
  }

  /** The parser finds nothing exactly when the pattern matches nowhere in `p`. */
  lemma MatchLinkNone(p: string)
    ensures MatchLink(p).None? <==> forall j, a, b :: !IsMatch(p, j, a, b)
  {
    var fm := FirstMatch(p, 0);
    if fm.Some? {
      var (j, a, b) := fm.value;
      MatchAtSound(p, j);
      assert IsMatch(p, j, a, b);
    } else {
      forall j, a, b | IsMatch(p, j, a, b) ensures false {
        MatchAtGreatest(p, j, a, b);
      }
    }
  }

  /**
   * A match whose `<` is the first one, whose second group holds no `"`
   * and after whose closing quote no `"` follows is the preferred one.
   */
  lemma PreferredOfLayout(p: string, i: int, e1: int, e2: int)
    requires IsMatch(p, i, e1, e2)
    requires forall k :: 0 <= k < i ==> p[k] != '<'
    requires forall k :: e1 + 8 <= k < e2 ==> p[k] != '"'
    requires forall k :: e2 < k < |p| ==> p[k] != '"'
    ensures PreferredMatch(p, i, e1, e2)
  {
    forall a, b | IsMatch(p, i, a, b)
      ensures a < e1 || (a == e1 && b <= e2)
    {
      assert b <= e2;
      assert p[a + 7] == '"' && a + 7 < e2;
      assert a <= e1;
    }
  }

  /** Where the parts of a `<url>; rel="name"` piece lie. */
  lemma PieceLayout(pre: string, url: string, rel: string, post: string)
    ensures var p := pre + "<" + url + ">; rel=\"" + rel + "\"" + post;
      var e1 := |pre| + 1 + |url|;
      var e2 := e1 + 8 + |rel|;
      |p| == e2 + 1 + |post| && p[..|pre|] == pre && p[|pre|] == '<'
      && p[|pre| + 1..e1] == url && p[e1..e1 + 8] == ">; rel=\""
      && p[e1 + 8..e2] == rel && p[e2] == '"' && p[e2 + 1..] == post
  {
  }

  /** The preferred match, described by what each stretch of `p` holds, gives its two groups. */
  lemma MatchOfStretches(p: string, i: int, e1: int, e2: int)
    requires 0 <= i < e1 && e1 + 8 <= e2 < |p|
    requires '<' !in p[..i] && p[i] == '<' && '\n' !in p[i + 1..e1] && SepAt(p, e1)
    requires '\n' !in p[e1 + 8..e2] && '"' !in p[e1 + 8..e2] && p[e2] == '"' && '"' !in p[e2 + 1..]
    ensures MatchLink(p) == Some(Link(p[i + 1..e1], p[e1 + 8..e2]))
  {
    assert forall k :: 0 <= k < i ==> p[k] == p[..i][k];
    assert forall k :: i < k < e1 ==> p[k] == p[i + 1..e1][k - i - 1];
    assert forall k :: e1 + 8 <= k < e2 ==> p[k] == p[e1 + 8..e2][k - e1 - 8];
    assert forall k :: e2 < k < |p| ==> p[k] == p[e2 + 1..][k - e2 - 1];
    assert IsMatch(p, i, e1, e2);
    PreferredOfLayout(p, i, e1, e2);
    MatchLinkPreferred(p, i, e1, e2);
  }

  /** The separator text, wherever it sits, is what the pattern's middle matches. */
  lemma SepOfText(p: string, e: int)
    requires 0 <= e && e + 8 <= |p| && p[e..e + 8] == ">; rel=\""
    ensures SepAt(p, e)
  {
    var sep := p[e..e + 8];
    assert p[e + 3] == sep[3] && p[e + 4] == sep[4] && p[e + 5] == sep[5];
  }

  /** The two groups of a text laid out as a piece, stated over the text's stretches. */
  lemma LinkOfLayout(p: string, pre: string, url: string, rel: string, post: string, e1: int, e2: int)
    requires e1 == |pre| + 1 + |url| && e2 == e1 + 8 + |rel| && |p| == e2 + 1 + |post|
    requires p[..|pre|] == pre && p[|pre|] == '<' && p[|pre| + 1..e1] == url && p[e1..e1 + 8] == ">; rel=\""
    requires p[e1 + 8..e2] == rel && p[e2] == '"' && p[e2 + 1..] == post
    requires '<' !in pre && '\n' !in url && '\n' !in rel && '"' !in rel && '"' !in post
    ensures MatchLink(p) == Some(Link(url, rel))
  {
    SepOfText(p, e1);
    MatchOfStretches(p, |pre|, e1, e2);
  }

  /**
   * A piece shaped `<url>; rel="name"`, with nothing but text free of `<`
   * before it and text free of `"` after it, yields that url and name.
   */
  lemma LinkOfPiece(pre: string, url: string, rel: string, post: string)
    requires '<' !in pre && '\n' !in url && '\n' !in rel && '"' !in rel && '"' !in post
    ensures MatchLink(pre + "<" + url + ">; rel=\"" + rel + "\"" + post) == Some(Link(url, rel))
  {
    var e1 := |pre| + 1 + |url|;
    PieceLayout(pre, url, rel, post);
    LinkOfLayout(pre + "<" + url + ">; rel=\"" + rel + "\"" + post, pre, url, rel, post, e1, e1 + 8 + |rel|);
  }
}
