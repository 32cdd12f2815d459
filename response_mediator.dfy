/**
 * The response mediator: the body as decoded JSON or as raw text, the
 * pagination links of the `Link` header, and the rate-limit guard.
 */
module Mediator {
  import opened Php
  import opened Failures
  import opened HttpMessage
  import opened LinkHeader

  /** A body as `getContent` hands it on: the decoded value, or the text itself. */
  datatype Content = Decoded(value: Value) | Raw(body: string)

  /**
   * `json_decode($body, true)` with `json_last_error()`: the decoded value,
   * or `None` when the body is not valid JSON. Decoding itself is not part
   * of this model; callers supply it.
   */
  type Decoder = string -> Option<Value>

  /** The content as a PHP value: raw text is a string. */
  function AsValue(c: Content): Value
  {
    match c
    case Decoded(v) => v
    case Raw(s) => Str(s)
  }

  /** `getContent`: the decoded body when it is JSON, otherwise the body unchanged; it never fails. */
  function GetContent(r: Response, decode: Decoder): (c: Content)
    ensures c.Raw? <==> decode(r.body).None?
    ensures c.Raw? ==> c.body == r.body
    ensures c.Decoded? ==> decode(r.body) == Some(c.value)
  {
    match decode(r.body)
    case Some(v) => Decoded(v)
    case None => Raw(r.body)
  }

  /** A body that decodes yields the decoded value as content. */
  lemma DecodedContent(r: Response, decode: Decoder, v: Value)
    requires decode(r.body) == Some(v)
    ensures AsValue(GetContent(r, decode)) == v
  {
  }

  // ---------------------------------------------------------------------
  // Pagination

  /** The link a comma-separated piece of the header contributes, after trimming commas. */
  function PieceLink(piece: string): Option<Link>
  {
    MatchLink(Trim(piece, ','))
  }

  /**
   * The pagination table the pieces build, read in order: each matching
   * piece sets its relation to its url, over any earlier one.
   */
  function Links(pieces: seq<string>): map<string, string>
    decreases |pieces|
  {
    if |pieces| == 0 then map[]
    else
      var before := Links(pieces[..|pieces| - 1]);
      match PieceLink(pieces[|pieces| - 1])
      case Some(l) => before[l.rel := l.url]
      case None => before
  }

  /** What `getPagination` returns: null for an absent or empty header, otherwise the table. */
  function Pagination(r: Response): Option<map<string, string>>
  {
    match Header(r, "Link")
    case None => None
    case Some(h) => if EmptyString(h) then None else Some(Links(Explode(',', h)))
  }

  /** `getPagination`: one pass over the comma-separated pieces of the `Link` header. */
  method GetPagination(r: Response) returns (pagination: Option<map<string, string>>)
    ensures pagination == Pagination(r)
  {
    var header := Header(r, "Link");
    if header.None? || EmptyString(header.value) {
      return None;
    }
    var pieces := Explode(',', header.value);
    var table: map<string, string> := map[];
    var k := 0;
    while k < |pieces|
      invariant 0 <= k <= |pieces|
      invariant table == Links(pieces[..k])
    {
      assert pieces[..k + 1][..k] == pieces[..k];
      var m := MatchLink(Trim(pieces[k], ','));
      if m.Some? {
        table := table[m.value.rel := m.value.url];
      }
      k := k + 1;
    }
    assert pieces[..k] == pieces;
    return Some(table);
  }

  /** Non-matching pieces are skipped, so the table never has more entries than there are pieces. */
  lemma {:induction false} LinksSize(pieces: seq<string>)
    ensures |Links(pieces)| <= |pieces|
    decreases |pieces|
  {
    if |pieces| > 0 {
      var init := pieces[..|pieces| - 1];
      LinksSize(init);
      match PieceLink(pieces[|pieces| - 1])
      case Some(l) =>
        var before := Links(init);
        assert before[l.rel := l.url].Keys == before.Keys + {l.rel};
        assert |before.Keys + {l.rel}| <= |before.Keys| + 1;
      case None =>
    }
  }

  /** The url a relation gets is that of the last piece naming it. */
  lemma {:induction false} LinksLastWins(pieces: seq<string>, k: nat, l: Link)
    requires k < |pieces| && PieceLink(pieces[k]) == Some(l)
    requires forall j :: k < j < |pieces| ==> PieceLink(pieces[j]).None? || PieceLink(pieces[j]).value.rel != l.rel
    ensures l.rel in Links(pieces) && Links(pieces)[l.rel] == l.url
    decreases |pieces|
  {
    var init := pieces[..|pieces| - 1];
    if k < |pieces| - 1 {
      assert forall j :: k < j < |init| ==> init[j] == pieces[j];
      LinksLastWins(init, k, l);
    }
  }

  /** Every entry of the table comes from a piece that matched with that relation and url. */
  lemma {:induction false} LinksSound(pieces: seq<string>, rel: string)
    requires rel in Links(pieces)
    ensures exists k :: 0 <= k < |pieces| && PieceLink(pieces[k]) == Some(Link(Links(pieces)[rel], rel))
    decreases |pieces|
  {
    var init := pieces[..|pieces| - 1];
    var last := |pieces| - 1;
    var m := PieceLink(pieces[last]);
    if m.Some? && m.value.rel == rel {
      assert PieceLink(pieces[last]) == Some(Link(Links(pieces)[rel], rel));
    } else {
      LinksSound(init, rel);
      var k :| 0 <= k < |init| && PieceLink(init[k]) == Some(Link(Links(init)[rel], rel));
      assert pieces[k] == init[k];
    }
  }

  /** The pieces `explode` yields hold no comma, so `trim($link, ',')` leaves them as they are. */
  lemma PiecesNeedNoTrim(h: string)
    ensures forall k :: 0 <= k < |Explode(',', h)| ==> Trim(Explode(',', h)[k], ',') == Explode(',', h)[k]
  {
    ExplodePiecesLackSeparator(',', h);
    forall k | 0 <= k < |Explode(',', h)|
      ensures Trim(Explode(',', h)[k], ',') == Explode(',', h)[k]
    {
      TrimAbsent(Explode(',', h)[k], ',');
    }
  }

  lemma SplitTwo(x: string, y: string)
    requires ',' !in x && ',' !in y
    ensures Explode(',', x + [','] + y) == [x, y]
  {
    ExplodeAfterPiece(',', x, y);
    ExplodeWithoutSeparator(',', y);
  }

  lemma LinksOfTwo(x: string, y: string, l1: Link, l2: Link)
    requires PieceLink(x) == Some(l1) && PieceLink(y) == Some(l2)
    ensures Links([x, y]) == map[l1.rel := l1.url][l2.rel := l2.url]
  {
    assert [x, y][..1] == [x] && [x, y][1] == y;
    assert [x][..0] == [] && [x][0] == x;
    assert Links([x]) == map[][l1.rel := l1.url];
  }

  /** The two-link header is the two pieces around one comma. */
  lemma TwoLinkHeader(u1: string, r1: string, u2: string, r2: string)
    ensures "<" + u1 + ">; rel=\"" + r1 + "\", <" + u2 + ">; rel=\"" + r2 + "\""
         == ("" + "<" + u1 + ">; rel=\"" + r1 + "\"") + [','] + (" " + "<" + u2 + ">; rel=\"" + r2 + "\"")
  {
    assert "\", <" == "\"" + [','] + " " + "<";
    assert "" + "<" == "<";
  }

  /** Text with none of the characters the header syntax gives a meaning to. */
  predicate Plain(s: string)
  {
    '\n' !in s && '"' !in s && ',' !in s && '<' !in s
  }

  /** A piece `<url>; rel="name"`, after an optional blank, yields its link. */
  lemma PieceLinkOfLink(pre: string, u: string, rel: string)
    requires pre == "" || pre == " "
    requires Plain(u) && Plain(rel)
    ensures ',' !in pre + "<" + u + ">; rel=\"" + rel + "\""
    ensures PieceLink(pre + "<" + u + ">; rel=\"" + rel + "\"") == Some(Link(u, rel))
  {
    var x := pre + "<" + u + ">; rel=\"" + rel + "\"";
    assert ',' !in x;
    TrimAbsent(x, ',');
    LinkOfPiece(pre, u, rel, "");
    assert x + "" == x;
  }

  /** The pieces of a two-link header and the table they give. */
  lemma TwoLinksTable(u1: string, r1: string, u2: string, r2: string)
    requires Plain(u1) && Plain(r1) && Plain(u2) && Plain(r2)
    ensures Links(Explode(',', "<" + u1 + ">; rel=\"" + r1 + "\", <" + u2 + ">; rel=\"" + r2 + "\""))
         == map[r1 := u1][r2 := u2]
  {
    var x := "" + "<" + u1 + ">; rel=\"" + r1 + "\"";
    var y := " " + "<" + u2 + ">; rel=\"" + r2 + "\"";
    TwoLinkHeader(u1, r1, u2, r2);
    PieceLinkOfLink("", u1, r1);
    PieceLinkOfLink(" ", u2, r2);
    SplitTwo(x, y);
    LinksOfTwo(x, y, Link(u1, r1), Link(u2, r2));
  }

  /**
   * A two-link header `<u1>; rel="r1", <u2>; rel="r2"` yields both links;
   * when the two names agree, the second url wins.
   */
  lemma TwoLinks(r: Response, u1: string, r1: string, u2: string, r2: string)
    requires Plain(u1) && Plain(r1) && Plain(u2) && Plain(r2)
    requires Header(r, "Link") == Some("<" + u1 + ">; rel=\"" + r1 + "\", <" + u2 + ">; rel=\"" + r2 + "\"")
    ensures Pagination(r) == Some(map[r1 := u1][r2 := u2])
  {
    var h := Header(r, "Link").value;
    assert h != "" && h != "0" by { assert h[0] == '<'; }
    TwoLinksTable(u1, r1, u2, r2);
  }

  // ---------------------------------------------------------------------
  // Rate limit

  /** `getApiLimit`: fails when `X-RateLimit-Remaining` is present and below 1, carrying that header's text. */
  function GetApiLimit(r: Response): (o: Outcome<Error>)
    ensures o.Fail? <==> Header(r, "X-RateLimit-Remaining").Some? && OneExceeds(r.headers["X-RateLimit-Remaining"])
    ensures o.Fail? ==> o.error == ApiLimitExceed(Str(r.headers["X-RateLimit-Remaining"]))
  {
    match Header(r, "X-RateLimit-Remaining")
    case Some(remaining) =>
      if OneExceeds(remaining) then Fail(ApiLimitExceed(Str(remaining))) else Pass
    case None => Pass
  }

  /** With an integer remaining count, the guard fails exactly when the count is below 1. */
  lemma ApiLimitOfCount(r: Response, n: int)
    requires Header(r, "X-RateLimit-Remaining") == Some(IntToString(n))
    ensures GetApiLimit(r).Fail? <==> n < 1
    ensures GetApiLimit(r).Fail? ==> GetApiLimit(r).error.limit == Str(IntToString(n))
  {
    OneExceedsCount(n);
  }
}
