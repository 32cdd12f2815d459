/**
 * The checks every remote API handler applies to a decoded response
 * before trusting it. Each either passes or raises one failure whose
 * message starts with "Remote API Exception: ".
 */
module RemoteApi {
  import opened Php
  import opened Failures

  const PREFIX := "Remote API Exception: "

  /** `$v != 200` is false, as PHP 8 compares loosely: the integer, an integer-shaped numeric string, or `true`. */
  predicate LooselyEquals200(v: Value)
  {
    match v
    case Int(i) => i == 200
    case Str(s) => ParseInt(s) == Some(200)
    case Bool(b) => b
    case _ => false
  }

  /**
   * `confirmResponseStatusCodeIs200`: a response carrying an `id` passes
   * whatever its code, since that service sends no status code; otherwise
   * a present code other than 200 fails with the response's message.
   */
  function ConfirmResponseStatusCodeIs200(response: Value): (o: Outcome<Error>)
    ensures o.Fail? <==> !IsSet(response, "id") && IsSet(response, "response_code")
                         && !LooselyEquals200(Get(response, "response_code"))
    ensures o.Fail? ==> o.error == ResponseCode(PREFIX + StringOf(Get(response, "message")))
  {
    if !IsSet(response, "id") && IsSet(response, "response_code") && !LooselyEquals200(Get(response, "response_code")) then
      Fail(ResponseCode(PREFIX + StringOf(Get(response, "message"))))
    else Pass
  }

  /** `confirmRestWSFilterResponse`: the response must carry a `list`. */
  function ConfirmRestWSFilterResponse(response: Value): (o: Outcome<Error>)
    ensures o.Fail? <==> !IsSet(response, "list")
    ensures o.Fail? ==> o.error == ResponseCode(PREFIX + "RestWS filter list not present: " + StringOf(response))
  {
    if !IsSet(response, "list") then
      Fail(ResponseCode(PREFIX + "RestWS filter list not present: " + StringOf(response)))
    else Pass
  }

  /** `$v != array()` is false, as PHP 8 compares loosely: null, `false` and the empty array. */
  predicate LooselyEmptyArray(v: Value)
  {
    v == Null || v == Bool(false) || v == Arr([])
  }

  /** `confirmDeletedResponse`: a deletion answers with nothing. */
  function ConfirmDeletedResponse(result: Value): (o: Outcome<Error>)
    ensures o.Pass? <==> result == Null || result == Bool(false) || result == Arr([])
    ensures o.Fail? ==> o.error == ResponseFailure(PREFIX + "Deletion has failed: " + StringOf(result))
  {
    if !LooselyEmptyArray(result) then Fail(ResponseFailure(PREFIX + "Deletion has failed: " + StringOf(result)))
    else Pass
  }

  // ---------------------------------------------------------------------
  // Properties

  /** Every check's failure is an ordinary exception carrying the common prefix. */
  lemma ChecksCarryPrefix(v: Value)
    ensures ConfirmResponseStatusCodeIs200(v).Fail? ==> StartsWith(Message(ConfirmResponseStatusCodeIs200(v).error), PREFIX)
    ensures ConfirmRestWSFilterResponse(v).Fail? ==> StartsWith(Message(ConfirmRestWSFilterResponse(v).error), PREFIX)
    ensures ConfirmDeletedResponse(v).Fail? ==> StartsWith(Message(ConfirmDeletedResponse(v).error), PREFIX)
  {
    var m := StringOf(Get(v, "message"));
    assert (PREFIX + m)[..|PREFIX|] == PREFIX;
    var s := "RestWS filter list not present: " + StringOf(v);
    assert (PREFIX + s)[..|PREFIX|] == PREFIX;
    var d := "Deletion has failed: " + StringOf(v);
    assert (PREFIX + d)[..|PREFIX|] == PREFIX;
  }

  /** A code sent as the decimal text of a number passes the status check exactly when the number is 200. */
  lemma Status200Passes(response: Value, n: int)
    requires Lookup(response, "response_code") == Some(Str(IntToString(n))) && !IsSet(response, "id")
    ensures ConfirmResponseStatusCodeIs200(response) == Pass <==> n == 200
  {
    ParseIntOfIntToString(n);
  }

  /** A response with an `id` passes even with a failing code. */
  lemma IdOverridesCode(id: Value)
    requires id != Null
    ensures ConfirmResponseStatusCodeIs200(Arr([Entry(StrKey("id"), id), Entry(StrKey("response_code"), Int(500))])) == Pass
  {
  }

  /** A failing code without `id` raises the response's message. */
  lemma FailingCodeRaisesMessage()
    ensures ConfirmResponseStatusCodeIs200(Arr([Entry(StrKey("response_code"), Int(500)), Entry(StrKey("message"), Str("boom"))]))
      == Fail(ResponseCode(PREFIX + "boom"))
  {
    var v := Arr([Entry(StrKey("response_code"), Int(500)), Entry(StrKey("message"), Str("boom"))]);
    assert "id"[0] != "response_code"[0] && "id"[0] != "message"[0];
    FindAbsent(v.entries, StrKey("id"));
    assert v.entries[1..][0].key == StrKey("message");
    assert Get(v, "message") == Str("boom");
  }

  /** A deletion answered with a record fails and renders it as "Array". */
  lemma NonEmptyDeletionFails(entries: seq<Entry>)
    requires |entries| >= 1
    ensures ConfirmDeletedResponse(Arr(entries)) == Fail(ResponseFailure(PREFIX + "Deletion has failed: " + "Array"))
  {
  }
}
