/**
 * The error listener: for a client or server error response it raises
 * exactly one failure, chosen by a fixed chain of checks on the status
 * code, the rate-limit and two-factor headers and the decoded body.
 * Comparisons follow PHP 8.
 */
module ErrorHandling {
  import opened Php
  import opened Failures
  import opened HttpMessage
  import opened Mediator

  const RATE_LIMIT_HEADER := "X-RateLimit-Remaining"
  const OTP_HEADER := "X-SauceLabs-OTP"

  /** A response the listener raises for. */
  predicate IsError(r: Response)
  {
    IsClientError(r) || IsServerError(r)
  }

  /** The rate-limit check: the remaining count is given and below 1, and the resource is not the rate-limit endpoint. */
  predicate RateLimited(resource: string, r: Response)
  {
    var remaining := HeaderText(r, RATE_LIMIT_HEADER);
    remaining != "" && OneExceeds(remaining) && Substr(resource, 1, 10) != "rate_limit"
  }

  /** The two-factor check: a 401 whose challenge header starts with `required;`. */
  predicate ChallengeRequired(r: Response)
  {
    r.status == 401 && Header(r, OTP_HEADER).Some? && StartsWith(Header(r, OTP_HEADER).value, "required;")
  }

  /** The factor type: the challenge header from index 9 on. */
  function Challenge(r: Response): string
  {
    var h := HeaderText(r, OTP_HEADER);
    Substr(h, 9, |h|)
  }

  /** The sentence one entry of a 422 `errors` list renders to; `switch` compares the code loosely. */
  function Sentence(entry: Value): string
  {
    var code := Get(entry, "code");
    var field := StringOf(Get(entry, "field"));
    var resource := StringOf(Get(entry, "resource"));
    if LooselyEqualsWord(code, "missing") then
      "The " + field + " " + StringOf(Get(entry, "value")) + " does not exist, for resource \"" + resource + "\""
    else if LooselyEqualsWord(code, "missing_field") then "Field \"" + field + "\" is missing, for resource \"" + resource + "\""
    else if LooselyEqualsWord(code, "invalid") then "Field \"" + field + "\" is invalid, for resource \"" + resource + "\""
    else if LooselyEqualsWord(code, "already_exists") then "Field \"" + field + "\" already exists, for resource \"" + resource + "\""
    else StringOf(Get(entry, "message"))
  }

  /** The sentences of the entries, in order. */
  function Sentences(entries: seq<Value>): (s: seq<string>)
    ensures |s| == |entries|
    ensures forall i :: 0 <= i < |s| ==> s[i] == Sentence(entries[i])
  {
    seq(|entries|, i requires 0 <= i < |entries| => Sentence(entries[i]))
  }

  /** The message of the validation failure. */
  function ValidationMessage(entries: seq<Value>): string
  {
    "Validation Failed: " + Implode(", ", Sentences(entries))
  }

  /**
   * The PHP type error an exception constructor raises when handed an array
   * as its message; the text is a paraphrase of PHP's, which also names the
   * constructor and the parameter.
   */
  const ArrayMessage := Fatal("Exception message must be of type string, array given")

  /** `new BadRequestException($message, 400)`. */
  function BadRequestOf(message: Value): Error
  {
    if message.Arr? then ArrayMessage else BadRequest(StringOf(message), 400)
  }

  /** `new RuntimeException($message, $code)`. */
  function RuntimeOf(message: Value, code: int): Error
  {
    if message.Arr? then ArrayMessage else Runtime(StringOf(message), code)
  }

  /**
   * The message of the generic failure: a nested `error` object is
   * unwrapped first, then its `message` is taken; without one the value
   * itself is the message.
   */
  function GenericMessage(content: Value): Value
  {
    var unwrapped := if IsSet(content, "error") then Get(content, "error") else content;
    if IsSet(unwrapped, "message") then Get(unwrapped, "message") else unwrapped
  }

  /** The failure for the decoded content, once the header checks have not fired. */
  function ContentFailure(content: Value, status: int): (e: Error)
    ensures e.BadRequest? ==> status == 400 && e.code == 400
    ensures e.ValidationFailed? ==> status == 422 && e.code == 422
    ensures e.Runtime? ==> e.code == status
    ensures e.BadRequest? || e.ValidationFailed? || e.Runtime? || e.Fatal?
    ensures IsSet(content, "message") && status == 400 ==> e == BadRequestOf(Get(content, "message"))
    ensures IsSet(content, "message") && status == 422 && IsSet(content, "errors") ==>
      e == ValidationFailed(ValidationMessage(Values(Get(content, "errors"))), 422)
    ensures !(IsSet(content, "message") && (status == 400 || (status == 422 && IsSet(content, "errors")))) ==>
      e == RuntimeOf(GenericMessage(content), status)
  {
    if IsSet(content, "message") && status == 400 then
      BadRequestOf(Get(content, "message"))
    else if IsSet(content, "message") && status == 422 && IsSet(content, "errors") then
      ValidationFailed(ValidationMessage(Values(Get(content, "errors"))), 422)
    else
      RuntimeOf(GenericMessage(content), status)
  }

  /** A top-level string `message` at any status other than the two special ones is the generic failure's message. */
  lemma TopLevelMessage(content: Value, status: int, message: string)
    requires status != 400 && (status != 422 || !IsSet(content, "errors"))
    requires !IsSet(content, "error") && Lookup(content, "message") == Some(Str(message))
    ensures ContentFailure(content, status) == Runtime(message, status)
  {
    assert GenericMessage(content) == Str(message);
  }

  /** The one failure raised for an error response, in order of precedence. */
  function Classify(apiLimit: Value, resource: string, r: Response, decode: Decoder): (e: Error)
    ensures e.ApiLimitExceed? <==> RateLimited(resource, r)
    ensures e.ApiLimitExceed? ==> e.limit == apiLimit
    ensures e.TwoFactorRequired? <==> !RateLimited(resource, r) && ChallengeRequired(r)
    ensures e.TwoFactorRequired? ==> r.status == 401 && e.factor == Challenge(r)
    ensures e.BadRequest? ==> r.status == 400 && e.code == 400
    ensures e.ValidationFailed? ==> r.status == 422 && e.code == 422 && StartsWith(e.message, "Validation Failed: ")
    ensures e.Runtime? ==> e.code == r.status
    ensures !RateLimited(resource, r) && !ChallengeRequired(r) ==>
      e == ContentFailure(AsValue(GetContent(r, decode)), r.status)
  {
    if RateLimited(resource, r) then ApiLimitExceed(apiLimit)
    else if ChallengeRequired(r) then TwoFactorRequired(Challenge(r))
    else ContentFailure(AsValue(GetContent(r, decode)), r.status)
  }

  /** What `onRequestError` does with a response: nothing, or exactly one failure. */
  function Respond(apiLimit: Value, resource: string, r: Response, decode: Decoder): (o: Outcome<Error>)
    ensures o.Fail? <==> 400 <= r.status < 600
    ensures o.Fail? ==> o.error == Classify(apiLimit, resource, r, decode)
  {
    if IsError(r) then Fail(Classify(apiLimit, resource, r, decode)) else Pass
  }

  /** The 422 message, built by rendering the entries one by one and gluing the sentences with ", ". */
  method RenderValidation(entries: seq<Value>) returns (message: string)
    ensures message == ValidationMessage(entries)
  {
    var errors: seq<string> := [];
    var k := 0;
    while k < |entries|
      invariant 0 <= k <= |entries|
      invariant errors == Sentences(entries[..k])
    {
      errors := errors + [Sentence(entries[k])];
      k := k + 1;
    }
    assert entries[..k] == entries;
    message := "Validation Failed: " + Implode(", ", errors);
  }

  class ErrorListener {
    const options: map<string, Value>

    constructor (options: map<string, Value>)
      ensures this.options == options
    {
      this.options := options;
    }

    /** `$this->options['api_limit']`; null when the table lacks it. */
    function ApiLimit(): Value
    {
      if "api_limit" in options then options["api_limit"] else Null
    }

    /** `onRequestError`, for the request's resource path and its response. */
    method OnRequestError(resource: string, response: Response, decode: Decoder) returns (o: Outcome<Error>)
      ensures o == Respond(ApiLimit(), resource, response, decode)
    {
      if !(IsClientError(response) || IsServerError(response)) {
        return Pass;
      }
      var remaining := HeaderText(response, RATE_LIMIT_HEADER);
      if remaining != "" && OneExceeds(remaining) && Substr(resource, 1, 10) != "rate_limit" {
        return Fail(ApiLimitExceed(ApiLimit()));
      }
      if response.status == 401 {
        var otp := Header(response, OTP_HEADER);
        if otp.Some? && StartsWith(otp.value, "required;") {
          return Fail(TwoFactorRequired(Substr(otp.value, 9, |otp.value|)));
        }
      }
      var content := AsValue(GetContent(response, decode));
      if IsSet(content, "message") {
        if response.status == 400 {
          return Fail(BadRequestOf(Get(content, "message")));
        } else if response.status == 422 && IsSet(content, "errors") {
          var message := RenderValidation(Values(Get(content, "errors")));
          return Fail(ValidationFailed(message, 422));
        }
      }
      if IsSet(content, "error") {
        content := Get(content, "error");
      }
      var message := if IsSet(content, "message") then Get(content, "message") else content;
      return Fail(RuntimeOf(message, response.status));
    }
  }

  // ---------------------------------------------------------------------
  // Properties

  /** One more entry adds its sentence at the end, after ", ". */
  lemma ValidationMessageSnoc(entries: seq<Value>, entry: Value)
    requires |entries| >= 1
    ensures ValidationMessage(entries + [entry]) == ValidationMessage(entries) + ", " + Sentence(entry)
  {
    SentencesSnoc(entries, entry);
    ImplodeSnoc(", ", Sentences(entries), Sentence(entry));
  }

  lemma SentencesSnoc(entries: seq<Value>, entry: Value)
    ensures Sentences(entries + [entry]) == Sentences(entries) + [Sentence(entry)]
  {
    var longer, shorter := Sentences(entries + [entry]), Sentences(entries) + [Sentence(entry)];
    forall i | 0 <= i < |longer|
      ensures longer[i] == shorter[i]
    {
      if i < |entries| {
        assert (entries + [entry])[i] == entries[i];
      }
    }
  }

  /** A remaining count below 1 on an error response for any other resource raises the configured limit first. */
  lemma RateLimitComesFirst(apiLimit: Value, resource: string, r: Response, decode: Decoder, n: int)
    requires IsError(r) && Header(r, RATE_LIMIT_HEADER) == Some(IntToString(n)) && n < 1
    requires Substr(resource, 1, 10) != "rate_limit"
    ensures Respond(apiLimit, resource, r, decode) == Fail(ApiLimitExceed(apiLimit))
  {
    OneExceedsCount(n);
  }

  /** The rate-limit endpoint itself never raises the limit failure. */
  lemma RateLimitEndpointExempt(apiLimit: Value, resource: string, r: Response, decode: Decoder)
    requires StartsWith(resource, "/rate_limit")
    ensures !Classify(apiLimit, resource, r, decode).ApiLimitExceed?
  {
    assert resource[1..11] == "rate_limit";
  }

  /** A 400 with a string message raises that message with code 400. */
  lemma BadRequestCarriesMessage(apiLimit: Value, resource: string, r: Response, decode: Decoder, content: Value, message: string)
    requires r.status == 400 && !RateLimited(resource, r)
    requires decode(r.body) == Some(content) && Lookup(content, "message") == Some(Str(message))
    ensures Respond(apiLimit, resource, r, decode) == Fail(BadRequest(message, 400))
  {
  }

  /** The one entry of the 422 example: field `title` of resource `node` is missing. */
  function MissingTitle(): Value
  {
    Arr([Entry(StrKey("code"), Str("missing_field")), Entry(StrKey("field"), Str("title")), Entry(StrKey("resource"), Str("node"))])
  }

  lemma MissingTitleSentence()
    ensures Sentence(MissingTitle()) == ("Field \"" + "title" + "\" is missing, for resource \"" + "node" + "\"")
  {
    var entry := MissingTitle();
    assert Get(entry, "code") == Str("missing_field");
    assert Get(entry, "field") == Str("title");
    assert Get(entry, "resource") == Str("node");
  }

  /** Once the header checks are passed, a decoded body decides the failure alone. */
  lemma RespondOfContent(apiLimit: Value, resource: string, r: Response, decode: Decoder, v: Value)
    requires IsError(r) && !RateLimited(resource, r) && !ChallengeRequired(r) && decode(r.body) == Some(v)
    ensures Respond(apiLimit, resource, r, decode) == Fail(ContentFailure(v, r.status))
  {
    DecodedContent(r, decode, v);
  }

  /** The decoded body of the 422 example: a message and one `missing_field` entry. */
  function MissingTitleBody(): Value
  {
    Arr([Entry(StrKey("message"), Str("Validation Failed")), Entry(StrKey("errors"), Arr([Entry(IntKey(0), MissingTitle())]))])
  }

  lemma MissingTitleEntries()
    ensures IsSet(MissingTitleBody(), "message") && IsSet(MissingTitleBody(), "errors")
    ensures Values(Get(MissingTitleBody(), "errors")) == [MissingTitle()]
  {
    var content := MissingTitleBody();
    assert content.entries[1..][0].key == StrKey("errors");
    assert Get(content, "errors") == Arr([Entry(IntKey(0), MissingTitle())]);
  }

  lemma MissingTitleMessage()
    ensures ValidationMessage([MissingTitle()]) == "Validation Failed: " + ("Field \"" + "title" + "\" is missing, for resource \"" + "node" + "\"")
  {
    MissingTitleSentence();
    assert Sentences([MissingTitle()]) == [Sentence(MissingTitle())];
  }

  /** The 422 example renders its one entry after the fixed prefix. */
  lemma MissingFieldExample(apiLimit: Value, resource: string, r: Response, decode: Decoder)
    requires r.status == 422 && !RateLimited(resource, r)
    requires decode(r.body) == Some(MissingTitleBody())
    ensures Respond(apiLimit, resource, r, decode)
      == Fail(ValidationFailed("Validation Failed: " + ("Field \"" + "title" + "\" is missing, for resource \"" + "node" + "\""), 422))
  {
    RespondOfContent(apiLimit, resource, r, decode, MissingTitleBody());
    MissingTitleEntries();
    MissingTitleMessage();
  }

  /**
   * Without a top-level `message` the 422 entries are not rendered: the
   * body array itself reaches the exception constructor, which refuses it.
   */
  lemma ValidationNeedsMessage(apiLimit: Value, resource: string, r: Response, decode: Decoder, errors: Value)
    requires r.status == 422 && !RateLimited(resource, r)
    requires decode(r.body) == Some(Arr([Entry(StrKey("errors"), errors)]))
    ensures Respond(apiLimit, resource, r, decode).error.Fatal?
  {
    var content := Arr([Entry(StrKey("errors"), errors)]);
    RespondOfContent(apiLimit, resource, r, decode, content);
    assert "errors"[0] != "message"[0];
    assert |"errors"| != |"error"|;
    FindAbsent(content.entries, StrKey("message"));
    FindAbsent(content.entries, StrKey("error"));
  }

  /** A body that is not JSON becomes the message of the generic failure, with the status as its code. */
  lemma RawBodyIsMessage(apiLimit: Value, resource: string, r: Response, decode: Decoder)
    requires IsError(r) && !RateLimited(resource, r) && !ChallengeRequired(r) && decode(r.body).None?
    ensures Respond(apiLimit, resource, r, decode) == Fail(Runtime(r.body, r.status))
  {
  }

  /** A nested `error` object is unwrapped before its message is taken. */
  lemma NestedErrorMessage(apiLimit: Value, resource: string, r: Response, decode: Decoder, message: string)
    requires IsError(r) && !RateLimited(resource, r) && !ChallengeRequired(r)
    requires decode(r.body) == Some(Arr([Entry(StrKey("error"), Arr([Entry(StrKey("message"), Str(message))]))]))
    ensures Respond(apiLimit, resource, r, decode) == Fail(Runtime(message, r.status))
  {
    var inner := Arr([Entry(StrKey("message"), Str(message))]);
    var content := Arr([Entry(StrKey("error"), inner)]);
    RespondOfContent(apiLimit, resource, r, decode, content);
    assert "error"[0] != "message"[0];
    FindAbsent(content.entries, StrKey("message"));
    assert Get(content, "error") == inner;
    assert Get(inner, "message") == Str(message);
  }
}
