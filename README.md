# DrupalDriver remote client, modelled in Dafny

This project models the remote API client of DrupalDriver. The driver lets
Behat scenarios act on a remote Drupal site over HTTP instead of
bootstrapping Drupal locally. The model covers six parts.

- **The gateway** (`Client`). It keeps a fixed option table, resolves a sub-API
  name to a handler, normalises the arguments of `authenticate`, derives the
  base path and creates its transport handle lazily.
- **The authentication listener.** It rewrites each outgoing request in
  place for one of five method tags:
  - an `Authorization: Basic` header (base64 as in section 4 of RFC 4648,
    credentials as in section 2 of RFC 7617);
  - an `Authorization: token` header;
  - `client_id`/`client_secret` or `access_token` query parameters, encoded
    as PHP's `http_build_query` does;
  - a bare base64 `Drupal-Auth` header, with an optional literal `Cookie`.
- **The error listener.** It turns every 4xx/5xx response into exactly one
  failure through a fixed chain: rate limit, two-factor challenge, 400 with a
  message, 422 with field errors, and a generic runtime error last.
- **The response mediator.** It decodes JSON or keeps the raw body, parses
  the `Link` header into a rel-to-url table and guards the rate limit.
- **The validators** shared by the sub-API handlers.
- **The driver.** It checks its base url, builds and authenticates a client
  once on bootstrap, and routes each driver operation to a sub-API. It
  re-raises every ordinary exception of a delegate as a plain runtime
  failure with the same message.

The modules follow the source's files:

- `php.dfy` holds the PHP values and built-ins the code relies on.
- `encoding.dfy` holds base64 and form encoding, with their decoders.
- `failures.dfy` holds one `Error` datatype with a constructor per exception
  kind. `Fatal` stands for a PHP `Error`, which `catch (\Exception)` does not
  intercept.
- `http_message.dfy` holds the request, a class the listener mutates, and
  the response, a value.
- `link_header.dfy` holds the `Link` regular expression.
- `auth_listener.dfy`, `error_listener.dfy`, `response_mediator.dfy`,
  `base_api.dfy`, `client.dfy`, `transport.dfy` and `remote_driver.dfy` hold
  one component each.

State that the source updates in place is modelled with classes: the
client's option table, its lazy transport handle, the request the listener
rewrites, and the driver's client slot and bootstrapped flag. The loops are
`while` loops proved against specification functions: the `Link` loop in
`getPagination` and the 422 sentence loop in `onRequestError`.

Comparisons follow PHP 8 where the code compares loosely.

- `in_array` on the supported versions is not strict. `setOption('api_version', true)`
  is therefore accepted, and the base path then reads `/api/1`
  (`Gateway.SupportedVersions`, `Gateway.Client.GetBasePath`).
- The `switch` on a 422 entry's code also matches `true`.
- `1 > $remaining` compares numerically only for a numeric string
  (`Php.OneExceeds`).
- `!= 200` accepts integer-shaped numeric strings and `true`.
- `!= array()` is false for null, `false` and the empty array.

The 422 entries are rendered only when the body has a top-level `message`
as well (`ErrorListener.php:76-79`). Without a message, the body array itself reaches the `RuntimeException`
constructor, which PHP refuses with a type error
(`ErrorHandling.ValidationNeedsMessage`).

JSON decoding is a parameter (`Mediator.Decoder`), as are the answers of the
sub-API handlers (`Driver.Remote`) and the set of loadable classes (`Gateway.Registry`
and the `classes` argument of `Driver.RemoteDriver.Bootstrap`). The
listeners take the request's resource path and response directly instead of
a Guzzle event.

## Model

| member | source | states |
|---|---|---|
| Gateway.DefaultOptions | src/Drupal/Driver/Remote/Client.php:59-70 | the table has exactly the seven option names, `api_version` starts as "v1" and `cache_dir` as null |
| Gateway.Client.constructor | src/Drupal/Driver/Remote/Client.php:82-84 | a new client holds the default table and the handle it was given, and is valid |
| Gateway.Client.GetOption | src/Drupal/Driver/Remote/Client.php:226-232 | succeeds exactly for a name in the table and returns its stored value, null included; otherwise fails with `Undefined option called: "name"` |
| Gateway.OptionLookup | src/Drupal/Driver/Remote/Client.php:226-232 | on a valid client only the seven names are found, and the default `cache_dir` reads as null |
| Gateway.Client.SetOption | src/Drupal/Driver/Remote/Client.php:242-252 | an unknown name fails and changes nothing; an unsupported version fails with the corrected version message and changes nothing; otherwise only that entry changes; validity is preserved |
| Gateway.SupportedVersions | src/Drupal/Driver/Remote/Client.php:247 | the loose `in_array` over ["v1"] accepts exactly "v1" and `true` |
| Gateway.Client.GetBasePath | src/Drupal/Driver/Remote/Client.php:263-265 | on a valid client the path is "/api/v1", or "/api/1" when the version is `true`; it is "/api/v1" exactly when the stored version is "v1" |
| Gateway.NormaliseAuth | src/Drupal/Driver/Remote/Client.php:144-155 | fails exactly when password and method are both null; an explicit method passes with the password unchanged; without a method, a password that is one of the four positional tags becomes the method and the password becomes null, and any other password is kept with the method `http_password` |
| Gateway.PositionalMethodShift | src/Drupal/Driver/Remote/Client.php:148-151 | a tag given as the password means the same as that tag given as the method with no password |
| Gateway.DrupalLoginIsNotPositional | src/Drupal/Driver/Remote/Client.php:148-155 | `http_drupal_login` in the password position stays a password, under `http_password` |
| Gateway.Client.Authenticate | src/Drupal/Driver/Remote/Client.php:143-158 | on failure nothing changes and no handle is created; otherwise the (possibly new) handle carries a fresh listener with the login, the normalised password and method, and the cookie |
| Gateway.Resolve | src/Drupal/Driver/Remote/Client.php:98-131 | the node, term, user and cache names and their plurals map to the built-in kinds; any other name that is registered as implementing the interface resolves to its own class, and only such a name does; everything else fails with `Undefined api instance called: "name"` |
| Gateway.Client.Api | src/Drupal/Driver/Remote/Client.php:98-131 | every call returns a fresh handler of the resolved kind, bound to this client, or the resolution's failure |
| Gateway.Client.GetHttpClient | src/Drupal/Driver/Remote/Client.php:174-180 | an existing handle is returned unchanged; otherwise a fresh one built from the current options is stored and returned |
| Gateway.Client.SetHttpClient | src/Drupal/Driver/Remote/Client.php:187-189 | the handle is replaced; the options stay |
| Transport.HttpClient.Authenticate | src/Drupal/Driver/Remote/Client.php:157 | the handle installs a fresh listener carrying exactly the credentials it was given |
| Auth.AuthListener.constructor | src/Drupal/Driver/Remote/HttpClient/Listener/AuthListener.php:55-60 | the listener keeps login, password, method and cookie as given |
| Auth.AuthListener.Rewrite | src/Drupal/Driver/Remote/HttpClient/Listener/AuthListener.php:68-120 | a null method changes nothing; an unknown tag fails with "tag not yet implemented"; the url only grows, and only for the url tags; only the three auth headers are added or changed; a new cookie appears only for `http_drupal_login` and equals the cookie |
| Auth.AuthListener.OnRequestBeforeSend | src/Drupal/Driver/Remote/HttpClient/Listener/AuthListener.php:68-120 | the request is rewritten in place to exactly what `Rewrite` gives, or is left as it was on failure |
| Auth.AuthListener.AddOptionalRequestCookie | src/Drupal/Driver/Remote/HttpClient/Listener/AuthListener.php:127-131 | `Cookie` is set to the literal cookie when there is one, and nothing else changes |
| Auth.HttpPasswordRewrite | src/Drupal/Driver/Remote/HttpClient/Listener/AuthListener.php:75-80 | the url is kept; only `Authorization` is added or changed and every other header keeps its value; it starts with "Basic " and the rest decodes to the bytes of `login:password` |
| Auth.HttpTokenRewrite | src/Drupal/Driver/Remote/HttpClient/Listener/AuthListener.php:82-84 | the url is kept; only `Authorization` is added or changed, to "token " followed by the login, and every other header keeps its value |
| Auth.UrlClientIdRewrite | src/Drupal/Driver/Remote/HttpClient/Listener/AuthListener.php:86-98 | the headers stay; the url keeps its prefix, then `?` (or `&` after an existing `?`), then a query that decodes to client_id and client_secret with null ones skipped |
| Auth.UrlTokenRewrite | src/Drupal/Driver/Remote/HttpClient/Listener/AuthListener.php:100-106 | the headers stay; the url gains the separator and a query that decodes to access_token |
| Auth.DrupalLoginRewrite | src/Drupal/Driver/Remote/HttpClient/Listener/AuthListener.php:108-114 | the url is kept; `Drupal-Auth` is the bare base64 of the credentials; `Cookie` is the literal cookie when set; every other header, and `Cookie` when no cookie is set, keeps its value; the header names become the old ones plus `Drupal-Auth`, and plus `Cookie` when a cookie is set |
| Auth.BasicAuthorizationDecodes | src/Drupal/Driver/Remote/HttpClient/Listener/AuthListener.php:76-79 | the `Basic` value decodes back to the credential bytes |
| Auth.DrupalAuthDecodes | src/Drupal/Driver/Remote/HttpClient/Listener/AuthListener.php:109-112 | the `Drupal-Auth` value decodes back to the credential bytes |
| Auth.CredentialsSplit | src/Drupal/Driver/Remote/HttpClient/Listener/AuthListener.php:78 | for a login without a colon, the first colon separates login and password, which are both recovered |
| Auth.WithQueryShape | src/Drupal/Driver/Remote/HttpClient/Listener/AuthListener.php:94-95 | the url is a prefix, followed by the separator its `?` calls for, followed by the query |
| Auth.ClientIdQueryDecodes | src/Drupal/Driver/Remote/HttpClient/Listener/AuthListener.php:89-95 | the appended query decodes to client_id and client_secret, in that order, skipping a null one |
| Auth.TokenQueryDecodes | src/Drupal/Driver/Remote/HttpClient/Listener/AuthListener.php:103 | the appended query decodes to access_token, or to nothing for a null login |
| Auth.DrupalAuthOfBob | src/Drupal/Driver/Remote/HttpClient/Listener/AuthListener.php:109-112 | "bob" and "pw" give `Drupal-Auth` "Ym9iOnB3" |
| Auth.DrupalLoginOfBob | src/Drupal/Driver/Remote/HttpClient/Listener/AuthListener.php:108-114 | for "bob"/"pw" the headers gain exactly `Drupal-Auth`, plus `Cookie: sid=1` when that cookie is set |
| Encoding.Base64RoundTrip | src/Drupal/Driver/Remote/HttpClient/Listener/AuthListener.php:78 | decoding the base64 encoding of any byte string gives it back |
| Encoding.Base64Alphabet | src/Drupal/Driver/Remote/HttpClient/Listener/AuthListener.php:78 | the encoding uses only the 64 symbols and `=` padding |
| Encoding.UrlRoundTrip | src/Drupal/Driver/Remote/HttpClient/Listener/AuthListener.php:95 | percent-decoding the urlencoding of any byte string gives it back |
| Encoding.UrlEncodeIsInert | src/Drupal/Driver/Remote/HttpClient/Listener/AuthListener.php:95 | encoded text is ASCII and holds none of `&`, `=`, `?`, `#` |
| Encoding.QueryRoundTrip | src/Drupal/Driver/Remote/HttpClient/Listener/AuthListener.php:95 | parsing a built query gives back exactly the non-null pairs, in order |
| ErrorHandling.ErrorListener.constructor | src/Drupal/Driver/Remote/HttpClient/Listener/ErrorListener.php:37-39 | the listener keeps the options it was given |
| ErrorHandling.ErrorListener.OnRequestError | src/Drupal/Driver/Remote/HttpClient/Listener/ErrorListener.php:54-114 | the outcome is exactly `Respond` of the configured limit, the resource and the response |
| ErrorHandling.Respond | src/Drupal/Driver/Remote/HttpClient/Listener/ErrorListener.php:60-113 | a failure is raised exactly for status 400 to 599, and it is the classified one |
| ErrorHandling.Classify | src/Drupal/Driver/Remote/HttpClient/Listener/ErrorListener.php:61-112 | the limit failure fires exactly when the rate-limit check holds and carries the configured limit; the two-factor failure fires exactly when the limit does not and the 401 challenge does, carrying the header text from index 9; a bad request has status and code 400; a validation failure has status and code 422 and the fixed prefix; a generic failure has the status as its code; past the header checks the content decides |
| ErrorHandling.ContentFailure | src/Drupal/Driver/Remote/HttpClient/Listener/ErrorListener.php:75-112 | with a top-level message, a 400 is the bad request built from that message and a 422 with `errors` is the validation failure whose message is `ValidationMessage` of the entries; every other content is the generic failure built from `GenericMessage` and coded with the status; an array message is a PHP error instead |
| ErrorHandling.TopLevelMessage | src/Drupal/Driver/Remote/HttpClient/Listener/ErrorListener.php:110-112 | a top-level string message, at a status that is neither 400 nor a 422 with `errors` and with no nested `error`, becomes the generic failure's message, coded with the status |
| ErrorHandling.RenderValidation | src/Drupal/Driver/Remote/HttpClient/Listener/ErrorListener.php:80-106 | the 422 loop renders each entry in turn and yields exactly the validation message of the entries |
| ErrorHandling.Sentence | src/Drupal/Driver/Remote/HttpClient/Listener/ErrorListener.php:81-101 | specification function: the sentence of one entry, by the four code templates and the entry's own message otherwise; `ErrorHandling.MissingTitleSentence` states one template |
| ErrorHandling.ValidationMessage | src/Drupal/Driver/Remote/HttpClient/Listener/ErrorListener.php:106 | specification function: "Validation Failed: " and the sentences joined by ", "; `ErrorHandling.RenderValidation`, `ErrorHandling.ValidationMessageSnoc` and `ErrorHandling.ContentFailure` state what it is used for |
| ErrorHandling.Sentences | src/Drupal/Driver/Remote/HttpClient/Listener/ErrorListener.php:80-104 | one sentence per entry, in input order |
| ErrorHandling.ValidationMessageSnoc | src/Drupal/Driver/Remote/HttpClient/Listener/ErrorListener.php:106 | one more entry appends ", " and its sentence to the message |
| ErrorHandling.RateLimitComesFirst | src/Drupal/Driver/Remote/HttpClient/Listener/ErrorListener.php:61-65 | a remaining count below 1 on an error response for another resource raises the configured limit, whatever the status and body |
| ErrorHandling.RateLimitEndpointExempt | src/Drupal/Driver/Remote/HttpClient/Listener/ErrorListener.php:63 | a resource under `/rate_limit` never raises the limit failure |
| ErrorHandling.BadRequestCarriesMessage | src/Drupal/Driver/Remote/HttpClient/Listener/ErrorListener.php:76-78 | a 400 with a string message raises that message with code 400 |
| ErrorHandling.MissingTitleSentence | src/Drupal/Driver/Remote/HttpClient/Listener/ErrorListener.php:87-89 | a `missing_field` entry renders with its own template |
| ErrorHandling.MissingFieldExample | src/Drupal/Driver/Remote/HttpClient/Listener/ErrorListener.php:79-106 | a 422 with a message and one `missing_field` entry raises "Validation Failed: " followed by that sentence |
| ErrorHandling.ValidationNeedsMessage | src/Drupal/Driver/Remote/HttpClient/Listener/ErrorListener.php:76-112 | a 422 body with only `errors` is not rendered, and ends in a PHP type error |
| ErrorHandling.RespondOfContent | src/Drupal/Driver/Remote/HttpClient/Listener/ErrorListener.php:75-112 | once the header checks are passed, the decoded content alone decides the failure |
| ErrorHandling.RawBodyIsMessage | src/Drupal/Driver/Remote/HttpClient/Listener/ErrorListener.php:110-112 | a body that is not JSON becomes the message, with the status as the code |
| ErrorHandling.NestedErrorMessage | src/Drupal/Driver/Remote/HttpClient/Listener/ErrorListener.php:110-112 | at any error status, a nested `error` object is unwrapped before its message is taken |
| Php.OneExceedsCount | src/Drupal/Driver/Remote/HttpClient/Listener/ErrorListener.php:63 | for a rendered integer, PHP's `1 > $s` is the integer comparison |
| Mediator.GetContent | src/Drupal/Driver/Remote/HttpClient/Message/ResponseMediator.php:27-35 | the raw body exactly when decoding fails, otherwise the decoded value; it never fails |
| Mediator.DecodedContent | src/Drupal/Driver/Remote/HttpClient/Message/ResponseMediator.php:29-34 | a body that decodes yields the decoded value |
| Mediator.Links | src/Drupal/Driver/Remote/HttpClient/Message/ResponseMediator.php:53-59 | specification function: the table the loop builds from the pieces; `Mediator.LinksLastWins`, `Mediator.LinksSound` and `Mediator.LinksSize` state its content |
| Mediator.Pagination | src/Drupal/Driver/Remote/HttpClient/Message/ResponseMediator.php:46-62 | specification function: null for a missing or empty `Link` header, otherwise the table of the exploded pieces; `Mediator.GetPagination` is proved equal to it |
| Mediator.GetPagination | src/Drupal/Driver/Remote/HttpClient/Message/ResponseMediator.php:46-63 | the loop builds exactly the table of the specification function: none for an absent or empty header, otherwise the links of the comma-separated pieces |
| Mediator.LinksSize | src/Drupal/Driver/Remote/HttpClient/Message/ResponseMediator.php:54-60 | the table never has more entries than there are pieces |
| Mediator.LinksLastWins | src/Drupal/Driver/Remote/HttpClient/Message/ResponseMediator.php:58 | a piece's rel maps to its url unless a later piece has the same rel |
| Mediator.LinksSound | src/Drupal/Driver/Remote/HttpClient/Message/ResponseMediator.php:54-60 | every entry of the table comes from one matching piece |
| Mediator.PiecesNeedNoTrim | src/Drupal/Driver/Remote/HttpClient/Message/ResponseMediator.php:54-55 | trimming commas off an exploded piece changes nothing |
| Mediator.TwoLinks | src/Drupal/Driver/Remote/HttpClient/Message/ResponseMediator.php:46-63 | a header with two well-formed links gives the table of both, the second winning on equal rels |
| LinkHeader.MatchLink | src/Drupal/Driver/Remote/HttpClient/Message/ResponseMediator.php:55 | specification function: the two groups of the first match; `LinkHeader.MatchLinkPreferred` and `LinkHeader.MatchLinkNone` prove it is the match PCRE reports, and nothing when none exists |
| LinkHeader.MatchLinkPreferred | src/Drupal/Driver/Remote/HttpClient/Message/ResponseMediator.php:55 | the matcher returns the groups of PCRE's preferred match: the leftmost `<`, then the greediest split |
| LinkHeader.MatchLinkNone | src/Drupal/Driver/Remote/HttpClient/Message/ResponseMediator.php:55-57 | the matcher finds nothing exactly when the text has no match at all |
| LinkHeader.MatchAtSound | src/Drupal/Driver/Remote/HttpClient/Message/ResponseMediator.php:55 | what the matcher returns at a `<` is a match of the pattern |
| LinkHeader.MatchAtGreatest | src/Drupal/Driver/Remote/HttpClient/Message/ResponseMediator.php:55 | the matcher's split at a `<` is the greatest among all matches there |
| LinkHeader.LinkOfPiece | src/Drupal/Driver/Remote/HttpClient/Message/ResponseMediator.php:55 | a well-formed `<url>; rel="name"` piece yields exactly that url and name |
| Mediator.GetApiLimit | src/Drupal/Driver/Remote/HttpClient/Message/ResponseMediator.php:74-80 | fails exactly when the header is present and PHP deems 1 greater than it, carrying the header's value |
| Mediator.ApiLimitOfCount | src/Drupal/Driver/Remote/HttpClient/Message/ResponseMediator.php:77-78 | for a count header, the failure happens exactly below 1 and carries the count |
| RemoteApi.ConfirmResponseStatusCodeIs200 | src/Drupal/Driver/Remote/Api/BaseDrupalRemoteAPI.php:31-37 | fails exactly when `id` is unset, `response_code` is set and loosely differs from 200, with "Remote API Exception: " and the message |
| RemoteApi.IdOverridesCode | src/Drupal/Driver/Remote/Api/BaseDrupalRemoteAPI.php:32-34 | a response with `id` passes even with code 500 |
| RemoteApi.Status200Passes | src/Drupal/Driver/Remote/Api/BaseDrupalRemoteAPI.php:34 | without an `id`, a code sent as the decimal text of a number passes exactly when the number is 200 |
| RemoteApi.FailingCodeRaisesMessage | src/Drupal/Driver/Remote/Api/BaseDrupalRemoteAPI.php:34-35 | code 500 with message "boom" and no `id` raises "Remote API Exception: boom" |
| RemoteApi.ConfirmRestWSFilterResponse | src/Drupal/Driver/Remote/Api/BaseDrupalRemoteAPI.php:47-51 | fails exactly when `list` is unset, rendering the response into the message |
| RemoteApi.ConfirmDeletedResponse | src/Drupal/Driver/Remote/Api/BaseDrupalRemoteAPI.php:60-64 | passes exactly for null, `false` and the empty array; otherwise fails rendering the result |
| RemoteApi.NonEmptyDeletionFails | src/Drupal/Driver/Remote/Api/BaseDrupalRemoteAPI.php:61-62 | any non-empty array fails and renders as "Array" |
| RemoteApi.ChecksCarryPrefix | src/Drupal/Driver/Remote/Api/BaseDrupalRemoteAPI.php:35-62 | every validator's failure message starts with "Remote API Exception: " |
| Driver.RemoteDriver.Create | src/Drupal/Driver/RemoteDriver.php:79-94 | fails with "A site base url is required." exactly when PHP deems the url empty; otherwise stores url, username, password, cookie and client unchanged, not yet bootstrapped |
| Driver.RemoteDriver.constructor | src/Drupal/Driver/RemoteDriver.php:83-87 | the fields are stored as given and the driver starts unbootstrapped |
| Driver.ClientClass | src/Drupal/Driver/RemoteDriver.php:108 | a non-empty class name is used as given; otherwise the default client class |
| Driver.RemoteDriver.Bootstrap | src/Drupal/Driver/RemoteDriver.php:106-115 | an existing client is kept and the driver is bootstrapped; an unloadable class is a PHP error with nothing changed; otherwise a fresh client with the base url set and a Drupal-login listener with the stored credentials is stored, and the driver is bootstrapped |
| Driver.RemoteDriver.IsBootstrapped | src/Drupal/Driver/RemoteDriver.php:120-122 | reports the flag |
| Driver.RemoteDriver.SetClient | src/Drupal/Driver/RemoteDriver.php:189-191 | the slot then holds that client; the flag stays |
| Driver.RemoteDriver.GetClient | src/Drupal/Driver/RemoteDriver.php:197-199 | returns the slot |
| Driver.RemoteDriver.ClearStaticCaches | src/Drupal/Driver/RemoteDriver.php:204-206 | changes nothing |
| Driver.RemoteDriver.ProcessBatch | src/Drupal/Driver/RemoteDriver.php:211-215 | changes nothing |
| Driver.RemoteDriver.Api | src/Drupal/Driver/RemoteDriver.php:276-278 | without a client object it is a PHP error; otherwise the client's handler for the name, or its failure |
| Driver.ApiName | src/Drupal/Driver/RemoteDriver.php:127-274 | specification function: the sub-API name each operation asks `api()` for (user, watchdog, cache, cron, node, term) |
| Driver.CallOf | src/Drupal/Driver/RemoteDriver.php:127-274 | specification function: the handler method and arguments each operation calls; `createTerm` drops its config and `nodeDelete` calls `deleteNode` |
| Driver.Delegated | src/Drupal/Driver/RemoteDriver.php:127-277 | specification function: the end of an operation, a PHP error without a client, otherwise the lookup's or handler's failure re-raised, or the answer (nothing for the deletions); `Driver.NoClientIsFatal`, `Driver.UnregisteredApiFails`, `Driver.BuiltinOperationsReachHandler` and `Driver.DeletionsReturnNothing` state its cases |
| Driver.RemoteDriver.Run | src/Drupal/Driver/RemoteDriver.php:127-274 | each operation ends exactly as `Delegated` says: its API name, its handler call, the re-raising, and no result for the deletions |
| Driver.Rethrow | src/Drupal/Driver/RemoteDriver.php:131-133 | the message is kept; PHP errors pass unchanged; every exception becomes a runtime failure with code 0 |
| Driver.NoClientIsFatal | src/Drupal/Driver/RemoteDriver.php:276-278 | with no client object every operation ends in a PHP error |
| Driver.UnregisteredApiFails | src/Drupal/Driver/RemoteDriver.php:163-227 | `fetchWatchdog` and `runCron` fail with the lookup's message unless an extension is registered under their name |
| Driver.BuiltinOperationsReachHandler | src/Drupal/Driver/RemoteDriver.php:127-274 | the other operations always find their handler; a handler failure comes back re-raised with its message, and a handler answer comes back unchanged for every operation but the two deletions |
| Driver.DeletionsReturnNothing | src/Drupal/Driver/RemoteDriver.php:244-274 | a successful node or term deletion returns nothing |
| Gateway.VersionMessageAsWrittenHidesValue | src/Drupal/Driver/Remote/Client.php:248 | as written, the message for "v2" and "v3" is the same and names the option, not the value |
| Gateway.VersionMessageNamesValue | src/Drupal/Driver/Remote/Client.php:248 | the corrected message determines the rejected string version and reads `Invalid API version ("v2"), valid are: v1` for "v2" |

## Left out

- Gateway.Client.SetOption: an unsupported version is reported with the corrected message `Gateway.VersionMessage`, which names the rejected value. As written, the program formats the option's name instead (`Gateway.VersionMessageAsWritten`); see "## Findings".
- The PHP type error for an exception given an array message (`ErrorHandling.ArrayMessage`) is a paraphrase. PHP's own text also names the constructor and the parameter.
- `Php.Value` arrays are lists of entries, and a key is looked up at its first entry. The decoder is assumed to give each key once, as a PHP array holds it; `json_decode` keeps the last of duplicated keys, which is not modelled.
- Floating-point JSON numbers: `Php.Value` has no float.
- Header names are matched exactly. Guzzle's case-insensitive lookup and repeated header values are not modelled.
- Numeric strings are integer-shaped only: an optional sign and digits. Leading whitespace, decimals and exponents (" 200", "200.0", "2e2") are not read as numbers.
- JSON decoding is an abstract parameter. `utf8_encode` is taken as the identity, since `http_build_query` emits ASCII.
- Characters stand for bytes (each code modulo 256) where strings are base64- or urlencoded.
- The transport handle is modelled only as the options it keeps and the listener it installs. Sending requests, event dispatch, `logging`, `clearHeaders`, `getHeaders`, `setHeaders`, the curl options and timeouts are not modelled.
- The listeners receive the resource path and the response directly, without the Guzzle event around them.
- The sub-API handlers (node, term, user, cache, watchdog, cron and extension classes) are the abstract `Driver.Remote` parameter. `Random` and `getRandom` are not modelled.
- `Gateway.Registry` stands for `class_exists` together with the `ApiInterface` test. PHP's case-insensitive class names and the construction of an extension handler are not modelled.
- Driver.RemoteDriver.Bootstrap: a custom client class is assumed to behave like `Client`. The message for an unloadable class uses the name as stored.
- A 422 entry that is not an array is read as having no keys. PHP would warn or raise on the string offset.
- ApiLimitExceedException, TwoFactorAuthenticationRequiredException and ValidationFailedException are not part of this model. Their messages are modelled as the constructor argument (`Failures.Message`).
- Mediator.GetPagination: the table is a map keyed by string. PHP turns a numeric rel name into an integer key and keeps insertion order; neither is modelled.
- `Client.php:145` throws an unqualified `InvalidArgumentException` inside the `Drupal\Driver\Remote` namespace. That namespace's classes are not part of this model, so the throw is modelled as the ordinary `InvalidArgument` failure.
- RemoteFactory.php is dependency-injection wiring and is not modelled. Cache.php is a thin wrapper over the validators and the unseen `AbstractApi`. ApiInterface.php is a declaration; it appears only through `Gateway.Registry`.

## Findings

| source | as written | input that shows it | evidently intended | confidence | as-written member | corrected member |
|---|---|---|---|---|---|---|
| src/Drupal/Driver/Remote/Client.php:248 | the rejected-version message formats the option's name, `$name`, where the rejected value belongs | `setOption('api_version', 'v2')` reports `Invalid API version ("api_version"), valid are: v1`, the same as for 'v3' | the message names the rejected value: `Invalid API version ("v2"), valid are: v1` | not executed | Gateway.VersionMessageAsWrittenHidesValue | Gateway.VersionMessageNamesValue |
