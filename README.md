# django-sns-view, modelled in Dafny

`django_sns_view` is a Django view that receives Amazon SNS HTTP(S) deliveries.
For every POST, `SNSEndpoint.post` runs these checks in order:
- the topic header against an optional allow-list;
- parse the body as JSON;
- check that the host of `SigningCertURL` matches a domain pattern;
- optionally verify the RSA/SHA-1 signature over a canonical "string to sign",
  using a certificate that is fetched once and then cached;
- check the `x-amz-sns-message-type` header.

It then routes on that header:
- subscription confirmations are checked against an optional AWS account id and
  confirmed by fetching `SubscribeURL`, which must pass its own domain gate;
- unsubscribe confirmations are acknowledged;
- every other allowed type goes to the application's `handle_message`.

`types.py` declares the typed payload: a union of three kinds sharing seven
base fields, told apart by the `Type` field.

The model has six modules:
- `Wrappers` (wrappers.dfy): `Option` and `Result`.
- `Strings` (strings.dfy): Python's `str.split` on one character, with its
  inverse `join`.
- `Urls` (urls.dfy): `urlparse(url).netloc` for the URLs the core sees. It also
  holds an exact matcher for the default domain pattern
  `sns.[a-z0-9\-]+.amazonaws.com$`. That pattern is searched anywhere in the
  host, its three dots are unescaped wildcards, and `$` also matches before a
  final newline. A configured pattern is an opaque predicate.
- `Types` (types.dfy): the payload union and its validation from a decoded JSON
  object. The UUID, HTTP-URL and base64 checks are abstract predicates.
- `Utils` (utils.dfy): the three signing layouts and `str.format`, the
  certificate cache, `verify_notification` and `confirm_subscription`.
  - The cache is a class `PemCache` with a map field. `GetPemfile` mutates it
    and is proved equal to the pure lookup `PemLookup`.
  - Network answers, the PEM certificate count, certificate loading, base64
    decoding and the RSA/SHA-1 check are function-valued inputs.
- `Views` (views.dfy): `should_confirm_subscription` and `post`.
  - `post` is a pure function of the settings, the request and the
    collaborators (`verify_notification`, `requests.get`, `handle_message`).
  - Its `Outcome` holds the response or the escaping exception, plus the list
    of collaborator calls made, in order.

The model follows the code where it departs from other references:
- AWS documents `SignatureVersion` 2 as RSA with SHA-256. The code always checks
  with SHA-1, whatever `SignatureVersion` says, and so does the model
  (`VerifyIgnoresSignatureVersion`).
- The newer test suite, `django_sns_view/tests/test_views.py:77-85`, expects a
  body that is not JSON to be answered `'Invalid payload'`. The code answers
  `'Not Valid JSON'` (`django_sns_view/views.py:87`), as the older
  `django_sns_view/tests/views.py:72` expects, and so does the model.
- `types.py` checks `Timestamp` and `SignatureVersion` only as strings.
- `post` routes on the message-type header, never on the payload's own `Type`.

## Model

| member | source | states |
|---|---|---|
| Strings.Split | django_sns_view/views.py:53 | `str.split(':')` gives one piece more than there are colons, no piece contains a colon, and joining the pieces with colons gives back the input |
| Strings.SplitJoin | django_sns_view/views.py:53 | splitting the colon-join of colon-free pieces gives back exactly those pieces |
| Strings.SplitUnique | django_sns_view/views.py:53 | the split is the only colon-free decomposition of a string |
| Urls.Netloc | django_sns_view/views.py:91 | the network location extracted from a URL never contains `/`, `?`, `#` or a tab/CR/LF |
| Urls.NetlocOfUrl | django_sns_view/utils.py:72 | for `scheme://host` followed by nothing or by a path, query or fragment, the netloc is exactly `host` |
| Urls.SearchMatches | django_sns_view/views.py:95 | `re.search(pattern, domain)` under the default pattern succeeds iff some match ends at the end of the host or just before a final newline; a configured pattern answers as its own search |
| Urls.DefaultSearch | django_sns_view/views.py:91-95 | the hand-written search is true iff some substring matches `sns.[a-z0-9\-]+.amazonaws.com` ending at the end of the host or just before a final newline |
| Urls.DefaultAcceptsShape | django_sns_view/views.py:93 | any text ending in `sns`, a wildcard, a non-empty run of `[a-z0-9-]`, a wildcard, `amazonaws`, a wildcard and `com` is accepted, whatever precedes it |
| Urls.DefaultAcceptsRegionalHost | django_sns_view/views.py:93 | every `sns.<region>.amazonaws.com` with a region of `[a-z0-9-]` is accepted |
| Urls.DefaultAcceptsLookalikeHost | django_sns_view/utils.py:76 | because the dots are unescaped, every non-AWS host `sns-<region>-amazonaws.com` is also accepted |
| Urls.DefaultAcceptsSuffixedHost | django_sns_view/views.py:93-95 | because the search is unanchored at the start, any host ending in `sns.<region>.amazonaws.com` (such as `evil-sns.<region>.amazonaws.com`) is accepted |
| Urls.DefaultRejectsForeignHosts | django_sns_view/views.py:93-98 | `baddomain.com`, `anon.amazonaws.com` and a host with a port (`...amazonaws.com:443`) are refused |
| Types.FailingFields | django_sns_view/types.py:7-34 | a field's name is reported iff it is missing or malformed; the list is empty iff every field passes |
| Types.FailingFieldsInDeclarationOrder | django_sns_view/types.py:7-34 | the reported names are the field names in declaration order with the passing ones dropped; when the names are distinct, none is reported twice |
| Types.RequiredFieldsDistinct | django_sns_view/types.py:7-34 | the required fields of each kind have distinct names, so each failing field is reported once |
| Types.Parse | django_sns_view/types.py:37-41 | a missing `Type` is `TagNotFound`; an unknown `Type` is `TagInvalid`; validation succeeds iff `Type` is one of the three tags and every required field of that kind passes; a success carries every field verbatim, with `Subject` absent exactly when the key is; a field-error list is exactly the failing required fields |
| Types.ParseDiscriminates | django_sns_view/types.py:19-41 | a parsed payload has the kind its `Type` names, for each of the three tags |
| Types.ConfirmationNeedsTokenAndSubscribeUrl | django_sns_view/types.py:19-28 | either confirmation kind without `Token` or `SubscribeURL` fails, and the error names that field |
| Types.NotificationSubjectIsOptional | django_sns_view/types.py:31-34 | a notification with all base fields and `UnsubscribeURL` but no `Subject` parses, with subject `None` |
| Types.RequiredFieldIsReported | django_sns_view/types.py:7-34 | any required field of the kind, base or kind-specific such as `UnsubscribeURL` or `SubscribeURL`, that is missing or malformed fails validation and is named |
| Types.ParseErrorsInDeclarationOrder | django_sns_view/types.py:7-41 | the names validation reports follow the declaration order of the kind's fields, and none is reported twice |
| Types.MalformedBaseFieldIsReported | django_sns_view/types.py:7-16 | any base field that is missing or fails its check (UUID `MessageId`, base64 `Signature`, HTTP-URL `SigningCertURL`) fails validation and is named |
| Utils.Format | django_sns_view/utils.py:114 | `template.format(**payload)` succeeds iff every name of the layout is present; otherwise it raises KeyError for the first missing name |
| Utils.SignedText | django_sns_view/utils.py:104-114 | a missing `Type` is KeyError(`Type`); any failure is a KeyError naming a field the payload lacks; a success means `Type`, `Message`, `MessageId`, `Timestamp` and `TopicArn` are all present |
| Utils.HashFormat | django_sns_view/utils.py:104-110 | a missing `Type` is KeyError; `Notification` picks the with-subject layout iff `Subject` is present and non-empty; every other `Type` picks the subscription layout |
| Utils.NotificationWithSubjectLayout | django_sns_view/utils.py:22-34 | a notification with a non-empty subject signs exactly `Message`, `MessageId`, `Subject`, `Timestamp`, `TopicArn`, `Type` line pairs in that order |
| Utils.NotificationWithoutSubjectLayout | django_sns_view/utils.py:36-46 | a notification whose subject is absent or empty signs the same text without the `Subject` pair |
| Utils.ConfirmationLayout | django_sns_view/utils.py:48-62 | any other `Type`, including `UnsubscribeConfirmation`, signs `Message`, `MessageId`, `SubscribeURL`, `Timestamp`, `Token`, `TopicArn`, `Type` line pairs |
| Utils.SignedTextMatchesTypedPayload | django_sns_view/utils.py:104-114 | for every object that validates as a typed payload, the dict-driven signed text equals that payload's canonical string, so `Timestamp` is reproduced verbatim |
| Utils.PemLookup | django_sns_view/utils.py:122-149 | the URL is fetched, once, iff there is no non-empty cached text; a successful lookup leaves its text cached under the URL; no key is dropped, and no key other than the URL changes |
| Utils.PemLookupHit | django_sns_view/utils.py:129-132 | a cached non-empty PEM text is returned with no fetch and the cache unchanged |
| Utils.PemLookupMissStores | django_sns_view/utils.py:133-149 | on a miss whose fetch yields a one-certificate file, the result is that text, the URL was fetched once, the exact URL now maps to the text, and no other key changes |
| Utils.PemLookupFailureLeavesCache | django_sns_view/utils.py:133-146 | every failed lookup fetched once and left the cache unchanged; it is an HTTP error iff the response had an error status, and `Invalid Certificate File` iff the file does not hold exactly one certificate |
| Utils.PemLookupMissFails | django_sns_view/utils.py:132-146 | on a miss, an error status raises the HTTP error, no answer raises the request error, and a file without exactly one certificate raises `Invalid Certificate File`; each time the URL is fetched once and the cache is unchanged |
| Utils.PemLookupTwiceFetchesOnce | django_sns_view/utils.py:129-149 | after a successful lookup, a second lookup of the same URL fetches nothing, returns the same text and leaves the same cache |
| Utils.PemCache.GetPemfile | django_sns_view/utils.py:122-149 | the method's result, fetches and new cache are those of `PemLookup` on the old cache, and no key is ever dropped |
| Utils.CheckSignature | django_sns_view/utils.py:100-119 | a failed certificate lookup propagates; a certificate that does not load raises; a missing `Signature` then raises KeyError(`Signature`); the check succeeds iff the certificate loads, the signature is present and base64, and the signed text forms; it then answers the RSA/SHA-1 verdict over that text |
| Utils.VerifySpec | django_sns_view/utils.py:95-119 | a missing `SigningCertURL` is KeyError with no fetch; at most the certificate URL is fetched, once; a success leaves the certificate cached; no other cache key changes |
| Utils.VerifyAnswersSignatureCheck | django_sns_view/utils.py:112-119 | once the certificate is fetched and loads, the signature decodes and the layout's fields are present, verification does not raise: it returns the RSA/SHA-1 verdict over exactly the signed text |
| Utils.VerifyIgnoresSignatureVersion | django_sns_view/utils.py:112-114 | changing `SignatureVersion` never changes the result, the fetches or the cache |
| Utils.VerifyNotification | django_sns_view/utils.py:95-119 | the method's verdict or exception, its fetches and the new cache are those of `VerifySpec` on the old cache |
| Utils.ConfirmSubscription | django_sns_view/utils.py:65-92 | a missing `SubscribeURL` raises TypeError with no call; otherwise the only call is at most one GET of `SubscribeURL`; the answer is 400 `Improper Subscription Domain` iff the host fails the pattern, and then no GET is made; after the GET, an error status raises the HTTP error, no answer raises the request error, and 200 `OK` comes iff the GET succeeds |
| Utils.ConfirmRefusesForeignSubscribeHost | django_sns_view/utils.py:70-80 | for any `scheme://host` subscribe URL followed by nothing or a path, query or fragment, a host the pattern refuses gets 400 `Improper Subscription Domain` with no request |
| Views.AccountOf | django_sns_view/views.py:53 | `arn.split(':')[4]` raises IndexError iff the ARN has fewer than four colons; the account it returns contains no colon |
| Views.AccountOfJoinedFields | django_sns_view/views.py:53 | for an ARN joined from at least five colon-free fields, the account is the fifth field |
| Views.AccountOfTopicArn | django_sns_view/views.py:53 | the account of `arn:aws:sns:<region>:<account>:<topic>` is `<account>`, even if the topic contains colons |
| Views.ShouldConfirmSubscription | django_sns_view/views.py:52-59 | without `AWS_ACCOUNT_ID` it always confirms; with it, a missing `TopicArn` is KeyError, a `TopicArn` with fewer than four colons is IndexError, and it confirms iff the ARN's account field equals the setting |
| Views.ShouldConfirmIffAccountMatches | django_sns_view/views.py:52-58 | for a topic ARN of the usual shape, confirmation is exactly equality of its account field with the setting |
| Views.Route | django_sns_view/views.py:106-138 | routing keeps the calls made so far and adds at most one call, a GET or a `handle_message`; a `handle_message` call happens only for an allowed type that is neither confirmation type; a 400 carries one of the view's reasons |
| Views.ConfirmIfAllowed | django_sns_view/views.py:117-120 | the subscription route adds at most one call, a GET of `SubscribeURL`, and answers only 200 `OK`, 400 `Improper Subscription Domain` or 400 `Subscription Denied` |
| Views.Deliver | django_sns_view/views.py:128-138 | the notification route adds exactly one `handle_message(payload.get('Message'), payload)` call; it answers 200 `OK` iff the handler does not raise, and otherwise the handler's exception escapes |
| Views.VerifyThenRoute | django_sns_view/views.py:100-138 | with verification on, the first call is always the verifier on the payload, at most one GET or `handle_message` follows, and responses are 200 or 400 with one of the view's reasons |
| Views.Receive | django_sns_view/views.py:89-104 | the verifier is called at most once, only as the first call and only when verification is enabled; at most two calls are made; responses are 200 or 400 with one of the view's reasons |
| Views.Post | django_sns_view/views.py:61-138 | collaborators are called only when the body is a JSON object; at most two calls; verification is called only first and only when enabled; responses are 200 or 400 and a 400 carries one of the view's reasons |
| Views.PostChecksTopicFirst | django_sns_view/views.py:66-73 | with an allow-list, a missing header gives 400 `No TopicArn Header` and an unlisted one gives 400 `Bad Topic`, with no calls and whatever the body is |
| Views.PostRaisesOnMalformedPayload | django_sns_view/views.py:83-91 | after the topic checks, a JSON value that is not an object raises TypeError, and an object without `SigningCertURL` raises KeyError, both with no call |
| Views.PostRaisesOnUndecodableBody | django_sns_view/views.py:75-80 | a body that is not UTF-8 raises the decoding error, with no call, before `json.loads` runs |
| Views.PostRejectsNonJson | django_sns_view/views.py:82-87 | a body that is not JSON gives 400 `Not Valid JSON` with no domain check and no verification |
| Views.PostRejectsForeignCertificate | django_sns_view/views.py:89-98 | a certificate host failing the pattern gives 400 `Improper Certificate Location` and verification is never called |
| Views.PostRejectsBadSignature | django_sns_view/views.py:100-104 | with verification on, a rejected signature gives 400 `Improper Signature` after exactly one verification call, and a verifier exception propagates |
| Views.PostWithoutVerificationNeverVerifies | django_sns_view/views.py:101-102 | with verification off, no call is a verification and the verifier's answers cannot change the outcome |
| Views.PostChecksMessageTypeAfterVerification | django_sns_view/views.py:106-115 | after a passed signature step, a missing header gives 400 `HTTP_X_AMZ_SNS_MESSAGE_TYPE not set` and a type outside the allowed list gives 400 `Invalid Notification Type`, following the verification call if any |
| Views.PostAdmittedRoutes | django_sns_view/views.py:66-115 | a request that passes the topic, JSON, certificate-domain, signature and message-type checks is answered exactly as routing answers it, after the verification call if verification is on |
| Views.RouteRefusesUnknownType | django_sns_view/views.py:106-115 | a missing or disallowed message-type header makes routing add no call at all |
| Views.NoHandleUnlessAdmitted | django_sns_view/views.py:66-115 | a request that fails any check before routing never calls `handle_message` |
| Views.PostSubscriptionConfirmation | django_sns_view/views.py:117-120 | an admitted subscription confirmation is handed to `confirm_subscription` when the account check allows it, and gets 400 `Subscription Denied` when the account check refuses it; when the account check raises (no `TopicArn`, a short ARN), that exception escapes after the verification call, if any |
| Views.PostConfirmsWithoutAccountRestriction | django_sns_view/views.py:59 | with no account configured, every admitted subscription confirmation is answered by `confirm_subscription` |
| Views.PostUnsubscribeNeverHandles | django_sns_view/views.py:121-126 | an unsubscribe confirmation never calls `handle_message`; once admitted it gets 200 `UnsubscribeConfirmation Not Handled` |
| Views.PostNotificationHandlesOnce | django_sns_view/views.py:128-138 | an admitted message of any other allowed type calls `handle_message(payload.get('Message'), payload)` exactly once, as the last call; the answer is then 200 `OK`, or the handler's exception escapes |
| Views.PostHandlesIffAdmitted | django_sns_view/views.py:61-138 | `handle_message` is called iff every check passes and the type is neither confirmation type |

## Left out

- RSA/SHA-1 verification, X.509 loading and base64 decoding (OpenSSL and
  `b64decode`) are opaque predicates of the `Crypto` input. The signature is
  passed as its base64 text.
- PEM parsing (`pem.parse`) is an input function giving the certificate count
  of the fetched text.
- HTTP requests are inputs that answer with a body, an error status or no
  answer. `requests.get` exceptions other than `HTTPError` are modelled as one
  `RequestException`, which the source does not catch.
- General regular expressions: only the default pattern has a concrete matcher.
  A configured `SNS_CERT_DOMAIN_REGEX` or `SNS_SUBSCRIBE_DOMAIN_REGEX` is an
  opaque predicate.
- `urlparse` is modelled only as far as `netloc`. Its bracket (IPv6) and NFKC
  validation errors are not modelled.
- Django plumbing is not modelled: `dispatch`, `csrf_exempt`, the 405 for
  non-POST methods, `request.META` and `settings` lookups. Settings are a
  record, and responses are a status and a body.
- Decoding the request body from bytes is modelled only as its outcome: a body
  that is not UTF-8 is the `NotUtf8` body, whose decoding error escapes
  `post`. `Body` is already the outcome of `json.loads`, so a Python 2 `str` body,
  which skips decoding, is covered by every case except `NotUtf8`.
- Strings are sequences of Unicode scalar values. A JSON string may hold a lone
  surrogate (from a `\ud800` escape), which `.encode('utf-8')` at
  `django_sns_view/utils.py:102` and `:114` refuses with UnicodeEncodeError.
  Such values cannot be written in the model, so that error is not modelled.
- JSON objects are modelled as string-to-string maps. Non-string values, and
  the `json.loads` result types beyond "object" versus "other", are not
  modelled.
- The topic allow-list is a list of strings. If the setting were a single
  string, `in` would be a substring test; that case is not modelled.
- `AWS_ACCOUNT_ID` is a string. An integer setting never equals the string
  account field, and that case is not modelled.
- Logging is not modelled.
- The cache backend's expiry, eviction and sharing between processes are not
  modelled; the cache is a sequential map.
- Overriding `handle_message`, `should_confirm_subscription` or the class
  attributes is not modelled beyond the allowed-types list and the
  topic-setting key, which are settings. `handle_message` is an input, and its
  return value is ignored as in the source.
- pydantic's UUID, HTTP-URL and base64 checks are abstract predicates. The
  normalised values pydantic would store (a `UUID` object, a `Url`, decoded
  bytes) are not modelled: the payload keeps the wire strings. Validation
  errors are reported by field name only.
- Utils.PemLookupTwiceFetchesOnce: requires that the empty text is not a
  valid certificate file. A cached empty string counts as a miss in the source,
  so a one-certificate empty file would be fetched again.
- `Post` takes the verifier as an input rather than calling
  `VerifyNotification` on a shared cache; `VerifyNotification` is proved
  separately against `VerifySpec`.
