/**
 * The SNS endpoint's POST handler: an ordered chain of early-return checks
 * (topic allow-list, JSON body, certificate domain, signature, message-type
 * header) followed by routing on the `x-amz-sns-message-type` header to
 * subscription confirmation, the unsubscribe acknowledgement or the
 * application's `handle_message`. The handler is a function from settings,
 * request and collaborators to an outcome that records every outward call.
 */
module Views {
  import opened Wrappers
  import opened Strings
  import opened Urls
  import opened Types
  import opened Utils

  /**
   * The request body as `post` sees it: bytes that do not decode as UTF-8, or
   * the result of `json.loads` on the decoded text (not JSON, an object, or
   * some other JSON value: list, string, number, null).
   */
  datatype Body = NotUtf8 | NotJson | JsonObject(fields: RawPayload) | JsonNonObject

  /** The parts of a request the handler reads: the two SNS headers and the body. */
  datatype Request = Request(
    topicHeader: Option<string>,         // HTTP_X_AMZ_SNS_TOPIC_ARN
    messageTypeHeader: Option<string>,   // HTTP_X_AMZ_SNS_MESSAGE_TYPE
    body: Body)

  /** The settings and class attributes the handler consults. */
  datatype Settings = Settings(
    topicAllowlist: Option<seq<string>>,     // the setting named by `topic_settings_key`, when it exists
    certDomainPattern: DomainPattern,        // SNS_CERT_DOMAIN_REGEX
    subscribeDomainPattern: DomainPattern,   // SNS_SUBSCRIBE_DOMAIN_REGEX
    verifyCertificate: bool,                 // SNS_VERIFY_CERTIFICATE, true when unset
    accountId: Option<string>,               // AWS_ACCOUNT_ID, when it exists
    allowedMessageTypes: seq<string>)        // the `allowed_message_types` class attribute

  /** The message types accepted by default. */
  const DefaultAllowedMessageTypes: seq<string> := ["Notification", "SubscriptionConfirmation", "UnsubscribeConfirmation"]

  /** No topic allow-list, the default domain patterns, verification on, no account restriction. */
  const DefaultSettings: Settings :=
    Settings(None, DefaultPattern, DefaultPattern, true, None, DefaultAllowedMessageTypes)

  /**
   * The collaborators: `verify_notification` (its verdict or the exception it
   * raises), `requests.get` for the subscribe URL, and the application's
   * `handle_message` (`Some` error when it raises).
   */
  datatype Env = Env(
    verify: RawPayload -> Result<bool, Error>,
    get: string -> GetOutcome,
    handle: (Option<string>, RawPayload) -> Option<Error>)

  /** Every reason the handler itself gives in a 400 response. */
  const RefusalReasons: seq<string> := [
    "No TopicArn Header", "Bad Topic", "Not Valid JSON", "Improper Certificate Location",
    "Improper Signature", "HTTP_X_AMZ_SNS_MESSAGE_TYPE not set", "Invalid Notification Type",
    "Subscription Denied", "Improper Subscription Domain"]

  // ---------------------------------------------------------------------------
  // should_confirm_subscription

  /**
   * `arn.split(':')[4]`: the account field of an ARN. Fewer than five pieces
   * (fewer than four colons) is an IndexError.
   */
  function AccountOf(arn: string): (r: Result<string, Error>)
    ensures r == Failure(IndexError) <==> Occurrences(arn, ':') < 4
    ensures r.Success? ==> ':' !in r.value
  {
    var parts := Split(arn, ':');
    if |parts| < 5 then Failure(IndexError) else Success(parts[4])
  }

  /** The account of an ARN built from colon-free fields is its fifth field, whatever follows it. */
  lemma AccountOfJoinedFields(fields: seq<string>)
    requires |fields| >= 5 && SeparatorFree(fields, ':')
    ensures AccountOf(Join(fields, ':')) == Success(fields[4])
  {
    SplitJoin(fields, ':');
  }

  /** The account of `arn:aws:sns:<region>:<account>:<topic>`, topic possibly holding colons, is `<account>`. */
  lemma {:induction false} AccountOfTopicArn(region: string, account: string, topic: string)
    requires ':' !in region && ':' !in account
    ensures AccountOf("arn:aws:sns:" + region + ":" + account + ":" + topic) == Success(account)
  {
    var head := ["arn", "aws", "sns", region, account];
    var rest := Split(topic, ':');
    var fields := head + rest;
    assert SeparatorFree(head, ':');
    ConcatSeparatorFree(head, rest);
    JoinFields(head, rest);
    ArnHeadJoin(region, account);
    assert fields[4] == account;
    AccountOfJoinedFields(fields);
  }

  /** The five leading ARN fields joined with colons. */
  lemma ArnHeadJoin(region: string, account: string)
    ensures Join(["arn", "aws", "sns", region, account], ':') == "arn:aws:sns:" + region + ":" + account
  {
    var head := ["arn", "aws", "sns", region, account];
    assert head[1..][1..][1..][1..] == [account];
    assert Join(head[1..][1..][1..], ':') == region + ":" + account;
    assert Join(head[1..][1..], ':') == "sns" + ":" + (region + ":" + account);
    assert Join(head[1..], ':') == "aws" + ":" + ("sns" + ":" + (region + ":" + account));
    assert "arn" + ":" + ("aws" + ":" + ("sns" + ":" + (region + ":" + account))) == "arn:aws:sns:" + region + ":" + account;
  }

  /** Two runs of separator-free parts make one. */
  lemma ConcatSeparatorFree(xs: seq<string>, ys: seq<string>)
    requires SeparatorFree(xs, ':') && SeparatorFree(ys, ':')
    ensures SeparatorFree(xs + ys, ':')
  {
    forall i | 0 <= i < |xs + ys| ensures ':' !in (xs + ys)[i] {
      if i >= |xs| {
        assert (xs + ys)[i] == ys[i - |xs|];
      }
    }
  }

  /** Joining two non-empty runs of parts puts one separator between their joins. */
  lemma {:induction false} JoinFields(xs: seq<string>, ys: seq<string>)
    requires |xs| >= 1 && |ys| >= 1
    ensures Join(xs + ys, ':') == Join(xs, ':') + ":" + Join(ys, ':')
    decreases |xs|
  {
    if |xs| == 1 {
      assert (xs + ys)[1..] == ys;
    } else {
      assert (xs + ys)[1..] == xs[1..] + ys;
      JoinFields(xs[1..], ys);
    }
  }

  /**
   * `should_confirm_subscription(payload)`: with no account restriction every
   * subscription is confirmed; otherwise the account field of `TopicArn` must
   * equal it. A missing `TopicArn` is a KeyError, a short ARN an IndexError.
   */
  function ShouldConfirmSubscription(accountId: Option<string>, payload: RawPayload): (r: Result<bool, Error>)
    ensures accountId.None? ==> r == Success(true)
    ensures accountId.Some? && "TopicArn" !in payload ==> r == Failure(KeyError("TopicArn"))
    ensures accountId.Some? && "TopicArn" in payload && Occurrences(payload["TopicArn"], ':') < 4 ==>
      r == Failure(IndexError)
    ensures r == Success(true) <==>
      accountId.None? || ("TopicArn" in payload && AccountOf(payload["TopicArn"]) == Success(accountId.value))
  {
    match accountId
    case None => Success(true)
    case Some(account) =>
      if "TopicArn" !in payload then Failure(KeyError("TopicArn"))
      else
        match AccountOf(payload["TopicArn"])
        case Failure(e) => Failure(e)
        case Success(arnAccount) => Success(arnAccount == account)
  }

  /** With an account configured, a topic ARN of the usual shape is confirmed exactly when its account field matches. */
  lemma ShouldConfirmIffAccountMatches(account: string, payload: RawPayload,
                                       region: string, arnAccount: string, topic: string)
    requires "TopicArn" in payload && payload["TopicArn"] == "arn:aws:sns:" + region + ":" + arnAccount + ":" + topic
    requires ':' !in region && ':' !in arnAccount
    ensures ShouldConfirmSubscription(Some(account), payload) == Success(arnAccount == account)
  {
    AccountOfTopicArn(region, arnAccount, topic);
  }

  // ---------------------------------------------------------------------------
  // post

  /** A 400 response with `reason`, after the calls in `calls`. */
  function Refuse(reason: string, calls: seq<Call>): Outcome
  {
    Outcome(Success(BadRequest(reason)), calls)
  }

  /** The topic header passes the allow-list, when there is one. */
  predicate TopicAccepted(settings: Settings, request: Request)
  {
    settings.topicAllowlist.Some? ==>
      request.topicHeader.Some? && request.topicHeader.value in settings.topicAllowlist.value
  }

  /** The calls made by the signature step: one verification when it is enabled, none otherwise. */
  function VerifyTrace(settings: Settings, payload: RawPayload): (trace: seq<Call>)
    ensures forall i :: 0 <= i < |trace| ==> trace[i].Verify?
  {
    if settings.verifyCertificate then [Verify(payload)] else []
  }

  /**
   * Every check before routing passes: the topic is accepted, the body is a
   * JSON object whose certificate host passes the pattern, the signature is
   * accepted (or not checked), and the message type is present and allowed.
   */
  predicate Admitted(settings: Settings, request: Request, env: Env)
  {
    && TopicAccepted(settings, request)
    && request.body.JsonObject?
    && "SigningCertURL" in request.body.fields
    && Search(settings.certDomainPattern, Netloc(request.body.fields["SigningCertURL"]))
    && (settings.verifyCertificate ==> env.verify(request.body.fields) == Success(true))
    && request.messageTypeHeader.Some?
    && request.messageTypeHeader.value in settings.allowedMessageTypes
  }

  /** `payload.get('Message')`. */
  function MessageOf(payload: RawPayload): Option<string>
  {
    if "Message" in payload then Some(payload["Message"]) else None
  }

  /**
   * The subscription-confirmation route: the account check, then
   * `confirm_subscription` with the subscribe-domain pattern, whose one
   * request (if any) follows the calls in `trace`.
   */
  function ConfirmIfAllowed(settings: Settings, payload: RawPayload, env: Env, trace: seq<Call>): (o: Outcome)
    ensures o.calls == trace || ("SubscribeURL" in payload && o.calls == trace + [Get(payload["SubscribeURL"])])
    ensures o.result.Success? ==>
      o.result.value == OkResponse("OK") || o.result.value == BadRequest("Improper Subscription Domain") ||
      o.result.value == BadRequest("Subscription Denied")
  {
    match ShouldConfirmSubscription(settings.accountId, payload)
    case Failure(e) => Outcome(Failure(e), trace)
    case Success(false) => Refuse("Subscription Denied", trace)
    case Success(true) =>
      var c := ConfirmSubscription(payload, settings.subscribeDomainPattern, env.get);
      Outcome(c.result, trace + c.calls)
  }

  /**
   * The notification route: `handle_message(payload.get('Message'), payload)`
   * is called once after the calls in `trace`; 200 'OK' unless it raises.
   */
  function Deliver(payload: RawPayload, env: Env, trace: seq<Call>): (o: Outcome)
    ensures o.calls == trace + [HandleMessage(MessageOf(payload), payload)]
    ensures o.result.Success? <==> env.handle(MessageOf(payload), payload).None?
    ensures o.result.Success? ==> o.result.value == OkResponse("OK")
    ensures o.result.Failure? ==> o.result.error == env.handle(MessageOf(payload), payload).value
  {
    var calls := trace + [HandleMessage(MessageOf(payload), payload)];
    match env.handle(MessageOf(payload), payload)
    case Some(e) => Outcome(Failure(e), calls)
    case None => Outcome(Success(OkResponse("OK")), calls)
  }

  /**
   * Routing on the message-type header once the signature step is done, the
   * calls so far being `trace`: the payload's own `Type` is not consulted.
   */
  function Route(settings: Settings, payload: RawPayload, messageType: Option<string>, env: Env, trace: seq<Call>): (o: Outcome)
    ensures |trace| <= |o.calls| <= |trace| + 1 && o.calls[..|trace|] == trace
    ensures forall i :: |trace| <= i < |o.calls| ==> o.calls[i].Get? || o.calls[i].HandleMessage?
    ensures forall i :: |trace| <= i < |o.calls| && o.calls[i].HandleMessage? ==>
      messageType.Some? && messageType.value in settings.allowedMessageTypes &&
      messageType.value != "SubscriptionConfirmation" && messageType.value != "UnsubscribeConfirmation"
    ensures o.result.Success? ==> o.result.value.status == 200 || o.result.value.status == 400
    ensures o.result.Success? && o.result.value.status == 400 ==> o.result.value.content in RefusalReasons
  {
    match messageType
    case None => Refuse("HTTP_X_AMZ_SNS_MESSAGE_TYPE not set", trace)
    case Some(t) =>
      if t !in settings.allowedMessageTypes then Refuse("Invalid Notification Type", trace)
      else if t == "SubscriptionConfirmation" then ConfirmIfAllowed(settings, payload, env, trace)
      else if t == "UnsubscribeConfirmation" then
        Outcome(Success(OkResponse("UnsubscribeConfirmation Not Handled")), trace)
      else Deliver(payload, env, trace)
  }

  /**
   * The part of `post` that follows a successful `json.loads` to an object:
   * the certificate-domain gate, the signature step, then routing. The
   * verifier is called at most once and only as the first call, and only
   * when verification is enabled.
   */
  function Receive(settings: Settings, payload: RawPayload, messageType: Option<string>, env: Env): (o: Outcome)
    ensures |o.calls| <= 2
    ensures forall i :: 0 <= i < |o.calls| ==> (o.calls[i].Verify? <==> i == 0 && settings.verifyCertificate)
    ensures o.result.Success? ==> o.result.value.status == 200 || o.result.value.status == 400
    ensures o.result.Success? && o.result.value.status == 400 ==> o.result.value.content in RefusalReasons
  {
    if "SigningCertURL" !in payload then Outcome(Failure(KeyError("SigningCertURL")), [])
    else if !Search(settings.certDomainPattern, Netloc(payload["SigningCertURL"])) then
      Refuse("Improper Certificate Location", [])
    else if !settings.verifyCertificate then
      Route(settings, payload, messageType, env, [])
    else
      VerifyThenRoute(settings, payload, messageType, env)
  }

  /**
   * The signature step when verification is enabled: one call to the verifier,
   * whose exception escapes and whose rejection is refused, then routing.
   */
  function VerifyThenRoute(settings: Settings, payload: RawPayload, messageType: Option<string>, env: Env): (o: Outcome)
    ensures 1 <= |o.calls| <= 2 && o.calls[0] == Verify(payload)
    ensures forall i :: 1 <= i < |o.calls| ==> o.calls[i].Get? || o.calls[i].HandleMessage?
    ensures o.result.Success? ==> o.result.value.status == 200 || o.result.value.status == 400
    ensures o.result.Success? && o.result.value.status == 400 ==> o.result.value.content in RefusalReasons
  {
    var trace := [Verify(payload)];
    match env.verify(payload)
    case Failure(e) => Outcome(Failure(e), trace)
    case Success(false) => Refuse("Improper Signature", trace)
    case Success(true) => Route(settings, payload, messageType, env, trace)
  }

  /**
   * `SNSEndpoint.post(request)`. Collaborators are called only once the body
   * is a JSON object; at most two calls are made; a 400 always carries one of
   * the handler's own reasons, and any response is 200 or 400.
   */
  function Post(settings: Settings, request: Request, env: Env): (o: Outcome)
    ensures o.calls != [] ==> request.body.JsonObject?
    ensures |o.calls| <= 2
    ensures forall i :: 0 <= i < |o.calls| ==> (o.calls[i].Verify? <==> i == 0 && settings.verifyCertificate)
    ensures o.result.Success? ==> o.result.value.status == 200 || o.result.value.status == 400
    ensures o.result.Success? && o.result.value.status == 400 ==> o.result.value.content in RefusalReasons
  {
    if settings.topicAllowlist.Some? && request.topicHeader.None? then Refuse("No TopicArn Header", [])
    else if settings.topicAllowlist.Some? && request.topicHeader.value !in settings.topicAllowlist.value then
      Refuse("Bad Topic", [])
    else
      match request.body
      case NotUtf8 => Outcome(Failure(UnicodeDecodeError), [])
      case NotJson => Refuse("Not Valid JSON", [])
      case JsonNonObject => Outcome(Failure(TypeError), [])
      case JsonObject(payload) => Receive(settings, payload, request.messageTypeHeader, env)
  }

  /** With an allow-list, a missing or unlisted topic header is refused before the body is looked at. */
  lemma PostChecksTopicFirst(settings: Settings, request: Request, env: Env)
    requires settings.topicAllowlist.Some?
    ensures request.topicHeader.None? ==> Post(settings, request, env) == Refuse("No TopicArn Header", [])
    ensures request.topicHeader.Some? && request.topicHeader.value !in settings.topicAllowlist.value ==>
      Post(settings, request, env) == Refuse("Bad Topic", [])
    ensures forall body :: !TopicAccepted(settings, request) ==>
      Post(settings, request.(body := body), env) == Post(settings, request, env)
  {
  }

  /** A body that is not JSON is refused, and neither the domain check nor verification runs. */
  lemma PostRejectsNonJson(settings: Settings, request: Request, env: Env)
    requires TopicAccepted(settings, request) && request.body == NotJson
    ensures Post(settings, request, env) == Refuse("Not Valid JSON", [])
  {
  }

  /**
   * A JSON value that is not an object cannot be indexed by a string, and an
   * object without `SigningCertURL` has no such key: either exception escapes
   * before any call.
   */
  lemma PostRaisesOnMalformedPayload(settings: Settings, request: Request, env: Env)
    requires TopicAccepted(settings, request)
    ensures request.body == JsonNonObject ==> Post(settings, request, env) == Outcome(Failure(TypeError), [])
    ensures request.body.JsonObject? && "SigningCertURL" !in request.body.fields ==>
      Post(settings, request, env) == Outcome(Failure(KeyError("SigningCertURL")), [])
  {
    if request.body.JsonObject? {
      PostReachesReceive(settings, request, env);
    }
  }

  /** A body that is not UTF-8 fails to decode before `json.loads`: the decoding error escapes and nothing is called. */
  lemma PostRaisesOnUndecodableBody(settings: Settings, request: Request, env: Env)
    requires TopicAccepted(settings, request) && request.body == NotUtf8
    ensures Post(settings, request, env) == Outcome(Failure(UnicodeDecodeError), [])
  {
  }

  /** A certificate host outside the pattern is refused and verification is never invoked. */
  lemma PostRejectsForeignCertificate(settings: Settings, request: Request, env: Env)
    requires TopicAccepted(settings, request) && request.body.JsonObject?
    requires "SigningCertURL" in request.body.fields
    requires !Search(settings.certDomainPattern, Netloc(request.body.fields["SigningCertURL"]))
    ensures Post(settings, request, env) == Refuse("Improper Certificate Location", [])
  {
  }

  /**
   * With verification enabled, a rejected signature is refused after exactly
   * one verification, and a verifier exception propagates.
   */
  lemma PostRejectsBadSignature(settings: Settings, request: Request, env: Env)
    requires TopicAccepted(settings, request) && request.body.JsonObject?
    requires "SigningCertURL" in request.body.fields
    requires Search(settings.certDomainPattern, Netloc(request.body.fields["SigningCertURL"]))
    requires settings.verifyCertificate
    ensures env.verify(request.body.fields) == Success(false) ==>
      Post(settings, request, env) == Refuse("Improper Signature", [Verify(request.body.fields)])
    ensures env.verify(request.body.fields).Failure? ==>
      Post(settings, request, env) == Outcome(Failure(env.verify(request.body.fields).error), [Verify(request.body.fields)])
  {
  }

  /** With verification disabled the verifier is never consulted, whatever it would say. */
  lemma PostWithoutVerificationNeverVerifies(settings: Settings, request: Request, env: Env,
                                             verify: RawPayload -> Result<bool, Error>)
    requires !settings.verifyCertificate
    ensures forall i :: 0 <= i < |Post(settings, request, env).calls| ==> !Post(settings, request, env).calls[i].Verify?
    ensures Post(settings, request, env.(verify := verify)) == Post(settings, request, env)
  {
    match request.body
    case JsonObject(payload) =>
      RouteIgnoresVerifier(settings, payload, request.messageTypeHeader, env, verify, []);
      assert Receive(settings, payload, request.messageTypeHeader, env.(verify := verify))
          == Receive(settings, payload, request.messageTypeHeader, env);
    case _ =>
  }

  /** Routing never consults the verifier. */
  lemma RouteIgnoresVerifier(settings: Settings, payload: RawPayload, messageType: Option<string>, env: Env,
                             verify: RawPayload -> Result<bool, Error>, trace: seq<Call>)
    ensures Route(settings, payload, messageType, env.(verify := verify), trace) == Route(settings, payload, messageType, env, trace)
  {
  }

  /**
   * The message-type header is checked only after the signature step: a
   * missing header or a type outside the allowed list is refused after the
   * verification call, if any.
   */
  lemma PostChecksMessageTypeAfterVerification(settings: Settings, request: Request, env: Env)
    requires TopicAccepted(settings, request) && request.body.JsonObject?
    requires "SigningCertURL" in request.body.fields
    requires Search(settings.certDomainPattern, Netloc(request.body.fields["SigningCertURL"]))
    requires settings.verifyCertificate ==> env.verify(request.body.fields) == Success(true)
    ensures request.messageTypeHeader.None? ==>
      Post(settings, request, env) ==
        Refuse("HTTP_X_AMZ_SNS_MESSAGE_TYPE not set", VerifyTrace(settings, request.body.fields))
    ensures request.messageTypeHeader.Some? && request.messageTypeHeader.value !in settings.allowedMessageTypes ==>
      Post(settings, request, env) == Refuse("Invalid Notification Type", VerifyTrace(settings, request.body.fields))
  {
  }

  /** A request that passes every check reaches routing after exactly the verification call, if enabled. */
  lemma PostAdmittedRoutes(settings: Settings, request: Request, env: Env)
    requires Admitted(settings, request, env)
    ensures Post(settings, request, env) ==
      Route(settings, request.body.fields, request.messageTypeHeader, env, VerifyTrace(settings, request.body.fields))
  {
    var payload, messageType := request.body.fields, request.messageTypeHeader;
    PostReachesReceive(settings, request, env);
    ReceivePassedChecksRoutes(settings, payload, messageType, env);
  }

  /** Once the topic is accepted and the body is a JSON object, `post` answers as `Receive` does. */
  lemma PostReachesReceive(settings: Settings, request: Request, env: Env)
    requires TopicAccepted(settings, request) && request.body.JsonObject?
    ensures Post(settings, request, env) == Receive(settings, request.body.fields, request.messageTypeHeader, env)
  {
    assert request.body == JsonObject(request.body.fields);
    assert !(settings.topicAllowlist.Some? && request.topicHeader.None?);
    assert !(settings.topicAllowlist.Some? && request.topicHeader.value !in settings.topicAllowlist.value);
  }

  /** Once the certificate host and the signature pass, `Receive` answers as routing does after the signature step. */
  lemma ReceivePassedChecksRoutes(settings: Settings, payload: RawPayload, messageType: Option<string>, env: Env)
    requires "SigningCertURL" in payload && Search(settings.certDomainPattern, Netloc(payload["SigningCertURL"]))
    requires settings.verifyCertificate ==> env.verify(payload) == Success(true)
    ensures Receive(settings, payload, messageType, env) == Route(settings, payload, messageType, env, VerifyTrace(settings, payload))
  {
    if settings.verifyCertificate {
      assert VerifyThenRoute(settings, payload, messageType, env) == Route(settings, payload, messageType, env, [Verify(payload)]);
      assert Receive(settings, payload, messageType, env) == VerifyThenRoute(settings, payload, messageType, env);
    } else {
      assert Receive(settings, payload, messageType, env) == Route(settings, payload, messageType, env, []);
    }
  }

  /**
   * A subscription confirmation goes ahead exactly when the account check
   * allows it, and is then answered by `confirm_subscription` with the
   * subscribe-domain pattern; when it refuses, the answer is 'Subscription
   * Denied', and when it raises (no `TopicArn`, a short ARN) the exception escapes.
   */
  lemma PostSubscriptionConfirmation(settings: Settings, request: Request, env: Env)
    requires Admitted(settings, request, env)
    requires request.messageTypeHeader == Some("SubscriptionConfirmation")
    ensures var payload := request.body.fields;
      var trace := VerifyTrace(settings, payload);
      var c := ConfirmSubscription(payload, settings.subscribeDomainPattern, env.get);
      && (ShouldConfirmSubscription(settings.accountId, payload) == Success(true) ==>
            Post(settings, request, env) == Outcome(c.result, trace + c.calls))
      && (ShouldConfirmSubscription(settings.accountId, payload) == Success(false) ==>
            Post(settings, request, env) == Refuse("Subscription Denied", trace))
      && (ShouldConfirmSubscription(settings.accountId, payload).Failure? ==>
            Post(settings, request, env) ==
              Outcome(Failure(ShouldConfirmSubscription(settings.accountId, payload).error), trace))
  {
    PostAdmittedRoutes(settings, request, env);
  }

  /** Without an account restriction every admitted subscription confirmation is handed to `confirm_subscription`. */
  lemma PostConfirmsWithoutAccountRestriction(settings: Settings, request: Request, env: Env)
    requires Admitted(settings, request, env) && settings.accountId.None?
    requires request.messageTypeHeader == Some("SubscriptionConfirmation")
    ensures var c := ConfirmSubscription(request.body.fields, settings.subscribeDomainPattern, env.get);
      Post(settings, request, env) == Outcome(c.result, VerifyTrace(settings, request.body.fields) + c.calls)
  {
    PostAdmittedRoutes(settings, request, env);
  }

  /** An unsubscribe confirmation never reaches `handle_message`, and once admitted is acknowledged with 200. */
  lemma PostUnsubscribeNeverHandles(settings: Settings, request: Request, env: Env)
    requires request.messageTypeHeader == Some("UnsubscribeConfirmation")
    ensures forall i :: 0 <= i < |Post(settings, request, env).calls| ==>
      !Post(settings, request, env).calls[i].HandleMessage?
    ensures Admitted(settings, request, env) ==>
      Post(settings, request, env) ==
        Outcome(Success(OkResponse("UnsubscribeConfirmation Not Handled")), VerifyTrace(settings, request.body.fields))
  {
    if Admitted(settings, request, env) {
      PostAdmittedRoutes(settings, request, env);
      RouteAcknowledgesUnsubscribe(settings, request.body.fields, env, VerifyTrace(settings, request.body.fields));
    } else {
      NoHandleUnlessAdmitted(settings, request, env);
    }
  }

  /** Routing an allowed unsubscribe confirmation acknowledges it with no further call. */
  lemma RouteAcknowledgesUnsubscribe(settings: Settings, payload: RawPayload, env: Env, trace: seq<Call>)
    requires "UnsubscribeConfirmation" in settings.allowedMessageTypes
    ensures Route(settings, payload, Some("UnsubscribeConfirmation"), env, trace) ==
      Outcome(Success(OkResponse("UnsubscribeConfirmation Not Handled")), trace)
  {
    assert "UnsubscribeConfirmation"[0] != "SubscriptionConfirmation"[0];
  }

  /**
   * An admitted message of any other allowed type calls `handle_message`
   * exactly once, with `payload.get('Message')` and the payload, as the last
   * call; then answers 200 'OK', or lets the handler's exception escape.
   */
  lemma PostNotificationHandlesOnce(settings: Settings, request: Request, env: Env)
    requires Admitted(settings, request, env)
    requires request.messageTypeHeader.value != "SubscriptionConfirmation"
    requires request.messageTypeHeader.value != "UnsubscribeConfirmation"
    ensures var payload := request.body.fields;
      && Post(settings, request, env).calls ==
           VerifyTrace(settings, payload) + [HandleMessage(MessageOf(payload), payload)]
      && (env.handle(MessageOf(payload), payload).None? ==>
            Post(settings, request, env).result == Success(OkResponse("OK")))
      && (env.handle(MessageOf(payload), payload).Some? ==>
            Post(settings, request, env).result == Failure(env.handle(MessageOf(payload), payload).value))
  {
    PostAdmittedRoutes(settings, request, env);
  }

  /**
   * `handle_message` is called exactly when every check passes and the
   * message type is neither of the two confirmation types.
   */
  lemma {:induction false} PostHandlesIffAdmitted(settings: Settings, request: Request, env: Env)
    ensures (exists i :: 0 <= i < |Post(settings, request, env).calls| && Post(settings, request, env).calls[i].HandleMessage?)
      <==> Admitted(settings, request, env) &&
           request.messageTypeHeader.value != "SubscriptionConfirmation" &&
           request.messageTypeHeader.value != "UnsubscribeConfirmation"
  {
    if Admitted(settings, request, env) && request.messageTypeHeader.value != "SubscriptionConfirmation" &&
       request.messageTypeHeader.value != "UnsubscribeConfirmation" {
      PostHandlesWhenAdmitted(settings, request, env);
    } else if Admitted(settings, request, env) {
      NoHandleForConfirmations(settings, request, env);
    } else {
      NoHandleUnlessAdmitted(settings, request, env);
    }
  }

  /** An admitted message of a type other than the two confirmations makes a `handle_message` call. */
  lemma PostHandlesWhenAdmitted(settings: Settings, request: Request, env: Env)
    requires Admitted(settings, request, env)
    requires request.messageTypeHeader.value != "SubscriptionConfirmation"
    requires request.messageTypeHeader.value != "UnsubscribeConfirmation"
    ensures exists i :: 0 <= i < |Post(settings, request, env).calls| && Post(settings, request, env).calls[i].HandleMessage?
  {
    PostNotificationHandlesOnce(settings, request, env);
    var o := Post(settings, request, env);
    assert o.calls[|o.calls| - 1].HandleMessage?;
  }

  /** An admitted confirmation of either kind makes no `handle_message` call. */
  lemma NoHandleForConfirmations(settings: Settings, request: Request, env: Env)
    requires Admitted(settings, request, env)
    requires request.messageTypeHeader.value == "SubscriptionConfirmation" ||
             request.messageTypeHeader.value == "UnsubscribeConfirmation"
    ensures forall i :: 0 <= i < |Post(settings, request, env).calls| ==> !Post(settings, request, env).calls[i].HandleMessage?
  {
    PostAdmittedRoutes(settings, request, env);
    RouteNeverHandlesConfirmations(settings, request.body.fields, request.messageTypeHeader.value, env,
                                   VerifyTrace(settings, request.body.fields));
  }

  /** Routing a confirmation of either kind adds no `handle_message` call to calls that had none. */
  lemma RouteNeverHandlesConfirmations(settings: Settings, payload: RawPayload, messageType: string, env: Env, trace: seq<Call>)
    requires messageType == "SubscriptionConfirmation" || messageType == "UnsubscribeConfirmation"
    requires forall i :: 0 <= i < |trace| ==> !trace[i].HandleMessage?
    ensures var o := Route(settings, payload, Some(messageType), env, trace);
      forall i :: 0 <= i < |o.calls| ==> !o.calls[i].HandleMessage?
  {
    var o := Route(settings, payload, Some(messageType), env, trace);
    forall i | 0 <= i < |o.calls| ensures !o.calls[i].HandleMessage? {
      if i < |trace| {
        assert o.calls[i] == o.calls[..|trace|][i] == trace[i];
      }
    }
  }

  /** A request that fails a check before routing makes no `handle_message` call. */
  lemma NoHandleUnlessAdmitted(settings: Settings, request: Request, env: Env)
    requires !Admitted(settings, request, env)
    ensures forall i :: 0 <= i < |Post(settings, request, env).calls| ==> !Post(settings, request, env).calls[i].HandleMessage?
  {
    if TopicAccepted(settings, request) && request.body.JsonObject? {
      var payload, messageType := request.body.fields, request.messageTypeHeader;
      PostReachesReceive(settings, request, env);
      ReceiveStopsBeforeRouting(settings, payload, messageType, env);
    }
  }

  /** When the certificate, signature or message-type check fails, the only call made is the verification, if any. */
  lemma ReceiveStopsBeforeRouting(settings: Settings, payload: RawPayload, messageType: Option<string>, env: Env)
    requires !("SigningCertURL" in payload && Search(settings.certDomainPattern, Netloc(payload["SigningCertURL"])) &&
               (settings.verifyCertificate ==> env.verify(payload) == Success(true)) &&
               messageType.Some? && messageType.value in settings.allowedMessageTypes)
    ensures forall i :: 0 <= i < |Receive(settings, payload, messageType, env).calls| ==>
      Receive(settings, payload, messageType, env).calls[i].Verify?
  {
    var o := Receive(settings, payload, messageType, env);
    if "SigningCertURL" !in payload || !Search(settings.certDomainPattern, Netloc(payload["SigningCertURL"])) {
      assert o.calls == [];
    } else if !settings.verifyCertificate {
      assert o == Route(settings, payload, messageType, env, []);
      RouteRefusesUnknownType(settings, payload, messageType, env, []);
    } else {
      assert o == VerifyThenRoute(settings, payload, messageType, env);
      VerifyStopsBeforeRouting(settings, payload, messageType, env);
    }
  }

  /** With verification enabled, a rejected signature or an unknown message type leaves the verification as the only call. */
  lemma VerifyStopsBeforeRouting(settings: Settings, payload: RawPayload, messageType: Option<string>, env: Env)
    requires !(env.verify(payload) == Success(true) && messageType.Some? && messageType.value in settings.allowedMessageTypes)
    ensures VerifyThenRoute(settings, payload, messageType, env).calls == [Verify(payload)]
  {
    if env.verify(payload) == Success(true) {
      RouteRefusesUnknownType(settings, payload, messageType, env, [Verify(payload)]);
    }
  }

  /** A missing or disallowed message type is refused with no further call. */
  lemma RouteRefusesUnknownType(settings: Settings, payload: RawPayload, messageType: Option<string>, env: Env, trace: seq<Call>)
    requires messageType.None? || messageType.value !in settings.allowedMessageTypes
    ensures Route(settings, payload, messageType, env, trace).calls == trace
  {
  }
}
