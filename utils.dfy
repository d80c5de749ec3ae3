/**
 * Signature checking and subscription confirmation: the three canonical
 * "string to sign" layouts, the certificate cache keyed by certificate URL,
 * `verify_notification`, and `confirm_subscription` with its domain gate.
 * Network answers, PEM parsing and the RSA/SHA-1 check are inputs.
 */
module Utils {
  import opened Wrappers
  import opened Urls
  import opened Types

  /** The exceptions the core lets escape to its caller. */
  datatype Error =
    | KeyError(key: string)    // a payload field looked up with `payload[name]` is missing
    | TypeError                // the payload or a URL has a type the operation cannot take
    | IndexError               // a list index past the end
    | UnicodeDecodeError       // the request body is not UTF-8
    | HTTPError                // `raise_for_status` on an error status
    | RequestException         // `requests.get` got no answer at all
    | InvalidCertificateFile   // the certificate file does not hold exactly one certificate
    | CertificateLoadError     // the PEM text does not load as an X.509 certificate
    | Base64Error              // the signature is not decodable base64
    | HandlerError             // `handle_message` raised (by default `NotImplementedError`)

  /** What `requests.get(url)` followed by `raise_for_status()` gives: a body, an error status, or no answer. */
  datatype GetOutcome = Fetched(text: string) | ErrorStatus | NoResponse

  /** An HTTP response: status code and body. */
  datatype Response = Response(status: nat, content: string)

  function OkResponse(content: string): Response { Response(200, content) }
  function BadRequest(reason: string): Response { Response(400, reason) }

  /** An outward call made while handling a request, in the order made. */
  datatype Call =
    | Verify(payload: RawPayload)                              // verify_notification(payload)
    | Get(url: string)                                         // requests.get(url) for a confirmation
    | HandleMessage(message: Option<string>, payload: RawPayload)  // handle_message(message, payload)

  /** The response or the exception, and the calls made on the way. */
  datatype Outcome = Outcome(result: Result<Response, Error>, calls: seq<Call>)

  // ---------------------------------------------------------------------------
  // The string to sign

  /** Field names of the notification layout with a subject, in signing order. */
  const NotificationHashFormat: seq<string> := ["Message", "MessageId", "Subject", "Timestamp", "TopicArn", "Type"]

  /** Field names of the notification layout without a subject. */
  const NotificationHashFormatNoSubject: seq<string> := ["Message", "MessageId", "Timestamp", "TopicArn", "Type"]

  /** Field names of the layout of both confirmation kinds. */
  const SubscriptionHashFormat: seq<string> := ["Message", "MessageId", "SubscribeURL", "Timestamp", "Token", "TopicArn", "Type"]

  /** One line pair of a layout: the field name, a newline, the value, a newline. */
  function Line(name: string, value: string): string
  {
    name + "\n" + value + "\n"
  }

  /**
   * `template.format(**payload)` for a layout whose line pairs are `Name\n{Name}\n`
   * for the listed names: the line pairs in order, or a KeyError for the first
   * name the payload lacks.
   */
  function Format(template: seq<string>, payload: RawPayload): (r: Result<string, Error>)
    ensures r.Success? <==> forall k :: 0 <= k < |template| ==> template[k] in payload
    ensures r.Failure? ==>
      exists k :: 0 <= k < |template| && template[k] !in payload && r.error == KeyError(template[k]) &&
        forall m :: 0 <= m < k ==> template[m] in payload
  {
    if template == [] then Success("")
    else if template[0] !in payload then Failure(KeyError(template[0]))
    else
      match Format(template[1..], payload)
      case Success(rest) => Success(Line(template[0], payload[template[0]]) + rest)
      case Failure(e) =>
        assert forall k :: 1 <= k < |template| ==> template[k] == template[1..][k - 1];
        Failure(e)
  }

  /** `payload.get('Subject')` is truthy: present and not the empty string. */
  predicate HasSubject(payload: RawPayload)
  {
    "Subject" in payload && payload["Subject"] != ""
  }

  /** The layout `verify_notification` picks: by `Type`, and for a notification by whether it has a subject. */
  function HashFormat(payload: RawPayload): (r: Result<seq<string>, Error>)
    ensures r.Failure? <==> "Type" !in payload
    ensures r.Failure? ==> r.error == KeyError("Type")
    ensures r.Success? && payload["Type"] == "Notification" ==>
      r.value == (if HasSubject(payload) then NotificationHashFormat else NotificationHashFormatNoSubject)
    ensures r.Success? && payload["Type"] != "Notification" ==> r.value == SubscriptionHashFormat
  {
    if "Type" !in payload then Failure(KeyError("Type"))
    else if payload["Type"] == "Notification" then
      if HasSubject(payload) then Success(NotificationHashFormat) else Success(NotificationHashFormatNoSubject)
    else Success(SubscriptionHashFormat)
  }

  /** The text whose signature `verify_notification` checks: the chosen layout filled from the payload. */
  function SignedText(payload: RawPayload): (r: Result<string, Error>)
    ensures "Type" !in payload ==> r == Failure(KeyError("Type"))
    ensures r.Failure? ==> r.error.KeyError? && r.error.key !in payload
    ensures r.Success? ==>
      "Type" in payload && "Message" in payload && "MessageId" in payload &&
      "Timestamp" in payload && "TopicArn" in payload
  {
    match HashFormat(payload)
    case Failure(e) => Failure(e)
    case Success(template) =>
      assert template[0] == "Message" && template[1] == "MessageId";
      assert template[|template| - 1] == "Type" && template[|template| - 2] == "TopicArn";
      assert template[|template| - 3] == "Timestamp" || template[|template| - 4] == "Timestamp";
      Format(template, payload)
  }

  /** A notification with a subject yields exactly the six line pairs, Subject third. */
  lemma NotificationWithSubjectLayout(payload: RawPayload)
    requires "Type" in payload && payload["Type"] == "Notification" && HasSubject(payload)
    requires "Message" in payload && "MessageId" in payload && "Timestamp" in payload && "TopicArn" in payload
    ensures SignedText(payload) == Success(
      Line("Message", payload["Message"]) + Line("MessageId", payload["MessageId"]) +
      Line("Subject", payload["Subject"]) + Line("Timestamp", payload["Timestamp"]) +
      Line("TopicArn", payload["TopicArn"]) + Line("Type", "Notification"))
  {
    var t := NotificationHashFormat;
    var a, b, c := Line("Message", payload["Message"]), Line("MessageId", payload["MessageId"]), Line("Subject", payload["Subject"]);
    var d, e, f := Line("Timestamp", payload["Timestamp"]), Line("TopicArn", payload["TopicArn"]), Line("Type", "Notification");
    assert Format(t[6..], payload) == Success("");
    assert Format(t[5..], payload) == Success(f + "");
    assert Format(t[4..], payload) == Success(e + (f + ""));
    assert Format(t[3..], payload) == Success(d + (e + (f + "")));
    assert Format(t[2..], payload) == Success(c + (d + (e + (f + ""))));
    assert Format(t[1..], payload) == Success(b + (c + (d + (e + (f + "")))));
    assert Format(t, payload) == Success(a + (b + (c + (d + (e + (f + ""))))));
    assert f + "" == f;
    assert a + (b + (c + (d + (e + f)))) == a + b + c + d + e + f;
    assert HashFormat(payload) == Success(t);
  }

  /** A notification whose subject is absent or empty yields the same text with no Subject line pair. */
  lemma NotificationWithoutSubjectLayout(payload: RawPayload)
    requires "Type" in payload && payload["Type"] == "Notification" && !HasSubject(payload)
    requires "Message" in payload && "MessageId" in payload && "Timestamp" in payload && "TopicArn" in payload
    ensures SignedText(payload) == Success(
      Line("Message", payload["Message"]) + Line("MessageId", payload["MessageId"]) +
      Line("Timestamp", payload["Timestamp"]) +
      Line("TopicArn", payload["TopicArn"]) + Line("Type", "Notification"))
  {
    var t := NotificationHashFormatNoSubject;
    var a, b := Line("Message", payload["Message"]), Line("MessageId", payload["MessageId"]);
    var d, e, f := Line("Timestamp", payload["Timestamp"]), Line("TopicArn", payload["TopicArn"]), Line("Type", "Notification");
    assert Format(t[5..], payload) == Success("");
    assert Format(t[4..], payload) == Success(f + "");
    assert Format(t[3..], payload) == Success(e + (f + ""));
    assert Format(t[2..], payload) == Success(d + (e + (f + "")));
    assert Format(t[1..], payload) == Success(b + (d + (e + (f + ""))));
    assert Format(t, payload) == Success(a + (b + (d + (e + (f + "")))));
    assert f + "" == f;
    assert a + (b + (d + (e + f))) == a + b + d + e + f;
    assert HashFormat(payload) == Success(t);
  }

  /**
   * Every other `Type`, whatever its value, yields the seven line pairs
   * Message, MessageId, SubscribeURL, Timestamp, Token, TopicArn, Type.
   */
  lemma ConfirmationLayout(payload: RawPayload)
    requires "Type" in payload && payload["Type"] != "Notification"
    requires "Message" in payload && "MessageId" in payload && "SubscribeURL" in payload
    requires "Timestamp" in payload && "Token" in payload && "TopicArn" in payload
    ensures SignedText(payload) == Success(
      Line("Message", payload["Message"]) + Line("MessageId", payload["MessageId"]) +
      Line("SubscribeURL", payload["SubscribeURL"]) + Line("Timestamp", payload["Timestamp"]) +
      Line("Token", payload["Token"]) + Line("TopicArn", payload["TopicArn"]) +
      Line("Type", payload["Type"]))
  {
    var t := SubscriptionHashFormat;
    var a, b, c := Line("Message", payload["Message"]), Line("MessageId", payload["MessageId"]), Line("SubscribeURL", payload["SubscribeURL"]);
    var d, e := Line("Timestamp", payload["Timestamp"]), Line("Token", payload["Token"]);
    var f, g := Line("TopicArn", payload["TopicArn"]), Line("Type", payload["Type"]);
    assert Format(t[7..], payload) == Success("");
    assert Format(t[6..], payload) == Success(g + "");
    assert Format(t[5..], payload) == Success(f + (g + ""));
    assert Format(t[4..], payload) == Success(e + (f + (g + "")));
    assert Format(t[3..], payload) == Success(d + (e + (f + (g + ""))));
    assert Format(t[2..], payload) == Success(c + (d + (e + (f + (g + "")))));
    assert Format(t[1..], payload) == Success(b + (c + (d + (e + (f + (g + ""))))));
    assert Format(t, payload) == Success(a + (b + (c + (d + (e + (f + (g + "")))))));
    assert g + "" == g;
    assert a + (b + (c + (d + (e + (f + g))))) == a + b + c + d + e + f + g;
    assert HashFormat(payload) == Success(t);
  }

  /**
   * The canonical string of a typed payload, written out as the signer lays
   * it out: the Subject line pair only for a non-empty subject.
   */
  function StringToSign(p: Payload): string
  {
    var b := p.base;
    match p
    case Notification(_, subject, _) =>
      Line("Message", b.message) + Line("MessageId", b.messageId) +
      (if subject.Some? && subject.value != "" then Line("Subject", subject.value) else "") +
      Line("Timestamp", b.timestamp) + Line("TopicArn", b.topicArn) + Line("Type", "Notification")
    case _ =>
      Line("Message", b.message) + Line("MessageId", b.messageId) +
      Line("SubscribeURL", p.subscribeUrl) + Line("Timestamp", b.timestamp) +
      Line("Token", p.token) + Line("TopicArn", b.topicArn) + Line("Type", p.Tag())
  }

  /**
   * For every object that validates as a payload, the dictionary-driven text
   * `verify_notification` checks is the typed payload's canonical string; in
   * particular the wire Timestamp is reproduced unchanged.
   */
  lemma SignedTextMatchesTypedPayload(raw: RawPayload, v: Validators, p: Payload)
    requires Parse(raw, v) == Success(p)
    ensures SignedText(raw) == Success(StringToSign(p))
  {
    assert Carries(raw, p);
    if p.Notification? {
      if HasSubject(raw) {
        NotificationWithSubjectLayout(raw);
      } else {
        NotificationWithoutSubjectLayout(raw);
        var head := Line("Message", raw["Message"]) + Line("MessageId", raw["MessageId"]);
        assert head + "" == head;
      }
    } else {
      ConfirmationLayout(raw);
    }
  }

  // ---------------------------------------------------------------------------
  // The certificate cache

  /** One certificate lookup: its result, the certificate URLs fetched, and the cache afterwards. */
  datatype PemStep = PemStep(result: Result<string, Error>, requested: seq<string>, entries: map<string, string>)

  /**
   * `get_pemfile(cert_url)` over the cache `entries`: a non-empty cached text is
   * returned without fetching; otherwise the URL is fetched, a fetch error is
   * raised, a file that does not hold exactly one certificate raises, and a good
   * file is stored under the exact URL and returned.
   */
  function PemLookup(entries: map<string, string>, certUrl: string,
                     fetch: string -> GetOutcome, certificateCount: string -> nat): (step: PemStep)
    ensures step.requested == [] <==> certUrl in entries && entries[certUrl] != ""
    ensures step.requested == [] || step.requested == [certUrl]
    ensures step.result.Success? ==> certUrl in step.entries && step.entries[certUrl] == step.result.value
    ensures step.entries.Keys == entries.Keys || step.entries.Keys == entries.Keys + {certUrl}
    ensures forall k :: k in entries && k != certUrl ==> step.entries[k] == entries[k]
  {
    if certUrl in entries && entries[certUrl] != "" then PemStep(Success(entries[certUrl]), [], entries)
    else
      match fetch(certUrl)
      case ErrorStatus => PemStep(Failure(HTTPError), [certUrl], entries)
      case NoResponse => PemStep(Failure(RequestException), [certUrl], entries)
      case Fetched(text) =>
        if certificateCount(text) != 1 then PemStep(Failure(InvalidCertificateFile), [certUrl], entries)
        else PemStep(Success(text), [certUrl], entries[certUrl := text])
  }

  /** A cache hit with a non-empty text returns it and fetches nothing. */
  lemma PemLookupHit(entries: map<string, string>, certUrl: string,
                     fetch: string -> GetOutcome, certificateCount: string -> nat)
    requires certUrl in entries && entries[certUrl] != ""
    ensures PemLookup(entries, certUrl, fetch, certificateCount) == PemStep(Success(entries[certUrl]), [], entries)
  {
  }

  /**
   * A miss whose fetch yields a one-certificate file returns that file and
   * stores it under the exact URL, leaving every other key as it was.
   */
  lemma PemLookupMissStores(entries: map<string, string>, certUrl: string,
                            fetch: string -> GetOutcome, certificateCount: string -> nat)
    requires !(certUrl in entries && entries[certUrl] != "")
    requires fetch(certUrl).Fetched? && certificateCount(fetch(certUrl).text) == 1
    ensures var step := PemLookup(entries, certUrl, fetch, certificateCount);
      && step.result == Success(fetch(certUrl).text)
      && step.requested == [certUrl]
      && step.entries.Keys == entries.Keys + {certUrl}
      && step.entries[certUrl] == fetch(certUrl).text
      && forall k :: k in entries && k != certUrl ==> step.entries[k] == entries[k]
  {
  }

  /**
   * Every failed lookup fetched the URL and left the cache unchanged; it is an
   * HTTP error exactly when the fetch failed, and an invalid certificate file
   * exactly when the file does not hold one certificate.
   */
  lemma PemLookupFailureLeavesCache(entries: map<string, string>, certUrl: string,
                                    fetch: string -> GetOutcome, certificateCount: string -> nat)
    ensures var step := PemLookup(entries, certUrl, fetch, certificateCount);
      step.result.Failure? ==>
        && step.entries == entries
        && step.requested == [certUrl]
        && (step.result.error == HTTPError <==> fetch(certUrl) == ErrorStatus)
        && (step.result.error == RequestException <==> fetch(certUrl) == NoResponse)
        && (step.result.error == InvalidCertificateFile <==>
              fetch(certUrl).Fetched? && certificateCount(fetch(certUrl).text) != 1)
  {
  }

  /**
   * On a miss, a fetch with an error status raises the HTTP error, no answer
   * raises the request error, and a file without exactly one certificate
   * raises `Invalid Certificate File`; each time the URL was fetched once and
   * nothing was stored.
   */
  lemma PemLookupMissFails(entries: map<string, string>, certUrl: string,
                           fetch: string -> GetOutcome, certificateCount: string -> nat)
    requires !(certUrl in entries && entries[certUrl] != "")
    ensures var step := PemLookup(entries, certUrl, fetch, certificateCount);
      && (fetch(certUrl) == ErrorStatus ==> step == PemStep(Failure(HTTPError), [certUrl], entries))
      && (fetch(certUrl) == NoResponse ==> step == PemStep(Failure(RequestException), [certUrl], entries))
      && (fetch(certUrl).Fetched? && certificateCount(fetch(certUrl).text) != 1 ==>
            step == PemStep(Failure(InvalidCertificateFile), [certUrl], entries))
  {
  }

  /**
   * Two lookups of one URL fetch it at most once: after a successful lookup the
   * text is cached, and the next lookup is a hit that returns the same text.
   */
  lemma PemLookupTwiceFetchesOnce(entries: map<string, string>, certUrl: string,
                                  fetch: string -> GetOutcome, certificateCount: string -> nat)
    requires certificateCount("") != 1
    ensures var first := PemLookup(entries, certUrl, fetch, certificateCount);
      first.result.Success? ==>
        var second := PemLookup(first.entries, certUrl, fetch, certificateCount);
        && |first.requested| + |second.requested| <= 1
        && second.requested == []
        && second.result == first.result
        && second.entries == first.entries
  {
  }

  /**
   * The process-wide certificate cache: certificate URL to PEM text. Entries are
   * added on a successful miss and never removed.
   */
  class PemCache {
    var entries: map<string, string>

    constructor ()
      ensures entries == map[]
    {
      entries := map[];
    }

    /** `get_pemfile(cert_url)`: look up, fetch on a miss, check the certificate count, store. */
    method GetPemfile(certUrl: string, fetch: string -> GetOutcome, certificateCount: string -> nat)
      returns (r: Result<string, Error>, requested: seq<string>)
      modifies this
      ensures PemStep(r, requested, entries) == PemLookup(old(entries), certUrl, fetch, certificateCount)
      ensures old(entries).Keys <= entries.Keys
    {
      var cached := if certUrl in entries then Some(entries[certUrl]) else None;
      if cached.Some? && cached.value != "" {
        return Success(cached.value), [];
      }
      requested := [certUrl];
      var response := fetch(certUrl);
      match response {
        case ErrorStatus =>
          r := Failure(HTTPError);
        case NoResponse =>
          r := Failure(RequestException);
        case Fetched(text) =>
          if certificateCount(text) != 1 {
            r := Failure(InvalidCertificateFile);
          } else {
            entries := entries[certUrl := text];
            r := Success(text);
          }
      }
    }
  }

  // ---------------------------------------------------------------------------
  // verify_notification

  /** The certificate and signature primitives, left abstract. */
  datatype Crypto = Crypto(
    loadsCertificate: string -> bool,                 // the PEM text loads as an X.509 certificate
    decodesBase64: string -> bool,                    // the signature field decodes as base64
    verifiesSha1: (string, string, string) -> bool)   // RSA/SHA-1 check of (PEM, signature field, signed text)

  /** What `verify_notification` does once the certificate lookup has given `pemfile`. */
  function CheckSignature(payload: RawPayload, pemfile: Result<string, Error>, crypto: Crypto): (r: Result<bool, Error>)
    ensures pemfile.Failure? ==> r == Failure(pemfile.error)
    ensures pemfile.Success? && !crypto.loadsCertificate(pemfile.value) ==> r == Failure(CertificateLoadError)
    ensures pemfile.Success? && crypto.loadsCertificate(pemfile.value) && "Signature" !in payload ==>
      r == Failure(KeyError("Signature"))
    ensures r.Success? <==>
      && pemfile.Success? && crypto.loadsCertificate(pemfile.value)
      && "Signature" in payload && crypto.decodesBase64(payload["Signature"])
      && SignedText(payload).Success?
    ensures r.Success? ==> r.value == crypto.verifiesSha1(pemfile.value, payload["Signature"], SignedText(payload).value)
  {
    match pemfile
    case Failure(e) => Failure(e)
    case Success(pem) =>
      if !crypto.loadsCertificate(pem) then Failure(CertificateLoadError)
      else if "Signature" !in payload then Failure(KeyError("Signature"))
      else if !crypto.decodesBase64(payload["Signature"]) then Failure(Base64Error)
      else
        match SignedText(payload)
        case Failure(e) => Failure(e)
        case Success(text) => Success(crypto.verifiesSha1(pem, payload["Signature"], text))
  }

  /** One verification: its result, the certificate URLs fetched, and the cache afterwards. */
  datatype VerifyStep = VerifyStep(result: Result<bool, Error>, requested: seq<string>, entries: map<string, string>)

  /** `verify_notification(payload)` over the cache `entries`. */
  function VerifySpec(entries: map<string, string>, payload: RawPayload,
                      fetch: string -> GetOutcome, certificateCount: string -> nat, crypto: Crypto): (step: VerifyStep)
    ensures "SigningCertURL" !in payload ==> step == VerifyStep(Failure(KeyError("SigningCertURL")), [], entries)
    ensures step.requested == [] || ("SigningCertURL" in payload && step.requested == [payload["SigningCertURL"]])
    ensures step.result.Success? ==>
      "SigningCertURL" in payload && payload["SigningCertURL"] in step.entries
    ensures forall k :: k in entries && ("SigningCertURL" !in payload || k != payload["SigningCertURL"]) ==>
      k in step.entries && step.entries[k] == entries[k]
  {
    if "SigningCertURL" !in payload then VerifyStep(Failure(KeyError("SigningCertURL")), [], entries)
    else
      var pem := PemLookup(entries, payload["SigningCertURL"], fetch, certificateCount);
      VerifyStep(CheckSignature(payload, pem.result, crypto), pem.requested, pem.entries)
  }

  /**
   * Once the certificate is in hand and loads, the signature decodes and every
   * field of the layout is present, verification never raises: it answers
   * whether the RSA/SHA-1 check accepts the signature over exactly the text
   * the layout gives, using the certificate fetched from `SigningCertURL`.
   */
  lemma VerifyAnswersSignatureCheck(entries: map<string, string>, payload: RawPayload,
                                    fetch: string -> GetOutcome, certificateCount: string -> nat, crypto: Crypto)
    requires "SigningCertURL" in payload && "Signature" in payload
    requires PemLookup(entries, payload["SigningCertURL"], fetch, certificateCount).result.Success?
    requires crypto.loadsCertificate(PemLookup(entries, payload["SigningCertURL"], fetch, certificateCount).result.value)
    requires crypto.decodesBase64(payload["Signature"])
    requires SignedText(payload).Success?
    ensures var pem := PemLookup(entries, payload["SigningCertURL"], fetch, certificateCount).result.value;
      VerifySpec(entries, payload, fetch, certificateCount, crypto).result ==
        Success(crypto.verifiesSha1(pem, payload["Signature"], SignedText(payload).value))
  {
  }

  /**
   * The signature version is never consulted: two payloads that differ only in
   * `SignatureVersion` get the same verdict (the digest is always SHA-1).
   */
  lemma VerifyIgnoresSignatureVersion(entries: map<string, string>, payload: RawPayload, version: string,
                                      fetch: string -> GetOutcome, certificateCount: string -> nat, crypto: Crypto)
    ensures VerifySpec(entries, payload["SignatureVersion" := version], fetch, certificateCount, crypto)
         == VerifySpec(entries, payload, fetch, certificateCount, crypto)
  {
    var other := payload["SignatureVersion" := version];
    assert forall k :: k != "SignatureVersion" ==> (k in other <==> k in payload);
    assert forall k :: k != "SignatureVersion" && k in payload ==> other[k] == payload[k];
    assert HashFormat(other) == HashFormat(payload);
    match HashFormat(payload) {
      case Failure(_) =>
      case Success(t) =>
        assert "SignatureVersion" !in t;
        FormatDependsOnTemplateFields(t, other, payload);
    }
  }

  /** `Format` reads only the fields its layout names. */
  lemma {:induction false} FormatDependsOnTemplateFields(template: seq<string>, p: RawPayload, q: RawPayload)
    requires forall k :: 0 <= k < |template| ==>
      (template[k] in p <==> template[k] in q) && (template[k] in p ==> p[template[k]] == q[template[k]])
    ensures Format(template, p) == Format(template, q)
  {
    if template != [] {
      FormatDependsOnTemplateFields(template[1..], p, q);
    }
  }

  /** `verify_notification(payload)`, which fills the shared cache as it goes. */
  method VerifyNotification(cache: PemCache, payload: RawPayload,
                            fetch: string -> GetOutcome, certificateCount: string -> nat, crypto: Crypto)
    returns (r: Result<bool, Error>, requested: seq<string>)
    modifies cache
    ensures VerifyStep(r, requested, cache.entries) ==
      VerifySpec(old(cache.entries), payload, fetch, certificateCount, crypto)
  {
    if "SigningCertURL" !in payload {
      return Failure(KeyError("SigningCertURL")), [];
    }
    var pemfile;
    pemfile, requested := cache.GetPemfile(payload["SigningCertURL"], fetch, certificateCount);
    r := CheckSignature(payload, pemfile, crypto);
  }

  // ---------------------------------------------------------------------------
  // confirm_subscription

  /**
   * `confirm_subscription(payload)`: the host of `SubscribeURL` must pass
   * `pattern`, else 400 'Improper Subscription Domain' without any request;
   * then the URL is fetched, a failure is raised, and success answers 200 'OK'.
   * Without a `SubscribeURL` the URL parser works on `None`, which yields bytes
   * a text pattern cannot search: a TypeError, and no request.
   */
  function ConfirmSubscription(payload: RawPayload, pattern: DomainPattern, get: string -> GetOutcome): (o: Outcome)
    ensures o.calls == [] || ("SubscribeURL" in payload && o.calls == [Get(payload["SubscribeURL"])])
    ensures o.result == Success(BadRequest("Improper Subscription Domain")) <==>
      "SubscribeURL" in payload && !Search(pattern, Netloc(payload["SubscribeURL"]))
    ensures o.result == Success(OkResponse("OK")) <==>
      "SubscribeURL" in payload && Search(pattern, Netloc(payload["SubscribeURL"])) &&
      get(payload["SubscribeURL"]).Fetched?
    ensures o.calls != [] <==> "SubscribeURL" in payload && Search(pattern, Netloc(payload["SubscribeURL"]))
    ensures "SubscribeURL" !in payload ==> o == Outcome(Failure(TypeError), [])
    ensures "SubscribeURL" in payload && Search(pattern, Netloc(payload["SubscribeURL"])) ==>
      && (get(payload["SubscribeURL"]) == ErrorStatus ==> o.result == Failure(HTTPError))
      && (get(payload["SubscribeURL"]) == NoResponse ==> o.result == Failure(RequestException))
  {
    if "SubscribeURL" !in payload then Outcome(Failure(TypeError), [])
    else
      var url := payload["SubscribeURL"];
      if !Search(pattern, Netloc(url)) then Outcome(Success(BadRequest("Improper Subscription Domain")), [])
      else
        match get(url)
        case Fetched(_) => Outcome(Success(OkResponse("OK")), [Get(url)])
        case ErrorStatus => Outcome(Failure(HTTPError), [Get(url)])
        case NoResponse => Outcome(Failure(RequestException), [Get(url)])
  }

  /**
   * A subscribe URL `scheme://host...` whose host the pattern refuses (such as
   * `anon.amazonaws.com` under the default pattern) is answered 400 'Improper
   * Subscription Domain' before any request is made.
   */
  lemma {:induction false} ConfirmRefusesForeignSubscribeHost(payload: RawPayload, pattern: DomainPattern,
                                                             scheme: string, host: string, rest: string,
                                                             get: string -> GetOutcome)
    requires "SubscribeURL" in payload && payload["SubscribeURL"] == scheme + "://" + host + rest
    requires |scheme| > 0 && IsAsciiLetter(scheme[0])
    requires forall k :: 0 <= k < |scheme| ==> IsSchemeChar(scheme[k])
    requires forall k :: 0 <= k < |host| ==> !IsNetlocDelimiter(host[k])
    requires rest == [] || IsNetlocDelimiter(rest[0])
    requires IsClean(host) && IsClean(rest)
    requires !Search(pattern, host)
    ensures ConfirmSubscription(payload, pattern, get) ==
      Outcome(Success(BadRequest("Improper Subscription Domain")), [])
  {
    NetlocOfUrl(scheme, host, rest);
  }
}
