/**
 * The typed SNS payload: a union of three message kinds sharing seven base
 * fields, told apart by the `Type` field, and its validation from a decoded
 * JSON object.
 */
module Types {
  import opened Wrappers

  /** A decoded JSON object as the receiver sees it: field name to string value. */
  type RawPayload = map<string, string>

  /** The fields every message kind carries. `timestamp` is the wire string, never reformatted. */
  datatype Base = Base(
    messageId: string,
    topicArn: string,
    message: string,
    timestamp: string,
    signatureVersion: string,
    signature: string,
    signingCertUrl: string)

  datatype Payload =
    | SubscriptionConfirmation(base: Base, token: string, subscribeUrl: string)
    | UnsubscribeConfirmation(base: Base, token: string, subscribeUrl: string)
    | Notification(base: Base, subject: Option<string>, unsubscribeUrl: string)
  {
    /** The value of the `Type` discriminator for this kind. */
    function Tag(): string
    {
      match this
      case SubscriptionConfirmation(_, _, _) => "SubscriptionConfirmation"
      case UnsubscribeConfirmation(_, _, _) => "UnsubscribeConfirmation"
      case Notification(_, _, _) => "Notification"
    }
  }

  /** The discriminator values, one per kind. */
  const Tags: seq<string> := ["SubscriptionConfirmation", "UnsubscribeConfirmation", "Notification"]

  /** How a field's string is validated: as any string, a UUID, an HTTP URL or base64 bytes. */
  datatype FieldKind = Str | Uuid | HttpUrl | Base64

  /** The format checks for UUIDs, HTTP URLs and base64, left abstract. */
  datatype Validators = Validators(
    isUuid: string -> bool,
    isHttpUrl: string -> bool,
    isBase64: string -> bool)

  predicate ValidValue(v: Validators, kind: FieldKind, s: string)
  {
    match kind
    case Str => true
    case Uuid => v.isUuid(s)
    case HttpUrl => v.isHttpUrl(s)
    case Base64 => v.isBase64(s)
  }

  /** A required field is present and its value passes the check for its kind. */
  predicate FieldOk(raw: RawPayload, v: Validators, field: (string, FieldKind))
  {
    field.0 in raw && ValidValue(v, field.1, raw[field.0])
  }

  /** The base fields in declaration order. */
  const BaseFields: seq<(string, FieldKind)> := [
    ("MessageId", Uuid), ("TopicArn", Str), ("Message", Str), ("Timestamp", Str),
    ("SignatureVersion", Str), ("Signature", Base64), ("SigningCertURL", HttpUrl)]

  /** The extra required fields of both confirmation kinds. */
  const ConfirmationFields: seq<(string, FieldKind)> := [("Token", Str), ("SubscribeURL", HttpUrl)]

  /** The extra required field of a notification; its `Subject` is optional. */
  const NotificationFields: seq<(string, FieldKind)> := [("UnsubscribeURL", HttpUrl)]

  /** Every required field of the kind whose discriminator is `tag`, in declaration order. */
  function RequiredFields(tag: string): seq<(string, FieldKind)>
  {
    if tag == "Notification" then BaseFields + NotificationFields else BaseFields + ConfirmationFields
  }

  /** Why validation failed: no discriminator, an unknown one, or the names of the failing fields in order. */
  datatype ValidationError = TagNotFound | TagInvalid(tag: string) | FieldErrors(fields: seq<string>)

  /** The names of the fields that are missing or malformed, in the order the fields are declared. */
  function FailingFields(raw: RawPayload, v: Validators, fields: seq<(string, FieldKind)>): (bad: seq<string>)
    ensures |bad| <= |fields|
    ensures bad == [] <==> forall i :: 0 <= i < |fields| ==> FieldOk(raw, v, fields[i])
    ensures forall i :: 0 <= i < |fields| && !FieldOk(raw, v, fields[i]) ==> fields[i].0 in bad
    ensures forall n :: n in bad ==> exists i :: 0 <= i < |fields| && fields[i].0 == n && !FieldOk(raw, v, fields[i])
  {
    if fields == [] then []
    else
      var rest := FailingFields(raw, v, fields[1..]);
      assert forall i :: 1 <= i < |fields| ==> fields[i] == fields[1..][i - 1];
      if FieldOk(raw, v, fields[0]) then rest else [fields[0].0] + rest
  }

  /** The names of `fields`, in order. */
  function Names(fields: seq<(string, FieldKind)>): (names: seq<string>)
    ensures |names| == |fields|
    ensures forall i :: 0 <= i < |fields| ==> names[i] == fields[i].0
  {
    if fields == [] then [] else [fields[0].0] + Names(fields[1..])
  }

  /** `xs` is `ys` with some entries dropped, the rest kept in order. */
  predicate IsSubsequence(xs: seq<string>, ys: seq<string>)
    decreases |ys|
  {
    || xs == []
    || (ys != [] && ((xs[0] == ys[0] && IsSubsequence(xs[1..], ys[1..])) || IsSubsequence(xs, ys[1..])))
  }

  /** No entry occurs twice. */
  predicate NoRepeats(xs: seq<string>)
  {
    forall i, j :: 0 <= i < j < |xs| ==> xs[i] != xs[j]
  }

  /** The required fields of every kind have distinct names. */
  lemma RequiredFieldsDistinct(tag: string)
    ensures NoRepeats(Names(RequiredFields(tag)))
  {
    var names := Names(RequiredFields(tag));
    var keys := seq(|names|, k requires 0 <= k < |names| => (|names[k]|, names[k][0]));
    if tag == "Notification" {
      assert keys == [(9, 'M'), (8, 'T'), (7, 'M'), (9, 'T'), (16, 'S'), (9, 'S'), (14, 'S'), (14, 'U')];
    } else {
      assert keys == [(9, 'M'), (8, 'T'), (7, 'M'), (9, 'T'), (16, 'S'), (9, 'S'), (14, 'S'), (5, 'T'), (12, 'S')];
    }
    forall i, j | 0 <= i < j < |names| ensures names[i] != names[j] {
      assert keys[i] != keys[j];
    }
  }

  /**
   * The failing names are the names of the fields, in declaration order, with
   * the passing ones dropped; over distinct names none is reported twice.
   */
  lemma {:induction false} FailingFieldsInDeclarationOrder(raw: RawPayload, v: Validators, fields: seq<(string, FieldKind)>)
    ensures IsSubsequence(FailingFields(raw, v, fields), Names(fields))
    ensures NoRepeats(Names(fields)) ==> NoRepeats(FailingFields(raw, v, fields))
  {
    var bad, names := FailingFields(raw, v, fields), Names(fields);
    if fields != [] {
      FailingFieldsInDeclarationOrder(raw, v, fields[1..]);
      assert names[1..] == Names(fields[1..]);
    }
    if NoRepeats(names) {
      SubsequenceKeepsNoRepeats(bad, names);
    }
  }

  /** Dropping entries from a list without repeats leaves a list without repeats. */
  lemma {:induction false} SubsequenceKeepsNoRepeats(xs: seq<string>, ys: seq<string>)
    requires IsSubsequence(xs, ys) && NoRepeats(ys)
    ensures NoRepeats(xs)
    decreases |ys|
  {
    if xs != [] {
      assert NoRepeats(ys[1..]) by {
        forall i, j | 0 <= i < j < |ys| - 1 ensures ys[1..][i] != ys[1..][j] {
          assert ys[1..][i] == ys[i + 1] && ys[1..][j] == ys[j + 1];
        }
      }
      if xs[0] == ys[0] && IsSubsequence(xs[1..], ys[1..]) {
        SubsequenceKeepsNoRepeats(xs[1..], ys[1..]);
        forall k | 0 < k < |xs| ensures xs[k] != xs[0] {
          SubsequenceMembers(xs[1..], ys[1..], k - 1);
        }
        forall i, j | 0 <= i < j < |xs| ensures xs[i] != xs[j] {
          if i > 0 {
            assert xs[i] == xs[1..][i - 1] && xs[j] == xs[1..][j - 1];
          }
        }
      } else {
        SubsequenceKeepsNoRepeats(xs, ys[1..]);
      }
    }
  }

  /** Every entry of a subsequence is an entry of the whole. */
  lemma {:induction false} SubsequenceMembers(xs: seq<string>, ys: seq<string>, k: nat)
    requires IsSubsequence(xs, ys) && k < |xs|
    ensures xs[k] in ys
    decreases |ys|
  {
    if xs[0] == ys[0] && IsSubsequence(xs[1..], ys[1..]) {
      if k > 0 {
        SubsequenceMembers(xs[1..], ys[1..], k - 1);
        assert xs[k] == xs[1..][k - 1];
      }
    } else {
      SubsequenceMembers(xs, ys[1..], k);
    }
  }

  /** The payload carries the object's values verbatim, the optional subject being absent exactly when the key is. */
  predicate Carries(raw: RawPayload, p: Payload)
  {
    var b := p.base;
    && "Type" in raw && raw["Type"] == p.Tag()
    && "MessageId" in raw && b.messageId == raw["MessageId"]
    && "TopicArn" in raw && b.topicArn == raw["TopicArn"]
    && "Message" in raw && b.message == raw["Message"]
    && "Timestamp" in raw && b.timestamp == raw["Timestamp"]
    && "SignatureVersion" in raw && b.signatureVersion == raw["SignatureVersion"]
    && "Signature" in raw && b.signature == raw["Signature"]
    && "SigningCertURL" in raw && b.signingCertUrl == raw["SigningCertURL"]
    && match p
       case Notification(_, subject, unsubscribeUrl) =>
         && "UnsubscribeURL" in raw && unsubscribeUrl == raw["UnsubscribeURL"]
         && subject == (if "Subject" in raw then Some(raw["Subject"]) else None)
       case _ =>
         && "Token" in raw && p.token == raw["Token"]
         && "SubscribeURL" in raw && p.subscribeUrl == raw["SubscribeURL"]
  }

  /**
   * Validation of a decoded object against the discriminated union: the `Type`
   * field picks the kind, then every required field of that kind must be
   * present and well formed; fields the kind does not declare are ignored.
   */
  function Parse(raw: RawPayload, v: Validators): (r: Result<Payload, ValidationError>)
    ensures r == Failure(TagNotFound) <==> "Type" !in raw
    ensures r.Failure? && r.error.TagInvalid? <==> "Type" in raw && raw["Type"] !in Tags
    ensures r.Success? <==>
      "Type" in raw && raw["Type"] in Tags &&
      forall i :: 0 <= i < |RequiredFields(raw["Type"])| ==> FieldOk(raw, v, RequiredFields(raw["Type"])[i])
    ensures r.Success? ==> Carries(raw, r.value)
    ensures r.Failure? && r.error.FieldErrors? ==> r.error.fields != []
    ensures r.Failure? && r.error.FieldErrors? ==>
      "Type" in raw && r.error.fields == FailingFields(raw, v, RequiredFields(raw["Type"]))
  {
    if "Type" !in raw then Failure(TagNotFound)
    else
      var tag := raw["Type"];
      if tag !in Tags then Failure(TagInvalid(tag))
      else
        var bad := FailingFields(raw, v, RequiredFields(tag));
        if bad != [] then Failure(FieldErrors(bad))
        else
          var fields := RequiredFields(tag);
          assert forall i :: 0 <= i < |fields| ==> fields[i].0 in raw;
          assert fields[0].0 == "MessageId" && fields[1].0 == "TopicArn" && fields[2].0 == "Message";
          assert fields[3].0 == "Timestamp" && fields[4].0 == "SignatureVersion";
          assert fields[5].0 == "Signature" && fields[6].0 == "SigningCertURL";
          assert tag == "Notification" ==> fields[7].0 == "UnsubscribeURL";
          assert tag != "Notification" ==> fields[7].0 == "Token" && fields[8].0 == "SubscribeURL";
          var base := Base(raw["MessageId"], raw["TopicArn"], raw["Message"], raw["Timestamp"],
                           raw["SignatureVersion"], raw["Signature"], raw["SigningCertURL"]);
          if tag == "Notification" then
            Success(Notification(base, if "Subject" in raw then Some(raw["Subject"]) else None, raw["UnsubscribeURL"]))
          else if tag == "SubscriptionConfirmation" then
            Success(SubscriptionConfirmation(base, raw["Token"], raw["SubscribeURL"]))
          else
            Success(UnsubscribeConfirmation(base, raw["Token"], raw["SubscribeURL"]))
  }

  /** The kind of a parsed payload is the one its `Type` names; no other value of `Type` parses. */
  lemma ParseDiscriminates(raw: RawPayload, v: Validators, p: Payload)
    requires Parse(raw, v) == Success(p)
    ensures raw["Type"] == "SubscriptionConfirmation" <==> p.SubscriptionConfirmation?
    ensures raw["Type"] == "UnsubscribeConfirmation" <==> p.UnsubscribeConfirmation?
    ensures raw["Type"] == "Notification" <==> p.Notification?
  {
  }

  /** Both confirmation kinds fail validation, naming the field, when `Token` or `SubscribeURL` is missing. */
  lemma ConfirmationNeedsTokenAndSubscribeUrl(raw: RawPayload, v: Validators, name: string)
    requires "Type" in raw && raw["Type"] in ["SubscriptionConfirmation", "UnsubscribeConfirmation"]
    requires name in ["Token", "SubscribeURL"] && name !in raw
    ensures Parse(raw, v).Failure? && Parse(raw, v).error.FieldErrors?
    ensures name in Parse(raw, v).error.fields
  {
    var fields := RequiredFields(raw["Type"]);
    var i := if name == "Token" then 7 else 8;
    assert fields[i].0 == name && !FieldOk(raw, v, fields[i]);
  }

  /** A notification needs `UnsubscribeURL` but not `Subject`; without `Subject` it parses with no subject. */
  lemma NotificationSubjectIsOptional(raw: RawPayload, v: Validators)
    requires "Type" in raw && raw["Type"] == "Notification" && "Subject" !in raw
    requires forall i :: 0 <= i < |BaseFields| ==> FieldOk(raw, v, BaseFields[i])
    requires FieldOk(raw, v, ("UnsubscribeURL", HttpUrl))
    ensures Parse(raw, v).Success?
    ensures Parse(raw, v).value.Notification? && Parse(raw, v).value.subject == None
  {
    var fields := RequiredFields("Notification");
    assert forall i :: 0 <= i < |fields| ==> fields[i] == if i < 7 then BaseFields[i] else ("UnsubscribeURL", HttpUrl);
  }

  /**
   * Any base field that is missing or fails its check (a `MessageId` that is
   * not a UUID, a `Signature` that is not base64, a `SigningCertURL` that is
   * not an HTTP URL) makes validation fail and is reported by name.
   */
  lemma MalformedBaseFieldIsReported(raw: RawPayload, v: Validators, i: nat)
    requires "Type" in raw && raw["Type"] in Tags
    requires i < |BaseFields| && !FieldOk(raw, v, BaseFields[i])
    ensures Parse(raw, v).Failure? && Parse(raw, v).error.FieldErrors?
    ensures BaseFields[i].0 in Parse(raw, v).error.fields
  {
    assert RequiredFields(raw["Type"])[i] == BaseFields[i];
  }

  /**
   * Any required field of the kind, base or kind-specific (such as
   * `UnsubscribeURL` or a malformed `SubscribeURL`), that is missing or fails
   * its check makes validation fail and is reported by name.
   */
  lemma RequiredFieldIsReported(raw: RawPayload, v: Validators, i: nat)
    requires "Type" in raw && raw["Type"] in Tags
    requires i < |RequiredFields(raw["Type"])| && !FieldOk(raw, v, RequiredFields(raw["Type"])[i])
    ensures Parse(raw, v).Failure? && Parse(raw, v).error.FieldErrors?
    ensures RequiredFields(raw["Type"])[i].0 in Parse(raw, v).error.fields
  {
  }

  /**
   * The names validation reports are the failing required fields in
   * declaration order, each reported once.
   */
  lemma ParseErrorsInDeclarationOrder(raw: RawPayload, v: Validators)
    requires Parse(raw, v).Failure? && Parse(raw, v).error.FieldErrors?
    ensures "Type" in raw
    ensures IsSubsequence(Parse(raw, v).error.fields, Names(RequiredFields(raw["Type"])))
    ensures NoRepeats(Parse(raw, v).error.fields)
  {
    FailingFieldsInDeclarationOrder(raw, v, RequiredFields(raw["Type"]));
    RequiredFieldsDistinct(raw["Type"]);
  }
}
