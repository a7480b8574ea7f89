/** The notification service client: the message record, its JSON body and the
    classification of one `POST <base>/send` into an outcome. */
module Notification {
  import opened Common

  /** Status codes the client tells apart (RFC 9110, sections 15.3.1, 15.5.2 and 15.5.10). */
  const StatusOK: int := 200
  const StatusUnauthorized: int := 401
  const StatusConflict: int := 409

  /** Where a notification goes: `kind` is the JSON "type" (the pipeline always uses "space"). */
  datatype NotificationMessageTarget = NotificationMessageTarget(kind: string, environment: string, id: string)

  /** `expiresIn` is the JSON "validity": the suppression hint passed to the service. */
  datatype NotificationMessage = NotificationMessage(
    id: string, subject: string, message: string, expiresIn: string, target: NotificationMessageTarget)

  /** Go's zero value `NotificationMessage{}`. */
  const ZeroMessage: NotificationMessage :=
    NotificationMessage("", "", "", "", NotificationMessageTarget("", "", ""))

  /** The JSON values the message encodes to: strings and objects with members in order. */
  datatype Json = JString(text: string) | JObject(members: seq<(string, Json)>)

  /** The "target" object; `environment` carries `omitempty`. */
  function TargetJson(t: NotificationMessageTarget): (j: Json)
    ensures j.JObject? && |j.members| == if t.environment == "" then 2 else 3
  {
    JObject([("type", JString(t.kind))]
      + (if t.environment == "" then [] else [("environment", JString(t.environment))])
      + [("id", JString(t.id))])
  }

  /** The request body json.Marshal produces, fields in declaration order;
      "validity" carries `omitempty`. */
  function MessageJson(m: NotificationMessage): (j: Json)
    ensures j.JObject? && |j.members| == if m.expiresIn == "" then 4 else 5
  {
    JObject([("id", JString(m.id)), ("subject", JString(m.subject)), ("message", JString(m.message))]
      + (if m.expiresIn == "" then [] else [("validity", JString(m.expiresIn))])
      + [("target", TargetJson(m.target))])
  }

  /** The first member named `key`. */
  function Member(members: seq<(string, Json)>, key: string): (r: Option<Json>)
    ensures r.Some? ==> exists i :: 0 <= i < |members| && members[i] == (key, r.value)
    ensures r.None? ==> forall i :: 0 <= i < |members| ==> members[i].0 != key
  {
    if members == [] then None
    else if members[0].0 == key then Some(members[0].1)
    else Member(members[1..], key)
  }

  predicate HasKey(j: Json, key: string)
  {
    j.JObject? && Member(j.members, key).Some?
  }

  /** A string member; absent reads as "" and anything else is malformed (None). */
  function StringMember(j: Json, key: string, optional: bool): Option<string>
    requires j.JObject?
  {
    match Member(j.members, key)
    case None => if optional then Some("") else None
    case Some(JString(s)) => Some(s)
    case Some(JObject(_)) => None
  }

  /** How the notification service reads a "target" object back. */
  function DecodeTarget(j: Json): Option<NotificationMessageTarget>
  {
    if !j.JObject? then None
    else
      match (StringMember(j, "type", false), StringMember(j, "environment", true), StringMember(j, "id", false))
      case (Some(kind), Some(env), Some(id)) => Some(NotificationMessageTarget(kind, env, id))
      case _ => None
  }

  /** How the notification service reads a request body back. */
  function DecodeMessage(j: Json): Option<NotificationMessage>
  {
    if !j.JObject? then None
    else
      match (StringMember(j, "id", false), StringMember(j, "subject", false),
             StringMember(j, "message", false), StringMember(j, "validity", true),
             Member(j.members, "target"))
      case (Some(id), Some(subject), Some(message), Some(validity), Some(target)) =>
        (match DecodeTarget(target)
         case Some(t) => Some(NotificationMessage(id, subject, message, validity, t))
         case None => None)
      case _ => None
  }

  /** Looking a key up in two runs of members finds it in the first run if it is there. */
  lemma {:induction false} MemberConcat(a: seq<(string, Json)>, b: seq<(string, Json)>, key: string)
    ensures Member(a + b, key) == if Member(a, key).Some? then Member(a, key) else Member(b, key)
    decreases |a|
  {
    if a == [] {
      assert a + b == b;
    } else {
      assert (a + b)[0] == a[0] && (a + b)[1..] == a[1..] + b;
      if a[0].0 != key {
        MemberConcat(a[1..], b, key);
      }
    }
  }

  /** The target's members, split at the optional one. */
  lemma TargetMembers(t: NotificationMessageTarget, key: string)
    ensures Member(TargetJson(t).members, key) ==
      if key == "type" then Some(JString(t.kind))
      else if key == "environment" then (if t.environment == "" then None else Some(JString(t.environment)))
      else if key == "id" then Some(JString(t.id))
      else None
  {
    var env: seq<(string, Json)> := if t.environment == "" then [] else [("environment", JString(t.environment))];
    MemberConcat([("type", JString(t.kind))] + env, [("id", JString(t.id))], key);
    MemberConcat([("type", JString(t.kind))], env, key);
  }

  /** The message's members, split at the optional one. */
  lemma MessageMembers(m: NotificationMessage, key: string)
    ensures Member(MessageJson(m).members, key) ==
      if key == "id" then Some(JString(m.id))
      else if key == "subject" then Some(JString(m.subject))
      else if key == "message" then Some(JString(m.message))
      else if key == "validity" then (if m.expiresIn == "" then None else Some(JString(m.expiresIn)))
      else if key == "target" then Some(TargetJson(m.target))
      else None
  {
    var fixed := [("id", JString(m.id)), ("subject", JString(m.subject)), ("message", JString(m.message))];
    var validity: seq<(string, Json)> := if m.expiresIn == "" then [] else [("validity", JString(m.expiresIn))];
    MemberConcat(fixed + validity, [("target", TargetJson(m.target))], key);
    MemberConcat(fixed, validity, key);
    MemberConcat([("id", JString(m.id))], [("subject", JString(m.subject)), ("message", JString(m.message))], key);
    MemberConcat([("subject", JString(m.subject))], [("message", JString(m.message))], key);
  }

  lemma TargetRoundTrip(t: NotificationMessageTarget)
    ensures DecodeTarget(TargetJson(t)) == Some(t)
  {
    TargetMembers(t, "type");
    TargetMembers(t, "environment");
    TargetMembers(t, "id");
  }

  /** Omitting empty fields loses nothing: the body decodes back to the message. */
  lemma MessageRoundTrip(m: NotificationMessage)
    ensures DecodeMessage(MessageJson(m)) == Some(m)
  {
    MessageMembers(m, "id");
    MessageMembers(m, "subject");
    MessageMembers(m, "message");
    MessageMembers(m, "validity");
    MessageMembers(m, "target");
    TargetRoundTrip(m.target);
  }

  /** "id", "subject", "message", "target" and the target's "type" and "id" are always
      present; "validity" and "environment" exactly when they are not empty. */
  lemma MessageJsonFields(m: NotificationMessage)
    ensures HasKey(MessageJson(m), "id") && HasKey(MessageJson(m), "subject")
    ensures HasKey(MessageJson(m), "message") && HasKey(MessageJson(m), "target")
    ensures HasKey(MessageJson(m), "validity") <==> m.expiresIn != ""
    ensures Member(MessageJson(m).members, "target") == Some(TargetJson(m.target))
    ensures HasKey(TargetJson(m.target), "type") && HasKey(TargetJson(m.target), "id")
    ensures HasKey(TargetJson(m.target), "environment") <==> m.target.environment != ""
  {
    MessageMembers(m, "id");
    MessageMembers(m, "subject");
    MessageMembers(m, "message");
    MessageMembers(m, "validity");
    MessageMembers(m, "target");
    TargetMembers(m.target, "type");
    TargetMembers(m.target, "environment");
    TargetMembers(m.target, "id");
  }

  /** The client's configuration: the service's base URL and its Basic credentials. */
  datatype NotificationServiceClient = NotificationServiceClient(url: string, username: string, password: string)

  /** An HTTP request with Basic authentication (RFC 7617) as user and password. */
  datatype Request = Request(verb: string, url: string, username: string, password: string, body: string)

  datatype Response = Response(statusCode: int)

  /** json.Marshal's byte encoding and the HTTP client's round trip. */
  datatype Http = Http(marshal: Json -> Result<string, Fault>, roundTrip: Request -> Result<Response, Fault>)

  /** The one request Send issues: a POST of `body` to the base URL followed by "/send". */
  function SendRequest(c: NotificationServiceClient, body: string): (req: Request)
    ensures req.verb == "POST" && req.url == c.url + "/send"
    ensures req.username == c.username && req.password == c.password && req.body == body
  {
    Request("POST", c.url + "/send", c.username, c.password, body)
  }

  /** The switch on the response's status code. */
  function StatusOutcome(code: int): (r: Outcome<Error>)
    ensures r == Pass <==> code == StatusOK
    ensures r == Fail(LoginFailed) <==> code == StatusUnauthorized
    ensures r == Fail(AlreadySent) <==> code == StatusConflict
    ensures r == Fail(UnexpectedStatus(code)) <==> code !in {StatusOK, StatusUnauthorized, StatusConflict}
  {
    if code == StatusUnauthorized then Fail(LoginFailed)
    else if code == StatusConflict then Fail(AlreadySent)
    else if code == StatusOK then Pass
    else Fail(UnexpectedStatus(code))
  }

  /** No two status codes share an outcome, so the code can be told from the outcome. */
  lemma StatusOutcomeInjective(a: int, b: int)
    requires StatusOutcome(a) == StatusOutcome(b)
    ensures a == b
  {
  }

  /** Send: marshal, then call, then classify the status code. */
  function Send(c: NotificationServiceClient, http: Http, msg: NotificationMessage): (r: Outcome<Error>)
    ensures http.marshal(MessageJson(msg)).Failure? ==>
              r == Fail(MarshalFailed(http.marshal(MessageJson(msg)).error))
    ensures http.marshal(MessageJson(msg)).Success? ==>
              var req := SendRequest(c, http.marshal(MessageJson(msg)).value);
              (http.roundTrip(req).Failure? ==> r == Fail(CallFailed(http.roundTrip(req).error)))
              && (http.roundTrip(req).Success? ==> r == StatusOutcome(http.roundTrip(req).value.statusCode))
  {
    match http.marshal(MessageJson(msg))
    case Failure(f) => Fail(MarshalFailed(f))
    case Success(body) =>
      match http.roundTrip(SendRequest(c, body))
      case Failure(f) => Fail(CallFailed(f))
      case Success(resp) => StatusOutcome(resp.statusCode)
  }

  /** Send succeeds exactly when the body marshals, the call goes through and the
      service answers 200. */
  lemma SendSucceedsIff(c: NotificationServiceClient, http: Http, msg: NotificationMessage)
    ensures Send(c, http, msg) == Pass <==>
      (exists body :: http.marshal(MessageJson(msg)) == Success(body)
         && http.roundTrip(SendRequest(c, body)).Success?
         && http.roundTrip(SendRequest(c, body)).value.statusCode == StatusOK)
  {
  }

  /** Send issues no request but SendRequest: two HTTP clients that marshal alike and
      answer that one request alike give the same outcome. When marshalling fails the
      second condition is empty, so no request is issued at all. */
  lemma SendIssuesOnlySendRequest(c: NotificationServiceClient, h1: Http, h2: Http, msg: NotificationMessage)
    requires h1.marshal(MessageJson(msg)) == h2.marshal(MessageJson(msg))
    requires h1.marshal(MessageJson(msg)).Success? ==>
               h1.roundTrip(SendRequest(c, h1.marshal(MessageJson(msg)).value))
               == h2.roundTrip(SendRequest(c, h1.marshal(MessageJson(msg)).value))
    ensures Send(c, h1, msg) == Send(c, h2, msg)
  {
  }
}
