/** The three remote calls, each reduced to the classification of an
    abstract reply, and the mapping from a session count to an upload limit. */
module Clients {

  import opened Errors

  // ---------------------------------------------------------------------
  // Header values

  type byte = b: int | 0 <= b < 256

  /** A byte `HeaderValue::to_str` accepts: visible ASCII or a tab. */
  predicate IsVisible(b: byte)
  {
    (32 <= b < 127) || b == 9
  }

  predicate IsByteText(s: string)
  {
    forall i :: 0 <= i < |s| ==> s[i] as int < 256
  }

  /** The bytes of a text whose characters are all single bytes. */
  function Bytes(s: string): (v: seq<byte>)
    requires IsByteText(s)
    ensures |v| == |s|
    ensures forall i :: 0 <= i < |s| ==> v[i] == s[i] as int
  {
    seq(|s|, i requires 0 <= i < |s| => s[i] as int)
  }

  /** `HeaderValue::to_str`: the value as text when every byte is visible. */
  function HeaderText(v: seq<byte>): (r: Option<string>)
    ensures r.Some? <==> forall i :: 0 <= i < |v| ==> IsVisible(v[i])
    ensures r.Some? ==> IsByteText(r.value) && Bytes(r.value) == v
  {
    if forall i :: 0 <= i < |v| ==> IsVisible(v[i]) then
      Some(seq(|v|, i requires 0 <= i < |v| => v[i] as char))
    else
      None
  }

  // ---------------------------------------------------------------------
  // Login

  /** What a login request comes back with: a failure to send, or a
      response with its status and its first `set-cookie` header. */
  datatype LoginReply =
    | LoginFailed(detail: string)
    | LoginResponse(status: StatusCode, setCookie: Option<seq<byte>>)

  /** `qb_auth`: the session cookie of a 200 answer, verbatim. */
  function QbAuth(reply: LoginReply): (r: Result<string>)
    ensures reply.LoginFailed? ==> r == Err(FromTransport(reply.detail))
    ensures reply.LoginResponse? && reply.status != OK ==> r == Err(BadStatus(reply.status))
    ensures r.Ok? <==>
      reply.LoginResponse? && reply.status == OK && reply.setCookie.Some? &&
      HeaderText(reply.setCookie.value).Some?
    ensures r.Ok? ==> IsByteText(r.value) && Bytes(r.value) == reply.setCookie.value
    ensures r == Err(NoCookie) <==>
      reply.LoginResponse? && reply.status == OK &&
      (reply.setCookie.None? || HeaderText(reply.setCookie.value).None?)
    ensures r.Err? ==> Constructed(r.error)
  {
    match reply
    case LoginFailed(detail) => Err(FromTransport(detail))
    case LoginResponse(status, setCookie) =>
      if status != OK then Err(BadStatus(status))
      else
        match setCookie
        case Some(token) =>
          (match HeaderText(token)
           case Some(text) => Ok(text)
           case None => Err(NoCookie))
        case None => Err(NoCookie)
  }

  /** Whatever the headers, a non-200 login answer is a bad response that
      carries exactly its status. */
  lemma QbAuthIgnoresHeadersOnBadStatus(status: StatusCode, h1: Option<seq<byte>>, h2: Option<seq<byte>>)
    requires status != OK
    ensures QbAuth(LoginResponse(status, h1)) == QbAuth(LoginResponse(status, h2))
    ensures QbAuth(LoginResponse(status, h1)).Err?
    ensures QbAuth(LoginResponse(status, h1)).error.status == status
  {
  }

  // ---------------------------------------------------------------------
  // Applying the upload limit

  /** What a set-upload-limit request comes back with. */
  datatype ApplyReply =
    | ApplyFailed(detail: string)
    | ApplyResponse(status: StatusCode)

  /** `qb_set_upload`: success exactly on status 200. */
  function QbSetUpload(reply: ApplyReply): (r: Result<()>)
    ensures r.Ok? <==> reply.ApplyResponse? && reply.status == OK
    ensures reply.ApplyFailed? ==> r == Err(FromTransport(reply.detail))
    ensures reply.ApplyResponse? && reply.status != OK ==>
      r.Err? && r.error.BadResponse? && r.error.status == reply.status
    ensures r.Err? ==> Constructed(r.error) && !r.error.NoCookie?
  {
    match reply
    case ApplyFailed(detail) => Err(FromTransport(detail))
    case ApplyResponse(status) =>
      if status != OK then Err(BadStatus(status)) else Ok(())
  }

  // ---------------------------------------------------------------------
  // Counting sessions

  /** A parsed JSON body. */
  datatype Json =
    | Null
    | Bool(b: bool)
    | Number(text: string)
    | Str(s: string)
    | Array(items: seq<Json>)
    | Object(members: seq<(string, Json)>)

  /** What a sessions request comes back with: a failure to send or to
      decode the body as JSON, or a response whose body parsed. */
  datatype SessionsReply =
    | SessionsFailed(detail: string)
    | SessionsReceived(status: StatusCode, body: Json)

  /** `jellyfin_get_sessions`: the length of an array body, zero for any
      other shape. */
  function JellyfinGetSessions(reply: SessionsReply): (r: Result<nat>)
    ensures r.Err? <==> reply.SessionsFailed?
    ensures r.Err? ==> r.error == FromTransport(reply.detail)
    ensures r.Ok? && reply.body.Array? ==> r.value == |reply.body.items|
    ensures r.Ok? && r.value > 0 ==> reply.body.Array?
  {
    match reply
    case SessionsFailed(detail) => Err(FromTransport(detail))
    case SessionsReceived(_, body) =>
      if body.Array? then Ok(|body.items|) else Ok(0)
  }

  /** A body that is not an array counts like an empty array, and the status
      of the answer plays no part. */
  lemma LenientSessionCount(s1: StatusCode, s2: StatusCode, body: Json)
    requires !body.Array?
    ensures JellyfinGetSessions(SessionsReceived(s1, body)) == JellyfinGetSessions(SessionsReceived(s2, Array([])))
    ensures JellyfinGetSessions(SessionsReceived(s1, body)) == Ok(0)
  {
  }

  // ---------------------------------------------------------------------
  // Throttle decision

  const ThrottledLimit: nat := 1000

  /** The upload limit for a session count: the throttled ceiling while any
      session is active, 0 (unlimited) otherwise. */
  function UploadLimit(sessions: nat): (speed: nat)
    ensures speed == 0 <==> sessions == 0
    ensures speed != 0 ==> speed == ThrottledLimit
  {
    if sessions > 0 then ThrottledLimit else 0
  }

  /** The limit does not depend on how many sessions are active. */
  lemma UploadLimitIgnoresMagnitude(m: nat, n: nat)
    requires m > 0 && n > 0
    ensures UploadLimit(m) == UploadLimit(n) == ThrottledLimit
  {
  }
}
