/** The error type shared by the three remote calls, its text, and the
    status codes that classify it. */
module Errors {

  /** An HTTP status code as the `http` crate admits it: three decimal digits. */
  type StatusCode = n: int | 100 <= n <= 999 witness 200

  const OK: StatusCode := 200
  const UNAUTHORIZED: StatusCode := 401
  const FORBIDDEN: StatusCode := 403

  /** `ThrottlerError`: a transport failure, a non-200 answer, or a login
      answer without a usable session cookie. */
  datatype ThrottlerError =
    | ReqwestError(message: string)
    | BadResponse(message: string, status: StatusCode)
    | NoCookie

  datatype Result<T> = Ok(value: T) | Err(error: ThrottlerError)

  datatype Option<T> = None | Some(value: T)

  /** The test both loops of the control loop apply to an error before
      leaving the loop: a bad response whose status is 401 or 403. */
  predicate ForcesReauth(e: ThrottlerError): (r: bool)
    ensures r ==> e.BadResponse?
    ensures Constructed(e) ==> (r <==> e == BadStatus(UNAUTHORIZED) || e == BadStatus(FORBIDDEN))
  {
    e.BadResponse? && (e.status == UNAUTHORIZED || e.status == FORBIDDEN)
  }

  const TransportPrefix := "Error calling QBittorrent. Status: "
  const BadResponsePrefix := "Bad Response from QBittorrent: "
  const NoCookieText := "No Cookie Returned"

  /** The conversion applied by `?` to every failed request or body decode;
      `detail` stands for the foreign error's own text. */
  function FromTransport(detail: string): (e: ThrottlerError)
    ensures e.ReqwestError? && e.message == TransportPrefix + detail
  {
    ReqwestError(TransportPrefix + detail)
  }

  function Digit(d: int): (c: char)
    requires 0 <= d < 10
    ensures DigitValue(c) == d
  {
    "0123456789"[d]
  }

  function DigitValue(c: char): int
  {
    if '0' <= c <= '9' then c as int - '0' as int else -1
  }

  /** The decimal text of a status code. */
  function StatusText(s: StatusCode): (t: string)
    ensures |t| == 3
    ensures forall i :: 0 <= i < 3 ==> '0' <= t[i] <= '9'
    ensures 100 * DigitValue(t[0]) + 10 * DigitValue(t[1]) + DigitValue(t[2]) == s
  {
    DecimalSplit(s);
    [Digit(s / 100), Digit(s / 10 % 10), Digit(s % 10)]
  }

  lemma DecimalSplit(s: StatusCode)
    ensures 0 <= s / 100 < 10
    ensures 100 * (s / 100) + 10 * (s / 10 % 10) + s % 10 == s
  {
    var q := s / 10;
    assert s == 10 * q + s % 10;
    assert q == 10 * (q / 10) + q % 10;
    assert q / 10 == s / 100;
  }

  /** Two status codes with the same text are the same code. */
  lemma StatusTextInjective(s1: StatusCode, s2: StatusCode)
    requires StatusText(s1) == StatusText(s2)
    ensures s1 == s2
  {
  }

  /** The error built for any non-200 answer of the torrent client. */
  function BadStatus(s: StatusCode): (e: ThrottlerError)
    ensures e.BadResponse? && e.status == s
    ensures e.message == BadResponsePrefix + StatusText(s)
  {
    BadResponse(BadResponsePrefix + StatusText(s), s)
  }

  /** The errors the program can actually construct. */
  predicate Constructed(e: ThrottlerError)
  {
    match e
    case ReqwestError(m) => |m| >= |TransportPrefix| && m[..|TransportPrefix|] == TransportPrefix
    case BadResponse(m, s) => m == BadResponsePrefix + StatusText(s)
    case NoCookie => true
  }

  /** `Display for ThrottlerError`: the carried message, or a fixed text for
      `NoCookie`. */
  function ErrorText(e: ThrottlerError): (t: string)
    ensures e.NoCookie? ==> t == NoCookieText
    ensures !e.NoCookie? ==> t == e.message
  {
    match e
    case ReqwestError(m) => m
    case BadResponse(m, _) => m
    case NoCookie => NoCookieText
  }

  /** On the errors the program constructs, the displayed text tells the
      variant apart and, for a bad response, the status code too. */
  lemma {:induction false} ErrorTextInjective(e1: ThrottlerError, e2: ThrottlerError)
    requires Constructed(e1) && Constructed(e2)
    requires ErrorText(e1) == ErrorText(e2)
    ensures e1 == e2
  {
    var t := ErrorText(e1);
    // The three kinds of text start with 'E', 'B' and 'N' respectively.
    if e1.ReqwestError? {
      assert t[0] == t[..|TransportPrefix|][0] == 'E';
    } else if e1.BadResponse? {
      assert t[0] == 'B';
    } else {
      assert t[0] == 'N';
    }
    if e1.BadResponse? && e2.BadResponse? {
      var n := |BadResponsePrefix|;
      assert t[n..] == StatusText(e1.status);
      assert ErrorText(e2)[n..] == StatusText(e2.status);
      StatusTextInjective(e1.status, e2.status);
    }
  }
}
