/** Concrete runs of the control loop: the situations the service was built
    for, each with the replies spelled out and the actions it leads to. */
module Scenarios {

  import opened Errors
  import opened Clients
  import opened ControlLoop

  /** The bytes of the header value `SID=abc`. */
  const SidBytes: seq<byte> := [83, 73, 68, 61, 97, 98, 99]

  const LoginOk := LoginResponse(OK, Some(SidBytes))

  lemma SidIsText()
    ensures QbAuth(LoginOk) == Ok("SID=abc")
  {
    var text := HeaderText(SidBytes);
    assert text.Some?;
    assert text.value == "SID=abc" by {
      assert |text.value| == 7;
      forall i | 0 <= i < 7
        ensures text.value[i] == "SID=abc"[i]
      {
        assert text.value[i] as int == SidBytes[i];
      }
    }
  }

  /** One active session: the throttled limit is applied with the cookie
      from the login, then the loop pauses. */
  lemma ActiveSessionThrottles()
    ensures Run(Authenticating, Env([LoginOk], [SessionsReceived(OK, Array([Object([("Id", Str("x"))])]))], [ApplyResponse(OK)]))
      == Outcome(Polling("SID=abc"), [Login, Sample, Apply(1000, "SID=abc"), Sleep])
  {
    var env := Env([LoginOk], [SessionsReceived(OK, Array([Object([("Id", Str("x"))])]))], [ApplyResponse(OK)]);
    SidIsText();
    LoginStep(env);
    PollStep("SID=abc", env.(logins := []));
    assert Run(Polling("SID=abc"), Env([], [], [])).trace == [];
  }

  /** No active session: the limit 0 (unlimited) is applied. */
  lemma IdleServerUnthrottles()
    ensures Run(Authenticating, Env([LoginOk], [SessionsReceived(OK, Array([]))], [ApplyResponse(OK)]))
      == Outcome(Polling("SID=abc"), [Login, Sample, Apply(0, "SID=abc"), Sleep])
  {
    var env := Env([LoginOk], [SessionsReceived(OK, Array([]))], [ApplyResponse(OK)]);
    SidIsText();
    LoginStep(env);
    PollStep("SID=abc", env.(logins := []));
    assert Run(Polling("SID=abc"), Env([], [], [])).trace == [];
  }

  /** A body that is not an array counts as no session, even on an error
      status. */
  lemma NonArrayBodyUnthrottles()
    ensures Run(Authenticating, Env([LoginOk], [SessionsReceived(UNAUTHORIZED, Null)], [ApplyResponse(OK)]))
      == Outcome(Polling("SID=abc"), [Login, Sample, Apply(0, "SID=abc"), Sleep])
  {
    var env := Env([LoginOk], [SessionsReceived(UNAUTHORIZED, Null)], [ApplyResponse(OK)]);
    SidIsText();
    LoginStep(env);
    PollStep("SID=abc", env.(logins := []));
    assert Run(Polling("SID=abc"), Env([], [], [])).trace == [];
  }

  /** A login refused with 403 ends the outer loop: `main` returns 0 and no
      sample or apply is ever made, whatever replies remain. */
  lemma ForbiddenLoginExits(env: Env, cookie: Option<seq<byte>>)
    requires env.logins != [] && env.logins[0] == LoginResponse(FORBIDDEN, cookie)
    ensures Run(Authenticating, env) == Outcome(Exited(0), [Login])
  {
    LoginStep(env);
  }

  /** A 200 login without a cookie is retried at once, with no pause. */
  lemma MissingCookieRetriesAtOnce()
    ensures Run(Authenticating, Env([LoginResponse(OK, None), LoginOk], [SessionsReceived(OK, Array([]))], [ApplyResponse(OK)]))
      == Outcome(Polling("SID=abc"), [Login, Login, Sample, Apply(0, "SID=abc"), Sleep])
  {
    var env := Env([LoginResponse(OK, None), LoginOk], [SessionsReceived(OK, Array([]))], [ApplyResponse(OK)]);
    SidIsText();
    LoginStep(env);
    LoginStep(env.(logins := [LoginOk]));
    PollStep("SID=abc", env.(logins := []));
    assert Run(Polling("SID=abc"), Env([], [], [])).trace == [];
  }

  /** An apply refused with 401 mid-poll is followed by a fresh login, not
      by a second apply. */
  lemma UnauthorizedApplyLogsInAgain()
    ensures Run(Authenticating, Env([LoginOk, LoginOk], [SessionsReceived(OK, Array([])), SessionsReceived(OK, Array([]))], [ApplyResponse(UNAUTHORIZED), ApplyResponse(OK)]))
      == Outcome(Polling("SID=abc"), [Login, Sample, Apply(0, "SID=abc"), Login, Sample, Apply(0, "SID=abc"), Sleep])
  {
    var env := Env([LoginOk, LoginOk], [SessionsReceived(OK, Array([])), SessionsReceived(OK, Array([]))], [ApplyResponse(UNAUTHORIZED), ApplyResponse(OK)]);
    SidIsText();
    LoginStep(env);
    var env1 := env.(logins := [LoginOk]);
    PollStep("SID=abc", env1);
    var env2 := Env([LoginOk], [SessionsReceived(OK, Array([]))], [ApplyResponse(OK)]);
    assert env1.(samples := env1.samples[1..], applies := env1.applies[1..]) == env2;
    LoginStep(env2);
    PollStep("SID=abc", env2.(logins := []));
    assert Run(Polling("SID=abc"), Env([], [], [])).trace == [];
  }

  /** Any other apply failure is ignored: the loop pauses and polls again,
      and the failed sample that follows makes `main` return 1. */
  lemma FailedApplyKeepsPolling()
    ensures Run(Authenticating, Env([LoginOk], [SessionsReceived(OK, Array([])), SessionsFailed("timeout")], [ApplyResponse(500)]))
      == Outcome(Exited(1), [Login, Sample, Apply(0, "SID=abc"), Sleep, Sample])
  {
    var env := Env([LoginOk], [SessionsReceived(OK, Array([])), SessionsFailed("timeout")], [ApplyResponse(500)]);
    SidIsText();
    LoginStep(env);
    var env1 := env.(logins := []);
    PollStep("SID=abc", env1);
    var env2 := Env([], [SessionsFailed("timeout")], []);
    assert env1.(samples := env1.samples[1..], applies := env1.applies[1..]) == env2;
    PollStep("SID=abc", env2);
  }
}
