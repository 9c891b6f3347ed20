/** The control loop of `main`: an outer loop that logs in to the torrent
    client and an inner loop that samples the media server's sessions and
    applies the matching upload limit, with every network call replaced by
    the next reply the environment holds for it. */
module ControlLoop {

  import opened Errors
  import opened Clients

  /** Where the loop stands: logging in, polling with a session cookie, or
      gone with an exit code. */
  datatype State = Authenticating | Polling(cookie: string) | Exited(code: int)

  /** What the loop does, in order: the three requests and the pause that
      ends a polling cycle. */
  datatype Action = Login | Sample | Apply(speed: nat, cookie: string) | Sleep

  /** The replies the two services give, in order: the n-th login request is
      answered by `logins[n]`, and so on. The run ends when a call finds no
      reply left. */
  datatype Env = Env(logins: seq<LoginReply>, samples: seq<SessionsReply>, applies: seq<ApplyReply>)

  function Size(env: Env): nat
  {
    |env.logins| + |env.samples| + |env.applies|
  }

  /** The state the loop ends in and the actions it took on the way. */
  datatype Outcome = Outcome(final: State, trace: seq<Action>)

  function After(prefix: seq<Action>, o: Outcome): Outcome
  {
    Outcome(o.final, prefix + o.trace)
  }

  lemma AfterAfter(a: seq<Action>, b: seq<Action>, o: Outcome)
    ensures After(a, After(b, o)) == After(a + b, o)
  {
    assert a + (b + o.trace) == (a + b) + o.trace;
  }

  /** The first action the loop takes from a live state. */
  function FirstAction(s: State): Action
  {
    if s.Authenticating? then Login else Sample
  }

  /** The loop as a state machine, one step per login or per polling cycle.
      A login rejected with 401/403 leaves the outer loop and `main` returns
      0; any other login error retries at once; a sampling error returns 1;
      an apply rejected with 401/403 goes back to logging in; every other
      apply result continues polling after a pause. */
  function Run(s: State, env: Env): (o: Outcome)
    decreases Size(env)
    ensures s.Exited? ==> o == Outcome(s, [])
    ensures o.trace != [] ==> o.trace[0] == FirstAction(s)
    ensures !s.Exited? && o.final.Exited? ==> o.final.code == 0 || o.final.code == 1
    ensures !s.Exited? && o.final.Exited? ==> o.trace != []
  {
    match s
    case Exited(_) => Outcome(s, [])
    case Authenticating =>
      if env.logins == [] then Outcome(s, [])
      else
        var rest := env.(logins := env.logins[1..]);
        (match QbAuth(env.logins[0])
         case Ok(cookie) => After([Login], Run(Polling(cookie), rest))
         case Err(e) =>
           if ForcesReauth(e) then Outcome(Exited(0), [Login])
           else After([Login], Run(Authenticating, rest)))
    case Polling(cookie) =>
      if env.samples == [] then Outcome(s, [])
      else
        match JellyfinGetSessions(env.samples[0])
        case Err(_) => Outcome(Exited(1), [Sample])
        case Ok(sessions) =>
          if env.applies == [] then Outcome(s, [Sample])
          else
            var speed := UploadLimit(sessions);
            var rest := env.(samples := env.samples[1..], applies := env.applies[1..]);
            var r := QbSetUpload(env.applies[0]);
            if r.Err? && ForcesReauth(r.error) then
              After([Sample, Apply(speed, cookie)], Run(Authenticating, rest))
            else
              After([Sample, Apply(speed, cookie), Sleep], Run(Polling(cookie), rest))
  }

  // One step of `Run` for each way a call can come back.

  lemma LoginStep(env: Env)
    requires env.logins != []
    ensures var rest := env.(logins := env.logins[1..]);
      match QbAuth(env.logins[0])
      case Ok(c) => Run(Authenticating, env) == After([Login], Run(Polling(c), rest))
      case Err(e) =>
        Run(Authenticating, env) ==
          if ForcesReauth(e) then Outcome(Exited(0), [Login]) else After([Login], Run(Authenticating, rest))
  {
  }

  lemma PollStep(cookie: string, env: Env)
    requires env.samples != []
    ensures var sampled := JellyfinGetSessions(env.samples[0]);
      if sampled.Err? then Run(Polling(cookie), env) == Outcome(Exited(1), [Sample])
      else if env.applies == [] then Run(Polling(cookie), env) == Outcome(Polling(cookie), [Sample])
      else
        var apply := Apply(UploadLimit(sampled.value), cookie);
        var rest := env.(samples := env.samples[1..], applies := env.applies[1..]);
        var r := QbSetUpload(env.applies[0]);
        Run(Polling(cookie), env) ==
          if r.Err? && ForcesReauth(r.error) then After([Sample, apply], Run(Authenticating, rest))
          else After([Sample, apply, Sleep], Run(Polling(cookie), rest))
  {
  }

  /** The login step, seen from a run already under way. */
  lemma LoginStepAfter(goal: Outcome, done: seq<Action>, env: Env)
    requires env.logins != [] && goal == After(done, Run(Authenticating, env))
    ensures var rest := env.(logins := env.logins[1..]);
      match QbAuth(env.logins[0])
      case Ok(c) => goal == After(done + [Login], Run(Polling(c), rest))
      case Err(e) =>
        if ForcesReauth(e) then goal == Outcome(Exited(0), done + [Login])
        else goal == After(done + [Login], Run(Authenticating, rest))
  {
    LoginStep(env);
    var rest := env.(logins := env.logins[1..]);
    match QbAuth(env.logins[0])
    case Ok(c) => AfterAfter(done, [Login], Run(Polling(c), rest));
    case Err(e) => AfterAfter(done, [Login], Run(Authenticating, rest));
  }

  /** The polling step, seen from a run already under way. */
  lemma PollStepAfter(goal: Outcome, done: seq<Action>, cookie: string, env: Env)
    requires env.samples != [] && goal == After(done, Run(Polling(cookie), env))
    ensures var sampled := JellyfinGetSessions(env.samples[0]);
      if sampled.Err? then goal == Outcome(Exited(1), done + [Sample])
      else if env.applies == [] then goal == Outcome(Polling(cookie), done + [Sample])
      else
        var apply := Apply(UploadLimit(sampled.value), cookie);
        var rest := env.(samples := env.samples[1..], applies := env.applies[1..]);
        var r := QbSetUpload(env.applies[0]);
        if r.Err? && ForcesReauth(r.error) then goal == After(done + [Sample] + [apply], Run(Authenticating, rest))
        else goal == After(done + [Sample] + [apply] + [Sleep], Run(Polling(cookie), rest))
  {
    PollStep(cookie, env);
    var sampled := JellyfinGetSessions(env.samples[0]);
    if sampled.Ok? && env.applies != [] {
      var apply := Apply(UploadLimit(sampled.value), cookie);
      var rest := env.(samples := env.samples[1..], applies := env.applies[1..]);
      assert done + [Sample] + [apply] == done + [Sample, apply];
      assert done + [Sample] + [apply] + [Sleep] == done + [Sample, apply, Sleep];
      AfterAfter(done, [Sample, apply], Run(Authenticating, rest));
      AfterAfter(done, [Sample, apply, Sleep], Run(Polling(cookie), rest));
    }
  }

  /** `main`'s two nested loops, run against the replies in `env`. */
  method MainLoop(env: Env) returns (final: State, trace: seq<Action>)
    ensures Outcome(final, trace) == Run(Authenticating, env)
  {
    ghost var goal := Run(Authenticating, env);
    var logins, samples, applies := env.logins, env.samples, env.applies;
    trace := [];
    while true
      invariant goal == After(trace, Run(Authenticating, Env(logins, samples, applies)))
      decreases |logins|
    {
      if logins == [] {
        return Authenticating, trace;
      }
      LoginStepAfter(goal, trace, Env(logins, samples, applies));
      var cookieReq := QbAuth(logins[0]);
      logins := logins[1..];
      trace := trace + [Login];
      var cookie: string;
      match cookieReq {
        case Ok(c) =>
          cookie := c;
        case Err(err) =>
          if ForcesReauth(err) {
            break;
          }
          continue;
      }

      while true
        invariant goal == After(trace, Run(Polling(cookie), Env(logins, samples, applies)))
        decreases |samples|
      {
        if samples == [] {
          return Polling(cookie), trace;
        }
        PollStepAfter(goal, trace, cookie, Env(logins, samples, applies));
        var sessionsReq := JellyfinGetSessions(samples[0]);
        samples := samples[1..];
        trace := trace + [Sample];
        if sessionsReq.Err? {
          return Exited(1), trace;
        }
        var speed := UploadLimit(sessionsReq.value);
        if applies == [] {
          return Polling(cookie), trace;
        }
        var applyReq := QbSetUpload(applies[0]);
        applies := applies[1..];
        trace := trace + [Apply(speed, cookie)];
        if applyReq.Err? && ForcesReauth(applyReq.error) {
          break;
        }
        trace := trace + [Sleep];
      }
    }
    return Exited(0), trace;
  }
}
