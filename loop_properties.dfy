/** What the control loop's action trace promises, position by position:
    which reply each request receives, what the loop does next because of
    it, which cookie each apply carries, and why a run ends. */
module LoopProperties {

  import opened Errors
  import opened Clients
  import opened ControlLoop

  datatype Kind = LoginCall | SampleCall | ApplyCall | Pause

  function KindOf(a: Action): Kind
  {
    match a
    case Login => LoginCall
    case Sample => SampleCall
    case Apply(_, _) => ApplyCall
    case Sleep => Pause
  }

  /** The kinds of the actions of a trace, in order. */
  function Kinds(t: seq<Action>): (ks: seq<Kind>)
    ensures |ks| == |t|
  {
    seq(|t|, i requires 0 <= i < |t| => KindOf(t[i]))
  }

  /** How many actions of a kind a trace holds. */
  function Count(t: seq<Action>, k: Kind): (n: nat)
    ensures n <= |t|
  {
    multiset(Kinds(t))[k]
  }

  lemma CountAppend(a: seq<Action>, b: seq<Action>, k: Kind)
    ensures Count(a + b, k) == Count(a, k) + Count(b, k)
  {
    assert Kinds(a + b) == Kinds(a) + Kinds(b);
  }

  /** `cookie` is the session cookie in force after `logins` login requests
      made from state `s`: the state's own cookie when there were none, else
      the cookie the last of them returned. */
  ghost predicate LatestCookie(s: State, env: Env, logins: nat, cookie: string)
  {
    if logins == 0 then s == Polling(cookie)
    else logins <= |env.logins| && QbAuth(env.logins[logins - 1]) == Ok(cookie)
  }

  predicate Rejected<T>(r: Result<T>)
  {
    r.Err? && ForcesReauth(r.error)
  }

  /** What position `k` of a run's trace shows. The i-th request of a kind
      is answered by the i-th reply of that kind, and what follows depends on
      that reply as the four predicates below say. */
  ghost predicate Sound(s: State, env: Env, o: Outcome, k: nat)
    requires k < |o.trace|
  {
    match o.trace[k]
    case Login => LoginSound(env, o, k)
    case Sample => SampleSound(env, o, k)
    case Apply(_, _) => ApplySound(s, env, o, k)
    case Sleep => SleepSound(o, k)
  }

  /** A login rejected with 401/403 is the last action and the process
      exits with 0; another failed login is followed at once by a new login;
      a successful one by sampling. */
  ghost predicate LoginSound(env: Env, o: Outcome, k: nat)
    requires k < |o.trace|
  {
    var t := o.trace;
    var last := k == |t| - 1;
    var i := Count(t[..k], LoginCall);
    i < |env.logins| &&
    var r := QbAuth(env.logins[i]);
    (Rejected(r) <==> last && o.final == Exited(0)) &&
    (r.Err? && !Rejected(r) && !last ==> t[k + 1] == Login) &&
    (r.Ok? && !last ==> t[k + 1] == Sample)
  }

  /** A failed sample is the last action and the process exits with 1; a
      successful one is followed by an apply of the limit for that count. */
  ghost predicate SampleSound(env: Env, o: Outcome, k: nat)
    requires k < |o.trace|
  {
    var t := o.trace;
    var last := k == |t| - 1;
    var i := Count(t[..k], SampleCall);
    i < |env.samples| &&
    var r := JellyfinGetSessions(env.samples[i]);
    (r.Err? <==> last && o.final == Exited(1)) &&
    (r.Ok? && !last ==> t[k + 1].Apply? && t[k + 1].speed == UploadLimit(r.value))
  }

  /** An apply carries the cookie of the latest successful login; when
      rejected with 401/403 it is followed by a login, otherwise by a pause. */
  ghost predicate ApplySound(s: State, env: Env, o: Outcome, k: nat)
    requires k < |o.trace| && o.trace[k].Apply?
  {
    ApplyCookieSound(s, env, o, k) && ApplyReplySound(env, o, k)
  }

  ghost predicate ApplyCookieSound(s: State, env: Env, o: Outcome, k: nat)
    requires k < |o.trace| && o.trace[k].Apply?
  {
    LatestCookie(s, env, Count(o.trace[..k], LoginCall), o.trace[k].cookie)
  }

  ghost predicate ApplyReplySound(env: Env, o: Outcome, k: nat)
    requires k < |o.trace|
  {
    var t := o.trace;
    var last := k == |t| - 1;
    var i := Count(t[..k], ApplyCall);
    i < |env.applies| &&
    var r := QbSetUpload(env.applies[i]);
    (Rejected(r) && !last ==> t[k + 1] == Login) &&
    (!Rejected(r) ==> !last && t[k + 1] == Sleep)
  }

  /** A pause is followed by a new sample. */
  ghost predicate SleepSound(o: Outcome, k: nat)
    requires k < |o.trace|
  {
    k < |o.trace| - 1 ==> o.trace[k + 1] == Sample
  }

  /** The replies left after the requests of `p` consumed theirs. */
  function Consumed(env: Env, p: seq<Action>): Env
    requires Count(p, LoginCall) <= |env.logins|
    requires Count(p, SampleCall) <= |env.samples|
    requires Count(p, ApplyCall) <= |env.applies|
  {
    Env(env.logins[Count(p, LoginCall)..], env.samples[Count(p, SampleCall)..], env.applies[Count(p, ApplyCall)..])
  }

  lemma ShiftIndex(p: seq<Action>, t': seq<Action>, k: nat)
    requires |p| <= k < |p| + |t'|
    ensures (p + t')[k] == t'[k - |p|]
    ensures k + 1 < |p + t'| ==> (p + t')[k + 1] == t'[k - |p| + 1]
    ensures Count((p + t')[..k], LoginCall) == Count(p, LoginCall) + Count(t'[..k - |p|], LoginCall)
    ensures Count((p + t')[..k], SampleCall) == Count(p, SampleCall) + Count(t'[..k - |p|], SampleCall)
    ensures Count((p + t')[..k], ApplyCall) == Count(p, ApplyCall) + Count(t'[..k - |p|], ApplyCall)
  {
    assert (p + t')[..k] == p + t'[..k - |p|];
    CountAppend(p, t'[..k - |p|], LoginCall);
    CountAppend(p, t'[..k - |p|], SampleCall);
    CountAppend(p, t'[..k - |p|], ApplyCall);
  }

  /** What holds at position `k - |p|` of a run from `s'` on the replies the
      step `p` left holds at position `k` of the same run preceded by the
      step `p` that led from `s` to `s'`. */
  lemma Shift(s: State, env: Env, p: seq<Action>, s': State, o': Outcome, k: nat)
    requires Count(p, LoginCall) <= |env.logins| && Count(p, SampleCall) <= |env.samples|
    requires Count(p, ApplyCall) <= |env.applies|
    requires |p| <= k < |p| + |o'.trace|
    requires Sound(s', Consumed(env, p), o', k - |p|)
    requires s'.Polling? ==> LatestCookie(s, env, Count(p, LoginCall), s'.cookie)
    ensures Sound(s, env, After(p, o'), k)
  {
    ShiftIndex(p, o'.trace, k);
    match o'.trace[k - |p|]
    case Login => ShiftLogin(env, p, o', k);
    case Sample => ShiftSample(env, p, o', k);
    case Apply(_, _) => ShiftApply(s, env, p, s', o', k);
    case Sleep =>
  }

  /** `Shift` for the step of one login. */
  lemma LoginShift(env: Env, s': State, o': Outcome, k: nat)
    requires env.logins != []
    requires s'.Polling? ==> QbAuth(env.logins[0]) == Ok(s'.cookie)
    requires 1 <= k < 1 + |o'.trace|
    requires Sound(s', env.(logins := env.logins[1..]), o', k - 1)
    ensures Sound(Authenticating, env, After([Login], o'), k)
  {
    LoginStepCounts();
    assert Consumed(env, [Login]) == env.(logins := env.logins[1..]);
    Shift(Authenticating, env, [Login], s', o', k);
  }

  /** `Shift` for one polling cycle. */
  lemma PollShift(cookie: string, env: Env, p: seq<Action>, s': State, o': Outcome, k: nat)
    requires env.samples != [] && env.applies != []
    requires |p| == 2 || |p| == 3
    requires p[0] == Sample && p[1].Apply? && (|p| == 3 ==> p[2] == Sleep)
    requires s'.Polling? ==> s' == Polling(cookie)
    requires |p| <= k < |p| + |o'.trace|
    requires Sound(s', env.(samples := env.samples[1..], applies := env.applies[1..]), o', k - |p|)
    ensures Sound(Polling(cookie), env, After(p, o'), k)
  {
    PollStepCounts(p);
    assert Consumed(env, p) == env.(samples := env.samples[1..], applies := env.applies[1..]);
    Shift(Polling(cookie), env, p, s', o', k);
  }

  lemma ShiftLogin(env: Env, p: seq<Action>, o': Outcome, k: nat)
    requires Count(p, LoginCall) <= |env.logins| && Count(p, SampleCall) <= |env.samples|
    requires Count(p, ApplyCall) <= |env.applies|
    requires |p| <= k < |p| + |o'.trace| && o'.trace[k - |p|] == Login
    requires LoginSound(Consumed(env, p), o', k - |p|)
    ensures LoginSound(env, After(p, o'), k)
  {
    ShiftIndex(p, o'.trace, k);
    var i' := Count(o'.trace[..k - |p|], LoginCall);
    assert env.logins[Count(p, LoginCall) + i'] == Consumed(env, p).logins[i'];
  }

  lemma ShiftSample(env: Env, p: seq<Action>, o': Outcome, k: nat)
    requires Count(p, LoginCall) <= |env.logins| && Count(p, SampleCall) <= |env.samples|
    requires Count(p, ApplyCall) <= |env.applies|
    requires |p| <= k < |p| + |o'.trace| && o'.trace[k - |p|] == Sample
    requires SampleSound(Consumed(env, p), o', k - |p|)
    ensures SampleSound(env, After(p, o'), k)
  {
    ShiftIndex(p, o'.trace, k);
    var i' := Count(o'.trace[..k - |p|], SampleCall);
    assert env.samples[Count(p, SampleCall) + i'] == Consumed(env, p).samples[i'];
  }

  lemma ShiftApply(s: State, env: Env, p: seq<Action>, s': State, o': Outcome, k: nat)
    requires Count(p, LoginCall) <= |env.logins| && Count(p, SampleCall) <= |env.samples|
    requires Count(p, ApplyCall) <= |env.applies|
    requires |p| <= k < |p| + |o'.trace| && o'.trace[k - |p|].Apply?
    requires ApplySound(s', Consumed(env, p), o', k - |p|)
    requires s'.Polling? ==> LatestCookie(s, env, Count(p, LoginCall), s'.cookie)
    ensures ApplySound(s, env, After(p, o'), k)
  {
    ShiftIndex(p, o'.trace, k);
    ShiftApplyReply(env, p, o', k);
    ShiftApplyCookie(s, env, p, s', o', k);
  }

  lemma ShiftApplyReply(env: Env, p: seq<Action>, o': Outcome, k: nat)
    requires Count(p, LoginCall) <= |env.logins| && Count(p, SampleCall) <= |env.samples|
    requires Count(p, ApplyCall) <= |env.applies|
    requires |p| <= k < |p| + |o'.trace|
    requires ApplyReplySound(Consumed(env, p), o', k - |p|)
    ensures ApplyReplySound(env, After(p, o'), k)
  {
    ShiftIndex(p, o'.trace, k);
    var i' := Count(o'.trace[..k - |p|], ApplyCall);
    assert env.applies[Count(p, ApplyCall) + i'] == Consumed(env, p).applies[i'];
  }

  lemma ShiftApplyCookie(s: State, env: Env, p: seq<Action>, s': State, o': Outcome, k: nat)
    requires Count(p, LoginCall) <= |env.logins| && Count(p, SampleCall) <= |env.samples|
    requires Count(p, ApplyCall) <= |env.applies|
    requires |p| <= k < |p| + |o'.trace| && o'.trace[k - |p|].Apply?
    requires ApplyCookieSound(s', Consumed(env, p), o', k - |p|)
    requires s'.Polling? ==> LatestCookie(s, env, Count(p, LoginCall), s'.cookie)
    ensures ApplyCookieSound(s, env, After(p, o'), k)
  {
    ShiftIndex(p, o'.trace, k);
    var l' := Count(o'.trace[..k - |p|], LoginCall);
    LatestCookieShift(s, env, s', Consumed(env, p), Count(p, LoginCall), l', o'.trace[k - |p|].cookie);
  }

  /** The cookie in force after `n + m` logins, when the first `n` led
      from `s` to `s'` and the other `m` were answered from what was left. */
  lemma LatestCookieShift(s: State, env: Env, s': State, env': Env, n: nat, m: nat, cookie: string)
    requires n <= |env.logins| && env'.logins == env.logins[n..]
    requires s'.Polling? ==> LatestCookie(s, env, n, s'.cookie)
    requires LatestCookie(s', env', m, cookie)
    ensures LatestCookie(s, env, n + m, cookie)
  {
    if m > 0 {
      assert env.logins[n + m - 1] == env'.logins[m - 1];
    }
  }

  lemma LoginStepCounts()
    ensures Count([Login], LoginCall) == 1
    ensures Count([Login], SampleCall) == 0
    ensures Count([Login], ApplyCall) == 0
  {
    assert Kinds([Login]) == [LoginCall];
  }

  lemma PollStepCounts(p: seq<Action>)
    requires |p| == 2 || |p| == 3
    requires p[0] == Sample && p[1].Apply? && (|p| == 3 ==> p[2] == Sleep)
    ensures Count(p, LoginCall) == 0
    ensures Count(p, SampleCall) == 1
    ensures Count(p, ApplyCall) == 1
  {
    if |p| == 2 {
      assert Kinds(p) == [SampleCall, ApplyCall];
    } else {
      assert Kinds(p) == [SampleCall, ApplyCall, Pause];
    }
  }

  /** Every position of every run from a live state is sound. */
  lemma {:induction false} RunSound(s: State, env: Env, k: nat)
    requires k < |Run(s, env).trace|
    ensures Sound(s, env, Run(s, env), k)
    decreases Size(env), 1
  {
    assert !s.Exited?;
    if s.Authenticating? {
      AuthenticatingRunSound(env, k);
    } else {
      PollingRunSound(s.cookie, env, k);
    }
  }

  lemma {:induction false} AuthenticatingRunSound(env: Env, k: nat)
    requires k < |Run(Authenticating, env).trace|
    ensures Sound(Authenticating, env, Run(Authenticating, env), k)
    decreases Size(env), 0
  {
    LoginStep(env);
    if k == 0 {
      FirstLoginSound(env);
    } else {
      var r := QbAuth(env.logins[0]);
      var rest := env.(logins := env.logins[1..]);
      var s' := if r.Ok? then Polling(r.value) else Authenticating;
      var o' := Run(s', rest);
      assert Run(Authenticating, env) == After([Login], o');
      RunSound(s', rest, k - 1);
      LoginShift(env, s', o', k);
    }
  }

  lemma FirstLoginSound(env: Env)
    requires 0 < |Run(Authenticating, env).trace|
    ensures Sound(Authenticating, env, Run(Authenticating, env), 0)
  {
    LoginStep(env);
    assert Run(Authenticating, env).trace[..0] == [];
  }

  lemma {:induction false} PollingRunSound(cookie: string, env: Env, k: nat)
    requires k < |Run(Polling(cookie), env).trace|
    ensures Sound(Polling(cookie), env, Run(Polling(cookie), env), k)
    decreases Size(env), 0
  {
    if k == 0 {
      FirstSampleSound(cookie, env);
    } else {
      var p, s' := PollCycle(cookie, env);
      var rest := env.(samples := env.samples[1..], applies := env.applies[1..]);
      if k == 1 {
        FirstApplySound(cookie, env);
      } else if k < |p| {
        assert Run(Polling(cookie), env).trace[2] == p[2];
        FirstSleepSound(cookie, env);
      } else {
        RunSound(s', rest, k - |p|);
        PollShift(cookie, env, p, s', Run(s', rest), k);
      }
    }
  }

  /** A run from polling that goes past its first sample makes a whole
      cycle `p` and continues from `s'` on the replies left. */
  lemma PollCycle(cookie: string, env: Env) returns (p: seq<Action>, s': State)
    requires 1 < |Run(Polling(cookie), env).trace|
    ensures env.samples != [] && env.applies != []
    ensures |p| == 2 || |p| == 3
    ensures p[0] == Sample && p[1].Apply? && (|p| == 3 ==> p[2] == Sleep)
    ensures s' == Authenticating || (|p| == 3 && s' == Polling(cookie))
    ensures Size(env.(samples := env.samples[1..], applies := env.applies[1..])) < Size(env)
    ensures Run(Polling(cookie), env) ==
      After(p, Run(s', env.(samples := env.samples[1..], applies := env.applies[1..])))
  {
    PollStep(cookie, env);
    var sampled := JellyfinGetSessions(env.samples[0]);
    var apply := Apply(UploadLimit(sampled.value), cookie);
    var rejected := Rejected(QbSetUpload(env.applies[0]));
    p := if rejected then [Sample, apply] else [Sample, apply, Sleep];
    s' := if rejected then Authenticating else Polling(cookie);
  }

  lemma FirstSampleSound(cookie: string, env: Env)
    requires 0 < |Run(Polling(cookie), env).trace|
    ensures Sound(Polling(cookie), env, Run(Polling(cookie), env), 0)
  {
    PollStep(cookie, env);
    assert Run(Polling(cookie), env).trace[..0] == [];
  }

  lemma FirstApplySound(cookie: string, env: Env)
    requires 1 < |Run(Polling(cookie), env).trace|
    ensures Sound(Polling(cookie), env, Run(Polling(cookie), env), 1)
  {
    PollStep(cookie, env);
    var t := Run(Polling(cookie), env).trace;
    assert t[..1] == [Sample];
    assert Count(t[..1], ApplyCall) == 0 && Count(t[..1], LoginCall) == 0 by {
      assert Kinds([Sample]) == [SampleCall];
    }
  }

  lemma FirstSleepSound(cookie: string, env: Env)
    requires 2 < |Run(Polling(cookie), env).trace|
    requires Run(Polling(cookie), env).trace[2] == Sleep
    ensures Sound(Polling(cookie), env, Run(Polling(cookie), env), 2)
  {
    PollStep(cookie, env);
  }

  /** A run that has not exited stopped because the call it was about to
      make found no reply left: a login while authenticating; while polling,
      the apply that follows a sample, or else the next sample. A run that
      stops right after an apply was sent back to logging in. */
  ghost predicate OutOfReplies(env: Env, o: Outcome)
  {
    (o.final.Authenticating? ==> Count(o.trace, LoginCall) == |env.logins|) &&
    (o.final.Polling? ==>
       if o.trace != [] && Last(o.trace) == Sample then Count(o.trace, ApplyCall) == |env.applies|
       else Count(o.trace, SampleCall) == |env.samples|) &&
    (o.trace != [] && Last(o.trace).Apply? ==> o.final.Authenticating?)
  }

  function Last(t: seq<Action>): Action
    requires t != []
  {
    t[|t| - 1]
  }

  lemma LastAppend(p: seq<Action>, t: seq<Action>)
    requires p != []
    ensures Last(p + t) == if t == [] then Last(p) else Last(t)
  {
    if t == [] {
      assert p + t == p;
    }
  }

  lemma {:induction false} RunStopsForLackOfReplies(s: State, env: Env)
    requires !s.Exited?
    ensures OutOfReplies(env, Run(s, env))
    decreases Size(env), 1
  {
    if s.Authenticating? {
      AuthenticatingStops(env);
    } else {
      PollingStops(s.cookie, env);
    }
  }

  lemma {:induction false} AuthenticatingStops(env: Env)
    ensures OutOfReplies(env, Run(Authenticating, env))
    decreases Size(env), 0
  {
    if env.logins != [] {
      LoginStep(env);
      var r := QbAuth(env.logins[0]);
      var rest := env.(logins := env.logins[1..]);
      if !Rejected(r) {
        var s' := if r.Ok? then Polling(r.value) else Authenticating;
        var o' := Run(s', rest);
        RunStopsForLackOfReplies(s', rest);
        LoginStepCounts();
        CountAppend([Login], o'.trace, LoginCall);
        CountAppend([Login], o'.trace, SampleCall);
        CountAppend([Login], o'.trace, ApplyCall);
        LastAppend([Login], o'.trace);
      }
    }
  }

  lemma {:induction false} PollingStops(cookie: string, env: Env)
    ensures OutOfReplies(env, Run(Polling(cookie), env))
    decreases Size(env), 0
  {
    if 1 < |Run(Polling(cookie), env).trace| {
      var p, s' := PollCycle(cookie, env);
      var rest := env.(samples := env.samples[1..], applies := env.applies[1..]);
      RunStopsForLackOfReplies(s', rest);
      RunThatDoesNothing(s', rest);
      PollStopShift(env, p, s', Run(s', rest));
    } else if env.samples != [] {
      PollStep(cookie, env);
      assert Kinds([Sample]) == [SampleCall];
    }
  }

  /** A run that takes no action stays where it started. */
  lemma RunThatDoesNothing(s: State, env: Env)
    ensures Run(s, env).trace == [] ==> Run(s, env).final == s
  {
  }

  /** `OutOfReplies` carried back over one polling cycle `p`. */
  lemma PollStopShift(env: Env, p: seq<Action>, s': State, o': Outcome)
    requires env.samples != [] && env.applies != []
    requires |p| == 2 || |p| == 3
    requires p[0] == Sample && p[1].Apply? && (|p| == 3 ==> p[2] == Sleep)
    requires s' == Authenticating || (|p| == 3 && s'.Polling?)
    requires o'.trace == [] ==> o'.final == s'
    requires OutOfReplies(env.(samples := env.samples[1..], applies := env.applies[1..]), o')
    ensures OutOfReplies(env, After(p, o'))
  {
    PollStepCounts(p);
    CountAppend(p, o'.trace, LoginCall);
    CountAppend(p, o'.trace, SampleCall);
    CountAppend(p, o'.trace, ApplyCall);
    LastAppend(p, o'.trace);
  }

  // ---------------------------------------------------------------------
  // Consequences for a run of `main` from its start

  /** Every apply carries the cookie returned by the latest login, which
      succeeded. */
  lemma ApplyUsesLatestCookie(env: Env, k: nat)
    requires k < |Run(Authenticating, env).trace|
    requires Run(Authenticating, env).trace[k].Apply?
    ensures var t := Run(Authenticating, env).trace;
      var logins := Count(t[..k], LoginCall);
      1 <= logins <= |env.logins| && QbAuth(env.logins[logins - 1]) == Ok(t[k].cookie)
  {
    RunSound(Authenticating, env, k);
  }

  /** Two applies with no login between them use the same cookie: only a
      login replaces it. */
  lemma CookieChangesOnlyAtLogin(env: Env, j: nat, k: nat)
    requires j < k < |Run(Authenticating, env).trace|
    requires Run(Authenticating, env).trace[j].Apply? && Run(Authenticating, env).trace[k].Apply?
    requires var t := Run(Authenticating, env).trace; Count(t[..j], LoginCall) == Count(t[..k], LoginCall)
    ensures Run(Authenticating, env).trace[j].cookie == Run(Authenticating, env).trace[k].cookie
  {
    ApplyUsesLatestCookie(env, j);
    ApplyUsesLatestCookie(env, k);
  }

  /** The last action of `o` is the call that made the process exit: a
      login rejected with 401/403 for code 0, a failed sample for code 1. */
  ghost predicate ExitExplained(env: Env, o: Outcome)
    requires o.trace != []
  {
    var t := o.trace;
    var k := |t| - 1;
    (o.final == Exited(0) && t[k] == Login && Count(t[..k], LoginCall) < |env.logins| &&
       Rejected(QbAuth(env.logins[Count(t[..k], LoginCall)]))) ||
    (o.final == Exited(1) && t[k] == Sample && Count(t[..k], SampleCall) < |env.samples| &&
       JellyfinGetSessions(env.samples[Count(t[..k], SampleCall)]).Err?)
  }

  /** The process exits with 0 only right after a login rejected with
      401/403, and with 1 only right after a failed sample; no other code
      occurs. */
  lemma ExitCause(env: Env)
    requires Run(Authenticating, env).final.Exited?
    ensures Run(Authenticating, env).trace != []
    ensures ExitExplained(env, Run(Authenticating, env))
  {
    var o := Run(Authenticating, env);
    RunSound(Authenticating, env, |o.trace| - 1);
    ExitShape(Authenticating, env);
    SoundExit(env, o);
  }

  /** The last position of a sound trace that ends in an exit names the
      reply that caused it. */
  lemma SoundExit(env: Env, o: Outcome)
    requires o.trace != [] && o.final.Exited? && (o.final.code == 0 || o.final.code == 1)
    requires o.trace[|o.trace| - 1] == (if o.final.code == 0 then Login else Sample)
    requires Sound(Authenticating, env, o, |o.trace| - 1)
    ensures ExitExplained(env, o)
  {
  }

  /** A run that exits ends with the call that made it exit: a login for
      code 0, a sample for code 1. */
  lemma {:induction false} ExitShape(s: State, env: Env)
    requires !s.Exited? && Run(s, env).final.Exited?
    ensures var o := Run(s, env);
      o.trace[|o.trace| - 1] == (if o.final.code == 0 then Login else Sample)
    decreases Size(env)
  {
    var o := Run(s, env);
    if s.Authenticating? {
      LoginStep(env);
      var r := QbAuth(env.logins[0]);
      if !Rejected(r) {
        var s' := if r.Ok? then Polling(r.value) else Authenticating;
        var o' := Run(s', env.(logins := env.logins[1..]));
        ExitShape(s', env.(logins := env.logins[1..]));
        LastAppend([Login], o'.trace);
      }
    } else if 1 < |o.trace| {
      var p, s' := PollCycle(s.cookie, env);
      var rest := env.(samples := env.samples[1..], applies := env.applies[1..]);
      ExitShape(s', rest);
      LastAppend(p, Run(s', rest).trace);
    } else {
      PollStep(s.cookie, env);
    }
  }
}
