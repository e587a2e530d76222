/** The two-step sign-in as a whole: accounts and tokens together with each account's second
    factor, and how the two follow each other through every run. */
module SignIn {
  import opened Accounts
  import opened Wrappers
  import A = AccountRuns
  import F = SecondFactor

  /** An account with no entry has its factor off. */
  datatype System = System(accounts: State, factors: map<nat, F.Factor>)

  datatype Event =
    | Account(q: Request)                                           // any other request
    | Second(b: Bearer, code: string, now: int)                     // `/auth/mfa/verify`
    | Reissue(b: Bearer, code: string, now: int, hashes: seq<string>)  // `/auth/mfa/recovery-codes`
    | TurnOff(b: Bearer, password: string, code: string, now: int)  // `/auth/mfa/disable`

  function FactorOf(y: System, u: nat): F.Factor {
    if u in y.factors then y.factors[u] else F.OFF
  }

  /** Whose challenge is presented, if it is one that can be answered. */
  function ChallengedUser(s: State, b: Bearer): Option<nat> {
    match Decode(s, b)
    case None => None
    case Some(t) => if t.purpose == Some(PURPOSE_MFA_CHALLENGE) then Find(s.users, t.sub, t.tenant) else None
  }

  /** The attempt an event makes on somebody's factor. */
  function AttemptOf(c: Config, y: System, e: Event): Option<(nat, F.Attempt)> {
    match e
    case Account(_) => None
    case Second(b, code, now) =>
      (match ChallengedUser(y.accounts, b) case Some(u) => Some((u, F.Verify(code, now))) case None => None)
    case Reissue(b, code, now, hashes) =>
      (match AuthUser(y.accounts, b) case Some(u) => Some((u, F.Regenerate(code, now, hashes))) case None => None)
    case TurnOff(b, password, code, now) =>
      (match AuthUser(y.accounts, b)
       case Some(u) => Some((u, F.Disable(c.matches(password, y.accounts.users[u].password), code, now)))
       case None => None)
  }

  function Attempted(c: Config, check: F.Checker, y: System, e: Event): Option<(F.Factor, F.Result)> {
    match AttemptOf(c, y, e)
    case None => None
    case Some((u, a)) => Some(F.Handle(check, FactorOf(y, u), a))
  }

  predicate AttemptPasses(c: Config, check: F.Checker, y: System, e: Event) {
    var tried := Attempted(c, check, y, e);
    tried.Some? && F.Passed(tried.value.1)
  }

  /** What a refused attempt is answered with. */
  function StatusOf(e: Event, r: F.Result): nat {
    if r.NotOn? then 400 else if e.Second? then 401 else 403
  }

  function Step(c: Config, check: F.Checker, y: System, e: Event): (System, Response) {
    match AttemptOf(c, y, e)
    case None =>
      if !e.Account? then (y, Refused(401))
      else if e.q.MfaVerify? || e.q.SetMfa? then (y, Noted)
      else var (s, r) := Handle(c, y.accounts, e.q); (System(s, y.factors), r)
    case Some((u, a)) =>
      var (f, result) := F.Handle(check, FactorOf(y, u), a);
      var factors := y.factors[u := f];
      if !F.Passed(result) then (System(y.accounts, factors), Refused(StatusOf(e, result)))
      else if e.Second? then
        assert u < |y.accounts.users|;
        var (s, r) := Accounts.SignIn(y.accounts, u);
        (System(s, factors), r)
      else if e.TurnOff? then (System(Handle(c, y.accounts, SetMfa(u, false)).0, factors), Noted)
      else (System(y.accounts, factors), Noted)
  }

  /** A code that does not pass is answered as not authenticated at the second step and as not
      allowed elsewhere; an account whose factor is off is told so. */
  lemma RefusedAttemptSays(c: Config, check: F.Checker, y: System, e: Event)
    requires AttemptOf(c, y, e).Some? && !AttemptPasses(c, check, y, e)
    ensures
      var u := AttemptOf(c, y, e).value.0;
      Step(c, check, y, e).1 == Refused(if !FactorOf(y, u).enabled then 400 else if e.Second? then 401 else 403)
  {
  }

  function Run(c: Config, check: F.Checker, y: System, es: seq<Event>): System {
    if es == [] then y else Step(c, check, Run(c, check, y, es[..|es| - 1]), es[|es| - 1]).0
  }

  /** The account row's flag is the factor's. */
  ghost predicate FlagsAgree(y: System) {
    && (forall u | u in y.factors :: u < |y.accounts.users|)
    && (forall u | 0 <= u < |y.accounts.users| :: y.accounts.users[u].mfa == FactorOf(y, u).enabled)
  }

  // ---------------------------------------------------------------- a run of accounts

  /** The account request an event amounts to, if any, the factor's verdict filled in. */
  function RequestOf(c: Config, check: F.Checker, y: System, e: Event): Option<Request> {
    match e
    case Account(q) => if q.MfaVerify? || q.SetMfa? then None else Some(q)
    case Second(b, _, _) => Some(MfaVerify(b, AttemptPasses(c, check, y, e)))
    case Reissue(_, _, _, _) => None
    case TurnOff(b, _, _, _) =>
      if AttemptPasses(c, check, y, e) then Some(SetMfa(AttemptOf(c, y, e).value.0, false)) else None
  }

  /** What happened to the accounts, and what was answered, is the request's doing. */
  ghost predicate ActsAs(c: Config, y: System, q: Option<Request>, z: System, r: Response) {
    match q
    case None => z.accounts == y.accounts
    case Some(q) => (z.accounts, r) == Handle(c, y.accounts, q)
  }

  lemma RowsStay(c: Config, s: State, q: Request)
    requires !q.SetMfa?
    ensures var s' := Handle(c, s, q).0;
      && |s.users| <= |s'.users|
      && (forall u | 0 <= u < |s.users| :: s'.users[u].mfa == s.users[u].mfa)
      && (forall u | |s.users| <= u < |s'.users| :: !s'.users[u].mfa)
  {
  }

  lemma AttemptedFactor(c: Config, check: F.Checker, y: System, e: Event)
    requires FlagsAgree(y) && AttemptOf(c, y, e).Some?
    ensures
      var (u, a) := AttemptOf(c, y, e).value;
      var (f, r) := F.Handle(check, FactorOf(y, u), a);
      && u < |y.accounts.users|
      && (F.Passed(r) ==> y.accounts.users[u].mfa)
      && (r.NotOn? <==> !y.accounts.users[u].mfa)
      && f.enabled == (y.accounts.users[u].mfa && !(e.TurnOff? && F.Passed(r)))
  {
  }

  /** With the factor's own verdict in the place of the parameter, the second step is the
      account model's, and so is every other event. */
  lemma StepIsAccountStep(c: Config, check: F.Checker, y: System, e: Event)
    requires FlagsAgree(y)
    ensures
      var (z, r) := Step(c, check, y, e);
      && FlagsAgree(z)
      && ActsAs(c, y, RequestOf(c, check, y, e), z, r)
  {
    if AttemptOf(c, y, e).Some? {
      AttemptedFactor(c, check, y, e);
    } else if e.Account? && !e.q.SetMfa? {
      RowsStay(c, y.accounts, e.q);
    }
  }

  function Requests(c: Config, check: F.Checker, y: System, es: seq<Event>): seq<Request> {
    if es == [] then []
    else
      var init := es[..|es| - 1];
      var q := RequestOf(c, check, Run(c, check, y, init), es[|es| - 1]);
      Requests(c, check, y, init) + if q.Some? then [q.value] else []
  }

  /** So every run of the whole is a run of the accounts, and what holds of those holds here. */
  lemma {:induction false} RunIsAccountRun(c: Config, check: F.Checker, y: System, es: seq<Event>)
    requires FlagsAgree(y)
    ensures FlagsAgree(Run(c, check, y, es))
    ensures Run(c, check, y, es).accounts == A.Run(c, y.accounts, Requests(c, check, y, es)).0
  {
    if es != [] {
      var init := es[..|es| - 1];
      var m := Run(c, check, y, init);
      RunIsAccountRun(c, check, y, init);
      StepIsAccountStep(c, check, m, es[|es| - 1]);
      var qs, before := Requests(c, check, y, es), Requests(c, check, y, init);
      if RequestOf(c, check, m, es[|es| - 1]).Some? {
        assert qs[..|qs| - 1] == before;
      } else {
        assert qs == before;
      }
    }
  }

  // ---------------------------------------------------------------- a run of one factor

  /** The attempts a run makes on `u`'s factor, in order. */
  function Attempts(c: Config, check: F.Checker, y: System, es: seq<Event>, u: nat): seq<F.Attempt> {
    if es == [] then []
    else
      var init := es[..|es| - 1];
      var tried := AttemptOf(c, Run(c, check, y, init), es[|es| - 1]);
      Attempts(c, check, y, init, u) + if tried.Some? && tried.value.0 == u then [tried.value.1] else []
  }

  lemma StepIsFactorStep(c: Config, check: F.Checker, y: System, e: Event, u: nat)
    ensures
      var tried := AttemptOf(c, y, e);
      FactorOf(Step(c, check, y, e).0, u) ==
        if tried.Some? && tried.value.0 == u then F.Handle(check, FactorOf(y, u), tried.value.1).0 else FactorOf(y, u)
  {
  }

  /** And every run of the whole is, for each account, a run of its factor. */
  lemma {:induction false} RunIsFactorRun(c: Config, check: F.Checker, y: System, es: seq<Event>, u: nat)
    ensures FactorOf(Run(c, check, y, es), u) == F.Run(check, FactorOf(y, u), Attempts(c, check, y, es, u)).0
  {
    if es != [] {
      var init, e := es[..|es| - 1], es[|es| - 1];
      RunIsFactorRun(c, check, y, init, u);
      StepIsFactorStep(c, check, Run(c, check, y, init), e, u);
      var tried := AttemptOf(c, Run(c, check, y, init), e);
      if tried.Some? && tried.value.0 == u {
        var before := Attempts(c, check, y, init, u);
        assert (before + [tried.value.1])[..|before|] == before;
      } else {
        assert Attempts(c, check, y, es, u) == Attempts(c, check, y, init, u);
      }
    }
  }

  // ---------------------------------------------------------------- sign-in

  /** The step of the authenticator an event was accepted for. */
  function AcceptedStep(c: Config, check: F.Checker, y: System, e: Event): Option<int> {
    var tried := Attempted(c, check, y, e);
    if tried.Some? && tried.value.1.ByTotp? then Some(tried.value.1.step) else None
  }

  /** That is when the factor the attempt is on takes the code for that step. */
  lemma AcceptedStepIs(c: Config, check: F.Checker, y: System, e: Event, step: int)
    ensures AcceptedStep(c, check, y, e) == Some(step) <==>
      && AttemptOf(c, y, e).Some?
      && var (u, a) := AttemptOf(c, y, e).value; F.Handle(check, FactorOf(y, u), a).1 == F.ByTotp(step)
  {
  }

  /** The attempt is on `u`'s factor, with `a`'s code, while `step` is in the window. */
  predicate SameCodeAgain(c: Config, y: System, e: Event, u: nat, a: F.Attempt, step: int) {
    match AttemptOf(c, y, e)
    case None => false
    case Some((v, again)) =>
      && v == u && F.Normalised(again.code) == F.Normalised(a.code)
      && again.now - F.VALID_WINDOW <= step <= again.now + F.VALID_WINDOW
  }

  /** One code, one use: whatever happens in between, to this account or to others, a code
      accepted for a step is accepted for nothing else of the account's while that step is in
      the window, neither to sign in nor to manage the factor. It is not taken for a recovery
      code either, those reading differently. */
  lemma OneCodeOnce(c: Config, check: F.Checker, y: System, e: Event, es: seq<Event>, again: Event)
    requires AcceptedStep(c, check, y, e).Some?
    requires
      var (u, a) := AttemptOf(c, y, e).value;
      SameCodeAgain(c, Run(c, check, Step(c, check, y, e).0, es), again, u, a, AcceptedStep(c, check, y, e).value)
    ensures
      var later := Run(c, check, Step(c, check, y, e).0, es);
      && AcceptedStep(c, check, later, again).None?
      && (F.Apart(check) ==> !AttemptPasses(c, check, later, again))
  {
    var z := Step(c, check, y, e).0;
    var (u, a) := AttemptOf(c, y, e).value;
    StepIsFactorStep(c, check, y, e, u);
    RunIsFactorRun(c, check, z, es, u);
    var later := Run(c, check, z, es);
    F.ReplayIsRefused(check, FactorOf(y, u), a, Attempts(c, check, z, es, u), AttemptOf(c, later, again).value.1);
  }

  /** The second step signs `u` in exactly for an unexpired challenge of `u`'s and a code that
      `u`'s own factor, as the run has left it, accepts. */
  lemma SecondStepExactlyWhen(
      c: Config, check: F.Checker, y: System, es: seq<Event>, b: Bearer, code: string, now: int, u: nat)
    ensures
      var m := Run(c, check, y, es);
      Step(c, check, m, Second(b, code, now)).1 == SignedIn(u, |m.accounts.issued|) <==>
        && ChallengedUser(m.accounts, b) == Some(u)
        && F.Passed(F.Handle(check, F.Run(check, FactorOf(y, u), Attempts(c, check, y, es, u)).0, F.Verify(code, now)).1)
  {
    RunIsFactorRun(c, check, y, es, u);
  }

  // ---------------------------------------------------------------- the first session

  /** The ways to a first session, the second step judged by the account's own factor. */
  predicate LetsIn(c: Config, check: F.Checker, y: System, e: Event, u: nat) {
    match e
    case Account(q) => !q.MfaVerify? && A.FirstWayIn(c, y.accounts, q, u)
    case Second(b, code, now) =>
      ChallengedUser(y.accounts, b) == Some(u) && F.Passed(F.Handle(check, FactorOf(y, u), F.Verify(code, now)).1)
    case _ => false
  }

  lemma LetsInIsFirstWayIn(c: Config, check: F.Checker, y: System, e: Event, u: nat)
    requires FlagsAgree(y) && A.TokensOk(y.accounts)
    ensures
      var q := RequestOf(c, check, y, e);
      LetsIn(c, check, y, e, u) <==> q.Some? && A.FirstWayIn(c, y.accounts, q.value, u)
  {
    if e.Second? {
      if AttemptOf(c, y, e).Some? { AttemptedFactor(c, check, y, e); }
      if e.b.token < |y.accounts.issued| { assert A.TokenOk(y.accounts, y.accounts.issued[e.b.token]); }
    }
  }

  lemma StepKeepsNoSessionExactlyWhen(c: Config, check: F.Checker, y: System, e: Event, u: nat)
    requires FlagsAgree(y) && A.TokensOk(y.accounts) && A.AddressesDistinct(y.accounts.users)
    ensures A.NoSession(y.accounts, u) ==>
      (A.NoSession(Step(c, check, y, e).0.accounts, u) <==> !LetsIn(c, check, y, e, u))
    ensures !A.NoSession(y.accounts, u) ==> !A.NoSession(Step(c, check, y, e).0.accounts, u)
  {
    StepIsAccountStep(c, check, y, e);
    LetsInIsFirstWayIn(c, check, y, e, u);
    var q := RequestOf(c, check, y, e);
    if q.Some? {
      if A.NoSession(y.accounts, u) {
        A.FirstSessionExactlyWhen(c, y.accounts, q.value, u);
      } else {
        A.SessionsStay(c, y.accounts, q.value, u);
      }
    }
  }

  ghost predicate LetsInAt(c: Config, check: F.Checker, y: System, es: seq<Event>, j: nat, u: nat)
    requires j < |es|
  {
    LetsIn(c, check, Run(c, check, y, es[..j]), es[j], u)
  }

  ghost predicate NeverLetsIn(c: Config, check: F.Checker, y: System, es: seq<Event>, u: nat) {
    forall j | 0 <= j < |es| :: !LetsInAt(c, check, y, es, j, u)
  }

  lemma OneMoreEvent(c: Config, check: F.Checker, y: System, es: seq<Event>, u: nat)
    requires es != []
    ensures NeverLetsIn(c, check, y, es, u) <==>
      NeverLetsIn(c, check, y, es[..|es| - 1], u) && !LetsInAt(c, check, y, es, |es| - 1, u)
  {
    var init := es[..|es| - 1];
    forall j | 0 <= j < |init| ensures LetsInAt(c, check, y, init, j, u) <==> LetsInAt(c, check, y, es, j, u) {
      assert init[..j] == es[..j] && init[j] == es[j];
    }
  }

  /** Whatever the other accounts do, an account without a session, or yet to be made, gets one
      exactly by registering, by login while its factor is off, by a challenge of its own with a
      code its own factor accepts, or by its password at the token endpoint. */
  lemma {:induction false} NoSessionExactlyWhen(c: Config, check: F.Checker, y: System, es: seq<Event>, u: nat)
    requires FlagsAgree(y) && A.TokensOk(y.accounts) && A.AddressesDistinct(y.accounts.users)
    requires A.NoSession(y.accounts, u)
    ensures A.NoSession(Run(c, check, y, es).accounts, u) <==> NeverLetsIn(c, check, y, es, u)
  {
    if es != [] {
      var init := es[..|es| - 1];
      NoSessionExactlyWhen(c, check, y, init, u);
      OneMoreEvent(c, check, y, es, u);
      RunIsAccountRun(c, check, y, init);
      A.RunKeepsTokensOk(c, y.accounts, Requests(c, check, y, init));
      A.RunKeepsAddressesDistinct(c, y.accounts, Requests(c, check, y, init));
      StepKeepsNoSessionExactlyWhen(c, check, Run(c, check, y, init), es[|es| - 1], u);
    }
  }

  // ---------------------------------------------------------------- turning the factor off

  /** A current session of `u`'s, `u`'s password, and a code that `u`'s factor accepts. */
  ghost predicate TurnsOff(c: Config, check: F.Checker, y: System, e: Event, u: nat) {
    && e.TurnOff? && AuthUser(y.accounts, e.b) == Some(u)
    && c.matches(e.password, y.accounts.users[u].password)
    && F.Opens(check, FactorOf(y, u), e.code, e.now)
  }

  lemma StepTurnsOffExactlyWhen(c: Config, check: F.Checker, y: System, e: Event, u: nat)
    ensures FactorOf(Step(c, check, y, e).0, u).enabled <==> FactorOf(y, u).enabled && !TurnsOff(c, check, y, e, u)
  {
    StepIsFactorStep(c, check, y, e, u);
    var tried := AttemptOf(c, y, e);
    if tried.Some? && tried.value.0 == u {
      F.GoesOffExactlyWhen(check, FactorOf(y, u), tried.value.1);
      F.HandleMovesOn(check, FactorOf(y, u), tried.value.1);
    }
  }

  ghost predicate TurnsOffAt(c: Config, check: F.Checker, y: System, es: seq<Event>, j: nat, u: nat)
    requires j < |es|
  {
    TurnsOff(c, check, Run(c, check, y, es[..j]), es[j], u)
  }

  ghost predicate NeverTurnsOff(c: Config, check: F.Checker, y: System, es: seq<Event>, u: nat) {
    forall j | 0 <= j < |es| :: !TurnsOffAt(c, check, y, es, j, u)
  }

  lemma NeverTurnsOffNext(c: Config, check: F.Checker, y: System, es: seq<Event>, u: nat)
    requires es != []
    ensures NeverTurnsOff(c, check, y, es, u) <==>
      NeverTurnsOff(c, check, y, es[..|es| - 1], u) && !TurnsOffAt(c, check, y, es, |es| - 1, u)
  {
    var init := es[..|es| - 1];
    forall j | 0 <= j < |init| ensures TurnsOffAt(c, check, y, init, j, u) <==> TurnsOffAt(c, check, y, es, j, u) {
      assert init[..j] == es[..j] && init[j] == es[j];
    }
  }

  /** Over every run a factor that is on stays on exactly unless somebody presents a current
      session of the account's with its password and a code its factor then accepts. */
  lemma {:induction false} FactorStaysOnExactlyWhen(c: Config, check: F.Checker, y: System, es: seq<Event>, u: nat)
    requires FactorOf(y, u).enabled
    ensures FactorOf(Run(c, check, y, es), u).enabled <==> NeverTurnsOff(c, check, y, es, u)
  {
    if es != [] {
      var init := es[..|es| - 1];
      FactorStaysOnExactlyWhen(c, check, y, init, u);
      NeverTurnsOffNext(c, check, y, es, u);
      StepTurnsOffExactlyWhen(c, check, Run(c, check, y, init), es[|es| - 1], u);
    }
  }
}
