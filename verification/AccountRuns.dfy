/** What holds over every run of the account endpoints: which tokens are still accepted, whose
    authority a request carries, and who can administer a tenant. */
module AccountRuns {
  import opened Accounts
  import opened Text
  import opened Wrappers

  function Run(c: Config, s: State, qs: seq<Request>): (State, seq<Response>) {
    if qs == [] then (s, [])
    else
      var (m, rs) := Run(c, s, qs[..|qs| - 1]);
      var (s', r) := Handle(c, m, qs[|qs| - 1]);
      (s', rs + [r])
  }

  // ---------------------------------------------------------------- tokens

  ghost predicate TokenOk(s: State, t: Token) {
    && t.sub < |s.users|
    && t.tenant == s.users[t.sub].tenant
    && ClaimedVersion(t) <= s.users[t.sub].version
  }

  /** No token claims a version its user has not reached. */
  ghost predicate TokensOk(s: State) {
    forall k | 0 <= k < |s.issued| :: TokenOk(s, s.issued[k])
  }

  /** Whether the response reports that `u`'s tokens were revoked. */
  predicate Revokes(r: Response, u: nat) {
    match r
    case LoggedOut(v) => v == u
    case PasswordChanged(v, _) => v == u
    case RoleChanged(v, _) => v == u
    case _ => false
  }

  function Revocations(rs: seq<Response>, u: nat): nat {
    if rs == [] then 0 else Revocations(rs[..|rs| - 1], u) + if Revokes(rs[|rs| - 1], u) then 1 else 0
  }

  function RoleAfter(role: string, r: Response, u: nat): string {
    if r.RoleChanged? && r.user == u then r.role else role
  }

  /** The role `u` was last given, starting from `role`. */
  function LastRole(role: string, rs: seq<Response>, u: nat): string {
    if rs == [] then role else RoleAfter(LastRole(role, rs[..|rs| - 1], u), rs[|rs| - 1], u)
  }

  /** How one request moves a row that was already there. */
  ghost predicate RowStep(before: User, after: User, r: Response, u: nat) {
    && after.tenant == before.tenant
    && after.version == before.version + (if Revokes(r, u) then 1 else 0)
    && after.role == RoleAfter(before.role, r, u)
  }

  ghost predicate Grows(s: State, s': State, r: Response) {
    && |s.users| <= |s'.users|
    && s.issued <= s'.issued
    && forall u | 0 <= u < |s.users| :: RowStep(s.users[u], s'.users[u], r, u)
  }

  lemma HandleGrows(c: Config, s: State, q: Request)
    ensures var (s', r) := Handle(c, s, q); Grows(s, s', r)
  {
    if q.SetUserRole? {
      SetUserRoleGrows(c, s, q.b, q.target, q.role);
    } else if q.ChangePassword? {
      ChangePasswordGrows(c, s, q.b, q.current, q.hash);
    }
  }

  lemma SetUserRoleGrows(c: Config, s: State, b: Bearer, target: nat, role: string)
    ensures var (s', r) := HandleSetUserRole(c, s, b, target, role); Grows(s, s', r)
  {
  }

  lemma ChangePasswordGrows(c: Config, s: State, b: Bearer, current: string, hash: string)
    ensures var (s', r) := HandleChangePassword(c, s, b, current, hash); Grows(s, s', r)
  {
  }

  /** At most one token is issued, and it claims no more than its user's version. */
  ghost predicate Mints(s: State, s': State) {
    || s'.issued == s.issued
    || (|s'.issued| == |s.issued| + 1 && s'.issued[..|s.issued|] == s.issued && TokenOk(s', s'.issued[|s.issued|]))
  }

  lemma HandleMints(c: Config, s: State, q: Request)
    requires TokensOk(s)
    ensures Mints(s, Handle(c, s, q).0)
  {
    if q.MfaVerify? || q.Refresh? || q.ChangePassword? {
      if Decode(s, q.b).Some? { assert TokenOk(s, s.issued[q.b.token]); }
    }
  }

  lemma MintingKeepsTokensOk(s: State, s': State, r: Response)
    requires TokensOk(s) && Grows(s, s', r) && Mints(s, s')
    ensures TokensOk(s')
  {
    forall k | 0 <= k < |s'.issued| ensures TokenOk(s', s'.issued[k]) {
      if k < |s.issued| {
        assert s'.issued[k] == s.issued[k] && TokenOk(s, s.issued[k]);
        assert RowStep(s.users[s.issued[k].sub], s'.users[s.issued[k].sub], r, s.issued[k].sub);
      }
    }
  }

  lemma HandleKeepsTokensOk(c: Config, s: State, q: Request)
    requires TokensOk(s)
    ensures TokensOk(Handle(c, s, q).0)
  {
    HandleGrows(c, s, q);
    HandleMints(c, s, q);
    MintingKeepsTokensOk(s, Handle(c, s, q).0, Handle(c, s, q).1);
  }

  /** Every token's version stays at or below its user's; versions count revocations; roles are
      the last assigned. */
  lemma {:induction false} RunGrows(c: Config, s: State, qs: seq<Request>, u: nat)
    requires u < |s.users|
    ensures var (s', rs) := Run(c, s, qs);
      && |s.users| <= |s'.users|
      && s.issued <= s'.issued
      && s'.users[u].tenant == s.users[u].tenant
      && s'.users[u].version == s.users[u].version + Revocations(rs, u)
      && s'.users[u].role == LastRole(s.users[u].role, rs, u)
  {
    if qs != [] {
      RunGrows(c, s, qs[..|qs| - 1], u);
      var (m, rs) := Run(c, s, qs[..|qs| - 1]);
      HandleGrows(c, m, qs[|qs| - 1]);
      var (s', r) := Handle(c, m, qs[|qs| - 1]);
      assert (rs + [r])[..|rs|] == rs;
      assert RowStep(m.users[u], s'.users[u], r, u);
    }
  }

  lemma {:induction false} RunKeepsTokensOk(c: Config, s: State, qs: seq<Request>)
    requires TokensOk(s)
    ensures TokensOk(Run(c, s, qs).0)
  {
    if qs != [] {
      RunKeepsTokensOk(c, s, qs[..|qs| - 1]);
      HandleKeepsTokensOk(c, Run(c, s, qs[..|qs| - 1]).0, qs[|qs| - 1]);
    }
  }

  /** Which tokens still work, after any run: exactly those that were current and whose user
      has not logged out, changed password or been given a role since. */
  lemma AcceptedExactlyUntilRevoked(c: Config, s: State, qs: seq<Request>, k: nat)
    requires TokensOk(s) && k < |s.issued|
    ensures
      var t := s.issued[k];
      var (s', rs) := Run(c, s, qs);
      var current := ClaimedVersion(t) == s.users[t.sub].version && Revocations(rs, t.sub) == 0;
      && (AuthUser(s', Bearer(k, false)) == Some(t.sub) <==> ForRequests(t) && current)
      && (AuthUser(s', Bearer(k, false)).Some? <==> ForRequests(t) && current)
      && t.sub < |s'.users|
      && (ApiUser(s', Bearer(k, false)).Some? <==> s'.users[t.sub].active && current)
  {
    var t := s.issued[k];
    assert TokenOk(s, t);
    RunGrows(c, s, qs, t.sub);
  }

  /** The token a response hands over. */
  function Handed(r: Response): Option<nat> {
    match r
    case SignedIn(_, k) => Some(k)
    case PasswordChanged(_, k) => Some(k)
    case _ => None
  }

  /** A session handed over by sign-in, refresh or a password change is current at once, is a
      request token, and lasts until its user's first revocation after that. */
  lemma SessionLastsUntilRevoked(c: Config, s: State, q: Request, qs: seq<Request>)
    requires TokensOk(s)
    ensures
      var (m, r) := Handle(c, s, q);
      var (s', rs) := Run(c, m, qs);
      Handed(r).Some? ==>
        && r.user < |s'.users|
        && (AuthUser(s', Bearer(r.token, false)) == Some(r.user) <==> Revocations(rs, r.user) == 0)
        && (ApiUser(s', Bearer(r.token, false)).Some? <==> Revocations(rs, r.user) == 0 && s'.users[r.user].active)
  {
    var (m, r) := Handle(c, s, q);
    if Handed(r).Some? {
      HandedIsCurrent(c, s, q);
      HandleKeepsTokensOk(c, s, q);
      AcceptedExactlyUntilRevoked(c, m, qs, r.token);
    }
  }

  lemma HandedIsCurrent(c: Config, s: State, q: Request)
    requires Handed(Handle(c, s, q).1).Some?
    ensures var (m, r) := Handle(c, s, q);
      && r.token < |m.issued| && r.user < |m.users|
      && m.issued[r.token] == Claims(m.users, r.user)
  {
  }

  /** What a token says: a session's names its user, tenant, role and version; a challenge's only
      user and tenant, and what it is for. */
  lemma TokensSay(c: Config, s: State, q: Request)
    ensures
      var (m, r) := Handle(c, s, q);
      && (Handed(r).Some? ==>
            && |m.issued| == |s.issued| + 1 && r.token == |s.issued| && r.user < |m.users|
            && m.issued[r.token] ==
                 Token(r.user, m.users[r.user].tenant, m.users[r.user].role, Some(m.users[r.user].version), None))
      && (r.Challenged? ==>
            && |m.issued| == |s.issued| + 1 && r.token == |s.issued| && r.user < |m.users|
            && m.issued[r.token] == Token(r.user, m.users[r.user].tenant, "", None, Some("mfa_challenge")))
      && (Handed(r).None? && !r.Challenged? ==> m.issued == s.issued)
  {
  }

  /** A challenge authenticates nothing on the routes that check a token's purpose... */
  lemma ChallengeIsNotASession(c: Config, s: State, q: Request, qs: seq<Request>)
    requires TokensOk(s) && Handle(c, s, q).1.Challenged?
    ensures var (m, r) := Handle(c, s, q);
      AuthUser(Run(c, m, qs).0, Bearer(r.token, false)).None?
  {
    var (m, r) := Handle(c, s, q);
    HandleKeepsTokensOk(c, s, q);
    AcceptedExactlyUntilRevoked(c, m, qs, r.token);
  }

  /** ...and on every other route exactly while its user is active and the user's version is
      zero: those do not read the purpose, and a challenge, carrying no version, claims zero. */
  lemma ChallengeElsewhereExactlyWhen(c: Config, s: State, q: Request, qs: seq<Request>)
    requires TokensOk(s) && Handle(c, s, q).1.Challenged?
    ensures
      var (m, r) := Handle(c, s, q);
      var (s', rs) := Run(c, m, qs);
      && r.user < |s.users| && r.user < |s'.users|
      && (ApiUser(s', Bearer(r.token, false)).Some? <==>
            s'.users[r.user].active && s.users[r.user].version == 0 && Revocations(rs, r.user) == 0)
  {
    var (m, r) := Handle(c, s, q);
    HandleKeepsTokensOk(c, s, q);
    AcceptedExactlyUntilRevoked(c, m, qs, r.token);
  }

  /** One administrator with a second factor, who has never been revoked. */
  function ChallengedExample(): State { State([User(0, "a@x", "p", ADMIN, true, true, 0)], [], []) }

  lemma ExampleIsFound(email: string)
    requires email == "a@x"
    ensures ByEmail(ChallengedExample().users, 0, email) == Some(0)
  {
    var users := ChallengedExample().users;
    assert users[..0] == [];
  }

  /** An input on which a challenge acts as a session on those routes. */
  lemma ChallengeActsElsewhere(c: Config)
    requires c.matches("p", "p")
    ensures
      var (m, r) := Handle(c, ChallengedExample(), Login(Some(0), "a@x", "p"));
      r == Challenged(0, 0) && ApiUser(m, Bearer(0, false)) == Some(Actor(0, 0, ADMIN))
  {
    ExampleIsFound("a@x");
  }

  /** And at the second step exactly while its user's factor is on: revocations play no part. */
  lemma ChallengeCompletesExactlyWhen(c: Config, s: State, q: Request, qs: seq<Request>)
    requires TokensOk(s) && Handle(c, s, q).1.Challenged?
    ensures
      var (m, r) := Handle(c, s, q);
      var s' := Run(c, m, qs).0;
      && r.user < |s'.users|
      && (Handle(c, s', MfaVerify(Bearer(r.token, false), true)).1 == SignedIn(r.user, |s'.issued|) <==>
            s'.users[r.user].mfa)
  {
    var (m, r) := Handle(c, s, q);
    HandleKeepsTokensOk(c, s, q);
    assert TokenOk(m, m.issued[r.token]);
    RunGrows(c, m, qs, r.user);
  }

  /** One account with a second factor, revoked three times, and what its password still gets. */
  function RevokedExample(): State {
    State([User(0, "a@x", "p", ADMIN, true, true, 3)], [Token(0, 0, ADMIN, Some(3), None)], [])
  }

  /** An input on which what was issued before a revocation still gets a session after it: the
      password is answered with a challenge, then changed, and the challenge completed. */
  lemma ChallengeOutlivesRevocation(c: Config, hash: string)
    requires c.matches("p", "p")
    ensures
      var s1 := Handle(c, RevokedExample(), Login(Some(0), "a@x", "p"));
      var s2 := Handle(c, s1.0, ChangePassword(Bearer(0, false), "p", hash));
      var s3 := Handle(c, s2.0, MfaVerify(Bearer(1, false), true));
      && s1.1 == Challenged(0, 1) && Revokes(s2.1, 0)
      && s3.1 == SignedIn(0, 3) && AuthUser(s3.0, Bearer(3, false)) == Some(0)
  {
    var users := RevokedExample().users;
    assert users[..0] == [];
    assert ByEmail(users, 0, "a@x") == Some(0);
  }

  /** Once revoked, for ever, where versions are read: whatever was issued before a revocation of
      `u` is refused by both checks, however the run goes on. */
  lemma RevokedForEver(c: Config, s: State, q: Request, qs: seq<Request>, k: nat)
    requires TokensOk(s) && k < |s.issued| && Revokes(Handle(c, s, q).1, s.issued[k].sub)
    ensures var s' := Run(c, Handle(c, s, q).0, qs).0;
      AuthUser(s', Bearer(k, false)).None? && ApiUser(s', Bearer(k, false)).None?
  {
    var (m, r) := Handle(c, s, q);
    HandleGrows(c, s, q);
    HandleKeepsTokensOk(c, s, q);
    assert TokenOk(s, s.issued[k]) && m.issued[k] == s.issued[k];
    AcceptedExactlyUntilRevoked(c, m, qs, k);
  }

  /** A request acts with the role its user was last given, not the one in its token. */
  lemma ActsWithLastRole(c: Config, s: State, qs: seq<Request>, k: nat)
    requires TokensOk(s) && k < |s.issued|
    ensures
      var t := s.issued[k];
      var (s', rs) := Run(c, s, qs);
      ApiUser(s', Bearer(k, false)).Some? ==>
        ApiUser(s', Bearer(k, false)).value ==
          Actor(t.sub, s.users[t.sub].tenant, ActingRole(LastRole(s.users[t.sub].role, rs, t.sub)))
  {
    assert TokenOk(s, s.issued[k]);
    RunGrows(c, s, qs, s.issued[k].sub);
  }

  // ---------------------------------------------------------------- who is let in

  ghost predicate AddressesDistinct(users: seq<User>) {
    forall u, v | 0 <= u < v < |users| && users[u].tenant == users[v].tenant :: users[u].email != users[v].email
  }

  /** Rows keep their tenant and address, and an added one has an address its tenant lacks. */
  lemma HandleKeepsAddresses(c: Config, s: State, q: Request)
    requires AddressesDistinct(s.users)
    ensures AddressesDistinct(Handle(c, s, q).0.users)
  {
  }

  /** No two accounts of a tenant ever share an address. */
  lemma {:induction false} RunKeepsAddressesDistinct(c: Config, s: State, qs: seq<Request>)
    requires AddressesDistinct(s.users)
    ensures AddressesDistinct(Run(c, s, qs).0.users)
  {
    if qs != [] {
      RunKeepsAddressesDistinct(c, s, qs[..|qs| - 1]);
      HandleKeepsAddresses(c, Run(c, s, qs[..|qs| - 1]).0, qs[|qs| - 1]);
    }
  }

  predicate Credentials(c: Config, user: User, tenant: Option<nat>, email: string, password: string) {
    tenant == Some(user.tenant) && email == user.email && c.matches(password, user.password)
  }

  lemma FoundByAddress(users: seq<User>, tenant: nat, email: string, u: nat)
    requires AddressesDistinct(users) && u < |users|
    ensures ByEmail(users, tenant, email) == Some(u) <==> users[u].tenant == tenant && users[u].email == email
  {
    var found := ByEmail(users, tenant, email);
  }

  /** Signing in gives account `u` a session exactly for its address and password and without
      a second factor, and a challenge exactly for those with one. */
  lemma SignsInExactlyWhen(c: Config, s: State, tenant: Option<nat>, email: string, password: string, u: nat)
    requires AddressesDistinct(s.users) && u < |s.users|
    ensures
      var r := Handle(c, s, Login(tenant, email, password)).1;
      var proved := Credentials(c, s.users[u], tenant, email, password);
      && (r == SignedIn(u, |s.issued|) <==> proved && !s.users[u].mfa)
      && (r == Challenged(u, |s.issued|) <==> proved && s.users[u].mfa)
  {
    if tenant.Some? { FoundByAddress(s.users, tenant.value, email, u); }
  }

  predicate ChangesPassword(r: Response, u: nat) { r.PasswordChanged? && r.user == u }

  predicate NoPasswordChange(rs: seq<Response>, u: nat) {
    forall j | 0 <= j < |rs| :: !ChangesPassword(rs[j], u)
  }

  lemma HandleKeepsPassword(c: Config, s: State, q: Request, u: nat)
    requires u < |s.users|
    ensures var (s', r) := Handle(c, s, q);
      && u < |s'.users| && s'.users[u].tenant == s.users[u].tenant && s'.users[u].email == s.users[u].email
      && (!ChangesPassword(r, u) ==> s'.users[u].password == s.users[u].password)
  {
  }

  lemma {:induction false} RunKeepsPassword(c: Config, s: State, qs: seq<Request>, u: nat)
    requires u < |s.users| && NoPasswordChange(Run(c, s, qs).1, u)
    ensures var s' := Run(c, s, qs).0;
      && u < |s'.users| && s'.users[u].tenant == s.users[u].tenant
      && s'.users[u].email == s.users[u].email && s'.users[u].password == s.users[u].password
  {
    if qs != [] {
      var (m, rs) := Run(c, s, qs[..|qs| - 1]);
      var (s', r) := Handle(c, m, qs[|qs| - 1]);
      forall j | 0 <= j < |rs| ensures !ChangesPassword(rs[j], u) { assert (rs + [r])[j] == rs[j]; }
      assert (rs + [r])[|rs|] == r;
      RunKeepsPassword(c, s, qs[..|qs| - 1], u);
      HandleKeepsPassword(c, m, qs[|qs| - 1], u);
    }
  }

  /** A password change succeeds exactly with the current password, and from then on, through
      every run without another one, exactly the passwords that fit the new hash are the
      account's. */
  lemma NewPasswordTakesEffect(
      c: Config, s: State, b: Bearer, current: string, hash: string, qs: seq<Request>, password: string)
    requires AuthUser(s, b).Some?
    ensures
      var u := AuthUser(s, b).value;
      var (m, r) := Handle(c, s, ChangePassword(b, current, hash));
      var (s', rs) := Run(c, m, qs);
      && (r.PasswordChanged? <==> c.matches(current, s.users[u].password))
      && (!r.PasswordChanged? ==> m == s)
      && (r.PasswordChanged? && NoPasswordChange(rs, u) ==>
            && u < |s'.users|
            && (Credentials(c, s'.users[u], Some(s.users[u].tenant), s.users[u].email, password) <==>
                  c.matches(password, hash)))
  {
    var u := AuthUser(s, b).value;
    var (m, r) := Handle(c, s, ChangePassword(b, current, hash));
    if r.PasswordChanged? && NoPasswordChange(Run(c, m, qs).1, u) { RunKeepsPassword(c, m, qs, u); }
  }

  // ---------------------------------------------------------------- how an account gets a session

  predicate SecondStep(s: State, b: Bearer, passed: bool, u: nat) {
    && passed && !b.expired && b.token < |s.issued|
    && s.issued[b.token].sub == u && s.issued[b.token].purpose == Some(PURPOSE_MFA_CHALLENGE)
  }

  /** The ways to a session without one: registering the account; while its factor is off,
      login; while it is on, the second step; and always the form-encoded token endpoint, which
      asks for no second step. */
  predicate FirstWayIn(c: Config, s: State, q: Request, u: nat) {
    match q
    case Register(tenant, email, _) =>
      u == |s.users| && c.selfRegistration && tenant.Some? && ByEmail(s.users, tenant.value, email).None?
    case Login(tenant, email, password) =>
      u < |s.users| && !s.users[u].mfa && Credentials(c, s.users[u], tenant, email, password)
    case MfaVerify(b, passed) => u < |s.users| && s.users[u].mfa && SecondStep(s, b, passed, u)
    case PasswordGrant(tenant, email, password) =>
      u < |s.users| && Credentials(c, s.users[u], tenant, email, password)
    case _ => false
  }

  /** All the ways: those, and a refresh or a password change from a session. */
  predicate WaysIn(c: Config, s: State, q: Request, u: nat) {
    match q
    case Refresh(b) => AuthUser(s, b) == Some(u)
    case ChangePassword(b, current, _) => AuthUser(s, b) == Some(u) && c.matches(current, s.users[u].password)
    case _ => FirstWayIn(c, s, q, u)
  }

  predicate Hands(r: Response, u: nat) { Handed(r).Some? && r.user == u }

  lemma HandsExactlyWhen(c: Config, s: State, q: Request, u: nat)
    requires TokensOk(s) && AddressesDistinct(s.users)
    ensures Hands(Handle(c, s, q).1, u) <==> WaysIn(c, s, q, u)
  {
    match q
    case MfaVerify(b, passed) => if b.token < |s.issued| { assert TokenOk(s, s.issued[b.token]); }
    case PasswordGrant(tenant, email, _) =>
      if tenant.Some? && u < |s.users| { FoundByAddress(s.users, tenant.value, email, u); }
    case Login(tenant, email, _) =>
      if tenant.Some? && u < |s.users| { FoundByAddress(s.users, tenant.value, email, u); }
    case _ =>
  }

  /** After any run, a request hands an account a session exactly in one of those ways. */
  lemma SessionExactlyWhen(c: Config, s: State, qs: seq<Request>, q: Request, u: nat)
    requires TokensOk(s) && AddressesDistinct(s.users)
    ensures var m := Run(c, s, qs).0; Hands(Handle(c, m, q).1, u) <==> WaysIn(c, m, q, u)
  {
    RunKeepsTokensOk(c, s, qs);
    RunKeepsAddressesDistinct(c, s, qs);
    HandsExactlyWhen(c, Run(c, s, qs).0, q, u);
  }

  /** The way in that no second step guards: the token endpoint. */
  lemma GrantAsksNoSecondStep(c: Config)
    requires c.matches("p", "p")
    ensures
      var s := ChallengedExample();
      && s.users[0].mfa
      && Handle(c, s, Login(Some(0), "a@x", "p")).1 == Challenged(0, 0)
      && Handle(c, s, PasswordGrant(Some(0), "a@x", "p")).1 == SignedIn(0, 0)
  {
    ExampleIsFound("a@x");
  }

  /** No token that can authenticate where purposes are tested has been issued to `u`. */
  ghost predicate NoSession(s: State, u: nat) {
    forall k | 0 <= k < |s.issued| && s.issued[k].sub == u :: !ForRequests(s.issued[k])
  }

  /** A token that can authenticate where purposes are tested is issued only by being handed over. */
  lemma OnlyHandedAuthenticate(c: Config, s: State, q: Request)
    ensures var (s', r) := Handle(c, s, q);
      && s.issued <= s'.issued
      && forall k | |s.issued| <= k < |s'.issued| && ForRequests(s'.issued[k]) :: Hands(r, s'.issued[k].sub)
  {
  }

  lemma NoOtherWayIn(c: Config, s: State, q: Request, u: nat)
    requires NoSession(s, u)
    ensures WaysIn(c, s, q, u) <==> FirstWayIn(c, s, q, u)
  {
  }

  lemma HandedIsSession(c: Config, s: State, q: Request, u: nat)
    requires Hands(Handle(c, s, q).1, u)
    ensures !NoSession(Handle(c, s, q).0, u)
  {
    var (s', r) := Handle(c, s, q);
    HandedIsCurrent(c, s, q);
    assert s'.issued[r.token].sub == u && ForRequests(s'.issued[r.token]);
  }

  lemma FirstSessionExactlyWhen(c: Config, s: State, q: Request, u: nat)
    requires TokensOk(s) && AddressesDistinct(s.users) && NoSession(s, u)
    ensures NoSession(Handle(c, s, q).0, u) <==> !FirstWayIn(c, s, q, u)
  {
    NoOtherWayIn(c, s, q, u);
    HandsExactlyWhen(c, s, q, u);
    OnlyHandedAuthenticate(c, s, q);
    if Hands(Handle(c, s, q).1, u) { HandedIsSession(c, s, q, u); }
  }

  lemma SessionsStay(c: Config, s: State, q: Request, u: nat)
    requires !NoSession(s, u)
    ensures !NoSession(Handle(c, s, q).0, u)
  {
    var k :| 0 <= k < |s.issued| && s.issued[k].sub == u && ForRequests(s.issued[k]);
    OnlyHandedAuthenticate(c, s, q);
    assert Handle(c, s, q).0.issued[k] == s.issued[k];
  }

  /** The `j`th request is a way to a first session for `u`, in the state the run has reached. */
  ghost predicate FirstWayInAt(c: Config, s: State, qs: seq<Request>, j: nat, u: nat)
    requires j < |qs|
  {
    FirstWayIn(c, Run(c, s, qs[..j]).0, qs[j], u)
  }

  ghost predicate NoWayInTaken(c: Config, s: State, qs: seq<Request>, u: nat) {
    forall j | 0 <= j < |qs| :: !FirstWayInAt(c, s, qs, j, u)
  }

  lemma OneMoreRequest(c: Config, s: State, qs: seq<Request>, u: nat)
    requires qs != []
    ensures NoWayInTaken(c, s, qs, u) <==>
      NoWayInTaken(c, s, qs[..|qs| - 1], u) && !FirstWayInAt(c, s, qs, |qs| - 1, u)
  {
    var init := qs[..|qs| - 1];
    forall j | 0 <= j < |init| ensures FirstWayInAt(c, s, init, j, u) <==> FirstWayInAt(c, s, qs, j, u) {
      assert init[..j] == qs[..j] && init[j] == qs[j];
    }
  }

  /** Whatever the other accounts do, an account without a session, or yet to be made, gets one in
      a run exactly if some request registers it, logs it in while its factor is off, passes its
      own second step, or gives the token endpoint its own credentials; and until then no token
      authenticates as it. */
  lemma {:induction false} NoSessionExactlyWhen(c: Config, s: State, qs: seq<Request>, u: nat)
    requires TokensOk(s) && AddressesDistinct(s.users) && NoSession(s, u)
    ensures var s' := Run(c, s, qs).0;
      && (NoSession(s', u) <==> NoWayInTaken(c, s, qs, u))
      && (NoWayInTaken(c, s, qs, u) ==> forall b :: AuthUser(s', b) != Some(u))
  {
    if qs != [] {
      var init, q := qs[..|qs| - 1], qs[|qs| - 1];
      NoSessionExactlyWhen(c, s, init, u);
      OneMoreRequest(c, s, qs, u);
      var m := Run(c, s, init).0;
      RunKeepsTokensOk(c, s, init);
      RunKeepsAddressesDistinct(c, s, init);
      if NoSession(m, u) { FirstSessionExactlyWhen(c, m, q, u); } else { SessionsStay(c, m, q, u); }
    }
  }

  /** An administrator, or an account whose role the table lets manage users; no role counts as
      `user`. */
  predicate ManagesUsers(c: Config, user: User) {
    var role := Lower(Strip(if user.role == "" then "user" else user.role));
    role == "admin" || (role in c.permissions && "users.manage" in c.permissions[role])
  }

  /** An account is created exactly by an active caller who may manage users, with a valid role
      and an address the tenant lacks; it belongs to the caller's tenant. */
  lemma CreatesExactlyWhen(c: Config, s: State, b: Bearer, email: string, chosen: Option<string>, hash: string)
    ensures
      var (s', r) := Handle(c, s, CreateUser(b, email, chosen, hash));
      var role := Lower(if chosen.Some? && chosen.value != "" then chosen.value else DEFAULT_ROLE);
      && (r == Created(|s.users|) <==>
            && ApiUser(s, b).Some?
            && ManagesUsers(c, s.users[ApiUser(s, b).value.id])
            && role in c.roles
            && forall u | 0 <= u < |s.users| && s.users[u].tenant == ApiUser(s, b).value.tenant ::
              s.users[u].email != Lower(Strip(email)))
      && (r.Created? ==>
            && r.user == |s.users| && s'.users[..|s.users|] == s.users && |s'.users| == |s.users| + 1
            && IsNew(s'.users[r.user], ApiUser(s, b).value.tenant, Lower(Strip(email)), hash, role))
      && (!r.Created? ==> s' == s)
  {
  }

  /** A row as a new account has it: the given password, active, no second factor, nothing revoked. */
  predicate IsNew(user: User, tenant: nat, email: string, hash: string, role: string) {
    && user.tenant == tenant && user.email == email && user.password == hash && user.role == role
    && user.active && !user.mfa && user.version == 0
  }

  /** Registering makes a clerk's account exactly where it is switched on, for a tenant there is
      and an address it lacks, and signs it in. */
  lemma RegistersExactlyWhen(c: Config, s: State, tenant: Option<nat>, email: string, hash: string)
    ensures
      var (s', r) := Handle(c, s, Register(tenant, email, hash));
      && (r == SignedIn(|s.users|, |s.issued|) <==>
            && c.selfRegistration && tenant.Some?
            && forall u | 0 <= u < |s.users| && s.users[u].tenant == tenant.value :: s.users[u].email != email)
      && (r.SignedIn? ==>
            && s'.users[..|s.users|] == s.users && |s'.users| == |s.users| + 1
            && IsNew(s'.users[|s.users|], tenant.value, email, hash, DEFAULT_ROLE))
      && (!r.SignedIn? ==> s' == s)
  {
  }

  /** The account a response says was made, with the address it was given. */
  function NewAccount(q: Request, r: Response): Option<(nat, string, string)> {
    match q
    case CreateUser(_, email, _, hash) => if r.Created? then Some((r.user, Lower(Strip(email)), hash)) else None
    case Register(_, email, hash) => if r.SignedIn? then Some((r.user, email, hash)) else None
    case _ => None
  }

  /** From then on, through every run until its next password change, exactly the passwords that
      fit the hash it was made with are the new account's. */
  lemma NewAccountHasItsPassword(c: Config, s: State, q: Request, qs: seq<Request>, password: string)
    ensures
      var (m, r) := Handle(c, s, q);
      var (s', rs) := Run(c, m, qs);
      NewAccount(q, r).Some? ==>
        var (u, address, hash) := NewAccount(q, r).value;
        u == |s.users| && u < |m.users| &&
        (NoPasswordChange(rs, u) ==>
           && u < |s'.users|
           && (Credentials(c, s'.users[u], Some(m.users[u].tenant), address, password) <==> c.matches(password, hash)))
  {
    var (m, r) := Handle(c, s, q);
    if NewAccount(q, r).Some? {
      match q {
        case CreateUser(b, email, chosen, hash) => CreatesExactlyWhen(c, s, b, email, chosen, hash);
        case Register(tenant, email, hash) => RegistersExactlyWhen(c, s, tenant, email, hash);
      }
      var u := NewAccount(q, r).value.0;
      if NoPasswordChange(Run(c, m, qs).1, u) { RunKeepsPassword(c, m, qs, u); }
    }
  }

  // ---------------------------------------------------------------- administrators

  ghost predicate HasAdmin(users: seq<User>, tenant: nat) {
    exists u | 0 <= u < |users| :: users[u].tenant == tenant && users[u].role == "admin" && users[u].active
  }

  ghost predicate HasOtherAdmin(users: seq<User>, tenant: nat, but: nat) {
    exists u | 0 <= u < |users| :: u != but && users[u].tenant == tenant && users[u].role == "admin" && users[u].active
  }

  /** Exactly when a role changes: an active caller who may manage users gives another user of
      the same tenant a different role from the list, and an administrator's only while
      another active one remains. */
  lemma RoleChangesExactlyWhen(c: Config, s: State, b: Bearer, target: nat, role: string)
    ensures
      var wanted := Lower(Strip(role));
      Handle(c, s, SetUserRole(b, target, role)).1 == RoleChanged(target, wanted) <==>
        && ApiUser(s, b).Some?
        && ManagesUsers(c, s.users[ApiUser(s, b).value.id])
        && wanted in c.roles
        && target != ApiUser(s, b).value.id
        && target < |s.users| && s.users[target].tenant == ApiUser(s, b).value.tenant
        && Lower(s.users[target].role) != wanted
        && (Lower(s.users[target].role) == ADMIN ==> HasOtherAdmin(s.users, s.users[target].tenant, target))
  {
    if ApiUser(s, b).Some? {
      assert CountAdmins(s.users, ApiUser(s, b).value.tenant, target, |s.users|) > 0 <==>
        HasOtherAdmin(s.users, ApiUser(s, b).value.tenant, target);
    }
  }

  /** What a refusal is answered with: that the caller is not known or the credentials are wrong
      (401), that something is not allowed (403), that there is no such user (404), or that the
      request is no good (400). */
  function StatusFor(c: Config, s: State, q: Request): nat {
    match q
    case Register(_, _, _) => if c.selfRegistration then 400 else 403
    case PasswordGrant(tenant, _, _) => if tenant.None? then 400 else 401
    case Login(tenant, _, _) => if tenant.None? then 400 else 401
    case MfaVerify(b, passed) => if Stale(s, b) then 400 else 401
    case CreateUser(b, _, _, _) =>
      if ApiUser(s, b).None? then 401 else if !ManagesUsers(c, s.users[ApiUser(s, b).value.id]) then 403 else 400
    case SetUserRole(b, target, role) =>
      if ApiUser(s, b).None? then 401
      else if !ManagesUsers(c, s.users[ApiUser(s, b).value.id]) then 403
      else if Lower(Strip(role)) in c.roles && NotInTenant(s.users, target, ApiUser(s, b).value.tenant) then 404
      else 400
    case _ => 401
  }

  predicate NotInTenant(users: seq<User>, u: nat, tenant: nat) { u >= |users| || users[u].tenant != tenant }

  lemma RefusalSays(c: Config, s: State, q: Request)
    ensures var r := Handle(c, s, q).1; r.Refused? ==> r.status == StatusFor(c, s, q)
  {
  }

  /** A challenge of a user whose factor has been turned off since. */
  predicate Stale(s: State, b: Bearer) {
    && !b.expired && b.token < |s.issued| && s.issued[b.token].purpose == Some("mfa_challenge")
    && s.issued[b.token].sub < |s.users| && s.users[s.issued[b.token].sub].tenant == s.issued[b.token].tenant
    && !s.users[s.issued[b.token].sub].mfa
  }

  /** Activating, deactivating and the factor's flag change that and nothing else. */
  lemma SwitchesTakeEffect(c: Config, s: State, u: nat, on: bool)
    requires u < |s.users|
    ensures Handle(c, s, SetActive(u, on)).0 == s.(users := s.users[..u] + [s.users[u].(active := on)] + s.users[u + 1..])
    ensures Handle(c, s, SetMfa(u, on)).0 == s.(users := s.users[..u] + [s.users[u].(mfa := on)] + s.users[u + 1..])
  {
  }

  /** Requests the application itself offers; nothing in it deactivates an account. */
  predicate Offered(q: Request) { !q.SetActive? }

  lemma HandleKeepsAdmin(c: Config, s: State, q: Request, tenant: nat)
    requires Offered(q) && HasAdmin(s.users, tenant)
    ensures HasAdmin(Handle(c, s, q).0.users, tenant)
  {
    if q.SetUserRole? {
      SetUserRoleKeepsAdmin(c, s, q.b, q.target, q.role, tenant);
    } else {
      var u :| 0 <= u < |s.users| && s.users[u].tenant == tenant && s.users[u].role == "admin" && s.users[u].active;
      assert Handle(c, s, q).0.users[u].active;
    }
  }

  lemma SetUserRoleKeepsAdmin(c: Config, s: State, b: Bearer, target: nat, role: string, tenant: nat)
    requires HasAdmin(s.users, tenant)
    ensures HasAdmin(HandleSetUserRole(c, s, b, target, role).0.users, tenant)
  {
    var (s', r) := HandleSetUserRole(c, s, b, target, role);
    var u :| 0 <= u < |s.users| && s.users[u].tenant == tenant && s.users[u].role == "admin" && s.users[u].active;
    if r.RoleChanged? && target == u {
      LowerAdmin();
      var other :| 0 <= other < |s.users| && other != u &&
        s.users[other].tenant == tenant && s.users[other].role == "admin" && s.users[other].active;
      assert s'.users[other] == s.users[other];
    } else {
      assert s'.users[u].active && s'.users[u].tenant == tenant;
    }
  }

  lemma LowerAdmin()
    ensures Lower(ADMIN) == ADMIN
  {
  }

  /** No lockout: a tenant with an active administrator keeps one through every run. */
  lemma {:induction false} NoLockout(c: Config, s: State, qs: seq<Request>, tenant: nat)
    requires forall j | 0 <= j < |qs| :: Offered(qs[j])
    requires HasAdmin(s.users, tenant)
    ensures HasAdmin(Run(c, s, qs).0.users, tenant)
  {
    if qs != [] {
      NoLockout(c, s, qs[..|qs| - 1], tenant);
      HandleKeepsAdmin(c, Run(c, s, qs[..|qs| - 1]).0, qs[|qs| - 1], tenant);
    }
  }

  /** The role the trail says `u` has, starting from `role`. */
  function RoleTold(role: string, notes: seq<Note>, u: nat): string {
    if notes == [] then role
    else
      match notes[|notes| - 1]
      case RoleAssigned(_, v, _, after) => if v == u then after else RoleTold(role, notes[..|notes| - 1], u)
      case UserCreated(_, v, given) => if v == u then given else RoleTold(role, notes[..|notes| - 1], u)
  }

  /** An account's role, or the one it will be registered with. */
  function RoleOf(users: seq<User>, u: nat): string { if u < |users| then users[u].role else DEFAULT_ROLE }

  /** At most one entry more; it tells what happened to `u`'s role, and is about an account that
      is there. */
  predicate TellsNext(s: State, s': State, u: nat) {
    && |s.users| <= |s'.users| && s.trail <= s'.trail && |s'.trail| <= |s.trail| + 1
    && if s'.trail == s.trail then RoleOf(s'.users, u) == RoleOf(s.users, u)
       else
         var n := s'.trail[|s.trail|];
         && RoleOf(s'.users, u) == RoleTold(RoleOf(s.users, u), [n], u)
         && n.user < |s'.users|
         && (n.RoleAssigned? && n.user == u ==> n.before == Lower(RoleOf(s.users, u)) && n.who != u)
  }

  lemma ToldByOne(role: string, n: Note, u: nat)
    ensures RoleTold(role, [n], u) ==
      match n
      case RoleAssigned(_, v, _, after) => if v == u then after else role
      case UserCreated(_, v, given) => if v == u then given else role
  {
    assert [n][..0] == [];
  }

  lemma HandleTellsRole(c: Config, s: State, q: Request, u: nat)
    ensures TellsNext(s, Handle(c, s, q).0, u)
  {
    if q.SetUserRole? {
      SetUserRoleTells(c, s, q.b, q.target, q.role, u);
    } else if q.CreateUser? {
      CreateUserTells(c, s, q.b, q.email, q.chosen, q.hash, u);
    }
  }

  lemma SetUserRoleTells(c: Config, s: State, b: Bearer, target: nat, role: string, u: nat)
    ensures TellsNext(s, HandleSetUserRole(c, s, b, target, role).0, u)
  {
    var s' := HandleSetUserRole(c, s, b, target, role).0;
    if s'.trail != s.trail { ToldByOne(RoleOf(s.users, u), s'.trail[|s.trail|], u); }
  }

  lemma CreateUserTells(c: Config, s: State, b: Bearer, email: string, role: Option<string>, hash: string, u: nat)
    ensures TellsNext(s, HandleCreateUser(c, s, b, email, role, hash).0, u)
  {
    var s' := HandleCreateUser(c, s, b, email, role, hash).0;
    if s'.trail != s.trail { ToldByOne(RoleOf(s.users, u), s'.trail[|s.trail|], u); }
  }

  lemma {:induction false} ToldThen(role: string, notes: seq<Note>, n: Note, u: nat)
    ensures RoleTold(role, notes + [n], u) == RoleTold(RoleTold(role, notes, u), [n], u)
  {
    assert (notes + [n])[..|notes|] == notes && [n][..0] == [];
  }

  /** Over every run the trail alone tells every account's role, of those there were and of those
      made on the way: registered ones start as clerks, created ones as their entry says. */
  lemma {:induction false} TrailTellsRoles(c: Config, s: State, qs: seq<Request>, u: nat)
    ensures var s' := Run(c, s, qs).0;
      && |s.users| <= |s'.users| && s.trail <= s'.trail
      && RoleOf(s'.users, u) == RoleTold(RoleOf(s.users, u), s'.trail[|s.trail|..], u)
  {
    if qs != [] {
      TrailTellsRoles(c, s, qs[..|qs| - 1], u);
      var m := Run(c, s, qs[..|qs| - 1]).0;
      HandleTellsRole(c, m, qs[|qs| - 1], u);
      var s' := Handle(c, m, qs[|qs| - 1]).0;
      var since := m.trail[|s.trail|..];
      if s'.trail != m.trail {
        var n := s'.trail[|m.trail|];
        assert s'.trail == m.trail + [n];
        assert s'.trail[|s.trail|..] == since + [n];
        ToldThen(RoleOf(s.users, u), since, n, u);
      }
    }
  }

  /** Entries that say `u` was created. */
  function CreationNotes(notes: seq<Note>, u: nat): nat {
    if notes == [] then 0
    else
      var n := notes[|notes| - 1];
      CreationNotes(notes[..|notes| - 1], u) + if n.UserCreated? && n.user == u then 1 else 0
  }

  /** Creations of `u` by somebody who manages users, and registrations of `u` by itself. */
  function Creations(rs: seq<Response>, u: nat): nat {
    if rs == [] then 0 else Creations(rs[..|rs| - 1], u) + if rs[|rs| - 1] == Created(u) then 1 else 0
  }

  predicate Registers(q: Request, r: Response, u: nat) { q.Register? && r.SignedIn? && r.user == u }

  function Registrations(qs: seq<Request>, rs: seq<Response>, u: nat): nat
    requires |qs| == |rs|
  {
    if rs == [] then 0
    else
      var n := |rs| - 1;
      Registrations(qs[..n], rs[..n], u) + if Registers(qs[n], rs[n], u) then 1 else 0
  }

  function Added(before: nat, after: nat, u: nat): nat { if before <= u < after then 1 else 0 }

  function CreatedBy(r: Response, u: nat): nat { if r == Created(u) then 1 else 0 }

  function RegisteredBy(q: Request, r: Response, u: nat): nat { if Registers(q, r, u) then 1 else 0 }

  /** One request makes at most the next account, and its entry, if any, says which. */
  predicate MakesAccounts(s: State, s': State, q: Request, r: Response, u: nat) {
    && |s.users| <= |s'.users|
    && CreatedBy(r, u) + RegisteredBy(q, r, u) == Added(|s.users|, |s'.users|, u)
    && s.trail <= s'.trail && |s'.trail| <= |s.trail| + 1
    && (r == Created(u) <==> s'.trail != s.trail && s'.trail[|s.trail|].UserCreated? && s'.trail[|s.trail|].user == u)
  }

  lemma HandleMakesAccounts(c: Config, s: State, q: Request, u: nat)
    ensures var (s', r) := Handle(c, s, q); MakesAccounts(s, s', q, r, u)
  {
    HandleTellsRole(c, s, q, u);
  }

  lemma CreationNotesNext(s: State, s': State, q: Request, r: Response, u: nat, from: nat)
    requires from <= |s.trail| && MakesAccounts(s, s', q, r, u)
    ensures CreationNotes(s'.trail[from..], u) == CreationNotes(s.trail[from..], u) + CreatedBy(r, u)
  {
    if s'.trail != s.trail {
      var notes := s.trail[from..];
      assert s'.trail[from..] == notes + [s'.trail[|s.trail|]];
      assert s'.trail[from..][..|notes|] == notes;
    }
  }

  lemma MakingCounts(qs: seq<Request>, rs: seq<Response>, r: Response, u: nat)
    requires |qs| == |rs| + 1
    ensures Creations(rs + [r], u) == Creations(rs, u) + CreatedBy(r, u)
    ensures Registrations(qs, rs + [r], u) == Registrations(qs[..|rs|], rs, u) + RegisteredBy(qs[|rs|], r, u)
  {
    assert (rs + [r])[..|rs|] == rs;
  }

  /** Every account a run adds is made once, and has an entry saying so exactly when somebody who
      manages users created it: registering writes none. */
  lemma {:induction false} CreationIsRecordedExactlyWhen(c: Config, s: State, qs: seq<Request>, u: nat)
    ensures
      var (s', rs) := Run(c, s, qs);
      && |rs| == |qs| && |s.users| <= |s'.users| && s.trail <= s'.trail
      && CreationNotes(s'.trail[|s.trail|..], u) == Creations(rs, u)
      && Creations(rs, u) + Registrations(qs, rs, u) == Added(|s.users|, |s'.users|, u)
  {
    if qs != [] {
      var init, q := qs[..|qs| - 1], qs[|qs| - 1];
      CreationIsRecordedExactlyWhen(c, s, init, u);
      var (m, rs) := Run(c, s, init);
      var (s', r) := Handle(c, m, q);
      HandleMakesAccounts(c, m, q, u);
      CreationNotesNext(m, s', q, r, u, |s.trail|);
      MakingCounts(qs, rs, r, u);
    }
  }

  // ---------------------------------------------------------------- whose rows a request touches

  /** The tenant a request speaks for, if it gets as far as speaking for one. */
  function SpeaksFor(s: State, q: Request): Option<nat> {
    match q
    case Register(tenant, _, _) => tenant
    case PasswordGrant(tenant, _, _) => tenant
    case Login(tenant, _, _) => tenant
    case SetActive(u, _) => if u < |s.users| then Some(s.users[u].tenant) else None
    case SetMfa(u, _) => if u < |s.users| then Some(s.users[u].tenant) else None
    case _ => if Decode(s, q.b).Some? then Some(Decode(s, q.b).value.tenant) else None
  }

  ghost predicate NoneSpeakFor(c: Config, s: State, qs: seq<Request>, tenant: nat) {
    forall j | 0 <= j < |qs| :: SpeaksFor(Run(c, s, qs[..j]).0, qs[j]) != Some(tenant)
  }

  /** The tenant's users in `before` are all there in `after`, unchanged, and no more of them. */
  ghost predicate SameUsers(before: seq<User>, after: seq<User>, tenant: nat) {
    && |before| <= |after|
    && (forall u | 0 <= u < |before| && before[u].tenant == tenant :: after[u] == before[u])
    && (forall u | 0 <= u < |after| && after[u].tenant == tenant :: u < |before| && before[u] == after[u])
  }

  lemma OthersKeepUsers(c: Config, s: State, q: Request, tenant: nat)
    requires TokensOk(s) && SpeaksFor(s, q) != Some(tenant)
    ensures SameUsers(s.users, Handle(c, s, q).0.users, tenant)
  {
    if q.Refresh? || q.Logout? || q.ChangePassword? || q.CreateUser? || q.SetUserRole? || q.MfaVerify? {
      if Decode(s, q.b).Some? { assert TokenOk(s, s.issued[q.b.token]); }
    }
  }

  /** A tenant's users are untouched by any run of requests none of which speaks for it. */
  lemma {:induction false} OtherTenantsUntouched(c: Config, s: State, qs: seq<Request>, tenant: nat)
    requires TokensOk(s) && NoneSpeakFor(c, s, qs, tenant)
    ensures SameUsers(s.users, Run(c, s, qs).0.users, tenant)
  {
    if qs != [] {
      var init := qs[..|qs| - 1];
      forall j | 0 <= j < |init| ensures SpeaksFor(Run(c, s, init[..j]).0, init[j]) != Some(tenant) {
        assert init[..j] == qs[..j];
      }
      OtherTenantsUntouched(c, s, init, tenant);
      RunKeepsTokensOk(c, s, init);
      OthersKeepUsers(c, Run(c, s, init).0, qs[|qs| - 1], tenant);
    }
  }
}
