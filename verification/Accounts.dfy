/** Sign-in, token revocation and role changes: the user rows, the tokens issued so far, and
    what each endpoint does to both. */
module Accounts {
  import opened Text
  import opened Wrappers

  /** A user's id is its position in the table; users are never deleted. */
  datatype User = User(
    tenant: nat, email: string, password: string, role: string, active: bool, mfa: bool, version: nat)

  /** The claims of a signed token. A challenge carries a purpose and no version. */
  datatype Token = Token(sub: nat, tenant: nat, role: string, version: Option<nat>, purpose: Option<string>)

  const PURPOSE_ACCESS := "access"
  const PURPOSE_MFA_CHALLENGE := "mfa_challenge"

  const ADMIN := "admin"
  const DEFAULT_ROLE := "ap_clerk"
  const MANAGE_USERS := "users.manage"

  /** What the deployment fixes: password checking, the role list and the permission table. */
  datatype Config = Config(
    matches: (string, string) -> bool, roles: set<string>, permissions: map<string, set<string>>, selfRegistration: bool)

  /** What the audit trail says about accounts. */
  datatype Note =
    | UserCreated(who: nat, user: nat, role: string)
    | RoleAssigned(who: nat, user: nat, before: string, after: string)

  datatype State = State(users: seq<User>, issued: seq<Token>, trail: seq<Note>)

  /** A presented token: only what was issued decodes, and only until it expires. */
  datatype Bearer = Bearer(token: nat, expired: bool)

  /** The identity a request runs as. */
  datatype Actor = Actor(id: nat, tenant: nat, role: string)

  datatype Response =
    | Refused(status: nat)
    | SignedIn(user: nat, token: nat)
    | Challenged(user: nat, token: nat)
    | LoggedOut(user: nat)
    | PasswordChanged(user: nat, token: nat)
    | RoleChanged(user: nat, role: string)
    | RoleKept(user: nat)
    | Created(user: nat)
    | Noted

  // ---------------------------------------------------------------- reading a token

  function Find(users: seq<User>, id: nat, tenant: nat): (r: Option<nat>)
    ensures r.Some? <==> id < |users| && users[id].tenant == tenant
    ensures r.Some? ==> r.value == id
  {
    if id < |users| && users[id].tenant == tenant then Some(id) else None
  }

  /** `payload.get("token_version", 0)` */
  function ClaimedVersion(t: Token): nat { if t.version.Some? then t.version.value else 0 }

  function Claims(users: seq<User>, u: nat): Token
    requires u < |users|
  {
    Token(u, users[u].tenant, users[u].role, Some(users[u].version), None)
  }

  function Challenge(users: seq<User>, u: nat): Token
    requires u < |users|
  {
    Token(u, users[u].tenant, "", None, Some(PURPOSE_MFA_CHALLENGE))
  }

  function Decode(s: State, b: Bearer): Option<Token> {
    if b.expired || b.token >= |s.issued| then None else Some(s.issued[b.token])
  }

  predicate ForRequests(t: Token) { t.purpose == None || t.purpose == Some(PURPOSE_ACCESS) }

  /** `get_current_user` of the authentication routes. */
  function AuthUser(s: State, b: Bearer): (r: Option<nat>)
    ensures r.Some? ==> r.value < |s.users|
  {
    match Decode(s, b)
    case None => None
    case Some(t) =>
      if !ForRequests(t) then None
      else
        var found := Find(s.users, t.sub, t.tenant);
        if found.None? || ClaimedVersion(t) != s.users[t.sub].version then None else found
  }

  /** `get_current_user` of every other route: the identity comes from the live row. */
  function ApiUser(s: State, b: Bearer): (r: Option<Actor>)
    ensures r.Some? ==> r.value.id < |s.users|
  {
    match Decode(s, b)
    case None => None
    case Some(t) =>
      var found := Find(s.users, t.sub, t.tenant);
      if found.None? || !s.users[t.sub].active then None
      else if ClaimedVersion(t) != s.users[t.sub].version then None
      else Some(Actor(t.sub, s.users[t.sub].tenant, ActingRole(s.users[t.sub].role)))
  }

  /** `role or "user"` */
  function ActingRole(role: string): string { if role == "" then "user" else role }

  /** `query(User).filter(tenant, email).first()` */
  function ByEmail(users: seq<User>, tenant: nat, email: string): (r: Option<nat>)
    ensures r.Some? ==> r.value < |users| && users[r.value].tenant == tenant && users[r.value].email == email
    ensures r.None? ==> forall u | 0 <= u < |users| :: users[u].tenant != tenant || users[u].email != email
  {
    if users == [] then None
    else
      var earlier := ByEmail(users[..|users| - 1], tenant, email);
      var last := users[|users| - 1];
      if earlier.Some? then earlier
      else if last.tenant == tenant && last.email == email then Some(|users| - 1) else None
  }

  // ---------------------------------------------------------------- permissions

  function NormaliseRole(role: string): string { Lower(Strip(role)) }

  predicate HasPermission(c: Config, role: string, permission: string) {
    var r := NormaliseRole(role);
    r == ADMIN || (r in c.permissions && permission in c.permissions[r])
  }

  predicate IsActiveAdmin(user: User, tenant: nat) {
    user.tenant == tenant && user.role == ADMIN && user.active
  }

  /** Active administrators of the tenant among the first `n`, leaving `but` out. */
  function CountAdmins(users: seq<User>, tenant: nat, but: nat, n: nat): (k: nat)
    requires n <= |users|
    ensures k > 0 <==>
      exists u | 0 <= u < n :: u != but && users[u].tenant == tenant && users[u].role == "admin" && users[u].active
  {
    if n == 0 then 0
    else
      CountAdmins(users, tenant, but, n - 1) +
        if n - 1 != but && IsActiveAdmin(users[n - 1], tenant) then 1 else 0
  }

  // ---------------------------------------------------------------- the writes

  function Issue(s: State, t: Token): State { s.(issued := s.issued + [t]) }

  function Bump(s: State, u: nat): State
    requires u < |s.users|
  {
    s.(users := s.users[u := s.users[u].(version := s.users[u].version + 1)])
  }

  function SetPassword(s: State, u: nat, password: string): State
    requires u < |s.users|
  {
    s.(users := s.users[u := s.users[u].(password := password)])
  }

  function SetRole(s: State, u: nat, role: string): State
    requires u < |s.users|
  {
    s.(users := s.users[u := s.users[u].(role := role)])
  }

  function Log(s: State, note: Note): State { s.(trail := s.trail + [note]) }

  function AddUser(s: State, user: User): State { s.(users := s.users + [user]) }

  // ---------------------------------------------------------------- the endpoints

  /** `hash` is whatever the salted hash of the new password came out as; `passed` is whether
      the second factor's own check accepted the code. */
  datatype Request =
    | Register(tenant: Option<nat>, email: string, hash: string)
    | PasswordGrant(tenant: Option<nat>, email: string, password: string)
    | Login(tenant: Option<nat>, email: string, password: string)
    | MfaVerify(b: Bearer, passed: bool)
    | Refresh(b: Bearer)
    | Logout(b: Bearer)
    | ChangePassword(b: Bearer, current: string, hash: string)
    | CreateUser(b: Bearer, email: string, chosen: Option<string>, hash: string)
    | SetUserRole(b: Bearer, target: nat, role: string)
    | SetActive(u: nat, active: bool)
    | SetMfa(u: nat, mfa: bool)

  function Handle(c: Config, s: State, q: Request): (State, Response) {
    match q
    case Register(tenant, email, hash) => HandleRegister(c, s, tenant, email, hash)
    case PasswordGrant(tenant, email, password) => HandleGrant(c, s, tenant, email, password)
    case Login(tenant, email, password) => HandleLogin(c, s, tenant, email, password)
    case MfaVerify(b, passed) => HandleMfaVerify(s, b, passed)
    case Refresh(b) => HandleRefresh(s, b)
    case Logout(b) => HandleLogout(s, b)
    case ChangePassword(b, current, hash) => HandleChangePassword(c, s, b, current, hash)
    case CreateUser(b, email, role, hash) => HandleCreateUser(c, s, b, email, role, hash)
    case SetUserRole(b, target, role) => HandleSetUserRole(c, s, b, target, role)
    case SetActive(u, active) =>
      if u < |s.users| then (s.(users := s.users[u := s.users[u].(active := active)]), Noted) else (s, Noted)
    case SetMfa(u, mfa) =>
      if u < |s.users| then (s.(users := s.users[u := s.users[u].(mfa := mfa)]), Noted) else (s, Noted)
  }

  function SignIn(s: State, u: nat): (State, Response)
    requires u < |s.users|
  {
    (Issue(s, Claims(s.users, u)), SignedIn(u, |s.issued|))
  }

  function HandleRegister(c: Config, s: State, tenant: Option<nat>, email: string, hash: string): (State, Response) {
    if !c.selfRegistration then (s, Refused(403))
    else if tenant.None? || ByEmail(s.users, tenant.value, email).Some? then (s, Refused(400))
    else SignIn(AddUser(s, User(tenant.value, email, hash, DEFAULT_ROLE, true, false, 0)), |s.users|)
  }

  function HandleGrant(c: Config, s: State, tenant: Option<nat>, email: string, password: string): (State, Response) {
    if tenant.None? then (s, Refused(400))
    else
      match ByEmail(s.users, tenant.value, email)
      case None => (s, Refused(401))
      case Some(u) => if !c.matches(password, s.users[u].password) then (s, Refused(401)) else SignIn(s, u)
  }

  function HandleLogin(c: Config, s: State, tenant: Option<nat>, email: string, password: string): (State, Response) {
    if tenant.None? then (s, Refused(400))
    else
      match ByEmail(s.users, tenant.value, email)
      case None => (s, Refused(401))
      case Some(u) =>
        if !c.matches(password, s.users[u].password) then (s, Refused(401))
        else if s.users[u].mfa then (Issue(s, Challenge(s.users, u)), Challenged(u, |s.issued|))
        else SignIn(s, u)
  }

  function HandleMfaVerify(s: State, b: Bearer, passed: bool): (State, Response) {
    match Decode(s, b)
    case None => (s, Refused(401))
    case Some(t) =>
      if t.purpose != Some(PURPOSE_MFA_CHALLENGE) || Find(s.users, t.sub, t.tenant).None? then (s, Refused(401))
      else if !s.users[t.sub].mfa then (s, Refused(400))
      else if !passed then (s, Refused(401))
      else SignIn(s, t.sub)
  }

  function HandleRefresh(s: State, b: Bearer): (State, Response) {
    match AuthUser(s, b)
    case None => (s, Refused(401))
    case Some(u) => SignIn(s, u)
  }

  function HandleLogout(s: State, b: Bearer): (State, Response) {
    match AuthUser(s, b)
    case None => (s, Refused(401))
    case Some(u) => (Bump(s, u), LoggedOut(u))
  }

  function HandleChangePassword(c: Config, s: State, b: Bearer, current: string, hash: string): (State, Response) {
    match AuthUser(s, b)
    case None => (s, Refused(401))
    case Some(u) =>
      if !c.matches(current, s.users[u].password) then (s, Refused(401))
      else
        var s' := Bump(SetPassword(s, u, hash), u);
        (Issue(s', Claims(s'.users, u)), PasswordChanged(u, |s.issued|))
  }

  function HandleCreateUser(c: Config, s: State, b: Bearer, email: string, role: Option<string>, hash: string):
    (State, Response)
  {
    match ApiUser(s, b)
    case None => (s, Refused(401))
    case Some(actor) =>
      var wanted := Lower(if role.Some? && role.value != "" then role.value else DEFAULT_ROLE);
      if !HasPermission(c, actor.role, MANAGE_USERS) then (s, Refused(403))
      else if wanted !in c.roles then (s, Refused(400))
      else if ByEmail(s.users, actor.tenant, Lower(Strip(email))).Some? then (s, Refused(400))
      else
        var added := AddUser(s, User(actor.tenant, Lower(Strip(email)), hash, wanted, true, false, 0));
        (Log(added, UserCreated(actor.id, |s.users|, wanted)), Created(|s.users|))
  }

  function HandleSetUserRole(c: Config, s: State, b: Bearer, target: nat, role: string): (State, Response) {
    match ApiUser(s, b)
    case None => (s, Refused(401))
    case Some(actor) =>
      var wanted := NormaliseRole(role);
      if !HasPermission(c, actor.role, MANAGE_USERS) then (s, Refused(403))
      else if wanted !in c.roles || target == actor.id then (s, Refused(400))
      else if Find(s.users, target, actor.tenant).None? then (s, Refused(404))
      else if Lower(s.users[target].role) == wanted then (s, RoleKept(target))
      else if Lower(s.users[target].role) == ADMIN && CountAdmins(s.users, actor.tenant, target, |s.users|) == 0
      then (s, Refused(400))
      else
        var changed := Bump(SetRole(s, target, wanted), target);
        (Log(changed, RoleAssigned(actor.id, target, Lower(s.users[target].role), wanted)), RoleChanged(target, wanted))
  }

  // ---------------------------------------------------------------- the routes, in place

  /** The same endpoints over rows that are updated in place. */
  class Routes {
    const config: Config
    var users: seq<User>
    var issued: seq<Token>
    var trail: seq<Note>

    constructor (config: Config)
      ensures this.config == config && Now() == State([], [], [])
    {
      this.config := config;
      users, issued, trail := [], [], [];
    }

    ghost function Now(): State
      reads this
    {
      State(users, issued, trail)
    }

    /** Every account is there, unchanged but for the one. */
    twostate predicate OnlyChanges(u: nat)
      reads this
    {
      |users| == |old(users)| && forall v | 0 <= v < |users| && v != u :: users[v] == old(users[v])
    }

    /** One token was issued, and this is it. */
    twostate predicate Issues(token: Token)
      reads this`issued
    {
      issued == old(issued) + [token]
    }

    method IssueFor(u: nat) returns (token: nat)
      requires u < |users|
      modifies this`issued
      ensures Now() == Issue(old(Now()), Claims(users, u)) && token == |old(issued)|
    {
      token := |issued|;
      issued := issued + [Token(u, users[u].tenant, users[u].role, Some(users[u].version), None)];
    }

    method Login(tenant: Option<nat>, email: string, password: string) returns (r: Response)
      modifies this`issued
      ensures (Now(), r) == Handle(config, old(Now()), Request.Login(tenant, email, password))
      ensures r.SignedIn? ==> r.user < |users| && !users[r.user].mfa && Issues(Claims(users, r.user))
      ensures r.Challenged? ==> r.user < |users| && users[r.user].mfa && Issues(Challenge(users, r.user))
      ensures r.Refused? <==> issued == old(issued)
    {
      if tenant.None? { return Refused(400); }
      var found := ByEmail(users, tenant.value, email);
      if found.None? || !config.matches(password, users[found.value].password) { return Refused(401); }
      var u := found.value;
      if users[u].mfa {
        issued := issued + [Token(u, users[u].tenant, "", None, Some(PURPOSE_MFA_CHALLENGE))];
        return Challenged(u, |issued| - 1);
      }
      var token := IssueFor(u);
      r := SignedIn(u, token);
    }

    method MfaVerify(b: Bearer, passed: bool) returns (r: Response)
      modifies this`issued
      ensures (Now(), r) == Handle(config, old(Now()), Request.MfaVerify(b, passed))
      ensures r.SignedIn? ==> passed && r.user < |users| && Issues(Claims(users, r.user))
      ensures !r.SignedIn? ==> r.Refused? && issued == old(issued)
    {
      if b.expired || b.token >= |issued| { return Refused(401); }
      var t := issued[b.token];
      if t.purpose != Some(PURPOSE_MFA_CHALLENGE) { return Refused(401); }
      var found := Find(users, t.sub, t.tenant);
      if found.None? { return Refused(401); }
      if !users[found.value].mfa { return Refused(400); }
      if !passed { return Refused(401); }
      var token := IssueFor(found.value);
      r := SignedIn(found.value, token);
    }

    method Refresh(b: Bearer) returns (r: Response)
      modifies this`issued
      ensures (Now(), r) == Handle(config, old(Now()), Request.Refresh(b))
      ensures r.SignedIn? ==> r.user < |users| && Issues(Claims(users, r.user))
      ensures !r.SignedIn? ==> r.Refused? && issued == old(issued)
    {
      var current := AuthUser(State(users, issued, trail), b);
      if current.None? { return Refused(401); }
      var token := IssueFor(current.value);
      r := SignedIn(current.value, token);
    }

    method Logout(b: Bearer) returns (r: Response)
      modifies this`users
      ensures (Now(), r) == Handle(config, old(Now()), Request.Logout(b))
      ensures r.LoggedOut? ==>
        r.user < |users| && OnlyChanges(r.user) && users[r.user].version == old(users[r.user].version) + 1
      ensures !r.LoggedOut? ==> users == old(users)
    {
      var current := AuthUser(State(users, issued, trail), b);
      if current.None? { return Refused(401); }
      var u := current.value;
      users := users[u := users[u].(version := users[u].version + 1)];
      r := LoggedOut(u);
    }

    method ChangePassword(b: Bearer, current: string, hash: string) returns (r: Response)
      modifies this
      ensures (Now(), r) == Handle(config, old(Now()), Request.ChangePassword(b, current, hash))
      ensures r.PasswordChanged? ==>
        && r.user < |users| && OnlyChanges(r.user)
        && users[r.user] == old(users[r.user]).(password := hash, version := old(users[r.user]).version + 1)
      ensures !r.PasswordChanged? ==> Now() == old(Now())
    {
      var caller := AuthUser(State(users, issued, trail), b);
      if caller.None? { return Refused(401); }
      var u := caller.value;
      if !config.matches(current, users[u].password) { return Refused(401); }
      users := users[u := users[u].(password := hash)];
      users := users[u := users[u].(version := users[u].version + 1)];
      var token := IssueFor(u);
      r := PasswordChanged(u, token);
    }

    method CreateUser(b: Bearer, email: string, role: Option<string>, hash: string) returns (r: Response)
      modifies this`users, this`trail
      ensures (Now(), r) == Handle(config, old(Now()), Request.CreateUser(b, email, role, hash))
      ensures r.Created? ==>
        && users[..|users| - 1] == old(users) && r.user == |users| - 1
        && users[r.user].password == hash && users[r.user].email == Lower(Strip(email))
        && users[r.user].active && !users[r.user].mfa && users[r.user].version == 0
      ensures !r.Created? ==> Now() == old(Now())
    {
      var actor := ApiUser(State(users, issued, trail), b);
      if actor.None? { return Refused(401); }
      if !HasPermission(config, actor.value.role, MANAGE_USERS) { return Refused(403); }
      var wanted := Lower(if role.Some? && role.value != "" then role.value else DEFAULT_ROLE);
      if wanted !in config.roles { return Refused(400); }
      var address := Lower(Strip(email));
      var existing := ByEmail(users, actor.value.tenant, address);
      if existing.Some? { return Refused(400); }
      users := users + [User(actor.value.tenant, address, hash, wanted, true, false, 0)];
      trail := trail + [UserCreated(actor.value.id, |users| - 1, wanted)];
      r := Created(|users| - 1);
    }

    method SetUserRole(b: Bearer, target: nat, role: string) returns (r: Response)
      modifies this`users, this`trail
      ensures (Now(), r) == Handle(config, old(Now()), Request.SetUserRole(b, target, role))
      ensures r.RoleChanged? ==>
        && r.user == target && OnlyChanges(target)
        && users[target] == old(users[target]).(role := Lower(Strip(role)), version := old(users[target]).version + 1)
      ensures !r.RoleChanged? ==> Now() == old(Now())
    {
      var actor := ApiUser(State(users, issued, trail), b);
      if actor.None? { return Refused(401); }
      if !HasPermission(config, actor.value.role, MANAGE_USERS) { return Refused(403); }
      var wanted := NormaliseRole(role);
      if wanted !in config.roles { return Refused(400); }
      if target == actor.value.id { return Refused(400); }
      var found := Find(users, target, actor.value.tenant);
      if found.None? { return Refused(404); }
      var previous := Lower(users[target].role);
      if previous == wanted { return RoleKept(target); }
      if previous == ADMIN {
        var remaining := CountAdmins(users, actor.value.tenant, target, |users|);
        if remaining == 0 { return Refused(400); }
      }
      users := users[target := users[target].(role := wanted)];
      users := users[target := users[target].(version := users[target].version + 1)];
      trail := trail + [RoleAssigned(actor.value.id, target, previous, wanted)];
      r := RoleChanged(target, wanted);
    }
  }
}
