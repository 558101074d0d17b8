/** Accounts signed in by an SSO provider: their groups and administrator role,
    which are changed by browser sign-ins, by access tokens and by hand. */
module SsoAccounts {
  import opened Wrappers
  import opened UnitFields

  const MAX_USERNAME_LENGTH := 64

  type UserId = nat
  type GroupId = nat

  /** The random end of a username that was taken: three bytes in hex. */
  type Suffix = s: string | |s| == 6 witness "000000"

  datatype User = User(username: string, admin: bool, issuer: Option<string>, subject: Option<string>, created: int) {
    predicate Sso() { subject.Some? }
  }

  datatype Groups = Groups(names: map<GroupId, string>, next: nat)

  datatype Accounts = Accounts(users: map<UserId, User>, nextUser: nat, groups: Groups, members: set<(UserId, GroupId)>)

  const NO_ACCOUNTS := Accounts(map[], 0, Groups(map[], 0), {})

  datatype AccountError =
    | MalformedGroups | NoUsername | InvalidUsername | UsernameTaken | UserNotFound
    | OwnRole | OwnAccount | RoleManaged | Forbidden | NotEnabled | AdminExists

  /** A groups claim; a null inside a list counts as an empty name. */
  datatype GroupsClaim = List(names: seq<string>) | Single(name: string) | Null | Other

  /** What a verified ID or access token says. */
  datatype Claims = Claims(issuer: string, subject: string, preferred: string, email: string,
        groups: Option<GroupsClaim>)

  datatype Identity = Identity(issuer: string, subject: string, preferred: string, email: string, groups: seq<string>,
        admin: Option<bool>)

  /** `login`: sign-in at the provider is set up. `tokens`: access tokens are
      accepted, which another issuer than the provider may have issued. Each can
      be on without the other. No admin group is the empty string. */
  datatype Config = Config(login: bool, tokens: bool, adminGroup: string) {
    predicate ManagesAdminRole() { login && adminGroup != "" }
  }

  // ---------- The groups claim ----------

  /** The order of strings.Compare. */
  predicate Before(a: string, b: string) {
    b != "" && (a == "" || a[0] < b[0] || (a[0] == b[0] && Before(a[1..], b[1..])))
  }

  predicate Ascending(s: seq<string>) {
    forall i, j | 0 <= i < j < |s| :: Before(s[i], s[j])
  }

  lemma {:induction false} BeforeIsOrder(a: string, b: string)
    ensures !(Before(a, b) && Before(b, a)) && (Before(a, b) || Before(b, a) || a == b)
    ensures a == b ==> !Before(a, b)
  {
    if a != "" && b != "" && a[0] == b[0] {
      BeforeIsOrder(a[1..], b[1..]);
      assert a == [a[0]] + a[1..] && b == [b[0]] + b[1..];
    }
  }

  lemma {:induction false} BeforeIsTransitive(a: string, b: string, c: string)
    requires Before(a, b) && Before(b, c)
    ensures Before(a, c)
  {
    if a != "" && a[0] == b[0] == c[0] {
      BeforeIsTransitive(a[1..], b[1..], c[1..]);
    }
  }

  function Insert(name: string, sorted: seq<string>): (r: seq<string>)
    ensures forall g :: g in r <==> g == name || g in sorted
  {
    if sorted == [] then [name]
    else if name == sorted[0] then sorted
    else if Before(name, sorted[0]) then [name] + sorted
    else
      var rest := Insert(name, sorted[1..]);
      assert sorted == [sorted[0]] + sorted[1..];
      [sorted[0]] + rest
  }

  lemma {:induction false} InsertKeepsOrder(name: string, sorted: seq<string>)
    requires Ascending(sorted)
    ensures Ascending(Insert(name, sorted))
  {
    if sorted != [] && name != sorted[0] {
      BeforeIsOrder(name, sorted[0]);
      if Before(name, sorted[0]) {
        forall j | 0 < j < |sorted| ensures Before(name, sorted[j]) {
          BeforeIsTransitive(name, sorted[0], sorted[j]);
        }
      } else {
        InsertKeepsOrder(name, sorted[1..]);
        var rest := Insert(name, sorted[1..]);
        forall j | 0 <= j < |rest| ensures Before(sorted[0], rest[j]) {
          assert rest[j] in rest;
        }
      }
    }
  }

  function SortedNames(names: seq<string>): (r: seq<string>)
    ensures forall g :: g in r <==> g in names && g != ""
  {
    if names == [] then []
    else
      assert names == [names[0]] + names[1..];
      if names[0] == "" then SortedNames(names[1..]) else Insert(names[0], SortedNames(names[1..]))
  }

  lemma {:induction false} SortedNamesAscend(names: seq<string>)
    ensures Ascending(SortedNames(names))
  {
    if names != [] {
      SortedNamesAscend(names[1..]);
      if names[0] != "" {
        InsertKeepsOrder(names[0], SortedNames(names[1..]));
      }
    }
  }

  function NamesIn(claim: GroupsClaim): Result<seq<string>, AccountError> {
    match claim
    case List(names) => Success(names)
    case Single(name) => Success([name])
    case Null => Success([])
    case Other => Failure(MalformedGroups)
  }

  function ParseGroups(claim: GroupsClaim): Result<seq<string>, AccountError> {
    match NamesIn(claim)
    case Success(names) => Success(SortedNames(names))
    case Failure(e) => Failure(e)
  }

  lemma {:induction false} AscendingIsUnique(a: seq<string>, b: seq<string>)
    requires Ascending(a) && Ascending(b) && forall g :: g in a <==> g in b
    ensures a == b
  {
    assert forall i | 0 <= i < |a| :: a[i] in a;
    assert forall i | 0 <= i < |b| :: b[i] in b;
    if a != [] && b != [] {
      assert a[0] in b && b[0] in a;
      BeforeIsOrder(a[0], b[0]);
      assert a[0] == b[0];
      forall g ensures g in a[1..] <==> g in b[1..] {
        BeforeIsOrder(a[0], g);
        assert g in a <==> g == a[0] || g in a[1..];
        assert g in b <==> g == a[0] || g in b[1..];
      }
      AscendingIsUnique(a[1..], b[1..]);
    }
  }

  /** The claim names this group: in its list, or as its one name. An empty name is
      none. */
  predicate Names(claim: GroupsClaim, g: string) {
    g != "" && ((claim.List? && g in claim.names) || (claim.Single? && g == claim.name))
  }

  /** Parsing yields exactly the names of the claim, ascending and so each once; only
      what is neither a list, a string nor null is an error. */
  lemma ParseGroupsExactly(claim: GroupsClaim)
    ensures claim.Other? <==> ParseGroups(claim).Failure?
    ensures claim.Other? ==> ParseGroups(claim).error == MalformedGroups
    ensures !claim.Other? ==>
              && Ascending(ParseGroups(claim).value)
              && forall g :: g in ParseGroups(claim).value <==> Names(claim, g)
  {
    if NamesIn(claim).Success? {
      SortedNamesAscend(NamesIn(claim).value);
    }
  }

  /** A string is read as a list of one, null as an empty list. */
  lemma SingleIsList(g: string)
    ensures ParseGroups(Single(g)) == ParseGroups(List([g])) == Success(if g == "" then [] else [g])
    ensures ParseGroups(Null) == ParseGroups(List([])) == Success([])
  {
    assert [g][1..] == [];
    assert SortedNames([]) == [];
  }

  /** Parsing depends on nothing but the non-empty names: not on their order, on
      repetitions, or on a single name being sent without its list. */
  lemma ParseGroupsIsCanonical(c1: GroupsClaim, c2: GroupsClaim)
    requires !c1.Other? && !c2.Other?
    ensures Ascending(ParseGroups(c1).value) && "" !in ParseGroups(c1).value
    ensures ParseGroups(c1) == ParseGroups(c2) <==> forall g :: Names(c1, g) <==> Names(c2, g)
  {
    ParseGroupsExactly(c1);
    ParseGroupsExactly(c2);
    if forall g :: Names(c1, g) <==> Names(c2, g) {
      AscendingIsUnique(ParseGroups(c1).value, ParseGroups(c2).value);
    }
  }

  // ---------- Identities ----------

  /** Exchange: the identity of a browser sign-in; no claim means no groups. */
  function SignInIdentity(config: Config, c: Claims): Result<Identity, AccountError> {
    match if c.groups.Some? then ParseGroups(c.groups.value) else Success([])
    case Success(groups) =>
      Success(Identity(c.issuer, c.subject, c.preferred, c.email, groups,
                       if config.ManagesAdminRole() then Some(config.adminGroup in groups) else None))
    case Failure(e) => Failure(e)
  }

  /** verify: the identity of an access token; no claim means no group sync. */
  function TokenIdentity(config: Config, c: Claims): Result<Identity, AccountError> {
    if c.groups.None? then Success(Identity(c.issuer, c.subject, c.preferred, c.email, [], None))
    else
      match ParseGroups(c.groups.value)
      case Success(groups) =>
        Success(Identity(c.issuer, c.subject, c.preferred, c.email, groups,
                         if config.adminGroup != "" then Some(config.adminGroup in groups) else None))
      case Failure(e) => Failure(e)
  }

  // ---------- Finding or creating the account ----------

  predicate OlderOrSame(users: map<UserId, User>, a: UserId, b: UserId)
    requires a in users && b in users
  {
    users[a].created < users[b].created || (users[a].created == users[b].created && a <= b)
  }

  /** The account a subject signs in to: the oldest one linked to it. */
  ghost predicate IsLinked(users: map<UserId, User>, subject: string, id: UserId) {
    && id in users && users[id].subject == Some(subject)
    && forall other | other in users && users[other].subject == Some(subject) :: OlderOrSame(users, id, other)
  }

  ghost function Linked(users: map<UserId, User>, subject: string): (r: Option<UserId>)
    ensures r.Some? ==> IsLinked(users, subject, r.value)
    ensures r.None? ==> forall id :: !IsLinked(users, subject, id)
  {
    if id: UserId :| IsLinked(users, subject, id) then Some(id) else None
  }

  predicate UsernameHeld(users: map<UserId, User>, name: string) {
    exists id | id in users :: users[id].username == name
  }

  function NormalUsername(name: string): Option<string> {
    var t := Trim(name);
    if t == "" || |t| > MAX_USERNAME_LENGTH then None else Some(t)
  }

  function Cut(s: string, n: nat): string {
    if |s| <= n then s else s[..n]
  }

  function ProvisionedUsername(id: Identity): string {
    if NormalUsername(id.preferred).Some? then NormalUsername(id.preferred).value
    else if NormalUsername(id.email).Some? then NormalUsername(id.email).value
    else if NormalUsername(id.subject).Some? then NormalUsername(id.subject).value
    else Cut(id.subject, MAX_USERNAME_LENGTH)
  }

  function SuffixedUsername(id: Identity, suffix: Suffix): string {
    Cut(ProvisionedUsername(id), MAX_USERNAME_LENGTH - |suffix| - 1) + "-" + suffix
  }

  /** The names tried for a new account, in order. */
  function Candidates(id: Identity, s1: Suffix, s2: Suffix): seq<string> {
    [ProvisionedUsername(id), SuffixedUsername(id, s1), SuffixedUsername(id, s2)]
  }

  function FirstFree(users: map<UserId, User>, names: seq<string>): Option<string> {
    if names == [] then None
    else if !UsernameHeld(users, names[0]) then Some(names[0])
    else FirstFree(users, names[1..])
  }

  function WithUser(a: Accounts, u: User): Accounts {
    a.(users := a.users[a.nextUser := u], nextUser := a.nextUser + 1)
  }

  /** The account an identity signs in to, created on its first sign-in. */
  ghost function Resolved(a: Accounts, id: Identity, s1: Suffix, s2: Suffix, now: int): (Accounts, Result<UserId,
        AccountError>)
  {
    match Linked(a.users, id.subject)
    case Some(user) => (a, Success(user))
    case None =>
      match FirstFree(a.users, Candidates(id, s1, s2))
      case Some(name) => (WithUser(a, User(name, false, Some(id.issuer), Some(id.subject), now)), Success(a.nextUser))
      case None => (a, Failure(NoUsername))
  }

  // ---------- Groups ----------

  predicate GroupExists(groups: Groups, name: string) {
    exists g | g in groups.names :: groups.names[g] == name
  }

  function Missing(groups: Groups, names: seq<string>): seq<string> {
    if names == [] then []
    else
      var before, last := Missing(groups, names[..|names| - 1]), names[|names| - 1];
      if GroupExists(groups, last) then before else before + [last]
  }

  function Added(groups: Groups, names: seq<string>): Groups {
    if names == [] then groups
    else
      var before := Added(groups, names[..|names| - 1]);
      Groups(before.names[before.next := names[|names| - 1]], before.next + 1)
  }

  function Ensured(groups: Groups, names: seq<string>): Groups {
    Added(groups, Missing(groups, names))
  }

  function IdsNamed(groups: Groups, names: seq<string>): set<GroupId> {
    set g | g in groups.names && groups.names[g] in names
  }

  /** The user leaves every other group and joins these. */
  function Rejoined(members: set<(UserId, GroupId)>, user: UserId, ids: set<GroupId>): set<(UserId, GroupId)> {
    (set m | m in members && (m.0 != user || m.1 in ids)) + (set g | g in ids :: (user, g))
  }

  function Synced(a: Accounts, user: UserId, id: Identity): Accounts
    requires user in a.users
  {
    var groups := Ensured(a.groups, id.groups);
    a.(groups := groups,
       members := Rejoined(a.members, user, IdsNamed(groups, id.groups)),
       users := if id.admin.Some? then a.users[user := a.users[user].(admin := id.admin.value)] else a.users)
  }

  // ---------- Operations ----------

  /** `current` is the signed-in user whose request it is. */
  datatype Op =
    | SignIn(claims: Claims, s1: Suffix, s2: Suffix, now: int)       // at the provider, in the browser
    | UseToken(claims: Claims, s1: Suffix, s2: Suffix, now: int)     // an access token not in the cache
    | EnsureAdmin(username: string, now: int)                        // at startup, with a password set
    | CreateUser(current: UserId, username: string, admin: bool, now: int)
    | UpdateUser(current: UserId, user: UserId, admin: bool)
    | DeleteUser(current: UserId, user: UserId)

  /** The identity is resolved, and its groups are synced if it carries any. */
  ghost function Admitted(a: Accounts, id: Identity, sync: bool, s1: Suffix, s2: Suffix, now: int): (Accounts,
        Result<UserId, AccountError>)
  {
    var (a1, r) := Resolved(a, id, s1, s2, now);
    if r.Failure? || !sync then (a1, r) else (Synced(a1, r.value, id), r)
  }

  ghost function SignInIn(config: Config, a: Accounts, op: Op): (Accounts, Result<UserId, AccountError>)
    requires op.SignIn?
  {
    if !config.login then (a, Failure(NotEnabled))
    else
      match SignInIdentity(config, op.claims)
      case Failure(e) => (a, Failure(e))
      case Success(id) => Admitted(a, id, true, op.s1, op.s2, op.now)
  }

  ghost function UseTokenIn(config: Config, a: Accounts, op: Op): (Accounts, Result<UserId, AccountError>)
    requires op.UseToken?
  {
    if !config.tokens then (a, Failure(NotEnabled))
    else
      match TokenIdentity(config, op.claims)
      case Failure(e) => (a, Failure(e))
      case Success(id) => Admitted(a, id, op.claims.groups.Some?, op.s1, op.s2, op.now)
  }

  /** A local account, as an administrator or the startup creates it. */
  function WithLocalUser(a: Accounts, username: string, admin: bool, now: int): (Accounts, Result<UserId, AccountError>)
  {
    match NormalUsername(username)
    case None => (a, Failure(InvalidUsername))
    case Some(name) =>
      if UsernameHeld(a.users, name) then (a, Failure(UsernameTaken))
      else (WithUser(a, User(name, admin, None, None, now)), Success(a.nextUser))
  }

  predicate IsAdmin(a: Accounts, user: UserId) {
    user in a.users && a.users[user].admin
  }

  function EnsureAdminIn(a: Accounts, username: string, now: int): (Accounts, Result<UserId, AccountError>) {
    if exists u | u in a.users :: a.users[u].admin then (a, Failure(AdminExists))
        else WithLocalUser(a, username, true, now)
  }

  function CreateUserIn(a: Accounts, current: UserId, username: string, admin: bool, now: int): (Accounts,
        Result<UserId, AccountError>)
  {
    if !IsAdmin(a, current) then (a, Failure(Forbidden)) else WithLocalUser(a, username, admin, now)
  }

  function UpdateUserIn(config: Config, a: Accounts, current: UserId, user: UserId, admin: bool): (Accounts,
        Result<UserId, AccountError>)
  {
    if !IsAdmin(a, current) then (a, Failure(Forbidden))
    else if user == current && !admin then (a, Failure(OwnRole))
    else if user !in a.users then (a, Failure(UserNotFound))
    else if config.ManagesAdminRole() && a.users[user].Sso() && a.users[user].admin != admin
        then (a, Failure(RoleManaged))
    else (a.(users := a.users[user := a.users[user].(admin := admin)]), Success(user))
  }

  function DeleteUserIn(a: Accounts, current: UserId, user: UserId): (Accounts, Result<UserId, AccountError>) {
    if !IsAdmin(a, current) then (a, Failure(Forbidden))
    else if user == current then (a, Failure(OwnAccount))
    else if user !in a.users then (a, Failure(UserNotFound))
    else (a.(users := a.users - {user}, members := set m | m in a.members && m.0 != user), Success(user))
  }

  ghost function Step(config: Config, a: Accounts, op: Op): Accounts {
    match op
    case SignIn(_, _, _, _) => SignInIn(config, a, op).0
    case UseToken(_, _, _, _) => UseTokenIn(config, a, op).0
    case EnsureAdmin(username, now) => EnsureAdminIn(a, username, now).0
    case CreateUser(current, username, admin, now) => CreateUserIn(a, current, username, admin, now).0
    case UpdateUser(current, user, admin) => UpdateUserIn(config, a, current, user, admin).0
    case DeleteUser(current, user) => DeleteUserIn(a, current, user).0
  }

  ghost function Run(config: Config, a: Accounts, ops: seq<Op>): Accounts
    decreases |ops|
  {
    if ops == [] then a else Run(config, Step(config, a, ops[0]), ops[1..])
  }
}
