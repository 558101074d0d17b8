/** What sign-ins keep true of accounts, groups and roles, over all runs. */
module SsoLaws {
  import opened Wrappers
  import opened UnitFields
  import opened SsoAccounts

  // ---------- Groups are only ever added ----------

  predicate Distinct(names: seq<string>) {
    forall i, j | 0 <= i < j < |names| :: names[i] != names[j]
  }

  predicate GroupsOk(groups: Groups) {
    && (forall g | g in groups.names :: g < groups.next)
    && (forall g, h | g in groups.names && h in groups.names && groups.names[g] == groups.names[h] :: g == h)
  }

  lemma {:induction false} MissingNames(groups: Groups, names: seq<string>)
    requires Distinct(names)
    ensures forall name :: name in Missing(groups, names) <==> name in names && !GroupExists(groups, name)
    ensures Distinct(Missing(groups, names))
  {
    if names != [] {
      var before, last := names[..|names| - 1], names[|names| - 1];
      MissingNames(groups, before);
      assert names == before + [last];
      assert last !in before;
    }
  }

  lemma {:induction false} AddedGroups(groups: Groups, names: seq<string>)
    requires GroupsOk(groups) && Distinct(names) && forall name | name in names :: !GroupExists(groups, name)
    ensures var groups' := Added(groups, names);
            && GroupsOk(groups')
            && (forall g | g in groups.names :: g in groups'.names && groups'.names[g] == groups.names[g])
            && (forall name :: GroupExists(groups', name) <==> GroupExists(groups, name) || name in names)
  {
    if names != [] {
      var before, last := names[..|names| - 1], names[|names| - 1];
      assert names == before + [last];
      assert last !in before;
      AddedGroups(groups, before);
      AddedOne(Added(groups, before), last);
    }
  }

  lemma AddedOne(groups: Groups, name: string)
    requires GroupsOk(groups) && !GroupExists(groups, name)
    ensures var groups' := Groups(groups.names[groups.next := name], groups.next + 1);
            GroupsOk(groups') && forall n :: GroupExists(groups', n) <==> GroupExists(groups, n) || n == name
  {
    var groups' := Groups(groups.names[groups.next := name], groups.next + 1);
    forall n ensures GroupExists(groups', n) <==> GroupExists(groups, n) || n == name {
      if n == name {
        assert groups'.names[groups.next] == n;
      } else if GroupExists(groups, n) {
        var g :| g in groups.names && groups.names[g] == n;
        assert groups'.names[g] == n;
      }
    }
  }

  /** Every name gets exactly one group, and no group is removed or renamed. */
  lemma EnsuredGroups(groups: Groups, names: seq<string>)
    requires GroupsOk(groups) && Distinct(names)
    ensures var groups' := Ensured(groups, names);
            && GroupsOk(groups')
            && (forall g | g in groups.names :: g in groups'.names && groups'.names[g] == groups.names[g])
            && (forall name :: GroupExists(groups', name) <==> GroupExists(groups, name) || name in names)
  {
    MissingNames(groups, names);
    AddedGroups(groups, Missing(groups, names));
  }

  // ---------- One sync ----------

  /** The user is a member of the group of this name. */
  predicate MemberOf(a: Accounts, user: UserId, name: string) {
    exists g | g in a.groups.names :: (user, g) in a.members && a.groups.names[g] == name
  }

  predicate UsersOk(users: map<UserId, User>, next: nat) {
    && (forall u | u in users :: u < next)
    && (forall u, v | u in users && v in users && users[u].username == users[v].username :: u == v)
  }

  predicate MembersOk(a: Accounts) {
    forall m | m in a.members :: m.0 in a.users && m.1 in a.groups.names
  }

  predicate WellFormed(a: Accounts) {
    UsersOk(a.users, a.nextUser) && GroupsOk(a.groups) && MembersOk(a)
  }

  lemma SyncedGroup(a: Accounts, user: UserId, id: Identity, name: string)
    requires WellFormed(a) && user in a.users && Distinct(id.groups)
    ensures MemberOf(Synced(a, user, id), user, name) <==> name in id.groups
  {
    EnsuredGroups(a.groups, id.groups);
    var a' := Synced(a, user, id);
    if name in id.groups {
      assert GroupExists(a'.groups, name);
      var g :| g in a'.groups.names && a'.groups.names[g] == name;
      assert g in IdsNamed(a'.groups, id.groups);
      assert (user, g) in a'.members;
    }
  }

  lemma SyncedOther(a: Accounts, user: UserId, id: Identity, other: UserId, name: string)
    requires WellFormed(a) && user in a.users && Distinct(id.groups) && other != user
    ensures MemberOf(Synced(a, user, id), other, name) <==> MemberOf(a, other, name)
  {
    EnsuredGroups(a.groups, id.groups);
    var a' := Synced(a, user, id);
    assert forall g :: (other, g) in a'.members <==> (other, g) in a.members;
    if MemberOf(a, other, name) {
      var g :| g in a.groups.names && (other, g) in a.members && a.groups.names[g] == name;
      assert (other, g) in a'.members && a'.groups.names[g] == name;
    }
  }

  lemma SyncedWellFormed(a: Accounts, user: UserId, id: Identity)
    requires WellFormed(a) && user in a.users && Distinct(id.groups)
    ensures WellFormed(Synced(a, user, id))
  {
    EnsuredGroups(a.groups, id.groups);
  }

  /** The effect of one sync: the user is in exactly the given groups, with the
      role they grant; nobody else's memberships, roles or names change, and no
      group goes away. */
  lemma SyncEffect(a: Accounts, user: UserId, id: Identity)
    requires WellFormed(a) && user in a.users && Distinct(id.groups)
    ensures var a' := Synced(a, user, id);
            && WellFormed(a')
            && (forall name :: MemberOf(a', user, name) <==> name in id.groups)
            && (forall other, name | other != user :: MemberOf(a', other, name) <==> MemberOf(a, other, name))
            && (forall g | g in a.groups.names :: g in a'.groups.names && a'.groups.names[g] == a.groups.names[g])
            && a'.users.Keys == a.users.Keys
                && (forall other | other in a.users && other != user :: a'.users[other] == a.users[other])
            && a'.users[user] == a.users[user].(admin := if id.admin.Some? then id.admin.value else a.users[user].admin)
  {
    var a' := Synced(a, user, id);
    SyncedWellFormed(a, user, id);
    EnsuredGroups(a.groups, id.groups);
    forall name ensures MemberOf(a', user, name) <==> name in id.groups {
      SyncedGroup(a, user, id, name);
    }
    forall other, name | other != user ensures MemberOf(a', other, name) <==> MemberOf(a, other, name) {
      SyncedOther(a, user, id, other, name);
    }
  }

  // ---------- Whole runs ----------

  /** Each SSO account is an administrator exactly if the admin group is among
      its stored groups. */
  predicate RoleMatches(a: Accounts, adminGroup: string, user: UserId)
    requires user in a.users
  {
    a.users[user].Sso() ==> (a.users[user].admin <==> MemberOf(a, user, adminGroup))
  }

  predicate RolesMatch(a: Accounts, adminGroup: string) {
    forall user | user in a.users :: RoleMatches(a, adminGroup, user)
  }

  predicate Inv(a: Accounts, adminGroup: string) {
    WellFormed(a) && RolesMatch(a, adminGroup)
  }

  lemma {:induction false} FirstFreeIsFree(users: map<UserId, User>, names: seq<string>)
    ensures FirstFree(users, names).Some? ==>
        FirstFree(users, names).value in names && !UsernameHeld(users, FirstFree(users, names).value)
    ensures FirstFree(users, names).None? ==> forall name | name in names :: UsernameHeld(users, name)
  {
    if names != [] && UsernameHeld(users, names[0]) {
      FirstFreeIsFree(users, names[1..]);
      assert names == [names[0]] + names[1..];
    }
  }

  /** A new account is in no group, so it must not be an administrator by SSO. */
  lemma WithUserKeeps(a: Accounts, adminGroup: string, u: User)
    requires Inv(a, adminGroup) && !UsernameHeld(a.users, u.username) && (u.Sso() ==> !u.admin)
    ensures Inv(WithUser(a, u), adminGroup)
  {
    var a' := WithUser(a, u);
    assert forall m | m in a.members :: m.0 != a.nextUser;
    forall user | user in a'.users ensures RoleMatches(a', adminGroup, user) {
      assert MemberOf(a', user, adminGroup) == MemberOf(a, user, adminGroup);
      if user != a.nextUser {
        assert RoleMatches(a, adminGroup, user);
      }
    }
  }

  lemma ResolvedIsWellFormed(a: Accounts, id: Identity, s1: Suffix, s2: Suffix, now: int)
    requires WellFormed(a)
    ensures var (a', r) := Resolved(a, id, s1, s2, now); WellFormed(a') && (r.Success? ==> r.value in a'.users)
  {
    FirstFreeIsFree(a.users, Candidates(id, s1, s2));
  }

  lemma ResolvedKeeps(a: Accounts, adminGroup: string, id: Identity, s1: Suffix, s2: Suffix, now: int)
    requires Inv(a, adminGroup)
    ensures var (a', r) := Resolved(a, id, s1, s2, now); Inv(a', adminGroup) && (r.Success? ==> r.value in a'.users)
  {
    FirstFreeIsFree(a.users, Candidates(id, s1, s2));
    if Linked(a.users, id.subject).None? && FirstFree(a.users, Candidates(id, s1, s2)).Some? {
      WithUserKeeps(a, adminGroup,
          User(FirstFree(a.users, Candidates(id, s1, s2)).value, false, Some(id.issuer), Some(id.subject), now));
    }
  }

  lemma SyncedKeeps(a: Accounts, adminGroup: string, user: UserId, id: Identity)
    requires Inv(a, adminGroup) && user in a.users && Distinct(id.groups) && id.admin == Some(adminGroup in id.groups)
    ensures Inv(Synced(a, user, id), adminGroup)
  {
    var a' := Synced(a, user, id);
    SyncedWellFormed(a, user, id);
    forall u | u in a'.users ensures RoleMatches(a', adminGroup, u) {
      if u == user {
        SyncedGroup(a, user, id, adminGroup);
      } else {
        SyncedOther(a, user, id, u, adminGroup);
        assert RoleMatches(a, adminGroup, u);
      }
    }
  }

  lemma AscendingIsDistinct(names: seq<string>)
    requires Ascending(names)
    ensures Distinct(names)
  {
    forall i, j | 0 <= i < j < |names| ensures names[i] != names[j] {
      BeforeIsOrder(names[i], names[j]);
    }
  }

  lemma IdentityIsDistinct(config: Config, c: Claims)
    ensures SignInIdentity(config, c).Success? ==> Distinct(SignInIdentity(config, c).value.groups)
    ensures TokenIdentity(config, c).Success? ==> Distinct(TokenIdentity(config, c).value.groups)
  {
    if c.groups.Some? && !c.groups.value.Other? {
      ParseGroupsExactly(c.groups.value);
      AscendingIsDistinct(ParseGroups(c.groups.value).value);
    }
  }

  /** Both ways to read an identity give distinct groups and the role they grant. */
  lemma IdentityGroups(config: Config, c: Claims)
    requires config.ManagesAdminRole()
    ensures var r := SignInIdentity(config, c);
            r.Success? ==> Distinct(r.value.groups) && r.value.admin == Some(config.adminGroup in r.value.groups)
    ensures var r := TokenIdentity(config, c);
            r.Success? && c.groups.Some? ==>
                Distinct(r.value.groups) && r.value.admin == Some(config.adminGroup in r.value.groups)
  {
    IdentityIsDistinct(config, c);
  }

  lemma AdmittedKeeps(a: Accounts, adminGroup: string, id: Identity, sync: bool, s1: Suffix, s2: Suffix, now: int)
    requires Inv(a, adminGroup) && (sync ==> Distinct(id.groups) && id.admin == Some(adminGroup in id.groups))
    ensures Inv(Admitted(a, id, sync, s1, s2, now).0, adminGroup)
  {
    ResolvedKeeps(a, adminGroup, id, s1, s2, now);
    var (a1, r) := Resolved(a, id, s1, s2, now);
    if r.Success? && sync {
      SyncedKeeps(a1, adminGroup, r.value, id);
    }
  }

  lemma LocalUserKeeps(a: Accounts, adminGroup: string, username: string, admin: bool, now: int)
    requires Inv(a, adminGroup)
    ensures Inv(WithLocalUser(a, username, admin, now).0, adminGroup)
  {
    if WithLocalUser(a, username, admin, now).1.Success? {
      WithUserKeeps(a, adminGroup, User(NormalUsername(username).value, admin, None, None, now));
    }
  }

  lemma UpdateUserKeeps(config: Config, a: Accounts, current: UserId, user: UserId, admin: bool)
    requires config.ManagesAdminRole() && Inv(a, config.adminGroup)
    ensures Inv(UpdateUserIn(config, a, current, user, admin).0, config.adminGroup)
  {
    var a' := UpdateUserIn(config, a, current, user, admin).0;
    forall u | u in a'.users ensures RoleMatches(a', config.adminGroup, u) {
      assert RoleMatches(a, config.adminGroup, u);
    }
  }

  lemma DeleteUserKeeps(a: Accounts, adminGroup: string, current: UserId, user: UserId)
    requires Inv(a, adminGroup)
    ensures Inv(DeleteUserIn(a, current, user).0, adminGroup)
  {
    var a' := DeleteUserIn(a, current, user).0;
    forall u | u in a'.users ensures RoleMatches(a', adminGroup, u) {
      assert RoleMatches(a, adminGroup, u);
      assert forall g :: (u, g) in a'.members <==> (u, g) in a.members;
    }
  }

  lemma StepKeepsInv(config: Config, a: Accounts, op: Op)
    requires config.ManagesAdminRole() && Inv(a, config.adminGroup)
    ensures Inv(Step(config, a, op), config.adminGroup)
  {
    match op
    case SignIn(claims, s1, s2, now) =>
      IdentityGroups(config, claims);
      if SignInIdentity(config, claims).Success? {
        AdmittedKeeps(a, config.adminGroup, SignInIdentity(config, claims).value, true, s1, s2, now);
      }
    case UseToken(claims, s1, s2, now) =>
      IdentityGroups(config, claims);
      if TokenIdentity(config, claims).Success? {
        AdmittedKeeps(a, config.adminGroup, TokenIdentity(config, claims).value, claims.groups.Some?, s1, s2, now);
      }
    case EnsureAdmin(username, now) => LocalUserKeeps(a, config.adminGroup, username, true, now);
    case CreateUser(_, username, admin, now) => LocalUserKeeps(a, config.adminGroup, username, admin, now);
    case UpdateUser(current, user, admin) => UpdateUserKeeps(config, a, current, user, admin);
    case DeleteUser(current, user) => DeleteUserKeeps(a, config.adminGroup, current, user);
  }

  lemma {:induction false} RunKeepsInv(config: Config, a: Accounts, ops: seq<Op>)
    requires config.ManagesAdminRole() && Inv(a, config.adminGroup)
    ensures Inv(Run(config, a, ops), config.adminGroup)
    decreases |ops|
  {
    if ops != [] {
      StepKeepsInv(config, a, ops[0]);
      RunKeepsInv(config, Step(config, a, ops[0]), ops[1..]);
    }
  }

  /** No account has signed in by SSO. */
  predicate NoSso(a: Accounts) {
    forall u | u in a.users :: !a.users[u].Sso()
  }

  lemma {:induction false} RunKeepsNoSso(config: Config, a: Accounts, ops: seq<Op>)
    requires !config.login && !config.tokens && NoSso(a)
    ensures NoSso(Run(config, a, ops))
    decreases |ops|
  {
    if ops != [] {
      assert NoSso(Step(config, a, ops[0]));
      RunKeepsNoSso(config, Step(config, a, ops[0]), ops[1..]);
    }
  }

  ghost predicate AlwaysMatches(config: Config) {
    forall ops :: RolesMatch(Run(config, NO_ACCOUNTS, ops), config.adminGroup)
  }

  const TOKEN := Claims("issuer", "subject", "visitor", "", Some(List([])))

  /** The startup's administrator promotes an account that came with a token. */
  const BY_HAND := [EnsureAdmin("admin", 0), UseToken(TOKEN, "000000", "000000", 0), UpdateUser(0, 1, true)]

  lemma UsernamesAreNormal()
    ensures NormalUsername("admin") == Some("admin") && NormalUsername("visitor") == Some("visitor")
  {
    TrimFixedPoints("admin");
    TrimFixedPoints("visitor");
  }

  lemma UnlockedRoleDiffers(config: Config)
    requires !config.login && config.tokens && config.adminGroup != ""
    ensures !RolesMatch(Run(config, NO_ACCOUNTS, BY_HAND), config.adminGroup)
  {
    UsernamesAreNormal();
    var a1 := Step(config, NO_ACCOUNTS, BY_HAND[0]);
    assert a1 == WithUser(NO_ACCOUNTS, User("admin", true, None, None, 0));
    var a2 := Step(config, a1, BY_HAND[1]);
    TokenCreatesVisitor(config, a1);
    var a3 := Step(config, a2, BY_HAND[2]);
    assert a3.users[1].Sso() && a3.users[1].admin && !MemberOf(a3, 1, config.adminGroup);
    assert !RoleMatches(a3, config.adminGroup, 1);
    assert BY_HAND[1..] == [BY_HAND[1], BY_HAND[2]] && BY_HAND[1..][1..] == [BY_HAND[2]]
        && BY_HAND[1..][1..][1..] == [];
    assert Run(config, a2, [BY_HAND[2]]) == Run(config, a3, []);
  }

  lemma TokenCreatesVisitor(config: Config, a: Accounts)
    requires config.tokens && config.adminGroup != "" && a == WithUser(NO_ACCOUNTS, User("admin", true, None, None, 0))
    ensures var a' := Step(config, a, BY_HAND[1]);
            a'.users.Keys == {0, 1} && a'.users[0] == a.users[0] && a'.users[1].Sso() && a'.members == {}
  {
    UsernamesAreNormal();
    var id := TokenIdentity(config, TOKEN).value;
    assert id.groups == [] && ProvisionedUsername(id) == "visitor";
    assert Linked(a.users, "subject").None?;
    assert Candidates(id, "000000", "000000")[0] == "visitor";
    assert !UsernameHeld(a.users, "visitor");
  }

  /** With an admin group set, the role invariant holds over all runs exactly if
      sign-in at the provider is set up, which locks the role of SSO accounts, or
      access tokens are not accepted either, so that there are no such accounts. */
  lemma RolesMatchExactlyIf(config: Config)
    requires config.adminGroup != ""
    ensures AlwaysMatches(config) <==> config.login || !config.tokens
  {
    if config.login {
      forall ops ensures RolesMatch(Run(config, NO_ACCOUNTS, ops), config.adminGroup) {
        RunKeepsInv(config, NO_ACCOUNTS, ops);
      }
    } else if !config.tokens {
      forall ops ensures RolesMatch(Run(config, NO_ACCOUNTS, ops), config.adminGroup) {
        RunKeepsNoSso(config, NO_ACCOUNTS, ops);
      }
    } else {
      UnlockedRoleDiffers(config);
    }
  }

  // ---------- One subject, one account ----------

  /** The same subject always signs in to the same account, whatever the issuer,
      the claims and the other accounts: the oldest one linked to it. */
  lemma {:induction false} SomeoneIsLinked(users: map<UserId, User>, subject: string, linked: set<UserId>)
        returns (oldest: UserId)
    requires linked != {} && forall u | u in linked :: u in users && users[u].subject == Some(subject)
    ensures oldest in linked && forall u | u in linked :: OlderOrSame(users, oldest, u)
    decreases |linked|
  {
    var u :| u in linked;
    oldest := u;
    if linked != {u} {
      var rest := SomeoneIsLinked(users, subject, linked - {u});
      if OlderOrSame(users, rest, u) {
        oldest := rest;
      }
      forall v | v in linked ensures OlderOrSame(users, oldest, v) {
        assert v == u || v in linked - {u};
      }
    }
  }

  /** An account is found exactly if one is linked, and it is the only oldest. */
  lemma LinkedExactlyIf(users: map<UserId, User>, subject: string)
    ensures Linked(users, subject).Some? <==> exists u | u in users :: users[u].subject == Some(subject)
    ensures forall u: UserId | IsLinked(users, subject, u) :: Linked(users, subject) == Some(u)
    ensures Linked(users, subject).Some? ==>
              var oldest := Linked(users, subject).value;
              oldest in users && forall u | u in users && users[u].subject == Some(subject) ::
                users[oldest].created < users[u].created || (users[oldest].created == users[u].created && oldest <= u)
  {
    var linked := set u | u in users && users[u].subject == Some(subject);
    if u :| u in users && users[u].subject == Some(subject) {
      assert u in linked;
      var oldest := SomeoneIsLinked(users, subject, linked);
      assert forall other | other in users && users[other].subject == Some(subject) :: other in linked;
      assert IsLinked(users, subject, oldest);
    }
  }

  lemma AdmittedIsWellFormed(a: Accounts, id: Identity, sync: bool, s1: Suffix, s2: Suffix, now: int)
    requires WellFormed(a) && Distinct(id.groups)
    ensures WellFormed(Admitted(a, id, sync, s1, s2, now).0)
  {
    ResolvedIsWellFormed(a, id, s1, s2, now);
    var (a1, r) := Resolved(a, id, s1, s2, now);
    if r.Success? && sync {
      SyncedWellFormed(a1, r.value, id);
    }
  }

  lemma StepKeepsWellFormed(config: Config, a: Accounts, op: Op)
    requires WellFormed(a)
    ensures WellFormed(Step(config, a, op))
  {
    match op
    case SignIn(claims, s1, s2, now) =>
      IdentityIsDistinct(config, claims);
      if SignInIdentity(config, claims).Success? {
        AdmittedIsWellFormed(a, SignInIdentity(config, claims).value, true, s1, s2, now);
      }
    case UseToken(claims, s1, s2, now) =>
      IdentityIsDistinct(config, claims);
      if TokenIdentity(config, claims).Success? {
        AdmittedIsWellFormed(a, TokenIdentity(config, claims).value, claims.groups.Some?, s1, s2, now);
      }
    case _ =>
  }

  /** Users keep what they are identified by; others than `u` may go, and new
      ones have another subject. */
  ghost predicate KeepsIdentities(users: map<UserId, User>, users': map<UserId, User>, u: UserId, subject: string) {
    && u in users'
    && (forall v | v in users && v in users' ::
        users'[v].subject == users[v].subject && users'[v].created == users[v].created)
    && (forall v | v in users' && v !in users :: users'[v].subject != Some(subject))
  }

  lemma StaysLinked(users: map<UserId, User>, users': map<UserId, User>, u: UserId, subject: string)
    requires IsLinked(users, subject, u) && KeepsIdentities(users, users', u, subject)
    ensures IsLinked(users', subject, u)
  {
  }

  lemma ResolvedKeepsIdentities(a: Accounts, id: Identity, s1: Suffix, s2: Suffix, now: int, u: UserId,
        subject: string)
    requires WellFormed(a) && IsLinked(a.users, subject, u)
    ensures KeepsIdentities(a.users, Resolved(a, id, s1, s2, now).0.users, u, subject)
  {
    LinkedExactlyIf(a.users, id.subject);
  }

  lemma SyncedKeepsIdentities(a: Accounts, user: UserId, id: Identity, users: map<UserId, User>, u: UserId,
        subject: string)
    requires user in a.users && KeepsIdentities(users, a.users, u, subject)
    ensures KeepsIdentities(users, Synced(a, user, id).users, u, subject)
  {
  }

  lemma AdmittedKeepsIdentities(a: Accounts, id: Identity, sync: bool, s1: Suffix, s2: Suffix, now: int, u: UserId,
        subject: string)
    requires WellFormed(a) && IsLinked(a.users, subject, u)
    ensures KeepsIdentities(a.users, Admitted(a, id, sync, s1, s2, now).0.users, u, subject)
  {
    ResolvedKeepsIdentities(a, id, s1, s2, now, u, subject);
    ResolvedIsWellFormed(a, id, s1, s2, now);
    var (a1, r) := Resolved(a, id, s1, s2, now);
    if r.Success? && sync {
      SyncedKeepsIdentities(a1, r.value, id, a.users, u, subject);
    }
  }

  lemma LocalUserKeepsIdentities(a: Accounts, username: string, admin: bool, now: int, u: UserId, subject: string)
    requires WellFormed(a) && u in a.users
    ensures KeepsIdentities(a.users, WithLocalUser(a, username, admin, now).0.users, u, subject)
    ensures KeepsIdentities(a.users, a.users, u, subject)
  {
  }

  lemma UpdateKeepsIdentities(config: Config, a: Accounts, current: UserId, user: UserId, admin: bool, u: UserId,
        subject: string)
    requires u in a.users
    ensures KeepsIdentities(a.users, UpdateUserIn(config, a, current, user, admin).0.users, u, subject)
  {
  }

  lemma DeleteKeepsIdentities(a: Accounts, current: UserId, user: UserId, u: UserId, subject: string)
    requires u in a.users && user != u
    ensures KeepsIdentities(a.users, DeleteUserIn(a, current, user).0.users, u, subject)
  {
  }

  lemma RequestKeepsIdentities(config: Config, a: Accounts, op: Op, u: UserId, subject: string)
    requires WellFormed(a) && u in a.users && (op.DeleteUser? ==> op.user != u)
    requires !op.SignIn? && !op.UseToken?
    ensures KeepsIdentities(a.users, Step(config, a, op).users, u, subject)
  {
    match op
    case EnsureAdmin(username, now) => LocalUserKeepsIdentities(a, username, true, now, u, subject);
    case CreateUser(_, username, admin, now) => LocalUserKeepsIdentities(a, username, admin, now, u, subject);
    case UpdateUser(current, user, admin) => UpdateKeepsIdentities(config, a, current, user, admin, u, subject);
    case DeleteUser(current, user) => DeleteKeepsIdentities(a, current, user, u, subject);
  }

  lemma StepKeepsIdentities(config: Config, a: Accounts, op: Op, u: UserId, subject: string)
    requires WellFormed(a) && IsLinked(a.users, subject, u) && (op.DeleteUser? ==> op.user != u)
    ensures KeepsIdentities(a.users, Step(config, a, op).users, u, subject)
  {
    match op
    case SignIn(claims, s1, s2, now) =>
      if SignInIdentity(config, claims).Success? {
        AdmittedKeepsIdentities(a, SignInIdentity(config, claims).value, true, s1, s2, now, u, subject);
      }
    case UseToken(claims, s1, s2, now) =>
      if TokenIdentity(config, claims).Success? {
        AdmittedKeepsIdentities(a, TokenIdentity(config, claims).value, claims.groups.Some?, s1, s2, now, u, subject);
      }
    case _ => RequestKeepsIdentities(config, a, op, u, subject);
  }

  lemma {:induction false} RunKeepsLinked(config: Config, a: Accounts, ops: seq<Op>, u: UserId, subject: string)
    requires WellFormed(a) && IsLinked(a.users, subject, u)
    requires forall op | op in ops && op.DeleteUser? :: op.user != u
    ensures IsLinked(Run(config, a, ops).users, subject, u)
    decreases |ops|
  {
    if ops != [] {
      assert ops[0] in ops;
      StepKeepsIdentities(config, a, ops[0], u, subject);
      StaysLinked(a.users, Step(config, a, ops[0]).users, u, subject);
      StepKeepsWellFormed(config, a, ops[0]);
      RunKeepsLinked(config, Step(config, a, ops[0]), ops[1..], u, subject);
    }
  }

  /** A subject goes on signing in to the account of its first time, by any way
      and issuer, over every run that does not delete that account. */
  lemma SubjectKeepsAccount(config: Config, a: Accounts, first: Identity, s1: Suffix, s2: Suffix, now: int,
        ops: seq<Op>, again: Identity, s3: Suffix, s4: Suffix, later: int)
    requires WellFormed(a) && first.subject == again.subject && Resolved(a, first, s1, s2, now).1.Success?
    requires forall op | op in ops && op.DeleteUser? :: op.user != Resolved(a, first, s1, s2, now).1.value
    ensures var (a', r) := Resolved(a, first, s1, s2, now);
            Resolved(Run(config, a', ops), again, s3, s4, later) == (Run(config, a', ops), r)
  {
    var (a', r) := Resolved(a, first, s1, s2, now);
    ResolvedIsWellFormed(a, first, s1, s2, now);
    LinkedExactlyIf(a.users, first.subject);
    assert IsLinked(a'.users, first.subject, r.value);
    RunKeepsLinked(config, a', ops, r.value, first.subject);
    LinkedExactlyIf(Run(config, a', ops).users, first.subject);
  }

  // ---------- What a sign-in comes to ----------

  /** The token names this group. */
  predicate Claimed(c: Claims, g: string) {
    c.groups.Some? && Names(c.groups.value, g)
  }

  /** Everyone else keeps their account and their groups. */
  ghost predicate OthersKept(a: Accounts, a': Accounts, user: UserId) {
    && (forall u | u in a.users && u != user :: u in a'.users && a'.users[u] == a.users[u])
    && (forall u | u in a'.users && u != user :: u in a.users)
    && (forall u, g | u != user :: MemberOf(a', u, g) <==> MemberOf(a, u, g))
  }

  /** The role the account had; a new one is no administrator. */
  predicate RoleBefore(a: Accounts, user: UserId) {
    user in a.users && a.users[user].admin
  }

  lemma NoMembership(a: Accounts, user: UserId, g: string)
    requires MembersOk(a) && user !in a.users
    ensures !MemberOf(a, user, g)
  {
  }

  lemma ResolvedEffect(a: Accounts, id: Identity, s1: Suffix, s2: Suffix, now: int)
    requires WellFormed(a)
    ensures var (a', r) := Resolved(a, id, s1, s2, now);
            && (r.Failure? ==> a' == a && r.error == NoUsername)
            && (r.Success? ==>
                  && r.value in a'.users && a'.users[r.value].subject == Some(id.subject)
                  && OthersKept(a, a', r.value) && WellFormed(a')
                  && (a'.users[r.value].admin <==> RoleBefore(a, r.value))
                  && forall g :: MemberOf(a', r.value, g) <==> MemberOf(a, r.value, g))
  {
    ResolvedIsWellFormed(a, id, s1, s2, now);
  }

  lemma AdmittedEffect(a: Accounts, id: Identity, sync: bool, s1: Suffix, s2: Suffix, now: int)
    requires WellFormed(a) && Distinct(id.groups)
    ensures var (a', r) := Admitted(a, id, sync, s1, s2, now);
            && (r.Failure? ==> a' == a && r.error == NoUsername)
            && (r.Success? ==>
                  && r.value in a'.users && a'.users[r.value].subject == Some(id.subject)
                  && OthersKept(a, a', r.value)
                  && (forall g :: MemberOf(a', r.value, g) <==>
                      if sync then g in id.groups else MemberOf(a, r.value, g))
                  && (a'.users[r.value].admin <==>
                      if sync && id.admin.Some? then id.admin.value else RoleBefore(a, r.value)))
  {
    ResolvedEffect(a, id, s1, s2, now);
    var (a1, r) := Resolved(a, id, s1, s2, now);
    if r.Success? && sync {
      SyncEffect(a1, r.value, id);
    }
  }

  /** A browser sign-in: afterwards the account with that subject is in exactly the
      groups the token names, and, if an admin group is set, an administrator exactly
      if it is one of them. Nobody else changes, and a refusal changes nothing. */
  lemma SignInEffect(config: Config, a: Accounts, c: Claims, s1: Suffix, s2: Suffix, now: int)
    requires WellFormed(a)
    ensures var (a', r) := SignInIn(config, a, SignIn(c, s1, s2, now));
            && (r.Failure? ==>
                  && a' == a
                  && r.error == if !config.login then NotEnabled
                                else if c.groups == Some(Other) then MalformedGroups else NoUsername)
            && (r.Success? ==>
                  && config.login && c.groups != Some(Other)
                  && r.value in a'.users && a'.users[r.value].subject == Some(c.subject)
                  && OthersKept(a, a', r.value)
                  && (forall g :: MemberOf(a', r.value, g) <==> Claimed(c, g))
                  && (a'.users[r.value].admin <==>
                      if config.adminGroup != "" then Claimed(c, config.adminGroup) else RoleBefore(a, r.value)))
  {
    IdentityIsDistinct(config, c);
    if c.groups.Some? {
      ParseGroupsExactly(c.groups.value);
    }
    if SignInIdentity(config, c).Success? {
      AdmittedEffect(a, SignInIdentity(config, c).value, true, s1, s2, now);
    }
  }

  /** An access token does the same if it carries the claim; without it the groups
      and the role of the account stay. */
  lemma UseTokenEffect(config: Config, a: Accounts, c: Claims, s1: Suffix, s2: Suffix, now: int)
    requires WellFormed(a)
    ensures var (a', r) := UseTokenIn(config, a, UseToken(c, s1, s2, now));
            && (r.Failure? ==>
                  && a' == a
                  && r.error == if !config.tokens then NotEnabled
                                else if c.groups == Some(Other) then MalformedGroups else NoUsername)
            && (r.Success? ==>
                  && config.tokens && c.groups != Some(Other)
                  && r.value in a'.users && a'.users[r.value].subject == Some(c.subject)
                  && OthersKept(a, a', r.value)
                  && (forall g :: MemberOf(a', r.value, g) <==>
                      if c.groups.Some? then Claimed(c, g) else MemberOf(a, r.value, g))
                  && (a'.users[r.value].admin <==>
                      if c.groups.Some? && config.adminGroup != "" then Claimed(c, config.adminGroup)
                      else RoleBefore(a, r.value)))
  {
    IdentityIsDistinct(config, c);
    if c.groups.Some? {
      ParseGroupsExactly(c.groups.value);
    }
    if TokenIdentity(config, c).Success? {
      AdmittedEffect(a, TokenIdentity(config, c).value, c.groups.Some?, s1, s2, now);
    }
  }

  // ---------- New accounts ----------

  predicate Fits(name: string) {
    1 <= |Trim(name)| <= MAX_USERNAME_LENGTH
  }

  /** The name for a new account: the preferred one if it fits, then the email, then
      the subject, and the beginning of the subject if none does. */
  predicate FirstChoice(preferred: string, email: string, subject: string, name: string) {
    if Fits(preferred) then name == Trim(preferred)
    else if Fits(email) then name == Trim(email)
    else if Fits(subject) then name == Trim(subject)
    else name <= subject && |name| == if |subject| < MAX_USERNAME_LENGTH then |subject| else MAX_USERNAME_LENGTH
  }

  /** A name with room made for a random end. */
  predicate WithSuffix(name: string, suffix: Suffix, suffixed: string) {
    exists n | 0 <= n <= |name| :: suffixed == name[..n] + "-" + suffix && (n == |name| <= 57 || n == 57 < |name|)
  }

  lemma SuffixFits(id: Identity, suffix: Suffix)
    ensures FirstChoice(id.preferred, id.email, id.subject, ProvisionedUsername(id))
    ensures WithSuffix(ProvisionedUsername(id), suffix, SuffixedUsername(id, suffix))
    ensures |SuffixedUsername(id, suffix)| <= MAX_USERNAME_LENGTH
  {
    var name := ProvisionedUsername(id);
    var n := if |name| <= 57 then |name| else 57;
    assert Cut(name, 57) == name[..n];
  }

  lemma FirstOfThree(users: map<UserId, User>, x: string, y: string, z: string)
    ensures FirstFree(users, [x, y, z]) ==
              if !UsernameHeld(users, x) then Some(x)
              else if !UsernameHeld(users, y) then Some(y)
              else if !UsernameHeld(users, z) then Some(z) else None
  {
    assert [x, y, z][1..] == [y, z] && [y, z][1..] == [z] && [z][1..] == [];
    assert FirstFree(users, [z]) == if !UsernameHeld(users, z) then Some(z) else None;
    assert FirstFree(users, [y, z]) == if !UsernameHeld(users, y) then Some(y) else FirstFree(users, [z]);
  }

  /** An identity nobody has signed in with gets a new account, which is no
      administrator, under its first choice, or with one of two random ends if that
      is taken; only if all three are taken it gets none. */
  lemma NewAccount(a: Accounts, id: Identity, s1: Suffix, s2: Suffix, now: int)
      returns (first: string, second: string, third: string)
    requires forall u | u in a.users :: a.users[u].subject != Some(id.subject)
    ensures FirstChoice(id.preferred, id.email, id.subject, first)
    ensures WithSuffix(first, s1, second) && WithSuffix(first, s2, third)
    ensures var (a', r) := Resolved(a, id, s1, s2, now);
            var name := if !UsernameHeld(a.users, first) then first
                        else if !UsernameHeld(a.users, second) then second else third;
            if UsernameHeld(a.users, name) then r == Failure(NoUsername) && a' == a
            else
              && r == Success(a.nextUser) && a'.groups == a.groups && a'.members == a.members
              && a'.users == a.users[r.value := User(name, false, Some(id.issuer), Some(id.subject), now)]
  {
    first, second, third := ProvisionedUsername(id), SuffixedUsername(id, s1), SuffixedUsername(id, s2);
    SuffixFits(id, s1);
    SuffixFits(id, s2);
    LinkedExactlyIf(a.users, id.subject);
    FirstOfThree(a.users, first, second, third);
  }

  ghost function Entered(config: Config, a: Accounts, op: Op): (Accounts, Result<UserId, AccountError>)
    requires op.SignIn? || op.UseToken?
  {
    if op.SignIn? then SignInIn(config, a, op) else UseTokenIn(config, a, op)
  }

  /** A sync changes nothing of an account but its role. */
  lemma AdmittedAccount(a: Accounts, id: Identity, sync: bool, s1: Suffix, s2: Suffix, now: int)
    requires WellFormed(a)
    ensures var (a1, r1), (a', r) := Resolved(a, id, s1, s2, now), Admitted(a, id, sync, s1, s2, now);
            && r == r1
            && (r.Success? ==>
                  && r.value in a1.users && r.value in a'.users
                  && a'.users[r.value].(admin := false) == a1.users[r.value].(admin := false))
  {
    ResolvedIsWellFormed(a, id, s1, s2, now);
  }

  /** The first time anyone comes with a subject, in the browser or with an access
      token: the account records issuer, subject and time, under the first of the
      three names that is free. */
  lemma FirstEntry(config: Config, a: Accounts, op: Op) returns (first: string, second: string, third: string)
    requires (op.SignIn? || op.UseToken?) && WellFormed(a) && Entered(config, a, op).1.Success?
    requires forall u | u in a.users :: a.users[u].subject != Some(op.claims.subject)
    ensures FirstChoice(op.claims.preferred, op.claims.email, op.claims.subject, first)
    ensures WithSuffix(first, op.s1, second) && WithSuffix(first, op.s2, third)
    ensures var (a', r) := Entered(config, a, op);
            && r.value !in a.users && r.value in a'.users && !UsernameHeld(a.users, a'.users[r.value].username)
            && a'.users[r.value].(admin := false) ==
               User(if !UsernameHeld(a.users, first) then first
                    else if !UsernameHeld(a.users, second) then second else third,
                    false, Some(op.claims.issuer), Some(op.claims.subject), op.now)
  {
    var id := if op.SignIn? then SignInIdentity(config, op.claims).value else TokenIdentity(config, op.claims).value;
    first, second, third := NewAccount(a, id, op.s1, op.s2, op.now);
    AdmittedAccount(a, id, op.SignIn? || op.claims.groups.Some?, op.s1, op.s2, op.now);
  }

  // ---------- Administrators ----------

  predicate HasAdmin(a: Accounts) {
    exists u | u in a.users :: a.users[u].admin
  }

  /** Nobody but an administrator changes accounts by hand. */
  lemma OnlyAdminsAct(config: Config, a: Accounts, op: Op)
    requires op.CreateUser? || op.UpdateUser? || op.DeleteUser?
    requires !(op.current in a.users && a.users[op.current].admin)
    ensures Step(config, a, op) == a
  {
  }

  /** An account made by hand or at startup: no SSO account, with the name given. It
      is refused for a name that does not fit or is taken. */
  lemma LocalUserAnswer(a: Accounts, username: string, admin: bool, now: int)
    ensures var (a', r) := WithLocalUser(a, username, admin, now);
            if !Fits(username) then r == Failure(InvalidUsername) && a' == a
            else if UsernameHeld(a.users, Trim(username)) then r == Failure(UsernameTaken) && a' == a
            else
              && r == Success(a.nextUser) && a'.groups == a.groups && a'.members == a.members
              && a'.users == a.users[r.value := User(Trim(username), admin, None, None, now)]
  {
  }

  /** An administrator gives a new account the role asked for. */
  lemma CreateUserAnswer(a: Accounts, current: UserId, username: string, admin: bool, now: int)
    ensures var (a', r) := CreateUserIn(a, current, username, admin, now);
            && (r.Success? <==>
                  && current in a.users && a.users[current].admin && Fits(username)
                  && !UsernameHeld(a.users, Trim(username)))
            && (r.Failure? ==> a' == a)
            && (r.Success? ==>
                  && r.value in a'.users && a'.users[r.value].username == Trim(username)
                  && a'.users[r.value].admin == admin && !a'.users[r.value].Sso())
  {
    LocalUserAnswer(a, username, admin, now);
  }

  /** The startup makes an administrator exactly if there is none and the name can
      be had; afterwards there is one unless it cannot. */
  lemma EnsureAdminAnswer(a: Accounts, username: string, now: int)
    requires UsersOk(a.users, a.nextUser)
    ensures var (a', r) := EnsureAdminIn(a, username, now);
            && (HasAdmin(a) ==> a' == a && r == Failure(AdminExists))
            && (HasAdmin(a') <==> HasAdmin(a) || (Fits(username) && !UsernameHeld(a.users, Trim(username))))
            && forall u | u in a.users :: u in a'.users && a'.users[u] == a.users[u]
  {
    LocalUserAnswer(a, username, true, now);
    var (a', r) := EnsureAdminIn(a, username, now);
    if !HasAdmin(a) && r.Success? {
      assert r.value in a'.users && a'.users[r.value].admin;
    }
  }

  /** A role change by an administrator is refused for the first of these reasons;
      otherwise that user has the role, and nothing else changes. */
  lemma UpdateUserAnswer(config: Config, a: Accounts, current: UserId, user: UserId, admin: bool)
    requires current in a.users && a.users[current].admin
    ensures var (a', r) := UpdateUserIn(config, a, current, user, admin);
            && (r.Failure? ==> a' == a)
            && (r.Success? ==>
                  && r.value == user && user in a'.users && a'.users[user].admin == admin && OthersKept(a, a', user)
                  && a'.users[user].(admin := a.users[user].admin) == a.users[user])
            && if user == current && !admin then r == Failure(OwnRole)
               else if user !in a.users then r == Failure(UserNotFound)
               else if config.login && config.adminGroup != "" && a.users[user].subject.Some?
                   && a.users[user].admin != admin then r == Failure(RoleManaged)
               else r.Success?
  {
    var (a', r) := UpdateUserIn(config, a, current, user, admin);
    forall u, g ensures MemberOf(a', u, g) <==> MemberOf(a, u, g) {
    }
  }

  /** Administrators delete any account but their own, with its memberships. */
  lemma DeleteUserAnswer(a: Accounts, current: UserId, user: UserId)
    requires current in a.users && a.users[current].admin
    ensures var (a', r) := DeleteUserIn(a, current, user);
            && (r.Failure? ==> a' == a)
            && (r.Success? ==>
                user !in a'.users && OthersKept(a, a', user) && forall g :: !MemberOf(a', user, g))
            && if user == current then r == Failure(OwnAccount)
               else if user !in a.users then r == Failure(UserNotFound)
               else r.Success?
  {
    var (a', r) := DeleteUserIn(a, current, user);
    if r.Success? {
      forall u, g | u != user ensures MemberOf(a', u, g) <==> MemberOf(a, u, g) {
        assert forall id :: (u, id) in a'.members <==> (u, id) in a.members;
      }
    }
  }

  /** Without a role taken from groups, no step takes the last administrator away. */
  lemma StepKeepsAdmin(config: Config, a: Accounts, op: Op)
    requires WellFormed(a) && HasAdmin(a)
    requires config.adminGroup == "" || (!config.login && !config.tokens)
    ensures HasAdmin(Step(config, a, op))
  {
    var a' := Step(config, a, op);
    var u :| u in a.users && a.users[u].admin;
    match op
    case SignIn(c, s1, s2, now) =>
      SignInEffect(config, a, c, s1, s2, now);
      assert u in a'.users && a'.users[u].admin;
    case UseToken(c, s1, s2, now) =>
      UseTokenEffect(config, a, c, s1, s2, now);
      assert u in a'.users && a'.users[u].admin;
    case UpdateUser(current, _, _) => assert a' == a || (current in a'.users && a'.users[current].admin);
    case DeleteUser(current, _) => assert a' == a || (current in a'.users && a'.users[current].admin);
    case _ => assert u in a'.users && a'.users[u].admin;
  }

  lemma {:induction false} RunIsWellFormed(config: Config, a: Accounts, ops: seq<Op>)
    requires WellFormed(a)
    ensures WellFormed(Run(config, a, ops))
    decreases |ops|
  {
    if ops != [] {
      StepKeepsWellFormed(config, a, ops[0]);
      RunIsWellFormed(config, Step(config, a, ops[0]), ops[1..]);
    }
  }

  ghost predicate AlwaysKeepsAdmin(config: Config) {
    forall ops, op ::
      HasAdmin(Run(config, NO_ACCOUNTS, ops)) ==> HasAdmin(Step(config, Run(config, NO_ACCOUNTS, ops), op))
  }

  function Member(groups: seq<string>): Claims {
    Claims("issuer", "subject", "visitor", "", Some(List(groups)))
  }

  function Enter(config: Config, groups: seq<string>): Op {
    if config.login then SignIn(Member(groups), "000000", "000000", 0)
    else UseToken(Member(groups), "000000", "000000", 0)
  }

  /** Over every run, once there is an administrator there always is one, exactly if
      no group grants the role to those who sign in: by hand nobody can give up the
      role or the account, but a sign-in can end the role of the last one. */
  lemma AdminRemainsExactlyIf(config: Config)
    ensures AlwaysKeepsAdmin(config) <==> config.adminGroup == "" || (!config.login && !config.tokens)
  {
    if config.adminGroup == "" || (!config.login && !config.tokens) {
      forall ops, op | HasAdmin(Run(config, NO_ACCOUNTS, ops))
          ensures HasAdmin(Step(config, Run(config, NO_ACCOUNTS, ops), op)) {
        RunIsWellFormed(config, NO_ACCOUNTS, ops);
        StepKeepsAdmin(config, Run(config, NO_ACCOUNTS, ops), op);
      }
    } else {
      LastAdminGoes(config);
    }
  }

  lemma LastAdminGoes(config: Config)
    requires config.adminGroup != "" && (config.login || config.tokens)
    ensures !AlwaysKeepsAdmin(config)
  {
    var first, second := Enter(config, [config.adminGroup]), Enter(config, []);
    var a1 := Step(config, NO_ACCOUNTS, first);
    assert [first][1..] == [] && Run(config, a1, []) == a1;
    assert Run(config, NO_ACCOUNTS, [first]) == a1;
    OneAccount(config, NO_ACCOUNTS, [config.adminGroup]);
    OneAccount(config, a1, []);
    assert HasAdmin(a1) && !HasAdmin(Step(config, a1, second));
  }

  predicate OnlyAccount(a: Accounts) {
    a == NO_ACCOUNTS || (WellFormed(a) && a.users.Keys == {0} && a.users[0].subject == Some("subject"))
  }

  lemma ResolvesToFirst(a: Accounts, id: Identity, s1: Suffix, s2: Suffix, now: int)
    requires OnlyAccount(a) && id.subject == "subject"
    ensures Resolved(a, id, s1, s2, now).1 == Success(0)
  {
    LinkedExactlyIf(a.users, "subject");
    if a == NO_ACCOUNTS {
      var _, _, _ := NewAccount(a, id, s1, s2, now);
      assert forall name :: !UsernameHeld(a.users, name);
    } else {
      assert IsLinked(a.users, "subject", 0);
    }
  }

  lemma EntersAsFirst(config: Config, a: Accounts, groups: seq<string>)
    requires (config.login || config.tokens) && OnlyAccount(a)
    ensures var c := Member(groups);
            && (config.login ==> SignInIn(config, a, SignIn(c, "000000", "000000", 0)).1 == Success(0))
            && (config.tokens ==> UseTokenIn(config, a, UseToken(c, "000000", "000000", 0)).1 == Success(0))
  {
    var c := Member(groups);
    ParseGroupsExactly(c.groups.value);
    ResolvesToFirst(a, SignInIdentity(config, c).value, "000000", "000000", 0);
    ResolvesToFirst(a, TokenIdentity(config, c).value, "000000", "000000", 0);
  }

  /** Whoever enters is the only account, with the role its groups grant. */
  lemma OneAccount(config: Config, a: Accounts, groups: seq<string>)
    requires config.adminGroup != "" && (config.login || config.tokens) && OnlyAccount(a)
    ensures var a' := Step(config, a, Enter(config, groups));
            OnlyAccount(a') && a' != NO_ACCOUNTS && (a'.users[0].admin <==> config.adminGroup in groups)
  {
    StepKeepsWellFormed(config, a, Enter(config, groups));
    EntersAsFirst(config, a, groups);
    if config.login {
      SignInEffect(config, a, Member(groups), "000000", "000000", 0);
    } else {
      UseTokenEffect(config, a, Member(groups), "000000", "000000", 0);
    }
  }
}
