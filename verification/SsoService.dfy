/** The account store as the source has it: rows changed in place. */
module SsoService {
  import opened Wrappers
  import opened SsoAccounts
  import opened SsoLaws

  /** One name more finds its group, if there is one. */
  lemma IdsNamedAppend(groups: Groups, names: seq<string>, name: string)
    requires GroupsOk(groups) && name !in names
    ensures |IdsNamed(groups, names + [name])| == |IdsNamed(groups, names)| + if GroupExists(groups, name) then 1 else 0
  {
    if g :| g in groups.names && groups.names[g] == name {
      assert IdsNamed(groups, names + [name]) == IdsNamed(groups, names) + {g};
    } else {
      assert IdsNamed(groups, names + [name]) == IdsNamed(groups, names);
    }
  }

  lemma MissingAppend(groups: Groups, names: seq<string>, name: string)
    ensures Missing(groups, names + [name]) == Missing(groups, names) + if GroupExists(groups, name) then [] else [name]
  {
    assert (names + [name])[..|names|] == names;
  }

  /** Every name has one group or is missing, so counting finds out. */
  lemma {:induction false} FoundAndMissing(groups: Groups, names: seq<string>)
    requires GroupsOk(groups) && Distinct(names)
    ensures |IdsNamed(groups, names)| + |Missing(groups, names)| == |names|
  {
    if names == [] {
      assert IdsNamed(groups, names) == {};
    } else {
      var before, last := names[..|names| - 1], names[|names| - 1];
      assert names == before + [last];
      assert last !in before;
      FoundAndMissing(groups, before);
      IdsNamedAppend(groups, before, last);
      MissingAppend(groups, before, last);
    }
  }

  class AuthService {
    const config: Config
    var users: map<UserId, User>
    var nextUser: nat
    var groups: Groups
    var members: set<(UserId, GroupId)>

    function State(): Accounts
      reads this
    {
      Accounts(users, nextUser, groups, members)
    }

    constructor (config: Config)
      ensures this.config == config && State() == NO_ACCOUNTS
    {
      this.config := config;
      users, nextUser, groups, members := map[], 0, Groups(map[], 0), {};
    }

    method EnsureGroups(names: seq<string>) returns (ids: set<GroupId>)
      requires GroupsOk(groups) && Distinct(names)
      modifies this`groups
      ensures groups == Ensured(old(groups), names) && ids == IdsNamed(groups, names)
    {
      ids := set g | g in groups.names && groups.names[g] in names;
      FoundAndMissing(groups, names);
      if |ids| == |names| {
        return;
      }
      var missing: seq<string> := [];
      for i := 0 to |names|
        invariant missing == Missing(groups, names[..i])
      {
        assert names[..i + 1][..i] == names[..i];
        if !GroupExists(groups, names[i]) {
          missing := missing + [names[i]];
        }
      }
      assert names[..|names|] == names;
      for i := 0 to |missing|
        invariant groups == Added(old(groups), missing[..i])
      {
        assert missing[..i + 1][..i] == missing[..i];
        groups := Groups(groups.names[groups.next := missing[i]], groups.next + 1);
      }
      assert missing[..|missing|] == missing;
      ids := set g | g in groups.names && groups.names[g] in names;
    }

    method SyncGroups(user: UserId, id: Identity)
      requires user in users && GroupsOk(groups) && Distinct(id.groups)
      modifies this
      ensures State() == Synced(old(State()), user, id)
    {
      var adminChanged := id.admin.Some? && users[user].admin != id.admin.value;
      var ids := EnsureGroups(id.groups);
      members := set m | m in members && (m.0 != user || m.1 in ids);
      members := members + set g | g in ids :: (user, g);
      if adminChanged {
        users := users[user := users[user].(admin := id.admin.value)];
      } else {
        assert users[user := users[user]] == users;
      }
    }

    /** The first row by creation time and id. */
    method Find(subject: string) returns (r: Option<UserId>)
      ensures r == Linked(users, subject)
    {
      var rest := users.Keys;
      r := None;
      LinkedExactlyIf(users, subject);
      while rest != {}
        invariant rest <= users.Keys
        invariant r.None? ==> forall u | u in users && u !in rest :: users[u].subject != Some(subject)
        invariant r.Some? ==> r.value in users && users[r.value].subject == Some(subject)
        invariant r.Some? ==> forall u | u in users && u !in rest && users[u].subject == Some(subject) ::
            OlderOrSame(users, r.value, u)
        decreases |rest|
      {
        var u :| u in rest;
        rest := rest - {u};
        if users[u].subject == Some(subject) && (r.None? || !OlderOrSame(users, r.value, u)) {
          r := Some(u);
        }
      }
    }

    /** Up to three attempts: a taken username gets a random suffix. */
    method UserForIdentity(id: Identity, s1: Suffix, s2: Suffix, now: int) returns (r: Result<UserId, AccountError>)
      modifies this
      ensures (State(), r) == Resolved(old(State()), id, s1, s2, now)
    {
      var found := Find(id.subject);
      if found.Some? {
        return Success(found.value);
      }
      var username := ProvisionedUsername(id);
      var attempt := 0;
      while true
        invariant 0 <= attempt <= 2 && State() == old(State())
        invariant username == Candidates(id, s1, s2)[attempt]
        invariant FirstFree(users, Candidates(id, s1, s2)) == FirstFree(users, Candidates(id, s1, s2)[attempt..])
        decreases 2 - attempt
      {
        if !UsernameHeld(users, username) {
          users := users[nextUser := User(username, false, Some(id.issuer), Some(id.subject), now)];
          r := Success(nextUser);
          nextUser := nextUser + 1;
          return;
        }
        if attempt == 2 {
          assert Candidates(id, s1, s2)[2..][1..] == [];
          return Failure(NoUsername);
        }
        // Looked up again in the source; one sign-in at a time finds nothing new.
        var existing := Find(id.subject);
        assert existing.None?;
        username := SuffixedUsername(id, if attempt == 0 then s1 else s2);
        assert Candidates(id, s1, s2)[attempt..][1..] == Candidates(id, s1, s2)[attempt + 1..];
        attempt := attempt + 1;
      }
    }

    /** A browser sign-in with a verified ID token. */
    method LoginOidc(claims: Claims, s1: Suffix, s2: Suffix, now: int) returns (r: Result<UserId, AccountError>)
      requires WellFormed(State())
      modifies this
      ensures (State(), r) == SignInIn(config, old(State()), SignIn(claims, s1, s2, now))
      ensures r.Success? ==>
                && r.value in users && users[r.value].subject == Some(claims.subject)
                && (forall g :: MemberOf(State(), r.value, g) <==> Claimed(claims, g))
                && (config.adminGroup != "" ==> (users[r.value].admin <==> Claimed(claims, config.adminGroup)))
    {
      SignInEffect(config, State(), claims, s1, s2, now);
      if !config.login {
        return Failure(NotEnabled);
      }
      var id := SignInIdentity(config, claims);
      if id.Failure? {
        return Failure(id.error);
      }
      IdentityIsDistinct(config, claims);
      ResolvedIsWellFormed(State(), id.value, s1, s2, now);
      r := UserForIdentity(id.value, s1, s2, now);
      if r.Success? {
        SyncGroups(r.value, id.value);
      }
    }

    /** A request with a verified access token that is not in the cache. */
    method UserForAccessToken(claims: Claims, s1: Suffix, s2: Suffix, now: int)
          returns (r: Result<UserId, AccountError>)
      requires WellFormed(State())
      modifies this
      ensures (State(), r) == UseTokenIn(config, old(State()), UseToken(claims, s1, s2, now))
      ensures r.Success? && claims.groups.Some? ==>
                && r.value in users && users[r.value].subject == Some(claims.subject)
                && (forall g :: MemberOf(State(), r.value, g) <==> Claimed(claims, g))
                && (config.adminGroup != "" ==> (users[r.value].admin <==> Claimed(claims, config.adminGroup)))
    {
      UseTokenEffect(config, State(), claims, s1, s2, now);
      if !config.tokens {
        return Failure(NotEnabled);
      }
      var id := TokenIdentity(config, claims);
      if id.Failure? {
        return Failure(id.error);
      }
      IdentityIsDistinct(config, claims);
      ResolvedIsWellFormed(State(), id.value, s1, s2, now);
      r := UserForIdentity(id.value, s1, s2, now);
      if r.Success? && claims.groups.Some? {
        SyncGroups(r.value, id.value);
      }
    }

    method HandleUpdateUser(current: UserId, user: UserId, admin: bool) returns (r: Result<UserId, AccountError>)
      modifies this
      ensures (State(), r) == UpdateUserIn(config, old(State()), current, user, admin)
    {
      if current !in users || !users[current].admin {
        return Failure(Forbidden);
      }
      if user == current && !admin {
        return Failure(OwnRole);
      }
      if user !in users {
        return Failure(UserNotFound);
      }
      if config.ManagesAdminRole() {
        if users[user].Sso() && users[user].admin != admin {
          return Failure(RoleManaged);
        }
      }
      users := users[user := users[user].(admin := admin)];
      r := Success(user);
    }
  }
}
