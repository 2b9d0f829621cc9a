/**
 * What the reconciliation of one org (`update_sign_users`) does with each directory user: skip
 * it, exclude it, reactivate its account, create an account, or update an existing one; and
 * what a run of those plans accounts for — the connector calls and the engine's user sets.
 */
module SignSyncPlans {
  import opened Wrappers
  import opened SignTypes
  import opened SignLookups
  import opened SignUserDiff
  import opened SignNewUser

  /** The remote users whose status is (`active`) or is not (`!active`) other than INACTIVE, keyed by email; a later user wins. */
  function UsersByEmail(users: seq<SignUser>, active: bool): (r: map<string, SignUser>)
    ensures forall e :: e in r ==> r[e].email == e && (r[e].status != "INACTIVE") == active && r[e] in users
    decreases |users|
  {
    if users == [] then map[]
    else
      var u := users[|users| - 1];
      var m := UsersByEmail(users[..|users| - 1], active);
      if (u.status != "INACTIVE") == active then m[u.email := u] else m
  }

  /** Every remote user of the wanted status is found under its email. */
  lemma {:induction false} UsersByEmailKeys(users: seq<SignUser>, active: bool)
    ensures forall e :: e in UsersByEmail(users, active) <==>
      exists i :: 0 <= i < |users| && users[i].email == e && (users[i].status != "INACTIVE") == active
    decreases |users|
  {
    if users != [] {
      var prefix := users[..|users| - 1];
      assert forall i :: 0 <= i < |prefix| ==> prefix[i] == users[i];
      UsersByEmailKeys(prefix, active);
    }
  }

  /** The groups a synced user is assigned in the org: its mapped groups there, or else the org's default group. */
  function AssignmentGroups(dirUser: ResolvedUser, org: string, defaultGroup: GroupInfo): (r: seq<AdobeGroup>)
    ensures r != [] && forall g :: g in r ==> g.umapiName == org
    ensures OrgGroups(dirUser.signGroups, org) != [] ==> forall g :: g in r <==> g in dirUser.signGroups && g.umapiName == org
    ensures OrgGroups(dirUser.signGroups, org) == [] ==> r == [AdobeGroup(defaultGroup.groupName, org)]
  {
    var groups := OrgGroups(dirUser.signGroups, org);
    if groups != [] then groups else [AdobeGroup(defaultGroup.groupName, org)]
  }

  /** What the engine has read about one org before reconciling it. */
  datatype OrgState = OrgState(
    activeUsers: map<string, SignUser>,
    inactiveUsers: map<string, SignUser>,
    createUsers: bool,
    userGroups: map<string, seq<UserGroupInfo>>,
    signGroups: map<string, GroupInfo>,
    defaultGroup: GroupInfo,
    targetGroups: set<AdobeGroup>)

  /** What the reconciliation of one org does with one directory user. */
  datatype UserPlan =
    | NotSynced
    | Excluded(email: string)
    | Reactivate(id: string)
    | Create(newUser: NewUser)
    | Update(email: string, id: string, updates: UserUpdates)

  /**
   * The plan for one directory user, or None when its reconciliation raises: users not mapped
   * to the org are skipped; a user without an active remote account is excluded when the
   * connector does not create users, reactivated when its account is inactive, and created
   * otherwise; a user with an active account gets its account and group updates.
   */
  ghost function PlanFor(options: EngineOptions, org: string, key: string, dirUser: ResolvedUser, st: OrgState): (r: Option<UserPlan>)
    ensures r.None? ==> ShouldSync(dirUser, org) && (key in st.activeUsers || (st.createUsers && key !in st.inactiveUsers))
    ensures r.Some? && r.value.Update? ==> key in st.activeUsers && r.value.id == st.activeUsers[key].id
    ensures r.Some? && r.value.Excluded? ==> r.value.email == dirUser.email && !st.createUsers
  {
    if !ShouldSync(dirUser, org) then Some(NotSynced)
    else if key !in st.activeUsers then
      if !st.createUsers then Some(Excluded(dirUser.email))
      else if key in st.inactiveUsers then Some(Reactivate(st.inactiveUsers[key].id))
      else
        var request := NewUserRequest(options.umg, dirUser, AssignmentGroups(dirUser, org, st.defaultGroup),
                                      st.signGroups, options.primaryGroupRules);
        if request.Success? then Some(Create(request.value)) else None
    else
      var user := st.activeUsers[key];
      var outcome := ExistingUserOutcome(options.umg, org, user, dirUser, st.userGroups, st.signGroups,
                                         st.targetGroups, options.primaryGroupRules);
      if outcome.Some? then Some(Update(user.email, user.id, outcome.value)) else None
  }

  /** The body of the loop of `update_sign_users` for one directory user. */
  method PlanUser(options: EngineOptions, org: string, key: string, dirUser: ResolvedUser, st: OrgState)
    returns (r: Result<UserPlan, SyncError>)
    ensures r.Success? <==> PlanFor(options, org, key, dirUser, st).Some?
    ensures r.Success? ==> r.value == PlanFor(options, org, key, dirUser, st).value
  {
    if !ShouldSync(dirUser, org) {
      return Success(NotSynced);
    }
    if key !in st.activeUsers {
      if !st.createUsers {
        return Success(Excluded(dirUser.email));
      }
      if key in st.inactiveUsers {
        return Success(Reactivate(st.inactiveUsers[key].id));
      }
      var request := InsertNewUser(options.umg, dirUser, AssignmentGroups(dirUser, org, st.defaultGroup), st.signGroups,
                                   options.primaryGroupRules);
      if request.Failure? {
        return Failure(request.error);
      }
      return Success(Create(request.value));
    }
    var user := st.activeUsers[key];
    var updates := ExistingUserUpdates(options.umg, org, user, dirUser, st.userGroups, st.signGroups, st.targetGroups,
                                       options.primaryGroupRules);
    if updates.Failure? {
      return Failure(updates.error);
    }
    return Success(Update(user.email, user.id, updates.value));
  }

  /**
   * What a plan reveals without its group updates: the kind the user's situation calls for,
   * the emails recorded, and the account-admin change.
   */
  ghost predicate Shaped(p: UserPlan, org: string, key: string, dirUser: ResolvedUser, st: OrgState) {
    && (!ShouldSync(dirUser, org) ==> p == NotSynced)
    && (ShouldSync(dirUser, org) && key !in st.activeUsers && !st.createUsers ==> p == Excluded(dirUser.email))
    && (ShouldSync(dirUser, org) && key !in st.activeUsers && st.createUsers && key in st.inactiveUsers ==>
          p == Reactivate(st.inactiveUsers[key].id))
    && (ShouldSync(dirUser, org) && key !in st.activeUsers && st.createUsers && key !in st.inactiveUsers ==>
          p.Create? && p.newUser.account == NewAccount(dirUser))
    && (ShouldSync(dirUser, org) && key in st.activeUsers ==>
          && p.Update? && p.email == st.activeUsers[key].email && p.id == st.activeUsers[key].id
          && p.updates.account == AccountAdminUpdate(st.activeUsers[key], dirUser.isAdmin))
  }

  /** Every plan the reconciliation makes has the shape of the user's situation. */
  lemma PlanForShaped(options: EngineOptions, org: string, key: string, dirUser: ResolvedUser, st: OrgState)
    requires PlanFor(options, org, key, dirUser, st).Some?
    ensures Shaped(PlanFor(options, org, key, dirUser, st).value, org, key, dirUser, st)
  {
    if ShouldSync(dirUser, org) && key !in st.activeUsers && st.createUsers && key !in st.inactiveUsers {
      NewUserHasOnePrimary(options.umg, dirUser, AssignmentGroups(dirUser, org, st.defaultGroup), st.signGroups,
                           options.primaryGroupRules);
    }
  }

  /** The plans for the directory users in table order, or None when one of them raises. */
  ghost function Plans(options: EngineOptions, org: string, keys: seq<string>, dirUsers: map<string, ResolvedUser>,
                       st: OrgState): (r: Option<seq<UserPlan>>)
    requires forall i :: 0 <= i < |keys| ==> keys[i] in dirUsers
    ensures r.Some? ==> |r.value| == |keys|
    decreases |keys|
  {
    if keys == [] then Some([])
    else
      var last := keys[|keys| - 1];
      match Plans(options, org, keys[..|keys| - 1], dirUsers, st)
      case None => None
      case Some(init) =>
        match PlanFor(options, org, last, dirUsers[last], st)
        case None => None
        case Some(p) => Some(init + [p])
  }

  /** The reconciliation succeeds exactly when every user's plan does, and each plan is that user's. */
  lemma {:induction false} PlansAreEach(options: EngineOptions, org: string, keys: seq<string>,
                                        dirUsers: map<string, ResolvedUser>, st: OrgState)
    requires forall i :: 0 <= i < |keys| ==> keys[i] in dirUsers
    ensures Plans(options, org, keys, dirUsers, st).Some? <==>
      forall i :: 0 <= i < |keys| ==> PlanFor(options, org, keys[i], dirUsers[keys[i]], st).Some?
    ensures Plans(options, org, keys, dirUsers, st).Some? ==> forall i :: 0 <= i < |keys| ==>
      PlanFor(options, org, keys[i], dirUsers[keys[i]], st) == Some(Plans(options, org, keys, dirUsers, st).value[i])
    decreases |keys|
  {
    if keys != [] {
      var prefix := keys[..|keys| - 1];
      assert forall i :: 0 <= i < |prefix| ==> prefix[i] == keys[i];
      PlansAreEach(options, org, prefix, dirUsers, st);
    }
  }

  /** Once a user's reconciliation raises, the reconciliation of the whole table does. */
  lemma PlansFailFirst(options: EngineOptions, org: string, keys: seq<string>, dirUsers: map<string, ResolvedUser>,
                       st: OrgState, i: nat)
    requires forall j :: 0 <= j < |keys| ==> keys[j] in dirUsers
    requires i < |keys| && PlanFor(options, org, keys[i], dirUsers[keys[i]], st).None?
    ensures Plans(options, org, keys, dirUsers, st).None?
  {
    PlansAreEach(options, org, keys, dirUsers, st);
  }

  /** Every plan of a successful reconciliation has the shape of its user's situation. */
  lemma PlansShaped(options: EngineOptions, org: string, keys: seq<string>, dirUsers: map<string, ResolvedUser>, st: OrgState)
    requires forall i :: 0 <= i < |keys| ==> keys[i] in dirUsers
    requires Plans(options, org, keys, dirUsers, st).Some?
    ensures forall i :: 0 <= i < |keys| ==>
      Shaped(Plans(options, org, keys, dirUsers, st).value[i], org, keys[i], dirUsers[keys[i]], st)
  {
    PlansAreEach(options, org, keys, dirUsers, st);
    forall i | 0 <= i < |keys|
      ensures Shaped(Plans(options, org, keys, dirUsers, st).value[i], org, keys[i], dirUsers[keys[i]], st)
    {
      PlanForShaped(options, org, keys[i], dirUsers[keys[i]], st);
    }
  }

  /** The connector calls one org's reconciliation makes, in order. */
  datatype SyncCalls = SyncCalls(
    reactivations: seq<string>,
    creations: seq<NewUser>,
    accountUpdates: seq<SignUser>,
    groupUpdates: seq<(string, map<string, UserGroupInfo>)>)

  /** The calls and the engine's user sets that a run of plans accounts for. */
  datatype OrgOutcome = OrgOutcome(calls: SyncCalls, excluded: set<string>, created: set<string>, roleUpdates: set<string>)

  /** Nothing called, nobody recorded. */
  const NoOutcome := OrgOutcome(SyncCalls([], [], [], []), {}, {}, {})

  /**
   * One plan's contribution: an exclusion or a creation records the directory email, a
   * reactivation and a creation call the connector at once, and an update queues the account
   * change (recording the remote email) and the group changes when there are any.
   */
  function Record(o: OrgOutcome, p: UserPlan): (r: OrgOutcome)
    ensures o.excluded <= r.excluded && o.created <= r.created && o.roleUpdates <= r.roleUpdates
    ensures o.calls.reactivations <= r.calls.reactivations && o.calls.creations <= r.calls.creations
    ensures o.calls.accountUpdates <= r.calls.accountUpdates && o.calls.groupUpdates <= r.calls.groupUpdates
    ensures p.NotSynced? ==> r == o
  {
    match p
    case NotSynced => o
    case Excluded(email) => o.(excluded := o.excluded + {email})
    case Reactivate(id) => o.(calls := o.calls.(reactivations := o.calls.reactivations + [id]))
    case Create(nu) =>
      o.(calls := o.calls.(creations := o.calls.creations + [nu]), created := o.created + {nu.account.email})
    case Update(email, id, u) =>
      var calls := o.calls.(accountUpdates := o.calls.accountUpdates + (if u.account.Some? then [u.account.value] else []),
                            groupUpdates := o.calls.groupUpdates + (if u.groups != map[] then [(id, u.groups)] else []));
      o.(calls := calls, roleUpdates := if u.account.Some? then o.roleUpdates + {email} else o.roleUpdates)
  }

  /** What a run of plans accounts for, in order. */
  function Outcome(plans: seq<UserPlan>): (r: OrgOutcome)
    ensures forall e :: e in r.excluded <==> exists i :: 0 <= i < |plans| && plans[i] == Excluded(e)
    ensures forall id :: id in r.calls.reactivations <==> exists i :: 0 <= i < |plans| && plans[i] == Reactivate(id)
    ensures forall nu :: nu in r.calls.creations <==> exists i :: 0 <= i < |plans| && plans[i] == Create(nu)
    ensures forall e :: e in r.created <==> exists nu :: nu in r.calls.creations && nu.account.email == e
    decreases |plans|
  {
    if plans == [] then NoOutcome
    else
      var n := |plans| - 1;
      var o := Outcome(plans[..n]);
      RecordAccounts(plans[..n], o, plans[n]);
      assert plans[..n] + [plans[n]] == plans;
      Record(o, plans[n])
  }

  /** `o` accounts for exactly the exclusions, reactivations and creations of `plans`. */
  ghost predicate AccountsFor(o: OrgOutcome, plans: seq<UserPlan>) {
    && (forall e :: e in o.excluded <==> exists i :: 0 <= i < |plans| && plans[i] == Excluded(e))
    && (forall id :: id in o.calls.reactivations <==> exists i :: 0 <= i < |plans| && plans[i] == Reactivate(id))
    && (forall nu :: nu in o.calls.creations <==> exists i :: 0 <= i < |plans| && plans[i] == Create(nu))
    && (forall e :: e in o.created <==> exists nu :: nu in o.calls.creations && nu.account.email == e)
  }

  /** Recording one more plan accounts for it too. */
  lemma RecordAccounts(plans: seq<UserPlan>, o: OrgOutcome, p: UserPlan)
    requires AccountsFor(o, plans)
    ensures AccountsFor(Record(o, p), plans + [p])
  {
    var ps := plans + [p];
    assert forall i :: 0 <= i < |plans| ==> ps[i] == plans[i];
    assert ps[|plans|] == p;
  }

  /** The directory users that the org syncs. */
  function SyncedKeys(keys: seq<string>, dirUsers: map<string, ResolvedUser>, org: string): (r: set<string>)
    requires forall i :: 0 <= i < |keys| ==> keys[i] in dirUsers
    ensures forall k :: k in r <==> k in keys && ShouldSync(dirUsers[k], org)
  {
    set i | 0 <= i < |keys| && ShouldSync(dirUsers[keys[i]], org) :: keys[i]
  }

  /** The active remote users with no synced directory user under their email. */
  function SignOnly(activeUsers: map<string, SignUser>, synced: set<string>): (r: map<string, SignUser>)
    ensures r.Keys == activeUsers.Keys - synced
    ensures forall e :: e in r ==> r[e] == activeUsers[e]
  {
    map e | e in activeUsers && e !in synced :: activeUsers[e]
  }

  /** One more user planned extends the plans of the users before it. */
  lemma PlansSnoc(options: EngineOptions, org: string, keys: seq<string>, dirUsers: map<string, ResolvedUser>,
                  st: OrgState, i: nat, plans: seq<UserPlan>, p: UserPlan)
    requires i < |keys| && forall j :: 0 <= j < |keys| ==> keys[j] in dirUsers
    requires Plans(options, org, keys[..i], dirUsers, st) == Some(plans)
    requires PlanFor(options, org, keys[i], dirUsers[keys[i]], st) == Some(p)
    ensures Plans(options, org, keys[..i + 1], dirUsers, st) == Some(plans + [p])
  {
    assert keys[..i + 1][..i] == keys[..i];
  }

  /** One more user read extends the synced users of the users before it. */
  lemma SyncedKeysSnoc(keys: seq<string>, dirUsers: map<string, ResolvedUser>, org: string, i: nat)
    requires i < |keys| && forall j :: 0 <= j < |keys| ==> keys[j] in dirUsers
    ensures SyncedKeys(keys[..i + 1], dirUsers, org)
      == SyncedKeys(keys[..i], dirUsers, org) + (if ShouldSync(dirUsers[keys[i]], org) then {keys[i]} else {})
  {
    assert keys[..i + 1] == keys[..i] + [keys[i]];
  }

  /**
   * What the reconciliation has done when the user `key` raises, given the outcome `o` of the
   * users before it. The reactivations and creations were made, and the sets recorded, as each
   * user was handled; the raising user's account-role change was recorded before its groups
   * were reconciled (sign.py:210). The queued account and group updates are never sent.
   */
  function Interrupt(o: OrgOutcome, org: string, key: string, dirUser: ResolvedUser, st: OrgState): (r: OrgOutcome)
    ensures r.calls.reactivations == o.calls.reactivations && r.calls.creations == o.calls.creations
    ensures r.calls.accountUpdates == [] && r.calls.groupUpdates == []
    ensures r.excluded == o.excluded && r.created == o.created
    ensures RoleChanged(org, key, dirUser, st) ==> r.roleUpdates == o.roleUpdates + {st.activeUsers[key].email}
    ensures !RoleChanged(org, key, dirUser, st) ==> r.roleUpdates == o.roleUpdates
  {
    var roles := if ShouldSync(dirUser, org) && key in st.activeUsers && st.activeUsers[key].isAccountAdmin != dirUser.isAdmin
                 then o.roleUpdates + {st.activeUsers[key].email} else o.roleUpdates;
    OrgOutcome(SyncCalls(o.calls.reactivations, o.calls.creations, [], []), o.excluded, o.created, roles)
  }

  /**
   * What the loop over `keys` has done when it stops at the first user whose plan raises;
   * None when no user raises.
   */
  ghost function Stopped(options: EngineOptions, org: string, keys: seq<string>, dirUsers: map<string, ResolvedUser>,
                         st: OrgState): (r: Option<OrgOutcome>)
    requires forall i :: 0 <= i < |keys| ==> keys[i] in dirUsers
    ensures r.Some? <==> Plans(options, org, keys, dirUsers, st).None?
    decreases |keys|
  {
    if keys == [] then None
    else
      var init := keys[..|keys| - 1];
      var last := keys[|keys| - 1];
      match Stopped(options, org, init, dirUsers, st)
      case Some(d) => Some(d)
      case None =>
        var done := Outcome(Plans(options, org, init, dirUsers, st).value);
        match PlanFor(options, org, last, dirUsers[last], st)
        case None => Some(Interrupt(done, org, last, dirUsers[last], st))
        case Some(_) => None
  }

  /** What the loop over `keys` did: the outcome of every plan, or what it did before the user that raised. */
  ghost function Done(options: EngineOptions, org: string, keys: seq<string>, dirUsers: map<string, ResolvedUser>,
                      st: OrgState): OrgOutcome
    requires forall i :: 0 <= i < |keys| ==> keys[i] in dirUsers
  {
    match Plans(options, org, keys, dirUsers, st)
    case Some(plans) => Outcome(plans)
    case None => Stopped(options, org, keys, dirUsers, st).value
  }

  /**
   * The loop stops at the first user `keys[i]` whose plan raises, having done what the users
   * before it did: their reactivations and creations, and their sets, interrupted at `keys[i]`.
   */
  lemma {:induction false} StoppedAt(options: EngineOptions, org: string, keys: seq<string>, dirUsers: map<string, ResolvedUser>,
                                     st: OrgState, i: nat)
    requires forall j :: 0 <= j < |keys| ==> keys[j] in dirUsers
    requires i < |keys| && Plans(options, org, keys[..i], dirUsers, st).Some?
    requires PlanFor(options, org, keys[i], dirUsers[keys[i]], st).None?
    ensures Stopped(options, org, keys, dirUsers, st)
      == Some(Interrupt(Outcome(Plans(options, org, keys[..i], dirUsers, st).value), org, keys[i], dirUsers[keys[i]], st))
    decreases |keys|
  {
    var init := keys[..|keys| - 1];
    if i == |keys| - 1 {
      assert init == keys[..i];
    } else {
      assert init[..i] == keys[..i] && init[i] == keys[i];
      StoppedAt(options, org, init, dirUsers, st, i);
    }
  }

  /**
   * The loop of `update_sign_users` over the directory table, in table order: each user's plan
   * is made and accounted for, and the users the org syncs are collected; the first user whose
   * reconciliation raises stops it. On success it also gives the org's remote-only users.
   * `done` is what the loop did: the whole outcome on success, and on failure what was done
   * before the exception.
   */
  method ReconcileOrg(options: EngineOptions, org: string, keys: seq<string>, dirUsers: map<string, ResolvedUser>, st: OrgState)
    returns (r: Result<OrgOutcome, SyncError>, signOnly: map<string, SignUser>, done: OrgOutcome)
    requires forall i :: 0 <= i < |keys| ==> keys[i] in dirUsers
    ensures r.Success? <==> Plans(options, org, keys, dirUsers, st).Some?
    ensures r.Success? ==> r.value == Outcome(Plans(options, org, keys, dirUsers, st).value)
    ensures r.Success? ==> signOnly == SignOnly(st.activeUsers, SyncedKeys(keys, dirUsers, org))
    ensures done == Done(options, org, keys, dirUsers, st)
    ensures r.Failure? ==> Stopped(options, org, keys, dirUsers, st) == Some(done)
  {
    var outcome := NoOutcome;
    var synced: set<string> := {};
    ghost var plans: seq<UserPlan> := [];
    for i := 0 to |keys|
      invariant Plans(options, org, keys[..i], dirUsers, st) == Some(plans)
      invariant outcome == Outcome(plans)
      invariant synced == SyncedKeys(keys[..i], dirUsers, org)
    {
      var key := keys[i];
      var plan := PlanUser(options, org, key, dirUsers[key], st);
      if plan.Failure? {
        PlansFailFirst(options, org, keys, dirUsers, st, i);
        StoppedAt(options, org, keys, dirUsers, st, i);
        return Failure(plan.error), map[], Interrupt(outcome, org, key, dirUsers[key], st);
      }
      SyncedKeysSnoc(keys, dirUsers, org, i);
      if ShouldSync(dirUsers[key], org) {
        synced := synced + {key};
      }
      PlansSnoc(options, org, keys, dirUsers, st, i, plans, plan.value);
      assert (plans + [plan.value])[..|plans|] == plans;
      outcome := Record(outcome, plan.value);
      plans := plans + [plan.value];
    }
    assert keys[..|keys|] == keys;
    return Success(outcome), SignOnly(st.activeUsers, synced), outcome;
  }

  /** A synced user whose active account's admin role differs from the directory's. */
  ghost predicate RoleChanged(org: string, key: string, dirUser: ResolvedUser, st: OrgState) {
    ShouldSync(dirUser, org) && key in st.activeUsers && st.activeUsers[key].isAccountAdmin != dirUser.isAdmin
  }

  /** The remote emails of the users among `keys` whose role changed. */
  ghost function RoleChangedEmails(org: string, keys: seq<string>, dirUsers: map<string, ResolvedUser>, st: OrgState): set<string>
    requires forall i :: 0 <= i < |keys| ==> keys[i] in dirUsers
  {
    set i | 0 <= i < |keys| && RoleChanged(org, keys[i], dirUsers[keys[i]], st) :: st.activeUsers[keys[i]].email
  }

  /** The directory emails of the synced users among `keys` that have no active account, when users are not created. */
  ghost function UncreatableEmails(org: string, keys: seq<string>, dirUsers: map<string, ResolvedUser>, st: OrgState): set<string>
    requires forall i :: 0 <= i < |keys| ==> keys[i] in dirUsers
  {
    set i | 0 <= i < |keys| && !st.createUsers && ShouldSync(dirUsers[keys[i]], org) && keys[i] !in st.activeUsers
      :: dirUsers[keys[i]].email
  }

  /** The directory emails of the synced users among `keys` with no account at all, when users are created. */
  ghost function NewEmails(org: string, keys: seq<string>, dirUsers: map<string, ResolvedUser>, st: OrgState): set<string>
    requires forall i :: 0 <= i < |keys| ==> keys[i] in dirUsers
  {
    set i | 0 <= i < |keys| && st.createUsers && ShouldSync(dirUsers[keys[i]], org) && keys[i] !in st.activeUsers
                                && keys[i] !in st.inactiveUsers :: dirUsers[keys[i]].email
  }

  /** The role changes among `keys` are those among all keys but the last plus the last key's own. */
  lemma RoleChangedSnoc(org: string, keys: seq<string>, dirUsers: map<string, ResolvedUser>, st: OrgState)
    requires keys != [] && forall i :: 0 <= i < |keys| ==> keys[i] in dirUsers
    ensures var n := |keys| - 1;
      RoleChangedEmails(org, keys, dirUsers, st) == RoleChangedEmails(org, keys[..n], dirUsers, st)
        + (if RoleChanged(org, keys[n], dirUsers[keys[n]], st) then {st.activeUsers[keys[n]].email} else {})
  {
    var n := |keys| - 1;
    assert forall i :: 0 <= i < n ==> keys[..n][i] == keys[i];
  }

  /** The uncreatable users among `keys` are those among all keys but the last plus the last key's own. */
  lemma UncreatableSnoc(org: string, keys: seq<string>, dirUsers: map<string, ResolvedUser>, st: OrgState)
    requires keys != [] && forall i :: 0 <= i < |keys| ==> keys[i] in dirUsers
    ensures var n := |keys| - 1;
      UncreatableEmails(org, keys, dirUsers, st) == UncreatableEmails(org, keys[..n], dirUsers, st)
        + (if !st.createUsers && ShouldSync(dirUsers[keys[n]], org) && keys[n] !in st.activeUsers
           then {dirUsers[keys[n]].email} else {})
  {
    var n := |keys| - 1;
    assert forall i :: 0 <= i < n ==> keys[..n][i] == keys[i];
  }

  /** The new users among `keys` are those among all keys but the last plus the last key's own. */
  lemma NewSnoc(org: string, keys: seq<string>, dirUsers: map<string, ResolvedUser>, st: OrgState)
    requires keys != [] && forall i :: 0 <= i < |keys| ==> keys[i] in dirUsers
    ensures var n := |keys| - 1;
      NewEmails(org, keys, dirUsers, st) == NewEmails(org, keys[..n], dirUsers, st)
        + (if st.createUsers && ShouldSync(dirUsers[keys[n]], org) && keys[n] !in st.activeUsers
              && keys[n] !in st.inactiveUsers then {dirUsers[keys[n]].email} else {})
  {
    var n := |keys| - 1;
    assert forall i :: 0 <= i < n ==> keys[..n][i] == keys[i];
  }

  /** Recording a shaped plan adds to each set exactly what its user's situation calls for. */
  lemma RecordShaped(o: OrgOutcome, p: UserPlan, org: string, key: string, du: ResolvedUser, st: OrgState)
    requires Shaped(p, org, key, du, st)
    ensures Record(o, p).roleUpdates == o.roleUpdates + (if RoleChanged(org, key, du, st) then {st.activeUsers[key].email} else {})
    ensures Record(o, p).excluded == o.excluded
      + (if !st.createUsers && ShouldSync(du, org) && key !in st.activeUsers then {du.email} else {})
    ensures Record(o, p).created == o.created
      + (if st.createUsers && ShouldSync(du, org) && key !in st.activeUsers && key !in st.inactiveUsers then {du.email} else {})
  {
  }

  /** The sets of shaped plans are the role changes, the uncreatable users and the new users among `keys`. */
  lemma {:induction false} OutcomeOfShaped(plans: seq<UserPlan>, org: string, keys: seq<string>,
                                           dirUsers: map<string, ResolvedUser>, st: OrgState)
    requires |plans| == |keys| && forall i :: 0 <= i < |keys| ==> keys[i] in dirUsers
    requires forall i :: 0 <= i < |keys| ==> Shaped(plans[i], org, keys[i], dirUsers[keys[i]], st)
    ensures Outcome(plans).roleUpdates == RoleChangedEmails(org, keys, dirUsers, st)
    ensures Outcome(plans).excluded == UncreatableEmails(org, keys, dirUsers, st)
    ensures Outcome(plans).created == NewEmails(org, keys, dirUsers, st)
    decreases |keys|
  {
    if keys != [] {
      var n := |keys| - 1;
      assert forall i :: 0 <= i < n ==> keys[..n][i] == keys[i] && plans[..n][i] == plans[i];
      OutcomeOfShaped(plans[..n], org, keys[..n], dirUsers, st);
      RoleChangedSnoc(org, keys, dirUsers, st);
      UncreatableSnoc(org, keys, dirUsers, st);
      NewSnoc(org, keys, dirUsers, st);
      RecordShaped(Outcome(plans[..n]), plans[n], org, keys[n], dirUsers[keys[n]], st);
    }
  }

  /**
   * A successful reconciliation updates the account-admin role of exactly the synced users
   * with an active account whose remote role differs from the directory's, recording their
   * remote email.
   */
  lemma RoleUpdatesAreRoleChanges(options: EngineOptions, org: string, keys: seq<string>,
                                  dirUsers: map<string, ResolvedUser>, st: OrgState)
    requires forall i :: 0 <= i < |keys| ==> keys[i] in dirUsers
    requires Plans(options, org, keys, dirUsers, st).Some?
    ensures forall e :: e in Outcome(Plans(options, org, keys, dirUsers, st).value).roleUpdates <==>
      exists i :: 0 <= i < |keys| && RoleChanged(org, keys[i], dirUsers[keys[i]], st) && st.activeUsers[keys[i]].email == e
  {
    PlansShaped(options, org, keys, dirUsers, st);
    OutcomeOfShaped(Plans(options, org, keys, dirUsers, st).value, org, keys, dirUsers, st);
  }

  /**
   * A successful reconciliation excludes exactly the synced users without an active account,
   * and only when the connector does not create users.
   */
  lemma ExcludedAreUncreatable(options: EngineOptions, org: string, keys: seq<string>,
                               dirUsers: map<string, ResolvedUser>, st: OrgState)
    requires forall i :: 0 <= i < |keys| ==> keys[i] in dirUsers
    requires Plans(options, org, keys, dirUsers, st).Some?
    ensures forall e :: e in Outcome(Plans(options, org, keys, dirUsers, st).value).excluded <==>
      !st.createUsers && exists i :: 0 <= i < |keys| && ShouldSync(dirUsers[keys[i]], org) && keys[i] !in st.activeUsers
                                     && dirUsers[keys[i]].email == e
  {
    PlansShaped(options, org, keys, dirUsers, st);
    OutcomeOfShaped(Plans(options, org, keys, dirUsers, st).value, org, keys, dirUsers, st);
  }

  /**
   * A successful reconciliation creates accounts for exactly the synced users with neither an
   * active nor an inactive account, and only when the connector creates users.
   */
  lemma CreatedAreNew(options: EngineOptions, org: string, keys: seq<string>,
                      dirUsers: map<string, ResolvedUser>, st: OrgState)
    requires forall i :: 0 <= i < |keys| ==> keys[i] in dirUsers
    requires Plans(options, org, keys, dirUsers, st).Some?
    ensures forall e :: e in Outcome(Plans(options, org, keys, dirUsers, st).value).created <==>
      st.createUsers && exists i :: 0 <= i < |keys| && ShouldSync(dirUsers[keys[i]], org) && keys[i] !in st.activeUsers
                                    && keys[i] !in st.inactiveUsers && dirUsers[keys[i]].email == e
  {
    PlansShaped(options, org, keys, dirUsers, st);
    OutcomeOfShaped(Plans(options, org, keys, dirUsers, st).value, org, keys, dirUsers, st);
  }
}
