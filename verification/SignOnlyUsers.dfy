/**
 * The policy for remote users with no directory counterpart (`handle_sign_only_users`): what
 * each configured action queues for one such user.
 */
module SignOnlyUsers {
  import opened Wrappers
  import opened SignTypes
  import opened SignLookups

  /** What the policy queues for one user: a deactivation, a group update, an account update. */
  datatype StrayOutcome = StrayOutcome(deactivate: bool, groupUpdate: Option<UserGroupInfo>, accountUpdate: Option<SignUser>)

  /** Nothing queued. */
  const Untouched := StrayOutcome(false, None, None)

  /** The user's primary membership; reading its fields fails when there is none. */
  function PrimaryMembership(user: SignUser, userGroups: map<string, seq<UserGroupInfo>>): (r: Result<UserGroupInfo, SyncError>)
    ensures r.Success? <==> GetPrimaryGroup(user, userGroups).Success? && GetPrimaryGroup(user, userGroups).value.Some?
    ensures r.Success? ==> r.value == GetPrimaryGroup(user, userGroups).value.value && r.value.isPrimaryGroup
    ensures GetPrimaryGroup(user, userGroups) == Success(None) ==> r == Failure(NoneHasNoAttribute)
  {
    match GetPrimaryGroup(user, userGroups)
    case Failure(e) => Failure(e)
    case Success(None) => Failure(NoneHasNoAttribute)
    case Success(Some(g)) => Success(g)
  }

  /**
   * The policy for one user, given whether it counts as being in the default group:
   * `exclude` queues nothing; `deactivate`, when the connector allows it, only deactivates;
   * otherwise a user in the default group with no admin role is left alone, and the others get
   * a membership in their primary group or the default group per the action, and lose account
   * admin under `reset` and `remove_roles`.
   */
  function OutcomeGiven(action: SignOnlyUserAction, canDeactivate: bool, user: SignUser, pg: Result<UserGroupInfo, SyncError>,
                        inDefaultGroup: bool, defaultGroupId: string): (r: Result<StrayOutcome, SyncError>)
    ensures action == Exclude ==> r == Success(Untouched)
    ensures r.Failure? <==> action != Exclude && !(canDeactivate && action == Deactivate) && pg.Failure?
    ensures r.Success? && r.value.groupUpdate.Some? ==> r.value.groupUpdate.value.isPrimaryGroup && r.value.groupUpdate.value.status == Active
    ensures action == RemoveGroups && r.Success? ==> (r.value.groupUpdate.Some? <==> !inDefaultGroup)
    ensures action == Reset && r.Success? ==>
      (r.value.groupUpdate.Some? <==> !(inDefaultGroup && !pg.value.isGroupAdmin && !user.isAccountAdmin))
  {
    if action == Exclude then Success(Untouched)
    else if canDeactivate && action == Deactivate then Success(StrayOutcome(true, None, None))
    else if pg.Failure? then Failure(pg.error)
    else
      var p := pg.value;
      if inDefaultGroup && !p.isGroupAdmin && !user.isAccountAdmin then Success(Untouched)
      else
        var base := UserGroupInfo(p.id, "", p.isGroupAdmin, true, Active);
        var group :=
          if action == Reset then Some(base.(id := defaultGroupId, isGroupAdmin := false))
          else if action == RemoveRoles && p.isGroupAdmin then Some(base.(isGroupAdmin := false))
          else if action == RemoveGroups && !inDefaultGroup then Some(base.(id := defaultGroupId))
          else None;
        var account := if (action == RemoveRoles || action == Reset) && user.isAccountAdmin then Some(user.(isAccountAdmin := false)) else None;
        Success(StrayOutcome(false, group, account))
  }

  /**
   * The policy as written: the primary membership record is compared with the default group's
   * id, which never holds, so no user counts as being in the default group.
   */
  function StrayOutcomeAsWritten(action: SignOnlyUserAction, canDeactivate: bool, user: SignUser,
                                 userGroups: map<string, seq<UserGroupInfo>>, defaultGroupId: string): (r: Result<StrayOutcome, SyncError>)
    ensures (action == RemoveGroups || action == Reset) && r.Success? ==>
      r.value.groupUpdate.Some? && r.value.groupUpdate.value.id == defaultGroupId
  {
    OutcomeGiven(action, canDeactivate, user, PrimaryMembership(user, userGroups), false, defaultGroupId)
  }

  /** Whether the user's primary membership is the default group. */
  function InDefaultGroup(pg: Result<UserGroupInfo, SyncError>, defaultGroupId: string): bool {
    pg.Success? && pg.value.id == defaultGroupId
  }

  /**
   * The policy for one user, with membership of the default group read from the id of its
   * primary group.
   */
  function StrayOutcomeFor(action: SignOnlyUserAction, canDeactivate: bool, user: SignUser,
                           userGroups: map<string, seq<UserGroupInfo>>, defaultGroupId: string): (r: Result<StrayOutcome, SyncError>)
    ensures action == Exclude ==> r == Success(Untouched)
    ensures r.Success? && r.value.deactivate <==> canDeactivate && action == Deactivate
    ensures r.Failure? <==> action != Exclude && !(canDeactivate && action == Deactivate) && PrimaryMembership(user, userGroups).Failure?
    ensures r.Success? && r.value.accountUpdate.Some? <==>
      (action == Reset || action == RemoveRoles) && user.isAccountAdmin && PrimaryMembership(user, userGroups).Success?
    ensures r.Success? && r.value.accountUpdate.Some? ==> r.value.accountUpdate.value == user.(isAccountAdmin := false)
    ensures r.Success? && r.value.groupUpdate.Some? ==> r.value.groupUpdate.value.isPrimaryGroup && r.value.groupUpdate.value.status == Active
    ensures action == Reset && r.Success? && r.value.groupUpdate.Some? ==>
      r.value.groupUpdate.value.id == defaultGroupId && !r.value.groupUpdate.value.isGroupAdmin
    ensures action == Reset && r.Success? ==>
      (r.value.groupUpdate.Some? <==> !(InDefaultGroup(PrimaryMembership(user, userGroups), defaultGroupId)
                                         && !PrimaryMembership(user, userGroups).value.isGroupAdmin && !user.isAccountAdmin))
    ensures action == RemoveRoles && r.Success? ==>
      && (r.value.groupUpdate.Some? <==> PrimaryMembership(user, userGroups).value.isGroupAdmin)
      && (r.value.groupUpdate.Some? ==>
            !r.value.groupUpdate.value.isGroupAdmin && r.value.groupUpdate.value.id == PrimaryMembership(user, userGroups).value.id)
    ensures action == RemoveGroups && r.Success? ==>
      && (r.value.groupUpdate.Some? <==> PrimaryMembership(user, userGroups).value.id != defaultGroupId)
      && (r.value.groupUpdate.Some? ==>
            r.value.groupUpdate.value.id == defaultGroupId
            && r.value.groupUpdate.value.isGroupAdmin == PrimaryMembership(user, userGroups).value.isGroupAdmin)
    ensures (action == Deactivate && !canDeactivate) && r.Success? ==> r.value == Untouched
  {
    var pg := PrimaryMembership(user, userGroups);
    OutcomeGiven(action, canDeactivate, user, pg, InDefaultGroup(pg, defaultGroupId), defaultGroupId)
  }

  /**
   * A user already settled, primary in the default group with no admin role, is left alone by
   * every action except deactivation.
   */
  lemma SettledUserLeftAlone(action: SignOnlyUserAction, canDeactivate: bool, user: SignUser,
                             userGroups: map<string, seq<UserGroupInfo>>, defaultGroupId: string)
    requires !(canDeactivate && action == Deactivate)
    requires PrimaryMembership(user, userGroups).Success?
    requires PrimaryMembership(user, userGroups).value.id == defaultGroupId
    requires !PrimaryMembership(user, userGroups).value.isGroupAdmin && !user.isAccountAdmin
    ensures StrayOutcomeFor(action, canDeactivate, user, userGroups, defaultGroupId) == Success(Untouched)
  {
  }

  /** A user with one membership: the default group `d`, its primary group, no admin role. */
  const SettledUser := SignUser("u1", "u@x", "ACTIVE", false, "", "")
  const SettledGroups := map["u1" := [UserGroupInfo("d", "Default Group", false, true, Active)]]

  /**
   * As written, `remove_groups` queues a move to the default group for a user that is already
   * in it, since the membership test never holds; read from the primary group's id, it
   * queues nothing.
   */
  lemma RemoveGroupsRequeuesSettledUser()
    ensures StrayOutcomeAsWritten(RemoveGroups, true, SettledUser, SettledGroups, "d")
            == Success(StrayOutcome(false, Some(UserGroupInfo("d", "", false, true, Active)), None))
    ensures StrayOutcomeFor(RemoveGroups, true, SettledUser, SettledGroups, "d") == Success(Untouched)
  {
    assert GetPrimaryGroup(SettledUser, SettledGroups) == Success(Some(UserGroupInfo("d", "Default Group", false, true, Active)));
  }

  /** The connector calls the policy makes, keyed by the user's email: group updates with the user id, account updates. */
  datatype StrayCalls = StrayCalls(groupUpdates: map<string, (string, UserGroupInfo)>, accountUpdates: map<string, SignUser>)

  /** The policy's outcome for each remote-only user, keyed like the users. */
  function PolicyOutcomes(users: map<string, SignUser>, action: SignOnlyUserAction, canDeactivate: bool,
                          userGroups: map<string, seq<UserGroupInfo>>, defaultGroupId: string)
    : (r: map<string, Result<StrayOutcome, SyncError>>)
    ensures r.Keys == users.Keys
  {
    map e | e in users :: StrayOutcomeFor(action, canDeactivate, users[e], userGroups, defaultGroupId)
  }

  /** The group updates queued for the users of `done`, with the user id each is sent for. */
  function GroupCalls(users: map<string, SignUser>, outcomes: map<string, Result<StrayOutcome, SyncError>>, done: set<string>)
    : map<string, (string, UserGroupInfo)>
  {
    map e | e in done && e in users && e in outcomes && outcomes[e].Success? && outcomes[e].value.groupUpdate.Some?
      :: (users[e].id, outcomes[e].value.groupUpdate.value)
  }

  /** The account updates queued for the users of `done`. */
  function AccountCalls(users: map<string, SignUser>, outcomes: map<string, Result<StrayOutcome, SyncError>>, done: set<string>)
    : map<string, SignUser>
  {
    map e | e in done && e in users && e in outcomes && outcomes[e].Success? && outcomes[e].value.accountUpdate.Some?
      :: outcomes[e].value.accountUpdate.value
  }

  /** The emails of the users of `done` that are deactivated. */
  function Deactivations(users: map<string, SignUser>, outcomes: map<string, Result<StrayOutcome, SyncError>>, done: set<string>)
    : set<string>
  {
    set e | e in done && e in users && e in outcomes && outcomes[e].Success? && outcomes[e].value.deactivate :: users[e].email
  }

  /** Handling one more user adds exactly that user's queued calls. */
  lemma StrayStep(users: map<string, SignUser>, outcomes: map<string, Result<StrayOutcome, SyncError>>, done: set<string>, e: string)
    requires e in users && e in outcomes && e !in done && outcomes[e].Success?
    ensures var o := outcomes[e].value;
      && GroupCalls(users, outcomes, done + {e}) ==
           (if o.groupUpdate.Some? then GroupCalls(users, outcomes, done)[e := (users[e].id, o.groupUpdate.value)]
            else GroupCalls(users, outcomes, done))
      && AccountCalls(users, outcomes, done + {e}) ==
           (if o.accountUpdate.Some? then AccountCalls(users, outcomes, done)[e := o.accountUpdate.value]
            else AccountCalls(users, outcomes, done))
      && Deactivations(users, outcomes, done + {e}) ==
           Deactivations(users, outcomes, done) + (if o.deactivate then {users[e].email} else {})
  {
  }

  /**
   * Only `deactivate`, when the connector allows it, deactivates, and then it deactivates every
   * remote-only user and queues no other update.
   */
  lemma DeactivationPolicy(users: map<string, SignUser>, action: SignOnlyUserAction, canDeactivate: bool,
                           userGroups: map<string, seq<UserGroupInfo>>, defaultGroupId: string)
    ensures var outcomes := PolicyOutcomes(users, action, canDeactivate, userGroups, defaultGroupId);
      && (!(canDeactivate && action == Deactivate) ==> Deactivations(users, outcomes, users.Keys) == {})
      && (canDeactivate && action == Deactivate ==>
            && Deactivations(users, outcomes, users.Keys) == (set e | e in users :: users[e].email)
            && GroupCalls(users, outcomes, users.Keys) == map[]
            && AccountCalls(users, outcomes, users.Keys) == map[])
  {
    var outcomes := PolicyOutcomes(users, action, canDeactivate, userGroups, defaultGroupId);
    if canDeactivate && action == Deactivate {
      assert GroupCalls(users, outcomes, users.Keys).Keys == {};
      assert AccountCalls(users, outcomes, users.Keys).Keys == {};
    } else {
      assert forall e :: e in users ==> !(outcomes[e].Success? && outcomes[e].value.deactivate);
    }
  }

  /** Under `exclude` the policy queues nothing at all. */
  lemma ExcludeQueuesNothing(users: map<string, SignUser>, canDeactivate: bool,
                             userGroups: map<string, seq<UserGroupInfo>>, defaultGroupId: string)
    ensures var outcomes := PolicyOutcomes(users, Exclude, canDeactivate, userGroups, defaultGroupId);
      && GroupCalls(users, outcomes, users.Keys) == map[]
      && AccountCalls(users, outcomes, users.Keys) == map[]
      && Deactivations(users, outcomes, users.Keys) == {}
  {
    var outcomes := PolicyOutcomes(users, Exclude, canDeactivate, userGroups, defaultGroupId);
    assert GroupCalls(users, outcomes, users.Keys).Keys == {};
    assert AccountCalls(users, outcomes, users.Keys).Keys == {};
  }

  /**
   * Every account update the policy queues removes account admin from an admin, and only
   * `reset` and `remove_roles` queue them; under `reset` every group update moves the user to
   * the default group without group admin.
   */
  lemma QueuedCallsDropPrivileges(users: map<string, SignUser>, action: SignOnlyUserAction, canDeactivate: bool,
                                  userGroups: map<string, seq<UserGroupInfo>>, defaultGroupId: string)
    ensures var outcomes := PolicyOutcomes(users, action, canDeactivate, userGroups, defaultGroupId);
      var accounts := AccountCalls(users, outcomes, users.Keys);
      var groups := GroupCalls(users, outcomes, users.Keys);
      && (forall e :: e in accounts ==>
            (action == Reset || action == RemoveRoles) && users[e].isAccountAdmin && accounts[e] == users[e].(isAccountAdmin := false))
      && (action == Reset ==> forall e :: e in groups ==>
            groups[e].0 == users[e].id && groups[e].1.id == defaultGroupId && !groups[e].1.isGroupAdmin)
  {
  }

  /** Handling more users deactivates more. */
  lemma DeactivationsGrow(users: map<string, SignUser>, outcomes: map<string, Result<StrayOutcome, SyncError>>,
                          done: set<string>, more: set<string>)
    requires done <= more
    ensures Deactivations(users, outcomes, done) <= Deactivations(users, outcomes, more)
  {
  }

  /**
   * The loop of `handle_sign_only_users` over the remote-only users: it queues each user's
   * group and account updates and deactivates as the outcomes say, and stops at the first
   * user whose outcome is an error, having deactivated only users it handled.
   */
  method ApplyPolicy(users: map<string, SignUser>, outcomes: map<string, Result<StrayOutcome, SyncError>>)
    returns (r: Result<StrayCalls, SyncError>, deactivated: set<string>)
    requires users.Keys <= outcomes.Keys
    ensures r.Success? <==> forall e :: e in users ==> outcomes[e].Success?
    ensures r.Success? ==> r.value == StrayCalls(GroupCalls(users, outcomes, users.Keys), AccountCalls(users, outcomes, users.Keys))
    ensures r.Success? ==> deactivated == Deactivations(users, outcomes, users.Keys)
    ensures deactivated <= Deactivations(users, outcomes, users.Keys)
  {
    var groupUpdates: map<string, (string, UserGroupInfo)> := map[];
    var accountUpdates: map<string, SignUser> := map[];
    var done: set<string> := {};
    deactivated := {};
    while done != users.Keys
      invariant done <= users.Keys
      invariant forall e :: e in done ==> outcomes[e].Success?
      invariant groupUpdates == GroupCalls(users, outcomes, done)
      invariant accountUpdates == AccountCalls(users, outcomes, done)
      invariant deactivated == Deactivations(users, outcomes, done)
      decreases |users.Keys - done|
    {
      var e :| e in users.Keys - done;
      var outcome := outcomes[e];
      if outcome.Failure? {
        DeactivationsGrow(users, outcomes, done, users.Keys);
        return Failure(outcome.error), deactivated;
      }
      StrayStep(users, outcomes, done, e);
      if outcome.value.deactivate {
        deactivated := deactivated + {users[e].email};
      }
      if outcome.value.groupUpdate.Some? {
        groupUpdates := groupUpdates[e := (users[e].id, outcome.value.groupUpdate.value)];
      }
      if outcome.value.accountUpdate.Some? {
        accountUpdates := accountUpdates[e := outcome.value.accountUpdate.value];
      }
      done := done + {e};
    }
    return Success(StrayCalls(groupUpdates, accountUpdates)), deactivated;
  }
}
