/**
 * The sign-sync engine: it reads the directory users into a table keyed by lower-cased email,
 * reconciles each org's remote users with that table, and applies the policy for remote users
 * that have no directory counterpart. Connector calls are returned as queues; the engine's
 * counters and user sets are fields the methods update.
 */
module SignSyncEngine {
  import opened Wrappers
  import opened SignTypes
  import opened SignLookups
  import opened SignOnlyUsers
  import opened SignSyncPlans

  // ---------------------------------------------------------------------------------------
  // Reading the directory
  // ---------------------------------------------------------------------------------------

  /** The key a directory user is read under: none when it fails the group filter or has no key. */
  function KeyRead(du: DirectoryUser, filter: Option<set<string>>): (r: Option<string>)
    ensures r.Some? <==> IsDirectoryUserInGroups(du.groups, filter) && GetDirectoryUserKey(du).Some?
    ensures r.Some? ==> r == GetDirectoryUserKey(du)
  {
    if IsDirectoryUserInGroups(du.groups, filter) then GetDirectoryUserKey(du) else None
  }

  /** `dirUsers[j]` is the last of the first `n` directory users read under `key`. */
  ghost predicate LastPicked(dirUsers: seq<DirectoryUser>, filter: Option<set<string>>, n: nat, key: string, j: nat) {
    j < n <= |dirUsers| && KeyRead(dirUsers[j], filter) == Some(key)
    && forall j' :: j < j' < n ==> KeyRead(dirUsers[j'], filter) != Some(key)
  }

  /** `ru` is `du` enriched with the outcome of resolving its groups against the mappings. */
  ghost predicate ResolvedFrom(ru: ResolvedUser, du: DirectoryUser, mappings: map<string, DirectoryGroupMapping>,
                               options: EngineOptions)
  {
    && du.email.Some? && ru.email == du.email.value
    && ru.firstname == du.firstname && ru.lastname == du.lastname && ru.groups == du.groups
    && NoDuplicates(ru.signGroups)
    && (forall g :: g in ru.signGroups <==> exists k :: k in mappings && k in du.groups && g in mappings[k].groups)
    && (ru.isAdmin <==> exists i :: 0 <= i < |du.groups| && du.groups[i] in options.accountAdminGroups)
    && (ru.isGroupAdmin <==> exists k :: k in options.groupAdminMappings && k in du.groups)
    && (forall g :: g in ru.adminGroups <==>
          exists k :: k in options.groupAdminMappings && k in du.groups && g in options.groupAdminMappings[k])
  }

  /** Every key read from the first `n` directory users has a recorded source. */
  ghost predicate PickedRecorded(dirUsers: seq<DirectoryUser>, n: nat, source: map<string, nat>, filter: Option<set<string>>) {
    forall j :: 0 <= j < n <= |dirUsers| && KeyRead(dirUsers[j], filter).Some? ==> KeyRead(dirUsers[j], filter).value in source
  }

  /** Each recorded source is the last of the first `n` directory users read under its key. */
  ghost predicate SourcesLast(dirUsers: seq<DirectoryUser>, n: nat, source: map<string, nat>, filter: Option<set<string>>) {
    forall k :: k in source ==> LastPicked(dirUsers, filter, n, k, source[k])
  }

  /** Each key with a recorded source holds that directory user, resolved. */
  ghost predicate SourcesResolved(table: map<string, ResolvedUser>, dirUsers: seq<DirectoryUser>, source: map<string, nat>,
                                  mappings: map<string, DirectoryGroupMapping>, options: EngineOptions)
  {
    forall k :: k in source ==> k in table && source[k] < |dirUsers| && ResolvedFrom(table[k], dirUsers[source[k]], mappings, options)
  }

  /**
   * `table` is `before` after reading the first `n` directory users, `source` giving for each
   * key read the position of the user stored under it: a key is present when it was before or
   * some user read has it; a key read holds the last user read under it, resolved; any other
   * key keeps its entry.
   */
  ghost predicate TableRead(table: map<string, ResolvedUser>, before: map<string, ResolvedUser>, dirUsers: seq<DirectoryUser>,
                            n: nat, source: map<string, nat>, mappings: map<string, DirectoryGroupMapping>, options: EngineOptions)
  {
    && n <= |dirUsers|
    && (forall k :: k in table <==> k in before || k in source)
    && PickedRecorded(dirUsers, n, source, options.directoryGroupFilter)
    && SourcesLast(dirUsers, n, source, options.directoryGroupFilter)
    && SourcesResolved(table, dirUsers, source, mappings, options)
    && (forall k :: k in table && k !in source ==> table[k] == before[k])
  }

  /** A directory user that is not read leaves the table as it was. */
  lemma ReadSkip(table: map<string, ResolvedUser>, before: map<string, ResolvedUser>, dirUsers: seq<DirectoryUser>,
                 n: nat, source: map<string, nat>, mappings: map<string, DirectoryGroupMapping>, options: EngineOptions)
    requires TableRead(table, before, dirUsers, n, source, mappings, options) && n < |dirUsers|
    requires KeyRead(dirUsers[n], options.directoryGroupFilter).None?
    ensures TableRead(table, before, dirUsers, n + 1, source, mappings, options)
  {
    var filter := options.directoryGroupFilter;
    assert PickedRecorded(dirUsers, n + 1, source, filter);
    LastPickedExtends(dirUsers, filter, n, source);
  }

  /** The last user read under a key stays the last when the next user is read under another key. */
  lemma LastPickedExtends(dirUsers: seq<DirectoryUser>, filter: Option<set<string>>, n: nat, source: map<string, nat>)
    requires SourcesLast(dirUsers, n, source, filter) && n < |dirUsers|
    requires forall k :: k in source ==> KeyRead(dirUsers[n], filter) != Some(k)
    ensures SourcesLast(dirUsers, n + 1, source, filter)
  {
    forall k | k in source
      ensures LastPicked(dirUsers, filter, n + 1, k, source[k])
    {
      assert LastPicked(dirUsers, filter, n, k, source[k]);
    }
  }

  /** A directory user read under `key` becomes the last one read under it; other keys keep theirs. */
  lemma StoreLast(dirUsers: seq<DirectoryUser>, filter: Option<set<string>>, n: nat, source: map<string, nat>, key: string)
    requires SourcesLast(dirUsers, n, source, filter) && n < |dirUsers| && KeyRead(dirUsers[n], filter) == Some(key)
    ensures SourcesLast(dirUsers, n + 1, source[key := n], filter)
  {
    var others := source - {key};
    assert SourcesLast(dirUsers, n, others, filter);
    LastPickedExtends(dirUsers, filter, n, others);
    assert LastPicked(dirUsers, filter, n + 1, key, n);
    assert source[key := n] == others[key := n];
  }

  /** A directory user read under `key` records `key`. */
  lemma StorePicked(dirUsers: seq<DirectoryUser>, filter: Option<set<string>>, n: nat, source: map<string, nat>, key: string)
    requires PickedRecorded(dirUsers, n, source, filter) && n < |dirUsers| && KeyRead(dirUsers[n], filter) == Some(key)
    ensures PickedRecorded(dirUsers, n + 1, source[key := n], filter)
  {
  }

  /** Storing the resolved user under `key` keeps every recorded key resolved. */
  lemma StoreResolved(table: map<string, ResolvedUser>, dirUsers: seq<DirectoryUser>, n: nat, source: map<string, nat>,
                      mappings: map<string, DirectoryGroupMapping>, options: EngineOptions, key: string, ru: ResolvedUser)
    requires SourcesResolved(table, dirUsers, source, mappings, options) && n < |dirUsers|
    requires ResolvedFrom(ru, dirUsers[n], mappings, options)
    ensures SourcesResolved(table[key := ru], dirUsers, source[key := n], mappings, options)
  {
    var table', source' := table[key := ru], source[key := n];
    forall k | k in source'
      ensures k in table' && source'[k] < |dirUsers| && ResolvedFrom(table'[k], dirUsers[source'[k]], mappings, options)
    {
      if k != key {
        assert k in source;
      }
    }
  }

  /** A directory user read under `key` replaces the table's entry for `key`. */
  lemma ReadStore(table: map<string, ResolvedUser>, before: map<string, ResolvedUser>, dirUsers: seq<DirectoryUser>,
                  n: nat, source: map<string, nat>, mappings: map<string, DirectoryGroupMapping>, options: EngineOptions,
                  key: string, ru: ResolvedUser)
    requires TableRead(table, before, dirUsers, n, source, mappings, options) && n < |dirUsers|
    requires KeyRead(dirUsers[n], options.directoryGroupFilter) == Some(key) && ResolvedFrom(ru, dirUsers[n], mappings, options)
    ensures TableRead(table[key := ru], before, dirUsers, n + 1, source[key := n], mappings, options)
  {
    var filter := options.directoryGroupFilter;
    StoreLast(dirUsers, filter, n, source, key);
    StorePicked(dirUsers, filter, n, source, key);
    StoreResolved(table, dirUsers, n, source, mappings, options, key, ru);
  }

  // ---------------------------------------------------------------------------------------
  // The engine
  // ---------------------------------------------------------------------------------------

  class Engine {
    const options: EngineOptions
    /** The directory users read, keyed by lower-cased email. */
    var directoryUserByUserKey: map<string, ResolvedUser>
    /** Per org: the remote groups keyed by lower-cased name, the default group, the target groups. */
    var signGroups: map<string, map<string, GroupInfo>>
    var defaultGroups: map<string, GroupInfo>
    var targetGroupsByOrg: map<string, set<AdobeGroup>>
    /** Per org: each remote user's memberships, keyed by user id. */
    var signUserGroups: map<string, map<string, seq<UserGroupInfo>>>
    /** Per org: the active remote users, keyed by email. */
    var signUsersByOrg: map<string, map<string, SignUser>>
    var totalSignUserCount: nat
    var signUsersCreated: set<string>
    var signUsersDeactivated: set<string>
    var signUsersRoleUpdates: set<string>
    var directoryUsersExcluded: set<string>
    /** Per org: the active remote users with no synced directory user. */
    var signOnlyUsersByOrg: map<string, map<string, SignUser>>
    var totalSignOnlyUserCount: nat

    /** A fresh engine: nothing read, nothing counted. */
    constructor(options: EngineOptions)
      ensures this.options == options
      ensures directoryUserByUserKey == map[] && signGroups == map[] && defaultGroups == map[]
      ensures targetGroupsByOrg == map[] && signUserGroups == map[] && signUsersByOrg == map[]
      ensures signOnlyUsersByOrg == map[] && totalSignUserCount == 0 && totalSignOnlyUserCount == 0
      ensures signUsersCreated == {} && signUsersDeactivated == {} && signUsersRoleUpdates == {} && directoryUsersExcluded == {}
    {
      this.options := options;
      directoryUserByUserKey := map[];
      signGroups := map[];
      defaultGroups := map[];
      targetGroupsByOrg := map[];
      signUserGroups := map[];
      signUsersByOrg := map[];
      totalSignUserCount := 0;
      signUsersCreated := {};
      signUsersDeactivated := {};
      signUsersRoleUpdates := {};
      directoryUsersExcluded := {};
      signOnlyUsersByOrg := map[];
      totalSignOnlyUserCount := 0;
    }

    /**
     * Reads the directory users: each one that passes the group filter and has a key is
     * resolved against the mappings and stored under its key, a later user replacing an
     * earlier one with the same key.
     */
    method ReadDesiredUserGroups(mappings: map<string, DirectoryGroupMapping>, dirUsers: seq<DirectoryUser>)
      returns (ghost source: map<string, nat>)
      modifies this`directoryUserByUserKey
      ensures TableRead(directoryUserByUserKey, old(directoryUserByUserKey), dirUsers, |dirUsers|, source, mappings, options)
    {
      var filter := options.directoryGroupFilter;
      source := map[];
      for i := 0 to |dirUsers|
        invariant TableRead(directoryUserByUserKey, old(directoryUserByUserKey), dirUsers, i, source, mappings, options)
      {
        var du := dirUsers[i];
        var key := KeyRead(du, filter);
        if key.None? {
          ReadSkip(directoryUserByUserKey, old(directoryUserByUserKey), dirUsers, i, source, mappings, options);
          continue;
        }
        var signGroups, isAdmin, isGroupAdmin, adminGroups :=
          ResolveGroupMappings(du.groups, mappings, options.accountAdminGroups, options.groupAdminMappings);
        var ru := ResolvedUser(du.email.value, du.firstname, du.lastname, du.groups, signGroups, isAdmin, isGroupAdmin, adminGroups);
        ReadStore(directoryUserByUserKey, old(directoryUserByUserKey), dirUsers, i, source, mappings, options, key.value, ru);
        directoryUserByUserKey := directoryUserByUserKey[key.value := ru];
        source := source[key.value := i];
      }
    }

    /**
     * Reads one org's groups (`run`'s first pass over the connectors): the remote groups, the
     * default group (a group flagged default, an IndexError when there is none), and the
     * org's managed groups, those of the mapping table that target it.
     */
    method ReadOrgGroups(org: string, mappings: map<string, DirectoryGroupMapping>, groups: map<string, GroupInfo>)
      returns (r: Result<GroupInfo, SyncError>)
      modifies this`signGroups, this`defaultGroups, this`targetGroupsByOrg
      ensures signGroups == old(signGroups)[org := groups]
      ensures r.Failure? <==> forall k :: k in groups ==> !groups[k].isDefaultGroup
      ensures r.Failure? ==> r.error == IndexOutOfRange && unchanged(this`defaultGroups, this`targetGroupsByOrg)
      ensures r.Success? ==> r.value in groups.Values && r.value.isDefaultGroup
      ensures r.Success? ==> defaultGroups == old(defaultGroups)[org := r.value]
      ensures r.Success? ==> targetGroupsByOrg == old(targetGroupsByOrg)[org := TargetGroupsForOrg(mappings, org)]
    {
      signGroups := signGroups[org := groups];
      if forall k :: k in groups ==> !groups[k].isDefaultGroup {
        return Failure(IndexOutOfRange);
      }
      var d :| d in groups.Values && d.isDefaultGroup;
      defaultGroups := defaultGroups[org := d];
      targetGroupsByOrg := targetGroupsByOrg[org := TargetGroupsForOrg(mappings, org)];
      return Success(d);
    }

    /** What the engine has read about `org`, with the remote users split by status. */
    function StateOf(org: string, remoteUsers: seq<SignUser>, createUsers: bool): OrgState
      requires org in signUserGroups && org in signGroups && org in defaultGroups && org in targetGroupsByOrg
      reads this`signUserGroups, this`signGroups, this`defaultGroups, this`targetGroupsByOrg
    {
      OrgState(UsersByEmail(remoteUsers, true), UsersByEmail(remoteUsers, false), createUsers, signUserGroups[org],
               signGroups[org], defaultGroups[org], targetGroupsByOrg[org])
    }

    /**
     * Reconciles one org. `keys` lists the directory table in its order. On success the calls
     * and the engine's sets are those of the users' plans, the org's active users are recorded,
     * and its remote-only users are those no synced directory user matches. On failure the
     * reconciliation stopped at the first user that raised: `made` holds the reactivations and
     * creations already made, the sets hold what was recorded up to then, and no remote-only
     * user is recorded. On success `made` is every call.
     */
    method UpdateSignUsers(org: string, keys: seq<string>, remoteUsers: seq<SignUser>, createUsers: bool)
      returns (r: Result<SyncCalls, SyncError>, made: SyncCalls)
      requires org in signUserGroups && org in signGroups && org in defaultGroups && org in targetGroupsByOrg
      requires NoDuplicates(keys) && forall k :: k in keys <==> k in directoryUserByUserKey
      modifies this`totalSignUserCount, this`signUsersByOrg, this`directoryUsersExcluded, this`signUsersCreated
      modifies this`signUsersRoleUpdates, this`signOnlyUsersByOrg, this`totalSignOnlyUserCount
      ensures signUsersByOrg == old(signUsersByOrg)[org := UsersByEmail(remoteUsers, true)]
      ensures totalSignUserCount == old(totalSignUserCount) + |UsersByEmail(remoteUsers, true)|
      ensures r.Success? <==> old(Plans(options, org, keys, directoryUserByUserKey, StateOf(org, remoteUsers, createUsers))).Some?
      ensures var d := old(Done(options, org, keys, directoryUserByUserKey, StateOf(org, remoteUsers, createUsers)));
        && made == d.calls
        && directoryUsersExcluded == old(directoryUsersExcluded) + d.excluded
        && signUsersCreated == old(signUsersCreated) + d.created
        && signUsersRoleUpdates == old(signUsersRoleUpdates) + d.roleUpdates
      ensures r.Success? ==>
        var signOnly := old(SignOnly(UsersByEmail(remoteUsers, true), SyncedKeys(keys, directoryUserByUserKey, org)));
        && r.value == made
        && signOnlyUsersByOrg == old(signOnlyUsersByOrg)[org := signOnly]
        && totalSignOnlyUserCount == old(totalSignOnlyUserCount) + |signOnly|
      ensures r.Failure? ==> signOnlyUsersByOrg == old(signOnlyUsersByOrg) && totalSignOnlyUserCount == old(totalSignOnlyUserCount)
    {
      var st := StateOf(org, remoteUsers, createUsers);
      var outcome, signOnly, done := ReconcileOrg(options, org, keys, directoryUserByUserKey, st);
      totalSignUserCount := totalSignUserCount + |st.activeUsers|;
      signUsersByOrg := signUsersByOrg[org := st.activeUsers];
      RecordSets(done);
      if outcome.Failure? {
        return Failure(outcome.error), done.calls;
      }
      RecordSignOnly(org, signOnly);
      return Success(outcome.value.calls), done.calls;
    }

    /** Adds what a reconciliation recorded, whole or up to the user that raised, to the engine's sets. */
    method RecordSets(o: OrgOutcome)
      modifies this`directoryUsersExcluded, this`signUsersCreated, this`signUsersRoleUpdates
      ensures directoryUsersExcluded == old(directoryUsersExcluded) + o.excluded
      ensures signUsersCreated == old(signUsersCreated) + o.created
      ensures signUsersRoleUpdates == old(signUsersRoleUpdates) + o.roleUpdates
    {
      directoryUsersExcluded := directoryUsersExcluded + o.excluded;
      signUsersCreated := signUsersCreated + o.created;
      signUsersRoleUpdates := signUsersRoleUpdates + o.roleUpdates;
    }

    /** Records an org's remote-only users and adds them to the count. */
    method RecordSignOnly(org: string, signOnly: map<string, SignUser>)
      modifies this`signOnlyUsersByOrg, this`totalSignOnlyUserCount
      ensures signOnlyUsersByOrg == old(signOnlyUsersByOrg)[org := signOnly]
      ensures totalSignOnlyUserCount == old(totalSignOnlyUserCount) + |signOnly|
    {
      signOnlyUsersByOrg := signOnlyUsersByOrg[org := signOnly];
      totalSignOnlyUserCount := totalSignOnlyUserCount + |signOnly|;
    }

    /**
     * Applies the policy for remote-only users of `org`, unless the limit check (`limitOk`)
     * refuses. On success the calls are those the policy queues for each user and the users it
     * deactivates are recorded; it fails exactly when the policy fails for some user.
     */
    method HandleSignOnlyUsers(org: string, limitOk: bool, canDeactivate: bool) returns (r: Result<StrayCalls, SyncError>)
      requires org in signOnlyUsersByOrg && org in signUserGroups && org in defaultGroups
      modifies this`signUsersDeactivated
      ensures !limitOk ==> r == Success(StrayCalls(map[], map[])) && signUsersDeactivated == old(signUsersDeactivated)
      ensures var users := signOnlyUsersByOrg[org];
        var outcomes := PolicyOutcomes(users, options.signOnlyUserAction, canDeactivate, signUserGroups[org], defaultGroups[org].groupId);
        && (limitOk ==> (r.Success? <==> forall e :: e in outcomes ==> outcomes[e].Success?))
        && (limitOk && r.Success? ==>
              && r.value == StrayCalls(GroupCalls(users, outcomes, users.Keys), AccountCalls(users, outcomes, users.Keys))
              && signUsersDeactivated == old(signUsersDeactivated) + Deactivations(users, outcomes, users.Keys))
        && (r.Failure? ==> old(signUsersDeactivated) <= signUsersDeactivated <= old(signUsersDeactivated) + Deactivations(users, outcomes, users.Keys))
    {
      if !limitOk {
        return Success(StrayCalls(map[], map[]));
      }
      var users := signOnlyUsersByOrg[org];
      var outcomes := PolicyOutcomes(users, options.signOnlyUserAction, canDeactivate, signUserGroups[org], defaultGroups[org].groupId);
      var deactivated;
      r, deactivated := ApplyPolicy(users, outcomes);
      signUsersDeactivated := signUsersDeactivated + deactivated;
    }
  }
}
