/**
 * The creation request for a directory user with no remote account (`insert_new_users`): the
 * account record, the memberships of the user's assignment groups, and the primary flag on
 * exactly the group the primary-group rules pick.
 */
module SignNewUser {
  import opened Wrappers
  import opened Text
  import opened SignTypes
  import opened SignLookups

  /** A creation request: the account to insert and its memberships keyed by lower-cased group name. */
  datatype NewUser = NewUser(account: SignUser, groups: map<string, UserGroupInfo>)

  /** The account record of a new user: active, with the directory's admin flag and names, and no id yet. */
  function NewAccount(dirUser: ResolvedUser): (r: SignUser)
    ensures r.email == dirUser.email && r.isAccountAdmin == dirUser.isAdmin && r.status == "ACTIVE"
    ensures r.firstName == dirUser.firstname && r.lastName == dirUser.lastname && r.id == ""
  {
    SignUser("", dirUser.email, "ACTIVE", dirUser.isAdmin, dirUser.firstname, dirUser.lastname)
  }

  /** The assignment groups used: all of them under UMG, otherwise only the first. */
  function UsedGroups(umg: bool, assignmentGroups: seq<AdobeGroup>): (r: seq<AdobeGroup>)
    ensures umg ==> r == assignmentGroups
    ensures !umg ==> |r| <= 1 && (assignmentGroups != [] ==> r == [assignmentGroups[0]]) && (assignmentGroups == [] ==> r == [])
  {
    if umg then assignmentGroups else if assignmentGroups == [] then [] else assignmentGroups[..1]
  }

  /**
   * Whether a new membership is group admin: under UMG the user's overall group-admin flag,
   * otherwise whether the group is one of the user's admin groups.
   */
  function WantsGroupAdmin(umg: bool, dirUser: ResolvedUser, group: AdobeGroup): bool {
    if umg then dirUser.isGroupAdmin else group in dirUser.adminGroups
  }

  /** The membership for one assignment group: active, not yet primary. */
  function NewEntry(umg: bool, dirUser: ResolvedUser, group: AdobeGroup, info: GroupInfo): UserGroupInfo {
    UserGroupInfo(info.groupId, info.groupName, WantsGroupAdmin(umg, dirUser, group), false, Active)
  }

  /**
   * The memberships for `groups`, or the key of the first group the org does not have: each
   * group is looked up under its lower-cased name and stored under the lower-cased name of the
   * org's group; a later group stored under the same name wins.
   */
  function NewEntries(umg: bool, dirUser: ResolvedUser, groups: seq<AdobeGroup>, signGroups: map<string, GroupInfo>)
    : (r: Result<map<string, UserGroupInfo>, SyncError>)
    ensures r.Success? ==> forall k :: k in r.value ==> (r.value[k].status == Active && !r.value[k].isPrimaryGroup
      && Lower(r.value[k].name) == k)
    ensures r.Success? ==> forall k :: k in r.value ==> exists i :: (0 <= i < |groups| && Lower(groups[i].groupName) in signGroups
      && Lower(signGroups[Lower(groups[i].groupName)].groupName) == k
      && r.value[k] == NewEntry(umg, dirUser, groups[i], signGroups[Lower(groups[i].groupName)]))
    decreases |groups|
  {
    if groups == [] then Success(map[])
    else
      var entries :- NewEntries(umg, dirUser, groups[..|groups| - 1], signGroups);
      var key := Lower(groups[|groups| - 1].groupName);
      if key !in signGroups then Failure(MissingKey(key))
      else
        var info := signGroups[key];
        Success(entries[Lower(info.groupName) := NewEntry(umg, dirUser, groups[|groups| - 1], info)])
  }

  /** The memberships are built exactly when the org has every group. */
  lemma {:induction false} NewEntriesSucceed(umg: bool, dirUser: ResolvedUser, groups: seq<AdobeGroup>, signGroups: map<string, GroupInfo>)
    ensures NewEntries(umg, dirUser, groups, signGroups).Success?
      <==> forall i :: 0 <= i < |groups| ==> Lower(groups[i].groupName) in signGroups
    decreases |groups|
  {
    if groups != [] {
      var prefix := groups[..|groups| - 1];
      assert forall i :: 0 <= i < |prefix| ==> prefix[i] == groups[i];
      NewEntriesSucceed(umg, dirUser, prefix, signGroups);
    }
  }

  /** A failure names the first group the org does not have. */
  lemma {:induction false} NewEntriesFailure(umg: bool, dirUser: ResolvedUser, groups: seq<AdobeGroup>, signGroups: map<string, GroupInfo>)
    ensures var r := NewEntries(umg, dirUser, groups, signGroups);
      r.Failure? ==> exists i :: (0 <= i < |groups| && Lower(groups[i].groupName) !in signGroups
        && r.error == MissingKey(Lower(groups[i].groupName))
        && forall j :: 0 <= j < i ==> Lower(groups[j].groupName) in signGroups)
    decreases |groups|
  {
    if groups != [] {
      var n := |groups| - 1;
      var prefix := groups[..n];
      assert forall i :: 0 <= i < |prefix| ==> prefix[i] == groups[i];
      NewEntriesFailure(umg, dirUser, prefix, signGroups);
      if NewEntries(umg, dirUser, prefix, signGroups).Success? {
        NewEntriesSucceed(umg, dirUser, prefix, signGroups);
      }
    }
  }

  /** Built memberships hold one entry per group, under the lower-cased name of the org's group. */
  lemma {:induction false} NewEntriesKeys(umg: bool, dirUser: ResolvedUser, groups: seq<AdobeGroup>, signGroups: map<string, GroupInfo>)
    requires NewEntries(umg, dirUser, groups, signGroups).Success?
    ensures forall i :: 0 <= i < |groups| ==> Lower(groups[i].groupName) in signGroups
    ensures forall k :: k in NewEntries(umg, dirUser, groups, signGroups).value <==>
      exists i :: 0 <= i < |groups| && Lower(signGroups[Lower(groups[i].groupName)].groupName) == k
    decreases |groups|
  {
    NewEntriesSucceed(umg, dirUser, groups, signGroups);
    if groups != [] {
      var prefix := groups[..|groups| - 1];
      assert forall i :: 0 <= i < |prefix| ==> prefix[i] == groups[i];
      NewEntriesKeys(umg, dirUser, prefix, signGroups);
    }
  }

  /**
   * The memberships are built exactly when the org has every group, and then hold one entry per
   * group, under the lower-cased name of the org's group; otherwise the error names the first
   * group missing.
   */
  lemma NewEntriesOutcome(umg: bool, dirUser: ResolvedUser, groups: seq<AdobeGroup>, signGroups: map<string, GroupInfo>)
    ensures var r := NewEntries(umg, dirUser, groups, signGroups);
      && (r.Success? <==> forall i :: 0 <= i < |groups| ==> Lower(groups[i].groupName) in signGroups)
      && (r.Failure? ==> exists i :: (0 <= i < |groups| && Lower(groups[i].groupName) !in signGroups
            && r.error == MissingKey(Lower(groups[i].groupName))
            && forall j :: 0 <= j < i ==> Lower(groups[j].groupName) in signGroups))
      && (r.Success? ==> forall k :: k in r.value <==>
            exists i :: 0 <= i < |groups| && Lower(signGroups[Lower(groups[i].groupName)].groupName) == k)
  {
    NewEntriesSucceed(umg, dirUser, groups, signGroups);
    NewEntriesFailure(umg, dirUser, groups, signGroups);
    if NewEntries(umg, dirUser, groups, signGroups).Success? {
      NewEntriesKeys(umg, dirUser, groups, signGroups);
    }
  }

  /** The group the rules make primary, matched against the groups the new user gets. */
  function NewPrimary(rules: seq<PrimaryGroupRule>, entries: map<string, UserGroupInfo>): Option<string> {
    ResolvePrimaryGroup(rules, entries.Keys)
  }

  /**
   * The creation request for a new user: its memberships, with the primary group the rules pick
   * flagged primary. Fails, before anything is inserted, for a group the org does not have,
   * when no rule matches, or when the picked group is not among the memberships.
   */
  function NewUserRequest(umg: bool, dirUser: ResolvedUser, assignmentGroups: seq<AdobeGroup>,
                          signGroups: map<string, GroupInfo>, rules: seq<PrimaryGroupRule>): Result<NewUser, SyncError>
  {
    var entries :- NewEntries(umg, dirUser, UsedGroups(umg, assignmentGroups), signGroups);
    match NewPrimary(rules, entries)
    case None => Failure(NoPrimaryGroup(dirUser.email))
    case Some(pg) =>
      if Lower(pg) !in entries then Failure(MissingKey(Lower(pg)))
      else Success(NewUser(NewAccount(dirUser), entries[Lower(pg) := entries[Lower(pg)].(isPrimaryGroup := true)]))
  }

  /** The loop of `insert_new_users`, building the memberships group by group. */
  method InsertNewUser(umg: bool, dirUser: ResolvedUser, assignmentGroups: seq<AdobeGroup>,
                       signGroups: map<string, GroupInfo>, rules: seq<PrimaryGroupRule>)
    returns (r: Result<NewUser, SyncError>)
    ensures r == NewUserRequest(umg, dirUser, assignmentGroups, signGroups, rules)
  {
    var groups := UsedGroups(umg, assignmentGroups);
    var toAssign: map<string, UserGroupInfo> := map[];
    for i := 0 to |groups|
      invariant NewEntries(umg, dirUser, groups[..i], signGroups) == Success(toAssign)
    {
      assert groups[..i + 1][..i] == groups[..i];
      var key := Lower(groups[i].groupName);
      if key !in signGroups {
        NewEntriesFailFirst(umg, dirUser, groups, signGroups, i);
        return Failure(MissingKey(key));
      }
      var info := signGroups[key];
      toAssign := toAssign[Lower(info.groupName) := NewEntry(umg, dirUser, groups[i], info)];
    }
    assert groups[..|groups|] == groups;
    var primary := ResolvePrimaryGroup(rules, toAssign.Keys);
    if primary.None? {
      return Failure(NoPrimaryGroup(dirUser.email));
    }
    var k := Lower(primary.value);
    if k !in toAssign {
      return Failure(MissingKey(k));
    }
    toAssign := toAssign[k := toAssign[k].(isPrimaryGroup := true)];
    return Success(NewUser(NewAccount(dirUser), toAssign));
  }

  /** A missing group stops the memberships at the first group missing, whatever follows it. */
  lemma {:induction false} NewEntriesFailFirst(umg: bool, dirUser: ResolvedUser, groups: seq<AdobeGroup>,
                                               signGroups: map<string, GroupInfo>, i: nat)
    requires i < |groups| && Lower(groups[i].groupName) !in signGroups
    requires NewEntries(umg, dirUser, groups[..i], signGroups).Success?
    ensures NewEntries(umg, dirUser, groups, signGroups) == Failure(MissingKey(Lower(groups[i].groupName)))
    decreases |groups|
  {
    if i == |groups| - 1 {
      assert groups[..|groups| - 1] == groups[..i];
    } else {
      var prefix := groups[..|groups| - 1];
      assert prefix[..i] == groups[..i];
      assert prefix[i] == groups[i];
      NewEntriesFailFirst(umg, dirUser, prefix, signGroups, i);
    }
  }

  /**
   * A successful creation request has exactly one primary membership, the group the rules pick
   * from the groups assigned, and every membership is active.
   */
  lemma NewUserHasOnePrimary(umg: bool, dirUser: ResolvedUser, assignmentGroups: seq<AdobeGroup>,
                             signGroups: map<string, GroupInfo>, rules: seq<PrimaryGroupRule>)
    requires NewUserRequest(umg, dirUser, assignmentGroups, signGroups, rules).Success?
    ensures var r := NewUserRequest(umg, dirUser, assignmentGroups, signGroups, rules).value;
      var pg := ResolvePrimaryGroup(rules, r.groups.Keys);
      && pg.Some? && Lower(pg.value) in r.groups
      && (forall n :: n in r.groups ==> (r.groups[n].isPrimaryGroup <==> n == Lower(pg.value)) && r.groups[n].status == Active)
      && r.account == NewAccount(dirUser)
  {
    var entries := NewEntries(umg, dirUser, UsedGroups(umg, assignmentGroups), signGroups).value;
    var r := NewUserRequest(umg, dirUser, assignmentGroups, signGroups, rules).value;
    assert r.groups.Keys == entries.Keys;
  }

  /**
   * A new user is refused, with nothing inserted, when a used assignment group is not one of
   * the org's groups, and, when the org has them all, exactly when no rule picks a primary
   * group or the group picked is not among its memberships.
   */
  lemma NewUserFailures(umg: bool, dirUser: ResolvedUser, assignmentGroups: seq<AdobeGroup>,
                        signGroups: map<string, GroupInfo>, rules: seq<PrimaryGroupRule>)
    ensures var groups := UsedGroups(umg, assignmentGroups);
      var r := NewUserRequest(umg, dirUser, assignmentGroups, signGroups, rules);
      && ((exists i :: 0 <= i < |groups| && Lower(groups[i].groupName) !in signGroups) ==> r.Failure? && r.error.MissingKey?)
      && ((forall i :: 0 <= i < |groups| ==> Lower(groups[i].groupName) in signGroups) ==>
            && NewEntries(umg, dirUser, groups, signGroups).Success?
            && (NewPrimary(rules, NewEntries(umg, dirUser, groups, signGroups).value).None? ==>
                  r == Failure(NoPrimaryGroup(dirUser.email)))
            && (NewPrimary(rules, NewEntries(umg, dirUser, groups, signGroups).value).Some? ==>
                  (r.Success? <==> Lower(NewPrimary(rules, NewEntries(umg, dirUser, groups, signGroups).value).value)
                                   in NewEntries(umg, dirUser, groups, signGroups).value)))
  {
    NewEntriesOutcome(umg, dirUser, UsedGroups(umg, assignmentGroups), signGroups);
  }

  /** Without UMG a new user gets at most one membership: that of its first assignment group. */
  lemma NonUmgAssignsFirstGroupOnly(dirUser: ResolvedUser, assignmentGroups: seq<AdobeGroup>, signGroups: map<string, GroupInfo>)
    requires NewEntries(false, dirUser, UsedGroups(false, assignmentGroups), signGroups).Success?
    ensures var entries := NewEntries(false, dirUser, UsedGroups(false, assignmentGroups), signGroups).value;
      && |entries| <= 1
      && (assignmentGroups != [] ==> entries.Keys == {Lower(signGroups[Lower(assignmentGroups[0].groupName)].groupName)})
      && (assignmentGroups == [] ==> entries == map[])
  {
    var groups := UsedGroups(false, assignmentGroups);
    var entries := NewEntries(false, dirUser, groups, signGroups).value;
    if assignmentGroups != [] {
      var k := Lower(signGroups[Lower(assignmentGroups[0].groupName)].groupName);
      assert groups[..0] == [];
      assert entries.Keys == {k};
    } else {
      assert entries.Keys == {};
    }
  }
}
