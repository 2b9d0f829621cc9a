/**
 * The per-user reconciliation of an existing remote user in `update_sign_users`: the account-
 * admin change, the groups to add and to remove, group-admin revocation and the primary-group
 * move, all collected in one `groups_to_update` map keyed by lower-cased group name.
 */
module SignUserDiff {
  import opened Wrappers
  import opened Text
  import opened SignTypes
  import opened SignLookups

  /** What the reconciliation of one existing user queues: an account update and group updates. */
  datatype UserUpdates = UserUpdates(account: Option<SignUser>, groups: map<string, UserGroupInfo>)

  // ---------------------------------------------------------------------------------------
  // Account admin

  /**
   * The account-admin update: queued only when the remote flag differs from the directory's,
   * carrying the directory's value and leaving every other field of the user unchanged.
   */
  function AccountAdminUpdate(user: SignUser, isAdmin: bool): (r: Option<SignUser>)
    ensures r.Some? <==> user.isAccountAdmin != isAdmin
    ensures r.Some? ==> r.value.isAccountAdmin == isAdmin && r.value.(isAccountAdmin := user.isAccountAdmin) == user
  {
    if user.isAccountAdmin != isAdmin then Some(user.(isAccountAdmin := isAdmin)) else None
  }

  // ---------------------------------------------------------------------------------------
  // Current memberships

  /** `groups[i]` is the last of `groups` whose lower-cased name is `k`. */
  predicate LastOfName(groups: seq<UserGroupInfo>, k: string, i: int) {
    0 <= i < |groups| && Lower(groups[i].name) == k && forall j :: i < j < |groups| ==> Lower(groups[j].name) != k
  }

  /** The user's memberships keyed by lower-cased group name; each key holds the last record of that name. */
  function AssignedGroups(groups: seq<UserGroupInfo>): (r: map<string, UserGroupInfo>)
    ensures AssignmentsKeyedByName(r)
    ensures forall k :: k in r <==> exists i :: 0 <= i < |groups| && Lower(groups[i].name) == k
    ensures forall k :: k in r ==> exists i :: LastOfName(groups, k, i) && r[k] == groups[i]
  {
    if groups == [] then map[]
    else
      var p := groups[..|groups| - 1];
      var g := groups[|groups| - 1];
      var rp := AssignedGroups(p);
      var r := rp[Lower(g.name) := g];
      assert forall i :: 0 <= i < |p| ==> p[i] == groups[i];
      assert groups == p + [g];
      LastOfNameStep(p, g, rp, r);
      r
  }

  /** Recording one more membership keeps every key at the last record of its name. */
  lemma LastOfNameStep(p: seq<UserGroupInfo>, g: UserGroupInfo, rp: map<string, UserGroupInfo>, r: map<string, UserGroupInfo>)
    requires forall k :: k in rp ==> exists i :: LastOfName(p, k, i) && rp[k] == p[i]
    requires r == rp[Lower(g.name) := g]
    ensures forall k :: k in r ==> exists i :: LastOfName(p + [g], k, i) && r[k] == (p + [g])[i]
  {
    var groups := p + [g];
    forall k | k in r
      ensures exists i :: LastOfName(groups, k, i) && r[k] == groups[i]
    {
      if k == Lower(g.name) {
        assert LastOfName(groups, k, |p|);
      } else {
        var i :| LastOfName(p, k, i) && rp[k] == p[i];
        assert LastOfName(groups, k, i);
      }
    }
  }

  /** The memberships on record for `user`; none when the user has no entry. */
  function Assigned(user: SignUser, userGroups: map<string, seq<UserGroupInfo>>): (r: map<string, UserGroupInfo>)
    ensures AssignmentsKeyedByName(r)
  {
    if user.id in userGroups then AssignedGroups(userGroups[user.id]) else map[]
  }

  /** From position `i` on, the key of the first membership whose recorded entry is primary. */
  function PrimaryKeyFrom(groups: seq<UserGroupInfo>, memberships: map<string, UserGroupInfo>, i: nat): (r: Option<string>)
    requires forall j :: 0 <= j < |groups| ==> Lower(groups[j].name) in memberships
    ensures r.Some? ==> r.value in memberships && memberships[r.value].isPrimaryGroup
    ensures r.None? <==> forall j :: i <= j < |groups| ==> !memberships[Lower(groups[j].name)].isPrimaryGroup
    ensures r.Some? ==> exists j :: (i <= j < |groups| && r.value == Lower(groups[j].name)
      && forall j' :: i <= j' < j ==> !memberships[Lower(groups[j'].name)].isPrimaryGroup)
    decreases |groups| - i
  {
    if i >= |groups| then None
    else if memberships[Lower(groups[i].name)].isPrimaryGroup then Some(Lower(groups[i].name))
    else PrimaryKeyFrom(groups, memberships, i + 1)
  }

  /**
   * The current primary group: the first primary membership in the order the memberships were
   * first recorded, lower-cased; None when none is primary.
   */
  function CurrentPrimary(user: SignUser, userGroups: map<string, seq<UserGroupInfo>>): (r: Option<string>)
    ensures r.Some? ==> r.value in Assigned(user, userGroups) && Assigned(user, userGroups)[r.value].isPrimaryGroup
    ensures r.None? <==> forall k :: k in Assigned(user, userGroups) ==> !Assigned(user, userGroups)[k].isPrimaryGroup
    ensures r.Some? ==> user.id in userGroups && exists j :: (0 <= j < |userGroups[user.id]|
      && r.value == Lower(userGroups[user.id][j].name)
      && forall j' :: 0 <= j' < j ==> !Assigned(user, userGroups)[Lower(userGroups[user.id][j'].name)].isPrimaryGroup)
  {
    if user.id in userGroups then
      var groups := userGroups[user.id];
      var memberships := AssignedGroups(groups);
      assert forall j :: 0 <= j < |groups| ==> Lower(groups[j].name) in memberships;
      var r := PrimaryKeyFrom(groups, memberships, 0);
      assert r.None? ==> forall k :: k in memberships ==> !memberships[k].isPrimaryGroup by {
        if r.None? {
          forall k | k in memberships ensures !memberships[k].isPrimaryGroup {
            var i :| 0 <= i < |groups| && Lower(groups[i].name) == k;
          }
        }
      }
      r
    else None
  }

  // ---------------------------------------------------------------------------------------
  // Desired groups

  /**
   * The desired groups as the reconciliation computes them: the lower-cased names of the user's
   * mapped groups of every org, or, for a user with no mapped group, its current primary group.
   */
  function DesiredGroupsAsWritten(dirUser: ResolvedUser, primary: Result<Option<UserGroupInfo>, SyncError>): (r: Result<set<string>, SyncError>)
    ensures dirUser.signGroups != [] ==> (r.Success?
      && forall n :: n in r.value <==> exists g :: g in dirUser.signGroups && Lower(g.groupName) == n)
    ensures dirUser.signGroups == [] ==> (r.Success? <==> primary.Success? && primary.value.Some?)
    ensures dirUser.signGroups == [] && primary.Success? && primary.value.Some? ==> r == Success({Lower(primary.value.value.name)})
  {
    if dirUser.signGroups != [] then Success(set g | g in dirUser.signGroups :: Lower(g.groupName))
    else match primary {
      case Failure(e) => Failure(e)
      case Success(None) => Failure(NoneHasNoAttribute)
      case Success(Some(g)) => Success({Lower(g.name)})
    }
  }

  /**
   * The desired groups restricted to the org being reconciled: the lower-cased names of the
   * user's mapped groups that target `org`, or its current primary group when it has none mapped.
   */
  function DesiredGroups(org: string, dirUser: ResolvedUser, primary: Result<Option<UserGroupInfo>, SyncError>): (r: Result<set<string>, SyncError>)
    ensures dirUser.signGroups != [] ==> (r.Success?
      && forall n :: n in r.value <==> exists g :: g in dirUser.signGroups && g.umapiName == org && Lower(g.groupName) == n)
    ensures dirUser.signGroups == [] ==> r == DesiredGroupsAsWritten(dirUser, primary)
    ensures dirUser.signGroups == [] && primary.Success? && primary.value.Some? ==> r == Success({Lower(primary.value.value.name)})
  {
    if dirUser.signGroups != [] then Success(set g | g in dirUser.signGroups && g.umapiName == org :: Lower(g.groupName))
    else match primary {
      case Failure(e) => Failure(e)
      case Success(None) => Failure(NoneHasNoAttribute)
      case Success(Some(g)) => Success({Lower(g.name)})
    }
  }

  // ---------------------------------------------------------------------------------------
  // The specification of `groups_to_update`

  /** The lower-cased names of the org's managed groups. */
  function TargetNames(targetGroups: set<AdobeGroup>): set<string> {
    set g | g in targetGroups :: Lower(g.groupName)
  }

  /** The groups to add: desired but not held. */
  function ToAssign(desired: set<string>, memberships: map<string, UserGroupInfo>): set<string> {
    desired - memberships.Keys
  }

  /** The groups to remove: managed, held and not desired. */
  function ToRemove(desired: set<string>, memberships: map<string, UserGroupInfo>, targetGroups: set<AdobeGroup>): set<string> {
    TargetNames(targetGroups) * (memberships.Keys - desired)
  }

  /**
   * Adding and removing never overlap, so the consistency check on removals never fires;
   * removals stay inside the org's managed groups and inside the current memberships.
   */
  lemma AssignAndRemoveAreDisjoint(desired: set<string>, memberships: map<string, UserGroupInfo>, targetGroups: set<AdobeGroup>)
    ensures ToAssign(desired, memberships) !! ToRemove(desired, memberships, targetGroups)
    ensures ToRemove(desired, memberships, targetGroups) <= TargetNames(targetGroups)
    ensures ToRemove(desired, memberships, targetGroups) <= memberships.Keys && ToRemove(desired, memberships, targetGroups) !! desired
    ensures ToAssign(desired, memberships) !! memberships.Keys && ToAssign(desired, memberships) <= desired
  {
  }

  /** The names of this org's admin groups. */
  function OrgAdminNames(adminGroups: set<AdobeGroup>, org: string): set<string> {
    set g | g in adminGroups && g.umapiName == org :: g.groupName
  }

  /** The names of all of the user's admin groups, of every org. */
  function AdminNames(adminGroups: set<AdobeGroup>): set<string> {
    set g | g in adminGroups :: g.groupName
  }

  /** A new membership: active, not primary, group admin when the group is one of the org's admin groups. */
  function AssignEntry(n: string, signGroups: map<string, GroupInfo>, adminNames: set<string>): UserGroupInfo
    requires n in signGroups
  {
    UserGroupInfo(signGroups[n].groupId, signGroups[n].groupName, n in adminNames, false, Active)
  }

  function AssignEntries(toAssign: set<string>, signGroups: map<string, GroupInfo>, adminNames: set<string>): map<string, UserGroupInfo>
    requires toAssign <= signGroups.Keys
  {
    map n | n in toAssign :: AssignEntry(n, signGroups, adminNames)
  }

  /** A removal can be built: the group exists and its lower-cased name is a current membership. */
  predicate Removable(n: string, signGroups: map<string, GroupInfo>, memberships: map<string, UserGroupInfo>) {
    n in signGroups && Lower(signGroups[n].groupName) in memberships
  }

  /** A removal: deleted, keeping the membership's admin and primary flags. */
  function RemoveEntry(n: string, signGroups: map<string, GroupInfo>, memberships: map<string, UserGroupInfo>): UserGroupInfo
    requires Removable(n, signGroups, memberships)
  {
    var a := memberships[Lower(signGroups[n].groupName)];
    UserGroupInfo(signGroups[n].groupId, signGroups[n].groupName, a.isGroupAdmin, a.isPrimaryGroup, Deleted)
  }

  function RemoveEntries(remove: set<string>, signGroups: map<string, GroupInfo>, memberships: map<string, UserGroupInfo>): map<string, UserGroupInfo>
    requires forall n :: n in remove ==> Removable(n, signGroups, memberships)
  {
    map n | n in remove :: RemoveEntry(n, signGroups, memberships)
  }

  /** The groups the user administers now or is being given admin of, lower-cased. */
  function CurrentAdminGroups(memberships: map<string, UserGroupInfo>, updates: map<string, UserGroupInfo>): set<string> {
    (set k | k in memberships && memberships[k].isGroupAdmin :: Lower(memberships[k].name))
    + (set k | k in updates && updates[k].status == Active && updates[k].isGroupAdmin :: Lower(updates[k].name))
  }

  /** The groups whose admin status is revoked: administered, but not among the user's admin groups. */
  function Revoked(memberships: map<string, UserGroupInfo>, updates: map<string, UserGroupInfo>, adminGroups: set<AdobeGroup>): set<string> {
    CurrentAdminGroups(memberships, updates) - AdminNames(adminGroups)
  }

  /** The entry for `n` once the groups of `done` are revoked. */
  function RevokedEntry(n: string, memberships: map<string, UserGroupInfo>, updates: map<string, UserGroupInfo>, done: set<string>): UserGroupInfo
    requires n in updates || n in memberships
  {
    if n in updates then (if n in done then updates[n].(isGroupAdmin := false) else updates[n])
    else memberships[n].(isGroupAdmin := false, status := Active)
  }

  /**
   * Revocation: an update already queued loses its admin flag; any other revoked membership is
   * queued from its current entry without the admin flag and with status ACTIVE, so the user
   * keeps the group and loses only the admin role.
   */
  function WithRevocations(memberships: map<string, UserGroupInfo>, updates: map<string, UserGroupInfo>, revoked: set<string>): map<string, UserGroupInfo>
    requires revoked <= updates.Keys + memberships.Keys
  {
    map n | n in updates.Keys + revoked :: RevokedEntry(n, memberships, updates, revoked)
  }

  /** The groups the primary-group rules are matched against: every queued and every current group. */
  function RuleGroups(updates: map<string, UserGroupInfo>, memberships: map<string, UserGroupInfo>): set<string> {
    set k | k in updates.Keys + memberships.Keys :: Lower(k)
  }

  /**
   * The primary-group move: the rules must pick a group; when it is not the current primary
   * group, its queued update is flagged primary, and it must be queued.
   */
  function PrimaryMove(updates: map<string, UserGroupInfo>, memberships: map<string, UserGroupInfo>, current: Option<string>,
                       rules: seq<PrimaryGroupRule>, email: string): (r: Result<map<string, UserGroupInfo>, SyncError>)
    ensures r.Success? ==> r.value.Keys == updates.Keys
    ensures r.Success? ==> forall k :: k in updates ==> r.value[k].(isPrimaryGroup := updates[k].isPrimaryGroup) == updates[k]
    ensures ResolvePrimaryGroup(rules, RuleGroups(updates, memberships)).None? ==> r == Failure(NoPrimaryGroup(email))
    ensures ResolvePrimaryGroup(rules, RuleGroups(updates, memberships)).Some? && r.Failure? ==>
      var k := Lower(ResolvePrimaryGroup(rules, RuleGroups(updates, memberships)).value);
      r == Failure(MissingKey(k)) && k !in updates && current != Some(k)
    ensures r.Success? ==> ResolvePrimaryGroup(rules, RuleGroups(updates, memberships)).Some?
    ensures r.Success? && (current.None? || current.value != Lower(ResolvePrimaryGroup(rules, RuleGroups(updates, memberships)).value)) ==>
      var k := Lower(ResolvePrimaryGroup(rules, RuleGroups(updates, memberships)).value);
      k in r.value && r.value[k].isPrimaryGroup && forall k' :: k' in updates && k' != k ==> r.value[k'] == updates[k']
    ensures r.Success? && current.Some? && current.value == Lower(ResolvePrimaryGroup(rules, RuleGroups(updates, memberships)).value) ==>
      r.value == updates
  {
    match ResolvePrimaryGroup(rules, RuleGroups(updates, memberships)) {
      case None => Failure(NoPrimaryGroup(email))
      case Some(pg) =>
        var k := Lower(pg);
        if current.Some? && k == current.value then Success(updates)
        else if k !in updates then Failure(MissingKey(k))
        else Success(updates[k := updates[k].(isPrimaryGroup := true)])
    }
  }

  /**
   * The additions and removals of `groups_to_update`, or the error raised while building them:
   * a group to add or remove missing from the org's groups, or a removal whose current
   * membership cannot be found. Every addition is active, every removal deleted.
   */
  ghost function QueuedChanges(org: string, dirUser: ResolvedUser, memberships: map<string, UserGroupInfo>, desired: set<string>,
                               signGroups: map<string, GroupInfo>, targetGroups: set<AdobeGroup>): (r: Result<map<string, UserGroupInfo>, SyncError>)
    ensures r.Success? <==> ToAssign(desired, memberships) + ToRemove(desired, memberships, targetGroups) <= signGroups.Keys
                            && forall n :: n in ToRemove(desired, memberships, targetGroups) ==> Removable(n, signGroups, memberships)
    ensures r.Failure? && GroupsKeyedByName(signGroups) ==>
      exists n :: n in ToAssign(desired, memberships) + ToRemove(desired, memberships, targetGroups) && n !in signGroups
                  && r.error == InvalidSignGroup(n)
    ensures r.Success? ==> r.value.Keys == ToAssign(desired, memberships) + ToRemove(desired, memberships, targetGroups)
    ensures r.Success? ==> forall n :: n in r.value ==>
      && r.value[n].id == signGroups[n].groupId && r.value[n].name == signGroups[n].groupName
      && (r.value[n].status == Active <==> n in ToAssign(desired, memberships))
    ensures r.Success? ==> forall n :: n in ToAssign(desired, memberships) ==>
      && !r.value[n].isPrimaryGroup && (r.value[n].isGroupAdmin <==> n in OrgAdminNames(dirUser.adminGroups, org))
    ensures r.Success? ==> forall n :: n in ToRemove(desired, memberships, targetGroups) ==>
      var current := memberships[Lower(signGroups[n].groupName)];
      r.value[n].isGroupAdmin == current.isGroupAdmin && r.value[n].isPrimaryGroup == current.isPrimaryGroup
    ensures r.Success? && GroupsKeyedByName(signGroups) ==> AssignmentsKeyedByName(r.value)
  {
    var toAssign := ToAssign(desired, memberships);
    var remove := ToRemove(desired, memberships, targetGroups);
    AssignAndRemoveAreDisjoint(desired, memberships, targetGroups);
    if !(toAssign <= signGroups.Keys) then
      var n :| n in toAssign && n !in signGroups;
      Failure(InvalidSignGroup(n))
    else if exists n :: n in remove && !Removable(n, signGroups, memberships) then
      var n :| n in remove && !Removable(n, signGroups, memberships);
      assert GroupsKeyedByName(signGroups) && n in signGroups ==> Removable(n, signGroups, memberships);
      Failure(if n in signGroups then NoneHasNoAttribute else InvalidSignGroup(n))
    else
      Success(AssignEntries(toAssign, signGroups, OrgAdminNames(dirUser.adminGroups, org)) + RemoveEntries(remove, signGroups, memberships))
  }

  /**
   * The whole of `groups_to_update` for a UMG user, or the first error the reconciliation
   * raises: one from the additions and removals, a revocation whose current membership cannot
   * be found, no primary group, or a primary group not queued.
   */
  ghost function GroupUpdates(org: string, email: string, dirUser: ResolvedUser, memberships: map<string, UserGroupInfo>,
                              current: Option<string>, desired: set<string>, signGroups: map<string, GroupInfo>,
                              targetGroups: set<AdobeGroup>, rules: seq<PrimaryGroupRule>): (r: Result<map<string, UserGroupInfo>, SyncError>)
    ensures QueuedChanges(org, dirUser, memberships, desired, signGroups, targetGroups).Failure? ==>
      r == Failure(QueuedChanges(org, dirUser, memberships, desired, signGroups, targetGroups).error)
    ensures r.Success? ==>
      && QueuedChanges(org, dirUser, memberships, desired, signGroups, targetGroups).Success?
      && QueuedChanges(org, dirUser, memberships, desired, signGroups, targetGroups).value.Keys <= r.value.Keys
  {
    var first :- QueuedChanges(org, dirUser, memberships, desired, signGroups, targetGroups);
    var revoked := Revoked(memberships, first, dirUser.adminGroups);
    if !(revoked <= first.Keys + memberships.Keys) then Failure(NoneHasNoAttribute)
    else PrimaryMove(WithRevocations(memberships, first, revoked), memberships, current, rules, email)
  }

  /** The user's memberships once `updates` are applied: a queued entry replaces the current one. */
  function Applied(memberships: map<string, UserGroupInfo>, updates: map<string, UserGroupInfo>): (r: map<string, UserGroupInfo>)
    ensures r.Keys == memberships.Keys + updates.Keys
    ensures forall k :: k in updates ==> r[k] == updates[k]
    ensures forall k :: k in memberships && k !in updates ==> r[k] == memberships[k]
  {
    map k | k in memberships.Keys + updates.Keys :: if k in updates then updates[k] else memberships[k]
  }

  /**
   * Revocation clears every admin flag outside the user's admin groups: each revoked group is
   * queued without the flag, and once the updates are applied the user administers only groups
   * named among its admin groups. Entries not revoked are left as queued.
   */
  lemma RevocationsClearAdmin(memberships: map<string, UserGroupInfo>, first: map<string, UserGroupInfo>, adminGroups: set<AdobeGroup>)
    requires AssignmentsKeyedByName(memberships) && AssignmentsKeyedByName(first)
    requires forall k :: k in first && first[k].status != Active && first[k].isGroupAdmin ==> k in memberships && memberships[k].isGroupAdmin
    requires Revoked(memberships, first, adminGroups) <= first.Keys + memberships.Keys
    ensures var w := WithRevocations(memberships, first, Revoked(memberships, first, adminGroups));
      && w.Keys == first.Keys + Revoked(memberships, first, adminGroups)
      && (forall k :: k in Revoked(memberships, first, adminGroups) ==> !w[k].isGroupAdmin)
      && (forall k :: k in first && k !in Revoked(memberships, first, adminGroups) ==> w[k] == first[k])
      && (forall k :: k in Applied(memberships, w) && Applied(memberships, w)[k].isGroupAdmin ==> k in AdminNames(adminGroups))
  {
    var revoked := Revoked(memberships, first, adminGroups);
    var w := WithRevocations(memberships, first, revoked);
    var applied := Applied(memberships, w);
    forall k | k in applied && applied[k].isGroupAdmin
      ensures k in AdminNames(adminGroups)
    {
      assert k !in revoked;
      if k in first && first[k].status == Active {
        assert Lower(first[k].name) == k;
      } else {
        assert k in memberships && memberships[k].isGroupAdmin && Lower(memberships[k].name) == k;
      }
      assert k in CurrentAdminGroups(memberships, first);
    }
  }

  /**
   * Group-admin revocation for a whole reconciliation: every current admin membership outside
   * the user's admin groups is queued with the flag cleared, and once the updates are applied
   * the user administers only groups named among its admin groups.
   */
  lemma GroupUpdatesRevokeAdmin(org: string, email: string, dirUser: ResolvedUser, memberships: map<string, UserGroupInfo>,
                                current: Option<string>, desired: set<string>, signGroups: map<string, GroupInfo>,
                                targetGroups: set<AdobeGroup>, rules: seq<PrimaryGroupRule>)
    requires GroupsKeyedByName(signGroups) && AssignmentsKeyedByName(memberships)
    requires GroupUpdates(org, email, dirUser, memberships, current, desired, signGroups, targetGroups, rules).Success?
    ensures var r := GroupUpdates(org, email, dirUser, memberships, current, desired, signGroups, targetGroups, rules).value;
      && (forall k :: k in memberships && memberships[k].isGroupAdmin && k !in AdminNames(dirUser.adminGroups) ==>
            k in r && !r[k].isGroupAdmin)
      && (forall k :: k in Applied(memberships, r) && Applied(memberships, r)[k].isGroupAdmin ==> k in AdminNames(dirUser.adminGroups))
  {
    var first := QueuedChanges(org, dirUser, memberships, desired, signGroups, targetGroups).value;
    QueuedRemovalsKeepAdmin(org, dirUser, memberships, desired, signGroups, targetGroups);
    var revoked := Revoked(memberships, first, dirUser.adminGroups);
    RevocationsClearAdmin(memberships, first, dirUser.adminGroups);
    var w := WithRevocations(memberships, first, revoked);
    PrimaryMoveKeepsAdmin(w, memberships, current, rules, email);
    forall k | k in memberships && memberships[k].isGroupAdmin && k !in AdminNames(dirUser.adminGroups)
      ensures k in revoked
    {
      assert Lower(memberships[k].name) == k;
    }
  }

  /** A queued removal keeps the admin flag of the membership it removes. */
  lemma QueuedRemovalsKeepAdmin(org: string, dirUser: ResolvedUser, memberships: map<string, UserGroupInfo>, desired: set<string>,
                                signGroups: map<string, GroupInfo>, targetGroups: set<AdobeGroup>)
    requires GroupsKeyedByName(signGroups)
    requires QueuedChanges(org, dirUser, memberships, desired, signGroups, targetGroups).Success?
    ensures var first := QueuedChanges(org, dirUser, memberships, desired, signGroups, targetGroups).value;
      forall k :: k in first && first[k].status != Active ==> k in memberships && first[k].isGroupAdmin == memberships[k].isGroupAdmin
  {
    var first := QueuedChanges(org, dirUser, memberships, desired, signGroups, targetGroups).value;
    forall k | k in first && first[k].status != Active
      ensures k in memberships && first[k].isGroupAdmin == memberships[k].isGroupAdmin
    {
      assert k in ToRemove(desired, memberships, targetGroups);
      assert Lower(signGroups[k].groupName) == k;
    }
  }

  /** The primary-group move changes no key and no admin flag, before or after the updates are applied. */
  lemma PrimaryMoveKeepsAdmin(updates: map<string, UserGroupInfo>, memberships: map<string, UserGroupInfo>, current: Option<string>,
                              rules: seq<PrimaryGroupRule>, email: string)
    requires PrimaryMove(updates, memberships, current, rules, email).Success?
    ensures var r := PrimaryMove(updates, memberships, current, rules, email).value;
      && Applied(memberships, r).Keys == Applied(memberships, updates).Keys
      && forall k :: k in Applied(memberships, r) ==> Applied(memberships, r)[k].isGroupAdmin == Applied(memberships, updates)[k].isGroupAdmin
  {
    var r := PrimaryMove(updates, memberships, current, rules, email).value;
    forall k | k in updates ensures r[k].isGroupAdmin == updates[k].isGroupAdmin {
      assert r[k].(isPrimaryGroup := updates[k].isPrimaryGroup) == updates[k];
    }
  }

  /**
   * The primary-group move for a whole reconciliation: a successful one resolved a primary
   * group from the queued and current groups, and once the updates are applied that group
   * carries the primary flag, whether it was moved or already was the current primary group.
   */
  lemma GroupUpdatesPrimary(org: string, email: string, dirUser: ResolvedUser, memberships: map<string, UserGroupInfo>,
                            current: Option<string>, desired: set<string>, signGroups: map<string, GroupInfo>,
                            targetGroups: set<AdobeGroup>, rules: seq<PrimaryGroupRule>)
    requires GroupsKeyedByName(signGroups) && AssignmentsKeyedByName(memberships)
    requires current.Some? ==> current.value in memberships && memberships[current.value].isPrimaryGroup
    requires GroupUpdates(org, email, dirUser, memberships, current, desired, signGroups, targetGroups, rules).Success?
    ensures var r := GroupUpdates(org, email, dirUser, memberships, current, desired, signGroups, targetGroups, rules).value;
      var pg := ResolvePrimaryGroup(rules, RuleGroups(r, memberships));
      && pg.Some?
      && Lower(pg.value) in Applied(memberships, r) && Applied(memberships, r)[Lower(pg.value)].isPrimaryGroup
  {
    var first := QueuedChanges(org, dirUser, memberships, desired, signGroups, targetGroups).value;
    var revoked := Revoked(memberships, first, dirUser.adminGroups);
    var w := WithRevocations(memberships, first, revoked);
    if current.Some? && current.value in first {
      assert current.value in ToRemove(desired, memberships, targetGroups);
      assert Lower(signGroups[current.value].groupName) == current.value;
    }
    PrimaryMoveFlagsPrimary(w, memberships, current, rules, email);
  }

  /**
   * After a successful primary-group move, the group the rules pick carries the primary flag
   * once the updates are applied, provided the current primary group, when queued, kept its flag.
   */
  lemma PrimaryMoveFlagsPrimary(updates: map<string, UserGroupInfo>, memberships: map<string, UserGroupInfo>, current: Option<string>,
                                rules: seq<PrimaryGroupRule>, email: string)
    requires current.Some? ==> current.value in memberships && memberships[current.value].isPrimaryGroup
    requires current.Some? && current.value in updates ==> updates[current.value].isPrimaryGroup
    requires PrimaryMove(updates, memberships, current, rules, email).Success?
    ensures var r := PrimaryMove(updates, memberships, current, rules, email).value;
      var pg := ResolvePrimaryGroup(rules, RuleGroups(r, memberships));
      && pg.Some?
      && Lower(pg.value) in Applied(memberships, r) && Applied(memberships, r)[Lower(pg.value)].isPrimaryGroup
  {
    var r := PrimaryMove(updates, memberships, current, rules, email).value;
    assert RuleGroups(r, memberships) == RuleGroups(updates, memberships);
  }

  /**
   * With the remote tables keyed by lower-cased name, the reconciliation fails only for a group
   * to add or remove that the org does not have, for want of a primary group, or when the
   * primary group picked is neither current nor queued: a removal or revocation always finds
   * its current membership.
   */
  lemma GroupUpdatesFailures(org: string, email: string, dirUser: ResolvedUser, memberships: map<string, UserGroupInfo>,
                             current: Option<string>, desired: set<string>, signGroups: map<string, GroupInfo>,
                             targetGroups: set<AdobeGroup>, rules: seq<PrimaryGroupRule>)
    requires GroupsKeyedByName(signGroups) && AssignmentsKeyedByName(memberships)
    ensures var r := GroupUpdates(org, email, dirUser, memberships, current, desired, signGroups, targetGroups, rules);
      r.Failure? ==>
        || (exists n :: n in ToAssign(desired, memberships) + ToRemove(desired, memberships, targetGroups) && n !in signGroups
                        && r.error == InvalidSignGroup(n))
        || r.error == NoPrimaryGroup(email)
        || r.error.MissingKey?
  {
    var q := QueuedChanges(org, dirUser, memberships, desired, signGroups, targetGroups);
    if q.Success? {
      var first := q.value;
      var revoked := Revoked(memberships, first, dirUser.adminGroups);
      assert revoked <= first.Keys + memberships.Keys;
    }
  }

  /**
   * Restricted to the org, every desired group the user has mapped is one to add or one already
   * held: when the org has every group the user is mapped to in it, no addition is refused.
   */
  lemma DesiredGroupsAssignable(org: string, dirUser: ResolvedUser, primary: Result<Option<UserGroupInfo>, SyncError>,
                                memberships: map<string, UserGroupInfo>, signGroups: map<string, GroupInfo>)
    requires dirUser.signGroups != []
    requires forall g :: g in dirUser.signGroups && g.umapiName == org ==> Lower(g.groupName) in signGroups
    ensures DesiredGroups(org, dirUser, primary).Success?
    ensures ToAssign(DesiredGroups(org, dirUser, primary).value, memberships) <= signGroups.Keys
  {
    var desired := DesiredGroups(org, dirUser, primary).value;
    forall n | n in ToAssign(desired, memberships) ensures n in signGroups {
      var g :| g in dirUser.signGroups && g.umapiName == org && Lower(g.groupName) == n;
    }
  }

  /** A user mapped to group `a` of the org `primary` and to group `b` of another org. */
  const CrossOrgUser := ResolvedUser("u@x", "", "", ["d"], [AdobeGroup("a", "primary"), AdobeGroup("b", "other")], false, false, {})
  /** That user's current membership: group `a`, its primary group. */
  const CrossOrgMemberships := map["a" := UserGroupInfo("1", "a", false, true, Active)]
  /** The org `primary` has only group `a`, which is also the only group mapped to it. */
  const CrossOrgGroups := map["a" := GroupInfo("1", "a", false)]
  const CrossOrgTargets := {AdobeGroup("a", "primary")}
  const CrossOrgRules := [PrimaryGroupRule({"a"}, "a")]

  /**
   * The desired groups as written take in the user's mapped groups of other orgs: the user
   * above, already where the mapping puts it in the org, is refused because `b` is not one of
   * the org's groups.
   */
  lemma DesiredGroupsAcrossOrgs()
    ensures GroupUpdates("primary", "u@x", CrossOrgUser, CrossOrgMemberships, Some("a"),
                         DesiredGroupsAsWritten(CrossOrgUser, Success(None)).value, CrossOrgGroups, CrossOrgTargets, CrossOrgRules)
            == Failure(InvalidSignGroup("b"))
  {
    assert Lower("a") == "a" && Lower("b") == "b";
    var asWritten := DesiredGroupsAsWritten(CrossOrgUser, Success(None)).value;
    assert asWritten == {"a", "b"};
    assert ToAssign(asWritten, CrossOrgMemberships) == {"b"};
  }

  /** Restricted to the org, the user above is where the mapping puts it: nothing to add or remove. */
  lemma CrossOrgQueuesNothing()
    ensures DesiredGroups("primary", CrossOrgUser, Success(None)) == Success({"a"})
    ensures QueuedChanges("primary", CrossOrgUser, CrossOrgMemberships, {"a"}, CrossOrgGroups, CrossOrgTargets) == Success(map[])
  {
    assert Lower("a") == "a";
    assert CrossOrgUser.signGroups[0] == AdobeGroup("a", "primary");
    assert forall g :: g in CrossOrgUser.signGroups && g.umapiName == "primary" ==> g == AdobeGroup("a", "primary");
    var desired := DesiredGroups("primary", CrossOrgUser, Success(None)).value;
    assert "a" in desired;
    assert desired == {"a"};
    assert ToAssign({"a"}, CrossOrgMemberships) == {};
    assert ToRemove({"a"}, CrossOrgMemberships, CrossOrgTargets) == {};
  }

  /** Nothing queued for the user above: no revocation, and its current primary group stays. */
  lemma CrossOrgKeepsPrimary()
    ensures Revoked(CrossOrgMemberships, map[], {}) == {}
    ensures PrimaryMove(WithRevocations(CrossOrgMemberships, map[], {}), CrossOrgMemberships, Some("a"), CrossOrgRules, "u@x") == Success(map[])
  {
    assert Lower("a") == "a";
    assert WithRevocations(CrossOrgMemberships, map[], {}) == map[];
    assert RuleGroups(map[], CrossOrgMemberships) == {"a"};
    assert RuleMatches(CrossOrgRules[0], {"a"});
  }

  /** Restricted to the org, the reconciliation of the same user succeeds and queues nothing. */
  lemma DesiredGroupsWithinOrg()
    ensures GroupUpdates("primary", "u@x", CrossOrgUser, CrossOrgMemberships, Some("a"),
                         DesiredGroups("primary", CrossOrgUser, Success(None)).value, CrossOrgGroups, CrossOrgTargets, CrossOrgRules)
            == Success(map[])
  {
    CrossOrgQueuesNothing();
    CrossOrgKeepsPrimary();
  }

  /** A user mapped to `b` only, currently in `a` (its primary group) and `b`; both groups are managed. */
  const MovedUser := ResolvedUser("u@x", "", "", ["d"], [AdobeGroup("b", "primary")], false, false, {})
  const MovedMemberships := map["a" := UserGroupInfo("1", "a", false, true, Active), "b" := UserGroupInfo("2", "b", false, false, Active)]
  const MovedGroups := map["a" := GroupInfo("1", "a", false), "b" := GroupInfo("2", "b", false)]
  const MovedTargets := {AdobeGroup("a", "primary"), AdobeGroup("b", "primary")}
  /** The rules put members of `a` in `a` and members of `b` in `b`, `a` first. */
  const MovedRules := [PrimaryGroupRule({"a"}, "a"), PrimaryGroupRule({"b"}, "b")]

  /** The removal queued for the user above: `a`, deleted, keeping its primary flag. */
  const MovedRemoval := map["a" := UserGroupInfo("1", "a", false, true, Deleted)]

  /** The user above is only removed from `a`. */
  lemma MovedQueuesRemoval()
    ensures QueuedChanges("primary", MovedUser, MovedMemberships, {"b"}, MovedGroups, MovedTargets) == Success(MovedRemoval)
  {
    assert Lower("a") == "a" && Lower("b") == "b";
    assert TargetNames(MovedTargets) == {"a", "b"};
    assert ToAssign({"b"}, MovedMemberships) == {};
    assert ToRemove({"b"}, MovedMemberships, MovedTargets) == {"a"};
    assert OrgAdminNames(MovedUser.adminGroups, "primary") == {};
    assert Removable("a", MovedGroups, MovedMemberships);
    assert AssignEntries({}, MovedGroups, {}) == map[];
    assert RemoveEntries({"a"}, MovedGroups, MovedMemberships) == MovedRemoval;
    assert map[] + MovedRemoval == MovedRemoval;
  }

  /** Nothing is revoked, and the rules pick `a`, already the primary group: the flag does not move. */
  lemma MovedKeepsPrimary()
    ensures Revoked(MovedMemberships, MovedRemoval, {}) == {}
    ensures PrimaryMove(WithRevocations(MovedMemberships, MovedRemoval, {}), MovedMemberships, Some("a"), MovedRules, "u@x")
            == Success(MovedRemoval)
  {
    assert Lower("a") == "a" && Lower("b") == "b";
    assert CurrentAdminGroups(MovedMemberships, MovedRemoval) == {};
    assert WithRevocations(MovedMemberships, MovedRemoval, {}) == MovedRemoval;
    assert RuleGroups(MovedRemoval, MovedMemberships) == {"a", "b"};
    assert RuleMatches(MovedRules[0], {"a", "b"});
  }

  /**
   * The rules are matched against the groups being removed as well: the user above leaves `a`,
   * yet `a` is still picked, so the flag is not moved and only the removal of `a` is queued.
   */
  lemma RemovedGroupStaysPrimary()
    ensures GroupUpdates("primary", "u@x", MovedUser, MovedMemberships, Some("a"), {"b"}, MovedGroups, MovedTargets, MovedRules)
            == Success(MovedRemoval)
  {
    MovedQueuesRemoval();
    MovedKeepsPrimary();
    assert MovedUser.adminGroups == {};
  }

  /** Once the removal above is applied, no membership the user keeps is primary. */
  lemma RemovalLeavesNoPrimary()
    ensures var after := Applied(MovedMemberships, MovedRemoval);
      forall k :: k in after && after[k].status == Active ==> !after[k].isPrimaryGroup
  {
    var after := Applied(MovedMemberships, MovedRemoval);
    assert after.Keys == {"a", "b"};
  }

  // ---------------------------------------------------------------------------------------
  // Revocation as written

  /**
   * Revocation as sign.py:292-298 writes it: a revoked membership that is not queued is queued
   * with status DELETED, which takes the user out of a group where only the admin role was to go.
   */
  function WithRevocationsAsWritten(memberships: map<string, UserGroupInfo>, updates: map<string, UserGroupInfo>,
                                    revoked: set<string>): (r: map<string, UserGroupInfo>)
    requires revoked <= updates.Keys + memberships.Keys
    ensures r.Keys == WithRevocations(memberships, updates, revoked).Keys
    ensures forall n :: n in updates ==> r[n] == WithRevocations(memberships, updates, revoked)[n]
    ensures forall n :: n in revoked && n !in updates ==>
      r[n] == WithRevocations(memberships, updates, revoked)[n].(status := Deleted)
  {
    map n | n in updates.Keys + revoked ::
      if n in updates then RevokedEntry(n, memberships, updates, revoked) else memberships[n].(isGroupAdmin := false, status := Deleted)
  }

  /** `GroupUpdates` with the revocation as written: it fails exactly as `GroupUpdates` does, and queues the same groups. */
  ghost function GroupUpdatesAsWritten(org: string, email: string, dirUser: ResolvedUser, memberships: map<string, UserGroupInfo>,
                                       current: Option<string>, desired: set<string>, signGroups: map<string, GroupInfo>,
                                       targetGroups: set<AdobeGroup>, rules: seq<PrimaryGroupRule>): (r: Result<map<string, UserGroupInfo>, SyncError>)
    ensures r.Failure? <==> GroupUpdates(org, email, dirUser, memberships, current, desired, signGroups, targetGroups, rules).Failure?
    ensures r.Failure? ==> r == GroupUpdates(org, email, dirUser, memberships, current, desired, signGroups, targetGroups, rules)
    ensures r.Success? ==>
      r.value.Keys == GroupUpdates(org, email, dirUser, memberships, current, desired, signGroups, targetGroups, rules).value.Keys
  {
    var first :- QueuedChanges(org, dirUser, memberships, desired, signGroups, targetGroups);
    var revoked := Revoked(memberships, first, dirUser.adminGroups);
    if !(revoked <= first.Keys + memberships.Keys) then Failure(NoneHasNoAttribute)
    else
      var w := WithRevocations(memberships, first, revoked);
      var a := WithRevocationsAsWritten(memberships, first, revoked);
      assert RuleGroups(a, memberships) == RuleGroups(w, memberships);
      PrimaryMove(a, memberships, current, rules, email)
  }

  /**
   * Only removals delete: in a successful reconciliation an entry has status DELETED exactly
   * when its group is one to remove, so revoking an admin role never takes the user out of
   * the group.
   */
  lemma DeletedAreRemovals(org: string, email: string, dirUser: ResolvedUser, memberships: map<string, UserGroupInfo>,
                           current: Option<string>, desired: set<string>, signGroups: map<string, GroupInfo>,
                           targetGroups: set<AdobeGroup>, rules: seq<PrimaryGroupRule>)
    requires GroupUpdates(org, email, dirUser, memberships, current, desired, signGroups, targetGroups, rules).Success?
    ensures var r := GroupUpdates(org, email, dirUser, memberships, current, desired, signGroups, targetGroups, rules).value;
      forall k :: k in r ==> (r[k].status == Deleted <==> k in ToRemove(desired, memberships, targetGroups))
  {
    var r := GroupUpdates(org, email, dirUser, memberships, current, desired, signGroups, targetGroups, rules).value;
    var first := QueuedChanges(org, dirUser, memberships, desired, signGroups, targetGroups).value;
    var revoked := Revoked(memberships, first, dirUser.adminGroups);
    var w := WithRevocations(memberships, first, revoked);
    AssignAndRemoveAreDisjoint(desired, memberships, targetGroups);
    forall k | k in r
      ensures r[k].status == Deleted <==> k in ToRemove(desired, memberships, targetGroups)
    {
      assert r[k].(isPrimaryGroup := w[k].isPrimaryGroup) == w[k];
      if k in first {
        assert w[k].status == first[k].status;
      }
    }
  }

  /** A user mapped to `a` only, primary in `a`, and admin of `u`, a group the sync does not manage. */
  const RevokedUser := ResolvedUser("u@x", "", "", ["d"], [AdobeGroup("a", "primary")], false, false, {})
  const RevokedMemberships := map["a" := UserGroupInfo("1", "a", false, true, Active), "u" := UserGroupInfo("9", "u", true, false, Active)]

  /** The user above is neither added to nor removed from a group, and its admin role in `u` is revoked. */
  lemma RevokedQueuesNothingElse()
    ensures ToRemove({"a"}, RevokedMemberships, CrossOrgTargets) == {}
    ensures QueuedChanges("primary", RevokedUser, RevokedMemberships, {"a"}, CrossOrgGroups, CrossOrgTargets) == Success(map[])
    ensures Revoked(RevokedMemberships, map[], RevokedUser.adminGroups) == {"u"}
    ensures ResolvePrimaryGroup(CrossOrgRules, RuleGroups(map["u" := UserGroupInfo("9", "u", false, false, Active)], RevokedMemberships))
            == Some("a")
  {
    assert Lower("a") == "a" && Lower("u") == "u";
    assert TargetNames(CrossOrgTargets) == {"a"};
    assert ToAssign({"a"}, RevokedMemberships) == {};
    assert OrgAdminNames(RevokedUser.adminGroups, "primary") == {};
    assert AssignEntries({}, CrossOrgGroups, {}) == map[];
    assert RemoveEntries({}, CrossOrgGroups, RevokedMemberships) == map[];
    assert CurrentAdminGroups(RevokedMemberships, map[]) == {"u"} by {
      assert RevokedMemberships.Keys == {"a", "u"};
      assert RevokedMemberships["u"].isGroupAdmin && !RevokedMemberships["a"].isGroupAdmin;
    }
    assert RuleGroups(map["u" := UserGroupInfo("9", "u", false, false, Active)], RevokedMemberships) == {"a", "u"};
    assert RuleMatches(CrossOrgRules[0], {"a", "u"});
  }

  /**
   * As written, revoking the admin role in `u` deletes the membership: the user leaves `u`,
   * a group the sync does not manage and does not remove.
   */
  lemma RevokedAdminLeavesGroup()
    ensures "u" in RevokedMemberships && "u" !in ToRemove({"a"}, RevokedMemberships, CrossOrgTargets)
    ensures GroupUpdatesAsWritten("primary", "u@x", RevokedUser, RevokedMemberships, Some("a"), {"a"}, CrossOrgGroups, CrossOrgTargets, CrossOrgRules)
            == Success(map["u" := UserGroupInfo("9", "u", false, false, Deleted)])
  {
    RevokedQueuesNothingElse();
    assert WithRevocationsAsWritten(RevokedMemberships, map[], {"u"}) == map["u" := UserGroupInfo("9", "u", false, false, Deleted)];
  }

  /** With the corrected revocation, the same user keeps `u` and only loses the admin role. */
  lemma RevokedAdminKeepsGroup()
    ensures GroupUpdates("primary", "u@x", RevokedUser, RevokedMemberships, Some("a"), {"a"}, CrossOrgGroups, CrossOrgTargets, CrossOrgRules)
            == Success(map["u" := UserGroupInfo("9", "u", false, false, Active)])
  {
    RevokedQueuesNothingElse();
    assert WithRevocations(RevokedMemberships, map[], {"u"}) == map["u" := UserGroupInfo("9", "u", false, false, Active)];
  }

  // ---------------------------------------------------------------------------------------
  // The reconciliation, step by step

  /** The loop over the groups to add: each must be one of the org's groups. */
  method AssignGroups(toAssign: set<string>, signGroups: map<string, GroupInfo>, adminNames: set<string>)
    returns (r: Result<map<string, UserGroupInfo>, SyncError>)
    ensures r.Success? <==> toAssign <= signGroups.Keys
    ensures r.Success? ==> r.value == AssignEntries(toAssign, signGroups, adminNames)
    ensures r.Failure? ==> exists n :: n in toAssign && n !in signGroups && r.error == InvalidSignGroup(n)
  {
    var updates: map<string, UserGroupInfo> := map[];
    var pending := toAssign;
    while pending != {}
      invariant pending <= toAssign
      invariant forall n :: n in toAssign && n !in pending ==> n in signGroups
      invariant forall n :: n in updates <==> n in toAssign && n !in pending
      invariant forall n :: n in updates ==> n in signGroups && updates[n] == AssignEntry(n, signGroups, adminNames)
      decreases |pending|
    {
      var n :| n in pending;
      if n !in signGroups {
        return Failure(InvalidSignGroup(n));
      }
      updates := updates[n := AssignEntry(n, signGroups, adminNames)];
      pending := pending - {n};
    }
    return Success(updates);
  }

  /** The error the removal of `n` raises when it cannot be built. */
  function RemoveError(n: string, toAssign: set<string>, signGroups: map<string, GroupInfo>): SyncError {
    if n in toAssign then RemoveAssignOverlap(n) else if n !in signGroups then InvalidSignGroup(n) else NoneHasNoAttribute
  }

  /**
   * The loop over the groups to remove: a group also being added is refused, each must be one of
   * the org's groups, and its current membership must be found under its lower-cased name.
   */
  method RemoveGroups(remove: set<string>, toAssign: set<string>, signGroups: map<string, GroupInfo>,
                      memberships: map<string, UserGroupInfo>, updates: map<string, UserGroupInfo>)
    returns (r: Result<map<string, UserGroupInfo>, SyncError>)
    ensures r.Success? <==> remove !! toAssign && forall n :: n in remove ==> Removable(n, signGroups, memberships)
    ensures r.Success? ==> r.value == updates + RemoveEntries(remove, signGroups, memberships)
    ensures r.Failure? ==> exists n :: n in remove && r.error == RemoveError(n, toAssign, signGroups)
  {
    var result := updates;
    var done: set<string> := {};
    while done != remove
      invariant done <= remove
      invariant forall n :: n in done ==> n !in toAssign && Removable(n, signGroups, memberships)
      invariant RemovedSoFar(done, signGroups, memberships, updates, result)
      decreases |remove - done|
    {
      var n :| n in remove - done;
      if n in toAssign || n !in signGroups || Lower(signGroups[n].groupName) !in memberships {
        assert n in remove;
        return Failure(RemoveError(n, toAssign, signGroups));
      }
      var entry := RemoveEntry(n, signGroups, memberships);
      RemoveStep(n, signGroups, memberships, updates, result, done, entry);
      result := result[n := entry];
      done := done + {n};
    }
    RemovalsPointwise(remove, signGroups, memberships, updates, result);
    return Success(result);
  }

  /** Removing one more group keeps the loop's pointwise description of the queued updates. */
  lemma RemoveStep(n: string, signGroups: map<string, GroupInfo>, memberships: map<string, UserGroupInfo>,
                   updates: map<string, UserGroupInfo>,
                   result: map<string, UserGroupInfo>, done: set<string>, entry: UserGroupInfo)
    requires Removable(n, signGroups, memberships)
    requires forall m :: m in done ==> Removable(m, signGroups, memberships)
    requires RemovedSoFar(done, signGroups, memberships, updates, result)
    requires entry == RemoveEntry(n, signGroups, memberships)
    ensures RemovedSoFar(done + {n}, signGroups, memberships, updates, result[n := entry])
  {
  }

  /** The loop's description of the queued updates once the groups of `done` are removed. */
  ghost predicate RemovedSoFar(done: set<string>, signGroups: map<string, GroupInfo>, memberships: map<string, UserGroupInfo>,
                               updates: map<string, UserGroupInfo>, result: map<string, UserGroupInfo>)
    requires forall n :: n in done ==> Removable(n, signGroups, memberships)
  {
    && (forall m :: m in result <==> m in updates || m in done)
    && (forall m :: m in done ==> result[m] == RemoveEntry(m, signGroups, memberships))
    && (forall m :: m in updates && m !in done ==> result[m] == updates[m])
  }

  /** A map that agrees with `updates + RemoveEntries(remove, ..)` on every key is that map. */
  lemma RemovalsPointwise(remove: set<string>, signGroups: map<string, GroupInfo>, memberships: map<string, UserGroupInfo>,
                          updates: map<string, UserGroupInfo>, result: map<string, UserGroupInfo>)
    requires forall n :: n in remove ==> Removable(n, signGroups, memberships)
    requires RemovedSoFar(remove, signGroups, memberships, updates, result)
    ensures result == updates + RemoveEntries(remove, signGroups, memberships)
  {
  }

  /** The loop over the revoked groups: a revocation outside the queued updates needs a current membership. */
  method RevokeAdmin(revoked: set<string>, memberships: map<string, UserGroupInfo>, updates: map<string, UserGroupInfo>)
    returns (r: Result<map<string, UserGroupInfo>, SyncError>)
    ensures r.Success? <==> revoked <= updates.Keys + memberships.Keys
    ensures r.Success? ==> r.value == WithRevocations(memberships, updates, revoked)
    ensures r.Failure? ==> r.error == NoneHasNoAttribute
  {
    var result := updates;
    var done: set<string> := {};
    while done != revoked
      invariant done <= revoked
      invariant forall n :: n in done ==> n in updates || n in memberships
      invariant RevokedSoFar(done, revoked, memberships, updates, result)
      decreases |revoked - done|
    {
      var n :| n in revoked - done;
      if n !in updates && n !in memberships {
        return Failure(NoneHasNoAttribute);
      }
      var entry := if n in updates then updates[n].(isGroupAdmin := false)
                   else UserGroupInfo(memberships[n].id, memberships[n].name, false, memberships[n].isPrimaryGroup, Active);
      RevokeStep(n, memberships, updates, revoked, result, done, entry);
      result := result[n := entry];
      done := done + {n};
    }
    RevocationsPointwise(memberships, updates, revoked, result);
    return Success(result);
  }

  /** Revoking one more group keeps the loop's pointwise description of the queued updates. */
  lemma RevokeStep(n: string, memberships: map<string, UserGroupInfo>, updates: map<string, UserGroupInfo>,
                   revoked: set<string>, result: map<string, UserGroupInfo>, done: set<string>, entry: UserGroupInfo)
    requires n in updates || n in memberships
    requires forall m :: m in done ==> m in updates || m in memberships
    requires RevokedSoFar(done, revoked, memberships, updates, result)
    requires entry == RevokedEntry(n, memberships, updates, revoked)
    ensures RevokedSoFar(done + {n}, revoked, memberships, updates, result[n := entry])
  {
  }

  /** The loop's description of the queued updates once the groups of `done` are revoked. */
  ghost predicate RevokedSoFar(done: set<string>, revoked: set<string>, memberships: map<string, UserGroupInfo>,
                               updates: map<string, UserGroupInfo>, result: map<string, UserGroupInfo>)
    requires forall n :: n in done ==> n in updates || n in memberships
  {
    && (forall m :: m in result <==> m in updates || m in done)
    && (forall m :: m in done ==> result[m] == RevokedEntry(m, memberships, updates, revoked))
    && (forall m :: m in updates && m !in done ==> result[m] == updates[m])
  }

  /** A map that agrees with `WithRevocations` on every key is `WithRevocations`. */
  lemma RevocationsPointwise(memberships: map<string, UserGroupInfo>, updates: map<string, UserGroupInfo>,
                             revoked: set<string>, result: map<string, UserGroupInfo>)
    requires forall n :: n in revoked ==> n in updates || n in memberships
    requires RevokedSoFar(revoked, revoked, memberships, updates, result)
    ensures result == WithRevocations(memberships, updates, revoked)
  {
  }

  /**
   * The updates a successful reconciliation of an existing remote user queues, or None when it
   * fails: without UMG it always fails; with UMG it succeeds when the desired groups and
   * `GroupUpdates` do.
   */
  ghost function ExistingUserOutcome(umg: bool, org: string, user: SignUser, dirUser: ResolvedUser,
                                     userGroups: map<string, seq<UserGroupInfo>>, signGroups: map<string, GroupInfo>,
                                     targetGroups: set<AdobeGroup>, rules: seq<PrimaryGroupRule>): (r: Option<UserUpdates>)
    ensures !umg ==> r.None?
    ensures r.Some? ==> r.value.account == AccountAdminUpdate(user, dirUser.isAdmin)
    ensures r.Some? ==> DesiredGroups(org, dirUser, GetPrimaryGroup(user, userGroups)).Success?
  {
    var desired := DesiredGroups(org, dirUser, GetPrimaryGroup(user, userGroups));
    if !umg || desired.Failure? then None
    else
      var spec := GroupUpdates(org, user.email, dirUser, Assigned(user, userGroups), CurrentPrimary(user, userGroups),
                               desired.value, signGroups, targetGroups, rules);
      if spec.Failure? then None else Some(UserUpdates(AccountAdminUpdate(user, dirUser.isAdmin), spec.value))
  }

  /**
   * The reconciliation of an existing remote user. Without UMG it always fails: the primary-
   * group lookup either fails or is followed by a read of the missing `sign_group` key. With
   * UMG it succeeds exactly when the specification `GroupUpdates` does, with the same updates,
   * and queues the account-admin change alongside.
   */
  method ExistingUserUpdates(umg: bool, org: string, user: SignUser, dirUser: ResolvedUser,
                             userGroups: map<string, seq<UserGroupInfo>>, signGroups: map<string, GroupInfo>,
                             targetGroups: set<AdobeGroup>, rules: seq<PrimaryGroupRule>)
    returns (r: Result<UserUpdates, SyncError>)
    ensures !umg ==> r.Failure?
    ensures !umg && GetPrimaryGroup(user, userGroups).Success? && GetPrimaryGroup(user, userGroups).value.Some? ==>
      r == Failure(MissingKey("sign_group"))
    ensures umg && DesiredGroups(org, dirUser, GetPrimaryGroup(user, userGroups)).Failure? ==>
      r == Failure(DesiredGroups(org, dirUser, GetPrimaryGroup(user, userGroups)).error)
    ensures r.Success? <==> ExistingUserOutcome(umg, org, user, dirUser, userGroups, signGroups, targetGroups, rules).Some?
    ensures r.Success? ==> r.value == ExistingUserOutcome(umg, org, user, dirUser, userGroups, signGroups, targetGroups, rules).value
  {
    var account := AccountAdminUpdate(user, dirUser.isAdmin);
    var memberships := Assigned(user, userGroups);
    var primary := GetPrimaryGroup(user, userGroups);
    if !umg {
      if primary.Failure? {
        return Failure(primary.error);
      }
      if primary.value.None? {
        return Failure(NoneHasNoAttribute);
      }
      return Failure(MissingKey("sign_group"));
    }
    var desiredResult := DesiredGroups(org, dirUser, primary);
    if desiredResult.Failure? {
      return Failure(desiredResult.error);
    }
    var groups := QueueGroupUpdates(org, user.email, dirUser, memberships, CurrentPrimary(user, userGroups),
                                    desiredResult.value, signGroups, targetGroups, rules);
    if groups.Failure? {
      return Failure(groups.error);
    }
    return Success(UserUpdates(account, groups.value));
  }

  /**
   * The group updates of `update_sign_users` for one user, stage by stage: assignments, queued
   * removals, admin revocations, then the primary-group move. Where several errors are possible
   * the one raised may differ from the one `GroupUpdates` picks.
   */
  method QueueGroupUpdates(org: string, email: string, dirUser: ResolvedUser, memberships: map<string, UserGroupInfo>,
                           current: Option<string>, desired: set<string>, signGroups: map<string, GroupInfo>,
                           targetGroups: set<AdobeGroup>, rules: seq<PrimaryGroupRule>)
    returns (r: Result<map<string, UserGroupInfo>, SyncError>)
    ensures r.Success? <==> GroupUpdates(org, email, dirUser, memberships, current, desired, signGroups, targetGroups, rules).Success?
    ensures r.Success? ==> r.value == GroupUpdates(org, email, dirUser, memberships, current, desired, signGroups, targetGroups, rules).value
  {
    ghost var spec := GroupUpdates(org, email, dirUser, memberships, current, desired, signGroups, targetGroups, rules);
    var toAssign := desired - memberships.Keys;
    var assignResult := AssignGroups(toAssign, signGroups, OrgAdminNames(dirUser.adminGroups, org));
    if assignResult.Failure? {
      return Failure(assignResult.error);
    }
    var remove := TargetNames(targetGroups) * (memberships.Keys - desired);
    var removeResult := RemoveGroups(remove, toAssign, signGroups, memberships, assignResult.value);
    if removeResult.Failure? {
      assert spec.Failure?;
      return Failure(removeResult.error);
    }
    var first := removeResult.value;
    var revoked := CurrentAdminGroups(memberships, first) - AdminNames(dirUser.adminGroups);
    var revokeResult := RevokeAdmin(revoked, memberships, first);
    if revokeResult.Failure? {
      return Failure(revokeResult.error);
    }
    r := PrimaryMove(revokeResult.value, memberships, current, rules, email);
    assert r == spec;
  }
}
