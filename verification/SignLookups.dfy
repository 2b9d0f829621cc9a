/**
 * The engine's lookups: which org a directory user is synced to, the user key, the remote
 * primary group, the primary group the rules pick, and group-mapping resolution.
 */
module SignLookups {
  import opened Wrappers
  import opened Text
  import opened SignTypes

  // ---------------------------------------------------------------------------------------
  // Org eligibility (`should_sync`) and the org's target groups

  /** The groups of `groups` that target `org`, in order. */
  function OrgGroups(groups: seq<AdobeGroup>, org: string): (r: seq<AdobeGroup>)
    ensures |r| <= |groups|
    ensures forall g :: g in r <==> g in groups && g.umapiName == org
  {
    if groups == [] then []
    else
      var rest := OrgGroups(groups[..|groups| - 1], org);
      var g := groups[|groups| - 1];
      assert groups == groups[..|groups| - 1] + [g];
      if g.umapiName == org then rest + [g] else rest
  }

  /**
   * `should_sync`: a user with no mapped groups is synced to every org; any other user only to
   * the orgs one of its mapped groups targets.
   */
  function ShouldSync(user: ResolvedUser, org: string): (r: bool)
    ensures user.signGroups == [] ==> r
    ensures user.signGroups != [] ==> (r <==> exists g :: g in user.signGroups && g.umapiName == org)
  {
    if user.signGroups == [] then true
    else
      var groups := OrgGroups(user.signGroups, org);
      assert forall g :: g in user.signGroups && g.umapiName == org ==> g in groups;
      assert |groups| > 0 ==> groups[0] in groups;
      |groups| > 0
  }

  /** The groups of all mapping-table entries that target `org` (the org's managed groups). */
  function TargetGroupsForOrg(mappings: map<string, DirectoryGroupMapping>, org: string): (r: set<AdobeGroup>)
    ensures forall g :: g in r <==> g.umapiName == org && exists k :: k in mappings && g in mappings[k].groups
  {
    set k, g | k in mappings && g in mappings[k].groups && g.umapiName == org :: g
  }

  // ---------------------------------------------------------------------------------------
  // The engine's `_groupify`: names of the mapped groups that target one org

  /** The names of the groups of `gs` that target `org`, in order. */
  function OrgGroupNames(gs: seq<AdobeGroup>, org: string): seq<string> {
    if gs == [] then []
    else OrgGroupNames(gs[..|gs| - 1], org) + (if gs[|gs| - 1].umapiName == org then [gs[|gs| - 1].groupName] else [])
  }

  /** `OrgGroupNames` over every entry, entry by entry. */
  function NamesForOrg(mappings: seq<DirectoryGroupMapping>, org: string): seq<string> {
    if mappings == [] then []
    else NamesForOrg(mappings[..|mappings| - 1], org) + OrgGroupNames(mappings[|mappings| - 1].groups, org)
  }

  lemma {:induction false} OrgGroupNamesMembers(gs: seq<AdobeGroup>, org: string, name: string)
    ensures name in OrgGroupNames(gs, org) <==> exists g :: g in gs && g.umapiName == org && g.groupName == name
  {
    if gs != [] {
      var p := gs[..|gs| - 1];
      OrgGroupNamesMembers(p, org, name);
      assert gs == p + [gs[|gs| - 1]];
      if exists g :: g in gs && g.umapiName == org && g.groupName == name {
        var g :| g in gs && g.umapiName == org && g.groupName == name;
        if g != gs[|gs| - 1] {
          assert g in p;
        }
      }
    }
  }

  /** Some entry holds a group named `name` that targets `org`. */
  ghost predicate SomeEntryNamesGroup(mappings: seq<DirectoryGroupMapping>, org: string, name: string) {
    exists i, g :: 0 <= i < |mappings| && g in mappings[i].groups && g.umapiName == org && g.groupName == name
  }

  lemma SomeEntryNamesGroupStep(mappings: seq<DirectoryGroupMapping>, org: string, name: string)
    requires mappings != []
    ensures SomeEntryNamesGroup(mappings, org, name)
      <==> SomeEntryNamesGroup(mappings[..|mappings| - 1], org, name)
           || exists g :: g in mappings[|mappings| - 1].groups && g.umapiName == org && g.groupName == name
  {
    var p := mappings[..|mappings| - 1];
    if SomeEntryNamesGroup(mappings, org, name) {
      var i, g :| 0 <= i < |mappings| && g in mappings[i].groups && g.umapiName == org && g.groupName == name;
      if i < |p| {
        assert p[i] == mappings[i];
      }
    }
    if SomeEntryNamesGroup(p, org, name) {
      var i, g :| 0 <= i < |p| && g in p[i].groups && g.umapiName == org && g.groupName == name;
      assert p[i] == mappings[i];
    }
  }

  /** A name is produced exactly when some entry holds a group of that name targeting `org`. */
  lemma {:induction false} NamesForOrgMembers(mappings: seq<DirectoryGroupMapping>, org: string, name: string)
    ensures name in NamesForOrg(mappings, org) <==> SomeEntryNamesGroup(mappings, org, name)
  {
    if mappings != [] {
      var n := |mappings| - 1;
      NamesForOrgMembers(mappings[..n], org, name);
      OrgGroupNamesMembers(mappings[n].groups, org, name);
      SomeEntryNamesGroupStep(mappings, org, name);
    }
  }

  /** The engine's `_groupify`: the names of the mapped groups targeting `org`, entry by entry. */
  method GroupNamesForOrg(org: string, mappings: seq<DirectoryGroupMapping>) returns (names: seq<string>)
    ensures names == NamesForOrg(mappings, org)
  {
    names := [];
    for i := 0 to |mappings|
      invariant names == NamesForOrg(mappings[..i], org)
    {
      var gs := mappings[i].groups;
      ghost var before := names;
      for j := 0 to |gs|
        invariant names == before + OrgGroupNames(gs[..j], org)
      {
        assert gs[..j + 1][..j] == gs[..j];
        if gs[j].umapiName == org {
          names := names + [gs[j].groupName];
        }
      }
      assert gs[..|gs|] == gs;
      assert mappings[..i + 1][..i] == mappings[..i];
    }
    assert mappings[..|mappings|] == mappings;
  }

  // ---------------------------------------------------------------------------------------
  // Directory filters and keys

  /**
   * `is_directory_user_in_groups`: without a filter every user passes; with one, a user
   * passes when one of its directory groups is in the filter.
   */
  function IsDirectoryUserInGroups(groups: seq<string>, filter: Option<set<string>>): (r: bool)
    ensures r <==> filter.None? || exists i :: 0 <= i < |groups| && groups[i] in filter.value
  {
    if filter.None? then true
    else if groups == [] then false
    else groups[0] in filter.value || IsDirectoryUserInGroups(groups[1..], filter)
  }

  /** `get_directory_user_key`: the lower-cased email, or None when it is missing or empty. */
  function GetDirectoryUserKey(user: DirectoryUser): (r: Option<string>)
    ensures r.None? <==> user.email.None? || user.email.value == ""
    ensures r.Some? ==> r.value == Lower(user.email.value) && IsLowerCase(r.value)
  {
    if user.email.Some? && user.email.value != "" then
      LowerIsLowerCase(user.email.value);
      Some(Lower(user.email.value))
    else None
  }

  /** Keys are stable: the key of a user whose email is already a key is that key. */
  lemma UserKeyIsIdempotent(user: DirectoryUser)
    requires GetDirectoryUserKey(user).Some?
    ensures GetDirectoryUserKey(user.(email := GetDirectoryUserKey(user))) == GetDirectoryUserKey(user)
  {
    LowerIsLowerCase(user.email.value);
  }

  // ---------------------------------------------------------------------------------------
  // The user's current primary group (`get_primary_group`)

  /** The index of the first primary membership of `groups`, if any. */
  function FirstPrimary(groups: seq<UserGroupInfo>): (r: Option<nat>)
    ensures r.None? <==> forall i :: 0 <= i < |groups| ==> !groups[i].isPrimaryGroup
    ensures r.Some? ==> (r.value < |groups| && groups[r.value].isPrimaryGroup
      && forall i :: 0 <= i < r.value ==> !groups[i].isPrimaryGroup)
  {
    if groups == [] then None
    else if groups[0].isPrimaryGroup then Some(0)
    else match FirstPrimary(groups[1..]) {
      case None => None
      case Some(i) => Some(i + 1)
    }
  }

  /**
   * `get_primary_group`: None when the user has no memberships on record; otherwise the first
   * primary membership, and an IndexError when none is primary.
   */
  function GetPrimaryGroup(user: SignUser, userGroups: map<string, seq<UserGroupInfo>>): (r: Result<Option<UserGroupInfo>, SyncError>)
    ensures r == Success(None) <==> user.id !in userGroups || userGroups[user.id] == []
    ensures r.Failure? <==> (user.id in userGroups && userGroups[user.id] != []
      && forall i :: 0 <= i < |userGroups[user.id]| ==> !userGroups[user.id][i].isPrimaryGroup)
    ensures r.Failure? ==> r.error == IndexOutOfRange
    ensures r.Success? && r.value.Some? ==> exists i :: (0 <= i < |userGroups[user.id]|
      && userGroups[user.id][i] == r.value.value && r.value.value.isPrimaryGroup
      && forall j :: 0 <= j < i ==> !userGroups[user.id][j].isPrimaryGroup)
  {
    if user.id !in userGroups || userGroups[user.id] == [] then Success(None)
    else
      var groups := userGroups[user.id];
      match FirstPrimary(groups) {
        case None => Failure(IndexOutOfRange)
        case Some(i) => Success(Some(groups[i]))
      }
  }

  // ---------------------------------------------------------------------------------------
  // Primary-group rules (`resolve_primary_group`)

  /** The rule's test as written: intersecting the user's groups with its groups gives its groups. */
  predicate RuleMatches(rule: PrimaryGroupRule, groups: set<string>) {
    groups * rule.signGroups == rule.signGroups
  }

  /** A rule matches exactly when the user holds every group it requires. */
  lemma RuleMatchesIsSubset(rule: PrimaryGroupRule, groups: set<string>)
    ensures RuleMatches(rule, groups) <==> rule.signGroups <= groups
  {
    if rule.signGroups <= groups {
      assert groups * rule.signGroups == rule.signGroups;
    }
  }

  /** The primary group of the first rule, in order, that matches; None when none does. */
  function ResolvePrimaryGroup(rules: seq<PrimaryGroupRule>, groups: set<string>): (r: Option<string>)
    ensures r.None? <==> forall i :: 0 <= i < |rules| ==> !RuleMatches(rules[i], groups)
    ensures r.Some? ==> exists i :: (0 <= i < |rules| && RuleMatches(rules[i], groups)
      && rules[i].primaryGroup == r.value && forall j :: 0 <= j < i ==> !RuleMatches(rules[j], groups))
  {
    if rules == [] then None
    else if RuleMatches(rules[0], groups) then
      assert RuleMatches(rules[0], groups) && rules[0].primaryGroup == rules[0].primaryGroup;
      Some(rules[0].primaryGroup)
    else
      var r := ResolvePrimaryGroup(rules[1..], groups);
      if r.Some? then
        var i :| 0 <= i < |rules[1..]| && RuleMatches(rules[1..][i], groups)
          && rules[1..][i].primaryGroup == r.value && forall j :: 0 <= j < i ==> !RuleMatches(rules[1..][j], groups);
        assert rules[i + 1] == rules[1..][i];
        assert forall j :: 1 <= j < i + 1 ==> rules[j] == rules[1..][j - 1];
        r
      else r
  }

  /** The rule picked is the first matching one: any earlier rule does not match. */
  lemma ResolvePrimaryGroupIsFirstMatch(rules: seq<PrimaryGroupRule>, groups: set<string>, i: nat)
    requires i < |rules| && RuleMatches(rules[i], groups)
    requires forall j :: 0 <= j < i ==> !RuleMatches(rules[j], groups)
    ensures ResolvePrimaryGroup(rules, groups) == Some(rules[i].primaryGroup)
  {
    var r := ResolvePrimaryGroup(rules, groups);
    var k :| 0 <= k < |rules| && RuleMatches(rules[k], groups)
      && rules[k].primaryGroup == r.value && forall j :: 0 <= j < k ==> !RuleMatches(rules[j], groups);
    assert k == i;
  }

  /** Order matters: two matching rules with different primaries give different results when swapped. */
  lemma ResolvePrimaryGroupOrderMatters(a: PrimaryGroupRule, b: PrimaryGroupRule, rest: seq<PrimaryGroupRule>, groups: set<string>)
    requires RuleMatches(a, groups) && RuleMatches(b, groups) && a.primaryGroup != b.primaryGroup
    ensures ResolvePrimaryGroup([a, b] + rest, groups) == Some(a.primaryGroup)
    ensures ResolvePrimaryGroup([b, a] + rest, groups) == Some(b.primaryGroup)
  {
    ResolvePrimaryGroupIsFirstMatch([a, b] + rest, groups, 0);
    ResolvePrimaryGroupIsFirstMatch([b, a] + rest, groups, 0);
  }

  // ---------------------------------------------------------------------------------------
  // Group-mapping resolution (`resolve_group_mappings`)

  /** `g` is a target of a mapping-table entry keyed by one of the user's directory groups. */
  ghost predicate MappedTarget(directoryGroups: seq<string>, groupMapping: map<string, DirectoryGroupMapping>, keys: set<string>, g: AdobeGroup) {
    exists k :: k in keys && k in groupMapping && k in directoryGroups && g in groupMapping[k].groups
  }

  /** `g` is an admin target of a group-admin entry keyed by one of the user's directory groups. */
  ghost predicate AdminTarget(directoryGroups: seq<string>, groupAdminMapping: map<string, set<AdobeGroup>>, keys: set<string>, g: AdobeGroup) {
    exists k :: k in keys && k in groupAdminMapping && k in directoryGroups && g in groupAdminMapping[k]
  }

  /** The target groups of the matched entries (`matched_groups`). */
  method MatchedGroups(directoryGroups: seq<string>, groupMapping: map<string, DirectoryGroupMapping>)
    returns (matched: set<AdobeGroup>)
    ensures forall g :: g in matched <==> MappedTarget(directoryGroups, groupMapping, groupMapping.Keys, g)
  {
    matched := {};
    var pending := groupMapping.Keys;
    ghost var done: set<string> := {};
    while pending != {}
      invariant pending + done == groupMapping.Keys && pending !! done
      invariant forall g :: g in matched <==> MappedTarget(directoryGroups, groupMapping, done, g)
      decreases |pending|
    {
      var k :| k in pending;
      ghost var before := matched;
      if k in directoryGroups {
        var gs := groupMapping[k].groups;
        for j := 0 to |gs|
          invariant forall g :: g in matched <==> g in before || g in gs[..j]
        {
          assert gs[..j + 1] == gs[..j] + [gs[j]];
          matched := matched + {gs[j]};
        }
        assert gs[..|gs|] == gs;
      }
      forall g ensures MappedTarget(directoryGroups, groupMapping, done + {k}, g)
        <==> MappedTarget(directoryGroups, groupMapping, done, g) || (k in directoryGroups && g in groupMapping[k].groups)
      {
        if MappedTarget(directoryGroups, groupMapping, done + {k}, g) {
          var k' :| k' in done + {k} && k' in groupMapping && k' in directoryGroups && g in groupMapping[k'].groups;
          if k' != k {
            assert MappedTarget(directoryGroups, groupMapping, done, g);
          }
        }
      }
      pending := pending - {k};
      done := done + {k};
    }
    assert done == groupMapping.Keys;
  }

  /** `list(s)`: the elements of `s` in some order, each once. */
  method ListOfSet(s: set<AdobeGroup>) returns (r: seq<AdobeGroup>)
    ensures forall g :: g in r <==> g in s
    ensures NoDuplicates(r)
    ensures |r| == |s|
  {
    r := [];
    var rest := s;
    while rest != {}
      invariant rest <= s
      invariant forall g :: g in r <==> g in s && g !in rest
      invariant NoDuplicates(r)
      invariant |r| + |rest| == |s|
      decreases |rest|
    {
      var g :| g in rest;
      r := r + [g];
      rest := rest - {g};
    }
  }

  /** The group-admin flag and admin groups contributed by the matching group-admin entries. */
  method MatchedAdminGroups(directoryGroups: seq<string>, groupAdminMapping: map<string, set<AdobeGroup>>)
    returns (isGroupAdmin: bool, adminGroups: set<AdobeGroup>)
    ensures isGroupAdmin <==> exists k :: k in groupAdminMapping && k in directoryGroups
    ensures forall g :: g in adminGroups <==> AdminTarget(directoryGroups, groupAdminMapping, groupAdminMapping.Keys, g)
  {
    isGroupAdmin := false;
    adminGroups := {};
    var pending := groupAdminMapping.Keys;
    ghost var done: set<string> := {};
    while pending != {}
      invariant pending + done == groupAdminMapping.Keys && pending !! done
      invariant isGroupAdmin <==> exists k :: k in done && k in directoryGroups
      invariant forall g :: g in adminGroups <==> AdminTarget(directoryGroups, groupAdminMapping, done, g)
      decreases |pending|
    {
      var k :| k in pending;
      if k in directoryGroups {
        isGroupAdmin := true;
        adminGroups := adminGroups + groupAdminMapping[k];
      }
      forall g ensures AdminTarget(directoryGroups, groupAdminMapping, done + {k}, g)
        <==> AdminTarget(directoryGroups, groupAdminMapping, done, g) || (k in directoryGroups && g in groupAdminMapping[k])
      {
        if AdminTarget(directoryGroups, groupAdminMapping, done + {k}, g) {
          var k' :| k' in done + {k} && k' in groupAdminMapping && k' in directoryGroups && g in groupAdminMapping[k'];
          if k' != k {
            assert AdminTarget(directoryGroups, groupAdminMapping, done, g);
          }
        }
      }
      pending := pending - {k};
      done := done + {k};
    }
    assert done == groupAdminMapping.Keys;
  }

  /**
   * `resolve_group_mappings`: the targets of every mapping entry keyed by one of the user's
   * directory groups (each once, in no particular order), whether one of those groups is an
   * account-admin group, whether one keys a group-admin entry, and the union of those entries.
   */
  method ResolveGroupMappings(directoryGroups: seq<string>, groupMapping: map<string, DirectoryGroupMapping>,
                              accountAdminGroups: set<string>, groupAdminMapping: map<string, set<AdobeGroup>>)
    returns (signGroups: seq<AdobeGroup>, isAdmin: bool, isGroupAdmin: bool, adminGroups: set<AdobeGroup>)
    ensures forall g :: g in signGroups <==> exists k :: k in groupMapping && k in directoryGroups && g in groupMapping[k].groups
    ensures NoDuplicates(signGroups)
    ensures isAdmin <==> exists i :: 0 <= i < |directoryGroups| && directoryGroups[i] in accountAdminGroups
    ensures isGroupAdmin <==> exists k :: k in groupAdminMapping && k in directoryGroups
    ensures forall g :: g in adminGroups <==> exists k :: k in groupAdminMapping && k in directoryGroups && g in groupAdminMapping[k]
  {
    var matched := MatchedGroups(directoryGroups, groupMapping);
    isAdmin := false;
    for i := 0 to |directoryGroups|
      invariant !isAdmin
      invariant forall j :: 0 <= j < i ==> directoryGroups[j] !in accountAdminGroups
    {
      if directoryGroups[i] in accountAdminGroups {
        isAdmin := true;
        break;
      }
    }
    isGroupAdmin, adminGroups := MatchedAdminGroups(directoryGroups, groupAdminMapping);
    signGroups := ListOfSet(matched);
  }
}
