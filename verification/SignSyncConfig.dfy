/**
 * The configuration side of the document-signing sync: from the `user_management` entries,
 * the `primary_group_rules`, `account_admin_groups`, `sign_orgs` and the `--users` invocation
 * option it builds the directory-group mapping table, the account-admin group set, the
 * group-admin mapping, the primary-group rules and the options the engine runs with.
 */
module SignSyncConfig {
  import opened Wrappers
  import opened Text
  import opened SignTypes

  /** One `user_management` entry; absent keys are `None`. */
  datatype MappingEntry = MappingEntry(
    directoryGroup: string,
    signGroup: Option<seq<string>>,
    groupAdmin: Option<bool>,
    adminGroups: Option<seq<string>>,
    accountAdmin: Option<bool>)

  /** One `primary_group_rules` entry. */
  datatype PrimaryRuleEntry = PrimaryRuleEntry(signGroups: seq<string>, primaryGroup: string)

  /** A parsed group reference: a group name and, when the reference names one, its org. */
  datatype ParsedGroup = ParsedGroup(groupName: string, umapiName: Option<string>)

  /** The parser of group references (`AdobeGroup.create`); `None` for a malformed reference. */
  type GroupParser = string -> Option<ParsedGroup>

  /** The invocation options the `--users` option is applied to. */
  datatype InvocationOptions = InvocationOptions(
    users: Option<seq<string>>,
    directoryConnectorType: string,
    directoryGroupMapped: bool,
    directoryGroupFilter: Option<set<string>>)

  // ---------------------------------------------------------------------------------------
  // Group references

  /** The configuration's `_groupify`: parse the lower-cased name; no org means the primary org. */
  function Groupify(parse: GroupParser, groupName: string): (r: Result<AdobeGroup, SyncError>)
    ensures r.Failure? <==> parse(Lower(groupName)).None?
    ensures r.Success? ==> r.value.groupName == parse(Lower(groupName)).value.groupName
    ensures r.Success? && parse(Lower(groupName)).value.umapiName.None? ==> r.value.umapiName == DefaultOrgName
    ensures r.Success? && parse(Lower(groupName)).value.umapiName.Some? ==>
      r.value.umapiName == parse(Lower(groupName)).value.umapiName.value
  {
    match parse(Lower(groupName))
    case None => Failure(BadSignGroup(groupName))
    case Some(p) => Success(AdobeGroup(p.groupName, p.umapiName.GetOr(DefaultOrgName)))
  }

  predicate AllParse(parse: GroupParser, names: seq<string>) {
    forall j :: 0 <= j < |names| ==> Groupify(parse, names[j]).Success?
  }

  function ParseAll(parse: GroupParser, names: seq<string>): (r: seq<AdobeGroup>)
    requires AllParse(parse, names)
    ensures |r| == |names|
    ensures forall j :: 0 <= j < |names| ==> r[j] == Groupify(parse, names[j]).value
  {
    seq(|names|, j requires 0 <= j < |names| && AllParse(parse, names) => Groupify(parse, names[j]).value)
  }

  /** Every `sign_group` reference of every entry parses. */
  predicate AllSignGroupsParse(parse: GroupParser, entries: seq<MappingEntry>) {
    forall i :: 0 <= i < |entries| && entries[i].signGroup.Some? ==> AllParse(parse, entries[i].signGroup.value)
  }

  // ---------------------------------------------------------------------------------------
  // The directory-group mapping table (`load_directory_groups`)

  /** `s` without repetitions, each element kept where it first occurs. */
  function Dedup(s: seq<AdobeGroup>): (r: seq<AdobeGroup>)
    ensures forall x :: x in r <==> x in s
    ensures NoDuplicates(r)
  {
    if s == [] then []
    else
      var d := Dedup(s[..|s| - 1]);
      if s[|s| - 1] in d then d else d + [s[|s| - 1]]
  }

  /** The index of the first occurrence of `x` in `s`. */
  function FirstIndex<T(==)>(s: seq<T>, x: T): (k: nat)
    requires x in s
    ensures k < |s| && s[k] == x
    ensures forall m :: 0 <= m < k ==> s[m] != x
  {
    if s[0] == x then 0 else 1 + FirstIndex(s[1..], x)
  }

  /** Dedup keeps the order in which elements are first seen. */
  lemma {:induction false} DedupKeepsFirstSeenOrder(s: seq<AdobeGroup>, i: nat, j: nat)
    requires i < j < |Dedup(s)|
    ensures Dedup(s)[i] in s && Dedup(s)[j] in s
    ensures FirstIndex(s, Dedup(s)[i]) < FirstIndex(s, Dedup(s)[j])
  {
    var p := s[..|s| - 1];
    var x := s[|s| - 1];
    assert s == p + [x];
    var d := Dedup(p);
    var a, b := Dedup(s)[i], Dedup(s)[j];
    if x in d {
      DedupKeepsFirstSeenOrder(p, i, j);
      FirstIndexOfPrefix(p, x, a);
      FirstIndexOfPrefix(p, x, b);
    } else if j < |d| {
      DedupKeepsFirstSeenOrder(p, i, j);
      FirstIndexOfPrefix(p, x, a);
      FirstIndexOfPrefix(p, x, b);
    } else {
      assert b == x && x !in p;
      assert a in p;
      FirstIndexOfPrefix(p, x, a);
      assert FirstIndex(s, b) == |p|;
    }
  }

  lemma FirstIndexOfPrefix<T>(p: seq<T>, x: T, y: T)
    requires y in p
    ensures FirstIndex(p + [x], y) == FirstIndex(p, y)
  {
    var s := p + [x];
    var k := FirstIndex(p, y);
    assert s[k] == y;
    assert forall m :: 0 <= m < k ==> s[m] != y;
  }

  /** What entry `e` contributes to the targets of `dg`. */
  function EntryTargets(parse: GroupParser, e: MappingEntry, dg: string): seq<AdobeGroup>
    requires e.signGroup.Some? ==> AllParse(parse, e.signGroup.value)
  {
    if e.directoryGroup == dg && e.signGroup.Some? then ParseAll(parse, e.signGroup.value) else []
  }

  lemma AllSignGroupsParsePrefix(parse: GroupParser, entries: seq<MappingEntry>, n: nat)
    requires n <= |entries| && AllSignGroupsParse(parse, entries)
    ensures AllSignGroupsParse(parse, entries[..n])
  {
    forall i | 0 <= i < n && entries[..n][i].signGroup.Some?
      ensures AllParse(parse, entries[..n][i].signGroup.value)
    {
      assert entries[..n][i] == entries[i];
    }
  }

  /** The groups the entries for `dg` name, in configuration order, repetitions included. */
  function TargetsOf(parse: GroupParser, entries: seq<MappingEntry>, dg: string): seq<AdobeGroup>
    requires AllSignGroupsParse(parse, entries)
  {
    if entries == [] then []
    else TargetsOf(parse, entries[..|entries| - 1], dg) + EntryTargets(parse, entries[|entries| - 1], dg)
  }

  /** Entry `e` is an entry for `dg` and one of its `sign_group` references parses to `g`. */
  predicate EntryNames(parse: GroupParser, e: MappingEntry, dg: string, g: AdobeGroup) {
    e.directoryGroup == dg && e.signGroup.Some?
    && exists j :: 0 <= j < |e.signGroup.value| && Groupify(parse, e.signGroup.value[j]) == Success(g)
  }

  lemma EntryTargetsMembers(parse: GroupParser, e: MappingEntry, dg: string, g: AdobeGroup)
    requires e.signGroup.Some? ==> AllParse(parse, e.signGroup.value)
    ensures g in EntryTargets(parse, e, dg) <==> EntryNames(parse, e, dg, g)
  {
    var t := EntryTargets(parse, e, dg);
    if g in t {
      var j :| 0 <= j < |t| && t[j] == g;
      assert Groupify(parse, e.signGroup.value[j]) == Success(g);
    }
  }

  /** Some entry of `entries` is for `dg` and names `g`. */
  ghost predicate SomeEntryNames(parse: GroupParser, entries: seq<MappingEntry>, dg: string, g: AdobeGroup) {
    exists i :: 0 <= i < |entries| && EntryNames(parse, entries[i], dg, g)
  }

  lemma SomeEntryNamesStep(parse: GroupParser, entries: seq<MappingEntry>, dg: string, g: AdobeGroup)
    requires entries != []
    ensures SomeEntryNames(parse, entries, dg, g)
      <==> SomeEntryNames(parse, entries[..|entries| - 1], dg, g) || EntryNames(parse, entries[|entries| - 1], dg, g)
  {
    var p := entries[..|entries| - 1];
    if SomeEntryNames(parse, entries, dg, g) {
      var i :| 0 <= i < |entries| && EntryNames(parse, entries[i], dg, g);
      if i < |p| {
        assert p[i] == entries[i];
      }
    }
    if SomeEntryNames(parse, p, dg, g) {
      var i :| 0 <= i < |p| && EntryNames(parse, p[i], dg, g);
      assert p[i] == entries[i];
    }
  }

  /** The targets of `dg` are exactly the parsed `sign_group` references of the entries for `dg`. */
  lemma {:induction false} TargetsOfMembers(parse: GroupParser, entries: seq<MappingEntry>, dg: string, g: AdobeGroup)
    requires AllSignGroupsParse(parse, entries)
    ensures g in TargetsOf(parse, entries, dg) <==> SomeEntryNames(parse, entries, dg, g)
  {
    if entries != [] {
      var n := |entries| - 1;
      AllSignGroupsParsePrefix(parse, entries, n);
      TargetsOfMembers(parse, entries[..n], dg, g);
      EntryTargetsMembers(parse, entries[n], dg, g);
      SomeEntryNamesStep(parse, entries, dg, g);
    }
  }

  /** A directory group whose entries name no sign group maps to an empty target list. */
  lemma {:induction false} TargetsOfWithoutSignGroups(parse: GroupParser, entries: seq<MappingEntry>, dg: string)
    requires AllSignGroupsParse(parse, entries)
    requires forall i :: 0 <= i < |entries| && entries[i].directoryGroup == dg ==> entries[i].signGroup.None?
    ensures TargetsOf(parse, entries, dg) == []
  {
    if entries != [] {
      TargetsOfWithoutSignGroups(parse, entries[..|entries| - 1], dg);
    }
  }

  /** The entry at `p` is the first entry for `dg`. */
  predicate IsFirstEntryOf(entries: seq<MappingEntry>, dg: string, p: nat) {
    p < |entries| && entries[p].directoryGroup == dg && forall k :: 0 <= k < p ==> entries[k].directoryGroup != dg
  }

  /**
   * Appends the groups `names` refer to to `groups`, skipping those already present; `groups`
   * is the de-duplication of the references seen so far, `seen`.
   */
  method AppendTargets(parse: GroupParser, ghost seen: seq<AdobeGroup>, groups: seq<AdobeGroup>, names: seq<string>)
    returns (r: Result<seq<AdobeGroup>, SyncError>)
    requires groups == Dedup(seen)
    ensures r.Success? <==> AllParse(parse, names)
    ensures r.Success? ==> r.value == Dedup(seen + ParseAll(parse, names))
  {
    var acc := groups;
    assert seen + ParseAll(parse, names[..0]) == seen;
    for j := 0 to |names|
      invariant AllParse(parse, names[..j])
      invariant acc == Dedup(seen + ParseAll(parse, names[..j]))
    {
      var parsed := Groupify(parse, names[j]);
      if parsed.Failure? {
        return Failure(parsed.error);
      }
      var group := parsed.value;
      ParseAllSnoc(parse, seen, names, j);
      DedupSnoc(seen + ParseAll(parse, names[..j]), group);
      if group !in acc {
        acc := acc + [group];
      }
    }
    assert names[..|names|] == names;
    return Success(acc);
  }

  /** One more reference parsed extends the parsed references by its group. */
  lemma ParseAllSnoc(parse: GroupParser, seen: seq<AdobeGroup>, names: seq<string>, j: nat)
    requires j < |names| && AllParse(parse, names[..j]) && Groupify(parse, names[j]).Success?
    ensures AllParse(parse, names[..j + 1])
    ensures seen + ParseAll(parse, names[..j + 1]) == seen + ParseAll(parse, names[..j]) + [Groupify(parse, names[j]).value]
  {
    assert names[..j + 1] == names[..j] + [names[j]];
  }

  /** De-duplicating one more element appends it unless it was already there. */
  lemma DedupSnoc(s: seq<AdobeGroup>, x: AdobeGroup)
    ensures Dedup(s + [x]) == if x in Dedup(s) then Dedup(s) else Dedup(s) + [x]
  {
    assert (s + [x])[..|s|] == s;
  }

  /** The keys of `mapping` are the directory groups of the first `n` entries. */
  ghost predicate KeysUpTo(entries: seq<MappingEntry>, n: nat, mapping: map<string, DirectoryGroupMapping>) {
    forall g :: g in mapping <==> exists k :: 0 <= k < n && k < |entries| && entries[k].directoryGroup == g
  }

  /** Every directory group in `mapping` carries the index of its first entry, which is below `n`. */
  ghost predicate PrioritiesUpTo(entries: seq<MappingEntry>, n: nat, mapping: map<string, DirectoryGroupMapping>) {
    forall g :: g in mapping ==> mapping[g].priority < n && IsFirstEntryOf(entries, g, mapping[g].priority)
  }

  /** Every directory group in `mapping` carries the de-duplicated targets of the first `n` entries. */
  ghost predicate GroupsUpTo(parse: GroupParser, entries: seq<MappingEntry>, n: nat, mapping: map<string, DirectoryGroupMapping>)
    requires n <= |entries| && AllSignGroupsParse(parse, entries[..n])
  {
    forall g :: g in mapping ==> mapping[g].groups == Dedup(TargetsOf(parse, entries[..n], g))
  }

  lemma AllSignGroupsParseStep(parse: GroupParser, entries: seq<MappingEntry>, i: nat)
    requires i < |entries| && AllSignGroupsParse(parse, entries[..i])
    requires entries[i].signGroup.Some? ==> AllParse(parse, entries[i].signGroup.value)
    ensures AllSignGroupsParse(parse, entries[..i + 1])
  {
    assert entries[..i + 1] == entries[..i] + [entries[i]];
  }

  lemma KeysAndPrioritiesStep(entries: seq<MappingEntry>, i: nat, mapping: map<string, DirectoryGroupMapping>, v: DirectoryGroupMapping)
    requires i < |entries| && KeysUpTo(entries, i, mapping) && PrioritiesUpTo(entries, i, mapping)
    requires v.priority == if entries[i].directoryGroup in mapping then mapping[entries[i].directoryGroup].priority else i
    ensures KeysUpTo(entries, i + 1, mapping[entries[i].directoryGroup := v])
    ensures PrioritiesUpTo(entries, i + 1, mapping[entries[i].directoryGroup := v])
  {
    var dg := entries[i].directoryGroup;
    var m := mapping[dg := v];
    forall g | g in m
      ensures m[g].priority < i + 1 && IsFirstEntryOf(entries, g, m[g].priority)
    {
      if g !in mapping {
        assert g == dg;
        assert forall k :: 0 <= k < i ==> entries[k].directoryGroup != dg;
      }
    }
  }

  /** The targets of one more entry are those before it followed by the entry's own. */
  lemma TargetsOfSnoc(parse: GroupParser, entries: seq<MappingEntry>, i: nat, g: string)
    requires i < |entries| && AllSignGroupsParse(parse, entries[..i + 1]) && AllSignGroupsParse(parse, entries[..i])
    ensures TargetsOf(parse, entries[..i + 1], g) == TargetsOf(parse, entries[..i], g) + EntryTargets(parse, entries[i], g)
  {
    assert (entries[..i + 1])[..i] == entries[..i];
  }

  lemma GroupsStep(parse: GroupParser, entries: seq<MappingEntry>, i: nat, mapping: map<string, DirectoryGroupMapping>, v: DirectoryGroupMapping)
    requires i < |entries| && AllSignGroupsParse(parse, entries[..i + 1])
    requires AllSignGroupsParse(parse, entries[..i]) && GroupsUpTo(parse, entries, i, mapping)
    requires v.groups == Dedup(TargetsOf(parse, entries[..i], entries[i].directoryGroup) + EntryTargets(parse, entries[i], entries[i].directoryGroup))
    ensures GroupsUpTo(parse, entries, i + 1, mapping[entries[i].directoryGroup := v])
  {
    var e := entries[i];
    var m := mapping[e.directoryGroup := v];
    forall g | g in m
      ensures m[g].groups == Dedup(TargetsOf(parse, entries[..i + 1], g))
    {
      TargetsOfSnoc(parse, entries, i, g);
      if g != e.directoryGroup {
        assert EntryTargets(parse, e, g) == [];
        assert TargetsOf(parse, entries[..i], g) + [] == TargetsOf(parse, entries[..i], g);
      }
    }
  }

  /** The table built from the entries before `i` holds the de-duplicated targets of entry `i`'s group so far. */
  lemma PriorTargets(parse: GroupParser, entries: seq<MappingEntry>, i: nat, mapping: map<string, DirectoryGroupMapping>)
    requires i < |entries| && AllSignGroupsParse(parse, entries[..i])
    requires KeysUpTo(entries, i, mapping) && GroupsUpTo(parse, entries, i, mapping)
    ensures var dg := entries[i].directoryGroup;
      Dedup(TargetsOf(parse, entries[..i], dg)) == if dg in mapping then mapping[dg].groups else []
  {
    var dg := entries[i].directoryGroup;
    if dg !in mapping {
      assert forall k :: 0 <= k < i ==> entries[k].directoryGroup != dg;
      TargetsOfWithoutSignGroups(parse, entries[..i], dg);
    }
  }

  /** An entry without `sign_group` adds no targets. */
  lemma NoEntryTargets(parse: GroupParser, e: MappingEntry, dg: string, before: seq<AdobeGroup>)
    requires e.signGroup.None?
    ensures before + EntryTargets(parse, e, dg) == before
  {
  }

  /** Storing entry `i`'s group with its priority and updated targets extends the table to entry `i`. */
  lemma EntryStep(parse: GroupParser, entries: seq<MappingEntry>, i: nat, mapping: map<string, DirectoryGroupMapping>,
                  v: DirectoryGroupMapping)
    requires i < |entries| && AllSignGroupsParse(parse, entries[..i])
    requires entries[i].signGroup.Some? ==> AllParse(parse, entries[i].signGroup.value)
    requires KeysUpTo(entries, i, mapping) && PrioritiesUpTo(entries, i, mapping) && GroupsUpTo(parse, entries, i, mapping)
    requires var dg := entries[i].directoryGroup;
      && v.priority == (if dg in mapping then mapping[dg].priority else i)
      && v.groups == Dedup(TargetsOf(parse, entries[..i], dg) + EntryTargets(parse, entries[i], dg))
    ensures AllSignGroupsParse(parse, entries[..i + 1])
    ensures KeysUpTo(entries, i + 1, mapping[entries[i].directoryGroup := v])
    ensures PrioritiesUpTo(entries, i + 1, mapping[entries[i].directoryGroup := v])
    ensures GroupsUpTo(parse, entries, i + 1, mapping[entries[i].directoryGroup := v])
  {
    AllSignGroupsParseStep(parse, entries, i);
    KeysAndPrioritiesStep(entries, i, mapping, v);
    GroupsStep(parse, entries, i, mapping, v);
  }

  /** Adds entry `i` to the table built from the entries before it. */
  method LoadDirectoryGroupEntry(parse: GroupParser, entries: seq<MappingEntry>, i: nat, mapping: map<string, DirectoryGroupMapping>)
    returns (r: Result<map<string, DirectoryGroupMapping>, SyncError>)
    requires i < |entries| && AllSignGroupsParse(parse, entries[..i])
    requires KeysUpTo(entries, i, mapping) && PrioritiesUpTo(entries, i, mapping) && GroupsUpTo(parse, entries, i, mapping)
    ensures r.Success? <==> (entries[i].signGroup.Some? ==> AllParse(parse, entries[i].signGroup.value))
    ensures r.Success? ==> AllSignGroupsParse(parse, entries[..i + 1])
    ensures r.Success? ==> KeysUpTo(entries, i + 1, r.value) && PrioritiesUpTo(entries, i + 1, r.value)
    ensures r.Success? ==> GroupsUpTo(parse, entries, i + 1, r.value)
  {
    var e := entries[i];
    var dg := e.directoryGroup;
    ghost var before := TargetsOf(parse, entries[..i], dg);
    PriorTargets(parse, entries, i, mapping);
    var current := if dg in mapping then mapping[dg].groups else [];
    var priority := if dg in mapping then mapping[dg].priority else i;
    if e.signGroup.Some? {
      var updated := AppendTargets(parse, before, current, e.signGroup.value);
      if updated.Failure? {
        return Failure(updated.error);
      }
      current := updated.value;
    } else {
      NoEntryTargets(parse, e, dg, before);
    }
    var v := DirectoryGroupMapping(priority, current);
    EntryStep(parse, entries, i, mapping, v);
    r := Success(mapping[dg := v]);
  }

  /**
   * `load_directory_groups`: every directory group gets the index of its first entry as its
   * priority and the references its entries name, first-seen order, without repetitions.
   */
  method LoadDirectoryGroups(parse: GroupParser, entries: seq<MappingEntry>)
    returns (r: Result<map<string, DirectoryGroupMapping>, SyncError>)
    ensures r.Success? <==> AllSignGroupsParse(parse, entries)
    ensures r.Success? ==> forall g :: g in r.value <==> exists i :: 0 <= i < |entries| && entries[i].directoryGroup == g
    ensures r.Success? ==> forall g :: g in r.value ==> IsFirstEntryOf(entries, g, r.value[g].priority)
    ensures r.Success? ==> forall g :: g in r.value ==> r.value[g].groups == Dedup(TargetsOf(parse, entries, g))
  {
    var mapping: map<string, DirectoryGroupMapping> := map[];
    var i := 0;
    while i < |entries|
      invariant 0 <= i <= |entries|
      invariant AllSignGroupsParse(parse, entries[..i])
      invariant KeysUpTo(entries, i, mapping) && PrioritiesUpTo(entries, i, mapping)
      invariant GroupsUpTo(parse, entries, i, mapping)
    {
      var step := LoadDirectoryGroupEntry(parse, entries, i, mapping);
      if step.Failure? {
        assert !AllSignGroupsParse(parse, entries) by {
          assert entries[i].signGroup.Some? && !AllParse(parse, entries[i].signGroup.value);
        }
        return Failure(step.error);
      }
      mapping := step.value;
      i := i + 1;
    }
    assert entries[..i] == entries;
    assert GroupsUpTo(parse, entries, |entries|, mapping);
    return Success(mapping);
  }

  // ---------------------------------------------------------------------------------------
  // Account-admin groups (`load_account_admin_groups`)

  /**
   * The account-admin directory groups: those whose entry sets `account_admin`, together with
   * the top-level `account_admin_groups` list.
   */
  method LoadAccountAdminGroups(entries: seq<MappingEntry>, accountAdminGroups: Option<seq<string>>)
    returns (r: set<string>)
    ensures forall g :: g in r <==>
      (exists i :: 0 <= i < |entries| && entries[i].accountAdmin == Some(true) && entries[i].directoryGroup == g)
      || (accountAdminGroups.Some? && g in accountAdminGroups.value)
  {
    r := {};
    for i := 0 to |entries|
      invariant forall g :: g in r <==>
        exists k :: 0 <= k < i && entries[k].accountAdmin == Some(true) && entries[k].directoryGroup == g
    {
      if entries[i].accountAdmin == Some(true) {
        r := r + {entries[i].directoryGroup};
      }
    }
    ghost var fromEntries := r;
    if accountAdminGroups.Some? {
      var extra := accountAdminGroups.value;
      for j := 0 to |extra|
        invariant forall g :: g in r <==> g in fromEntries || g in extra[..j]
      {
        assert extra[..j + 1] == extra[..j] + [extra[j]];
        r := r + {extra[j]};
      }
      assert extra[..|extra|] == extra;
    }
  }

  // ---------------------------------------------------------------------------------------
  // Group-admin mapping (`load_group_admin_mappings`)

  predicate IsGroupAdminEntry(e: MappingEntry) {
    e.groupAdmin == Some(true)
  }

  predicate LacksSignGroups(e: MappingEntry) {
    e.signGroup.None? || |e.signGroup.value| == 0
  }

  predicate UsesAdminGroups(e: MappingEntry) {
    e.adminGroups.Some? && |e.adminGroups.value| > 0
  }

  function LowerAll(names: seq<string>): (r: seq<string>)
    ensures |r| == |names|
    ensures forall j :: 0 <= j < |names| ==> r[j] == Lower(names[j])
  {
    seq(|names|, j requires 0 <= j < |names| => Lower(names[j]))
  }

  function Get(m: map<string, set<AdobeGroup>>, k: string): set<AdobeGroup> {
    if k in m then m[k] else {}
  }

  /** `g` is what one of the entry's `sign_group` references parses to. */
  predicate NamesSignGroup(parse: GroupParser, e: MappingEntry, g: AdobeGroup) {
    e.signGroup.Some?
    && exists j :: 0 <= j < |e.signGroup.value| && Groupify(parse, Lower(e.signGroup.value[j])) == Success(g)
  }

  /** `g` is what the entry's first `sign_group` reference parses to. */
  predicate IsFirstSignGroup(parse: GroupParser, e: MappingEntry, g: AdobeGroup) {
    e.signGroup.Some? && |e.signGroup.value| > 0 && Groupify(parse, Lower(e.signGroup.value[0])) == Success(g)
  }

  /** One admin group of a UMG entry is kept when the entry's sign groups list it. */
  predicate AdminGroupListed(ags: seq<string>, signGroups: seq<string>, i: int)
    requires 0 <= i < |ags|
  {
    Lower(ags[i]) in LowerAll(signGroups)
  }

  /** One of the first `n` admin groups is listed and parses to `g`. */
  ghost predicate AddedBy(parse: GroupParser, ags: seq<string>, sgs: seq<string>, n: nat, g: AdobeGroup)
    requires n <= |ags|
  {
    exists k :: 0 <= k < n && AdminGroupListed(ags, sgs, k) && Groupify(parse, Lower(ags[k])) == Success(g)
  }

  /** One of the first `n` admin groups is listed. */
  ghost predicate AnyListed(ags: seq<string>, sgs: seq<string>, n: nat)
    requires n <= |ags|
  {
    exists k :: 0 <= k < n && AdminGroupListed(ags, sgs, k)
  }

  lemma AddedByStep(parse: GroupParser, ags: seq<string>, sgs: seq<string>, n: nat, g: AdobeGroup)
    requires n < |ags|
    ensures AddedBy(parse, ags, sgs, n + 1, g)
      <==> AddedBy(parse, ags, sgs, n, g) || (AdminGroupListed(ags, sgs, n) && Groupify(parse, Lower(ags[n])) == Success(g))
    ensures AnyListed(ags, sgs, n + 1) <==> AnyListed(ags, sgs, n) || AdminGroupListed(ags, sgs, n)
  {
  }

  /**
   * The groups a UMG entry's `admin_groups` add for its directory group: each admin group that
   * the entry's `sign_group` list also names; `listed` says whether there was any.
   */
  method ListedAdminGroups(parse: GroupParser, ags: seq<string>, sgs: seq<string>)
    returns (r: Result<set<AdobeGroup>, SyncError>, listed: bool)
    ensures listed <==> exists i :: 0 <= i < |ags| && AdminGroupListed(ags, sgs, i)
    ensures r.Failure? <==> exists i :: 0 <= i < |ags| && AdminGroupListed(ags, sgs, i) && Groupify(parse, Lower(ags[i])).Failure?
    ensures r.Success? ==> forall g :: g in r.value <==>
      exists i :: 0 <= i < |ags| && AdminGroupListed(ags, sgs, i) && Groupify(parse, Lower(ags[i])) == Success(g)
  {
    var signGroups := LowerAll(sgs);
    var added: set<AdobeGroup> := {};
    listed := false;
    for i := 0 to |ags|
      invariant listed <==> AnyListed(ags, sgs, i)
      invariant forall k :: 0 <= k < i && AdminGroupListed(ags, sgs, k) ==> Groupify(parse, Lower(ags[k])).Success?
      invariant forall g :: g in added <==> AddedBy(parse, ags, sgs, i, g)
    {
      forall g { AddedByStep(parse, ags, sgs, i, g); }
      var ag := Lower(ags[i]);
      if ag !in signGroups {
        assert !AdminGroupListed(ags, sgs, i);
        continue;
      }
      assert AdminGroupListed(ags, sgs, i);
      var group := Groupify(parse, ag);
      if group.Failure? {
        return Failure(group.error), true;
      }
      listed := true;
      added := added + {group.value};
    }
    r := Success(added);
  }

  /** A listed admin group is one of the entry's sign groups. */
  lemma ListedAdminGroupIsSignGroup(parse: GroupParser, e: MappingEntry, g: AdobeGroup)
    requires e.signGroup.Some? && e.adminGroups.Some?
    requires exists x :: (0 <= x < |e.adminGroups.value| && AdminGroupListed(e.adminGroups.value, e.signGroup.value, x)
      && Groupify(parse, Lower(e.adminGroups.value[x])) == Success(g))
    ensures NamesSignGroup(parse, e, g)
  {
    var ags, sgs := e.adminGroups.value, e.signGroup.value;
    var x :| 0 <= x < |ags| && AdminGroupListed(ags, sgs, x) && Groupify(parse, Lower(ags[x])) == Success(g);
    var j :| 0 <= j < |sgs| && LowerAll(sgs)[j] == Lower(ags[x]);
    LowerIsLowerCase(ags[x]);
    assert Groupify(parse, Lower(sgs[j])) == Success(g);
  }

  /**
   * The entry makes `load_group_admin_mappings` raise: a group-admin entry without sign groups
   * under UMG, or a group reference it parses (the first sign group, or under UMG a listed
   * admin group) that does not parse.
   */
  ghost predicate StepFails(parse: GroupParser, umg: bool, e: MappingEntry) {
    IsGroupAdminEntry(e) &&
    if LacksSignGroups(e) then umg
    else if !UsesAdminGroups(e) then Groupify(parse, Lower(e.signGroup.value[0])).Failure?
    else umg && exists i :: 0 <= i < |e.adminGroups.value| && AdminGroupListed(e.adminGroups.value, e.signGroup.value, i)
                            && Groupify(parse, Lower(e.adminGroups.value[i])).Failure?
  }

  /** Without UMG, a group-admin entry without sign groups resets directory group `k` to no groups. */
  predicate Wipes(umg: bool, e: MappingEntry, k: string) {
    !umg && IsGroupAdminEntry(e) && LacksSignGroups(e) && Lower(e.directoryGroup) == k
  }

  /**
   * The entry gives `g` to its directory group: its first sign group, or, under UMG and when it
   * has `admin_groups`, one of those that its sign groups list.
   */
  ghost predicate Contributes(parse: GroupParser, umg: bool, e: MappingEntry, g: AdobeGroup) {
    IsGroupAdminEntry(e) && !LacksSignGroups(e) &&
    if !UsesAdminGroups(e) then IsFirstSignGroup(parse, e, g)
    else umg && exists i :: 0 <= i < |e.adminGroups.value| && AdminGroupListed(e.adminGroups.value, e.signGroup.value, i)
                            && Groupify(parse, Lower(e.adminGroups.value[i])) == Success(g)
  }

  /** The listed admin groups that parse. */
  ghost function ListedSet(parse: GroupParser, ags: seq<string>, sgs: seq<string>): set<AdobeGroup> {
    set i | 0 <= i < |ags| && AdminGroupListed(ags, sgs, i) && Groupify(parse, Lower(ags[i])).Success? :: Groupify(parse, Lower(ags[i])).value
  }

  /** The mapping after one entry, or None when the entry makes the loader raise. */
  ghost function GroupAdminStep(parse: GroupParser, umg: bool, m: map<string, set<AdobeGroup>>, e: MappingEntry)
    : (r: Option<map<string, set<AdobeGroup>>>)
    ensures r.None? <==> StepFails(parse, umg, e)
    ensures r.Some? ==> m.Keys <= r.value.Keys
    ensures r.Some? ==> forall k :: !Wipes(umg, e, k) ==> Get(m, k) <= Get(r.value, k)
    ensures r.Some? && Wipes(umg, e, Lower(e.directoryGroup)) ==> Lower(e.directoryGroup) in r.value && r.value[Lower(e.directoryGroup)] == {}
    ensures r.Some? ==> forall g :: Contributes(parse, umg, e, g) ==> g in Get(r.value, Lower(e.directoryGroup))
  {
    var dg := Lower(e.directoryGroup);
    if !IsGroupAdminEntry(e) then Some(m)
    else if LacksSignGroups(e) then (if umg then None else Some(m[dg := {}]))
    else if !UsesAdminGroups(e) then
      var first := Groupify(parse, Lower(e.signGroup.value[0]));
      if first.Failure? then None else Some(m[dg := Get(m, dg) + {first.value}])
    else if !umg then Some(m)
    else
      var ags, sgs := e.adminGroups.value, e.signGroup.value;
      if exists i :: 0 <= i < |ags| && AdminGroupListed(ags, sgs, i) && Groupify(parse, Lower(ags[i])).Failure? then None
      else if !exists i :: 0 <= i < |ags| && AdminGroupListed(ags, sgs, i) then Some(m)
      else Some(m[dg := Get(m, dg) + ListedSet(parse, ags, sgs)])
  }

  /** Under UMG, the effect of an entry with `admin_groups`: the listed ones join its directory group. */
  method AddListedAdminGroups(parse: GroupParser, m: map<string, set<AdobeGroup>>, e: MappingEntry)
    returns (r: Result<map<string, set<AdobeGroup>>, SyncError>)
    requires IsGroupAdminEntry(e) && !LacksSignGroups(e) && UsesAdminGroups(e)
    ensures var dg, ags, sgs := Lower(e.directoryGroup), e.adminGroups.value, e.signGroup.value;
      && (r.Failure? <==> exists i :: 0 <= i < |ags| && AdminGroupListed(ags, sgs, i) && Groupify(parse, Lower(ags[i])).Failure?)
      && (r.Success? ==> forall k :: k != dg ==> (k in r.value <==> k in m) && (k in m ==> r.value[k] == m[k]))
      && (r.Success? ==> (dg in r.value <==> dg in m || exists i :: 0 <= i < |ags| && AdminGroupListed(ags, sgs, i)))
      && (r.Success? ==> forall g :: g in Get(r.value, dg) <==>
            g in Get(m, dg) || exists i :: 0 <= i < |ags| && AdminGroupListed(ags, sgs, i) && Groupify(parse, Lower(ags[i])) == Success(g))
    ensures r.Success? ==> forall g :: g in Get(r.value, Lower(e.directoryGroup)) && g !in Get(m, Lower(e.directoryGroup)) ==>
      NamesSignGroup(parse, e, g)
    ensures r.Success? <==> GroupAdminStep(parse, true, m, e).Some?
    ensures r.Success? ==> r.value == GroupAdminStep(parse, true, m, e).value
  {
    var dg := Lower(e.directoryGroup);
    var added, listed := ListedAdminGroups(parse, e.adminGroups.value, e.signGroup.value);
    if added.Failure? {
      assert GroupAdminStep(parse, true, m, e) == None;
      return Failure(added.error);
    }
    forall g | g in added.value
      ensures NamesSignGroup(parse, e, g)
    {
      ListedAdminGroupIsSignGroup(parse, e, g);
    }
    if listed {
      assert added.value == ListedSet(parse, e.adminGroups.value, e.signGroup.value);
      assert GroupAdminStep(parse, true, m, e) == Some(m[dg := Get(m, dg) + added.value]);
      return Success(m[dg := Get(m, dg) + added.value]);
    }
    assert added.value == {};
    assert GroupAdminStep(parse, true, m, e) == Some(m);
    return Success(m);
  }

  /** The effect of one `user_management` entry on the group-admin mapping. */
  method AddGroupAdminMapping(parse: GroupParser, umg: bool, m: map<string, set<AdobeGroup>>, e: MappingEntry)
    returns (r: Result<map<string, set<AdobeGroup>>, SyncError>)
    ensures IsGroupAdminEntry(e) && LacksSignGroups(e) ==>
      r == if umg then Failure(GroupAdminWithoutSignGroup(Lower(e.directoryGroup)))
           else Success(m[Lower(e.directoryGroup) := {}])
    ensures IsGroupAdminEntry(e) && !LacksSignGroups(e) && !UsesAdminGroups(e) ==>
      var first := Groupify(parse, Lower(e.signGroup.value[0]));
      r == if first.Failure? then Failure(first.error)
           else Success(m[Lower(e.directoryGroup) := Get(m, Lower(e.directoryGroup)) + {first.value}])
    ensures !IsGroupAdminEntry(e) ==> r == Success(m)
    ensures IsGroupAdminEntry(e) && !LacksSignGroups(e) && UsesAdminGroups(e) && !umg ==> r == Success(m)
    ensures IsGroupAdminEntry(e) && !LacksSignGroups(e) && UsesAdminGroups(e) && umg ==>
      var dg, ags, sgs := Lower(e.directoryGroup), e.adminGroups.value, e.signGroup.value;
      && (r.Failure? <==> exists i :: 0 <= i < |ags| && AdminGroupListed(ags, sgs, i) && Groupify(parse, Lower(ags[i])).Failure?)
      && (r.Success? ==> forall k :: k != dg ==> (k in r.value <==> k in m) && (k in m ==> r.value[k] == m[k]))
      && (r.Success? ==> (dg in r.value <==> dg in m || exists i :: 0 <= i < |ags| && AdminGroupListed(ags, sgs, i)))
      && (r.Success? ==> forall g :: g in Get(r.value, dg) <==>
            g in Get(m, dg) || exists i :: 0 <= i < |ags| && AdminGroupListed(ags, sgs, i) && Groupify(parse, Lower(ags[i])) == Success(g))
    ensures r.Success? ==> forall k :: k != Lower(e.directoryGroup) ==> (k in r.value <==> k in m) && (k in m ==> r.value[k] == m[k])
    ensures r.Success? ==> forall g :: g in Get(r.value, Lower(e.directoryGroup)) && g !in Get(m, Lower(e.directoryGroup)) ==>
      NamesSignGroup(parse, e, g) && (!umg ==> IsFirstSignGroup(parse, e, g))
    ensures r.Success? <==> GroupAdminStep(parse, umg, m, e).Some?
    ensures r.Success? ==> r.value == GroupAdminStep(parse, umg, m, e).value
  {
    var dg := Lower(e.directoryGroup);
    var groupAdmin := IsGroupAdminEntry(e);
    if LacksSignGroups(e) && groupAdmin {
      if !umg {
        return Success(m[dg := {}]);
      }
      return Failure(GroupAdminWithoutSignGroup(dg));
    }
    if !groupAdmin {
      return Success(m);
    }
    if !UsesAdminGroups(e) {
      var first :- Groupify(parse, Lower(e.signGroup.value[0]));
      return Success(m[dg := Get(m, dg) + {first}]);
    }
    if !umg {
      return Success(m);
    }
    r := AddListedAdminGroups(parse, m, e);
  }

  /** One of the first `n` entries is for directory group `k` and names `g` among its sign groups. */
  ghost predicate AdminSourced(parse: GroupParser, entries: seq<MappingEntry>, n: nat, k: string, g: AdobeGroup)
    requires n <= |entries|
  {
    exists x :: 0 <= x < n && Lower(entries[x].directoryGroup) == k && NamesSignGroup(parse, entries[x], g)
  }

  /** One of the first `n` entries is for directory group `k` and names `g` first. */
  ghost predicate FirstSourced(parse: GroupParser, entries: seq<MappingEntry>, n: nat, k: string, g: AdobeGroup)
    requires n <= |entries|
  {
    exists x :: 0 <= x < n && Lower(entries[x].directoryGroup) == k && IsFirstSignGroup(parse, entries[x], g)
  }

  /** Every group `m` gives to a directory group is sourced from one of the first `n` entries. */
  ghost predicate MappingSourced(parse: GroupParser, umg: bool, entries: seq<MappingEntry>, n: nat, m: map<string, set<AdobeGroup>>)
    requires n <= |entries|
  {
    && (forall k, g :: k in m && g in m[k] ==> AdminSourced(parse, entries, n, k, g))
    && (!umg ==> forall k, g :: k in m && g in m[k] ==> FirstSourced(parse, entries, n, k, g))
  }

  /** What one entry adds to the mapping is sourced from that entry. */
  lemma AddGroupAdminMappingSourced(parse: GroupParser, umg: bool, entries: seq<MappingEntry>, i: nat,
                                    m: map<string, set<AdobeGroup>>, m': map<string, set<AdobeGroup>>)
    requires i < |entries| && MappingSourced(parse, umg, entries, i, m)
    requires forall k :: k != Lower(entries[i].directoryGroup) ==> (k in m' <==> k in m) && (k in m ==> m'[k] == m[k])
    requires forall g :: g in Get(m', Lower(entries[i].directoryGroup)) && g !in Get(m, Lower(entries[i].directoryGroup)) ==>
      NamesSignGroup(parse, entries[i], g) && (!umg ==> IsFirstSignGroup(parse, entries[i], g))
    ensures MappingSourced(parse, umg, entries, i + 1, m')
  {
    var dg := Lower(entries[i].directoryGroup);
    forall k, g | k in m' && g in m'[k]
      ensures AdminSourced(parse, entries, i + 1, k, g)
      ensures !umg ==> FirstSourced(parse, entries, i + 1, k, g)
    {
      if k == dg && g !in Get(m, dg) {
        assert Get(m', dg) == m'[k];
      } else {
        assert k in m && g in m[k];
      }
    }
  }

  /** The mapping the entries build one after the other, or None when one of them makes the loader raise. */
  ghost function GroupAdminMappingsSpec(parse: GroupParser, umg: bool, entries: seq<MappingEntry>)
    : Option<map<string, set<AdobeGroup>>>
    decreases |entries|
  {
    if entries == [] then Some(map[])
    else match GroupAdminMappingsSpec(parse, umg, entries[..|entries| - 1]) {
      case None => None
      case Some(m) => GroupAdminStep(parse, umg, m, entries[|entries| - 1])
    }
  }

  /** Loading fails exactly when one of the entries fails on its own. */
  lemma {:induction false} GroupAdminMappingsSpecFails(parse: GroupParser, umg: bool, entries: seq<MappingEntry>)
    ensures GroupAdminMappingsSpec(parse, umg, entries).None? <==>
      exists i :: 0 <= i < |entries| && StepFails(parse, umg, entries[i])
    decreases |entries|
  {
    if entries != [] {
      var init := entries[..|entries| - 1];
      GroupAdminMappingsSpecFails(parse, umg, init);
      if exists i :: 0 <= i < |init| && StepFails(parse, umg, init[i]) {
        var i :| 0 <= i < |init| && StepFails(parse, umg, init[i]);
        assert entries[i] == init[i];
      }
      if exists i :: 0 <= i < |entries| && StepFails(parse, umg, entries[i]) {
        var i :| 0 <= i < |entries| && StepFails(parse, umg, entries[i]);
        if i < |init| {
          assert init[i] == entries[i];
        }
      }
    }
  }

  /** No entry after the `p`-th and before the `n`-th resets the `p`-th entry's directory group. */
  predicate NotWipedBetween(umg: bool, entries: seq<MappingEntry>, p: int, n: int)
    requires 0 <= p < |entries| && n <= |entries|
  {
    forall j :: p < j < n ==> !Wipes(umg, entries[j], Lower(entries[p].directoryGroup))
  }

  /** Every group one of the first `n` entries gives, and no later one of them resets, is in `m`. */
  ghost predicate CompleteUpTo(parse: GroupParser, umg: bool, entries: seq<MappingEntry>, n: nat, m: map<string, set<AdobeGroup>>)
    requires n <= |entries|
  {
    forall p, g :: 0 <= p < n && Contributes(parse, umg, entries[p], g) && NotWipedBetween(umg, entries, p, n) ==>
      g in Get(m, Lower(entries[p].directoryGroup))
  }

  /** One more entry keeps every group the earlier ones gave, unless it resets their directory group. */
  lemma AddGroupAdminMappingComplete(parse: GroupParser, umg: bool, entries: seq<MappingEntry>, i: nat,
                                     m: map<string, set<AdobeGroup>>, m': map<string, set<AdobeGroup>>)
    requires i < |entries| && CompleteUpTo(parse, umg, entries, i, m)
    requires GroupAdminStep(parse, umg, m, entries[i]) == Some(m')
    ensures CompleteUpTo(parse, umg, entries, i + 1, m')
  {
    forall p, g | 0 <= p < i + 1 && Contributes(parse, umg, entries[p], g) && NotWipedBetween(umg, entries, p, i + 1)
      ensures g in Get(m', Lower(entries[p].directoryGroup))
    {
      if p < i {
        assert NotWipedBetween(umg, entries, p, i);
        assert !Wipes(umg, entries[i], Lower(entries[p].directoryGroup));
      }
    }
  }

  /**
   * `load_group_admin_mappings`: lower-cased directory group -> groups its members administer.
   */
  method LoadGroupAdminMappings(parse: GroupParser, umg: bool, entries: seq<MappingEntry>)
    returns (r: Result<map<string, set<AdobeGroup>>, SyncError>)
    ensures r.Success? ==> forall k :: k in r.value ==> IsLowerCase(k)
    ensures umg && (exists i :: 0 <= i < |entries| && IsGroupAdminEntry(entries[i]) && LacksSignGroups(entries[i])) ==> r.Failure?
    ensures r.Success? ==> forall k, g :: k in r.value && g in r.value[k] ==>
      exists i :: 0 <= i < |entries| && Lower(entries[i].directoryGroup) == k && NamesSignGroup(parse, entries[i], g)
    ensures r.Success? && !umg ==> forall k, g :: k in r.value && g in r.value[k] ==>
      exists i :: 0 <= i < |entries| && Lower(entries[i].directoryGroup) == k && IsFirstSignGroup(parse, entries[i], g)
    ensures r.Failure? <==> exists i :: 0 <= i < |entries| && StepFails(parse, umg, entries[i])
    ensures r.Success? ==> forall p, g ::
      0 <= p < |entries| && Contributes(parse, umg, entries[p], g) && NotWipedBetween(umg, entries, p, |entries|) ==>
      g in Get(r.value, Lower(entries[p].directoryGroup))
    ensures r.Success? && !umg ==> forall p :: 0 <= p < |entries| && IsGroupAdminEntry(entries[p]) && LacksSignGroups(entries[p]) ==>
      Lower(entries[p].directoryGroup) in r.value
    ensures r.Success? <==> GroupAdminMappingsSpec(parse, umg, entries).Some?
    ensures r.Success? ==> r.value == GroupAdminMappingsSpec(parse, umg, entries).value
  {
    var m: map<string, set<AdobeGroup>> := map[];
    for i := 0 to |entries|
      invariant forall k :: k in m ==> IsLowerCase(k)
      invariant umg ==> forall k :: 0 <= k < i ==> !(IsGroupAdminEntry(entries[k]) && LacksSignGroups(entries[k]))
      invariant MappingSourced(parse, umg, entries, i, m)
      invariant forall p :: 0 <= p < i ==> !StepFails(parse, umg, entries[p])
      invariant CompleteUpTo(parse, umg, entries, i, m)
      invariant !umg ==> forall p :: 0 <= p < i && IsGroupAdminEntry(entries[p]) && LacksSignGroups(entries[p]) ==>
        Lower(entries[p].directoryGroup) in m
      invariant GroupAdminMappingsSpec(parse, umg, entries[..i]) == Some(m)
    {
      var e := entries[i];
      var step := AddGroupAdminMapping(parse, umg, m, e);
      if step.Failure? {
        GroupAdminMappingsSpecFails(parse, umg, entries);
        return Failure(step.error);
      }
      LowerIsLowerCase(e.directoryGroup);
      AddGroupAdminMappingSourced(parse, umg, entries, i, m, step.value);
      AddGroupAdminMappingComplete(parse, umg, entries, i, m, step.value);
      assert entries[..i + 1][..i] == entries[..i];
      m := step.value;
    }
    assert entries[..|entries|] == entries;
    GroupAdminMappingsSpecFails(parse, umg, entries);
    return Success(m);
  }

  // ---------------------------------------------------------------------------------------
  // Primary-group rules (`load_primary_group_rules`)

  /** One configured rule: its required groups lower-cased, its primary group as written. */
  function RuleOf(e: PrimaryRuleEntry): (r: PrimaryGroupRule)
    ensures r.primaryGroup == e.primaryGroup
    ensures forall g :: g in r.signGroups <==> exists j :: 0 <= j < |e.signGroups| && Lower(e.signGroups[j]) == g
  {
    PrimaryGroupRule(set g | g in e.signGroups :: Lower(g), e.primaryGroup)
  }

  /**
   * The primary-group rules in configuration order, each with its required groups lower-cased;
   * none without UMG. With UMG and no `primary_group_rules` key the source dereferences `None`.
   */
  method LoadPrimaryGroupRules(umg: bool, rules: Option<seq<PrimaryRuleEntry>>)
    returns (r: Result<seq<PrimaryGroupRule>, SyncError>)
    ensures !umg ==> r == Success([])
    ensures umg && rules.None? ==> r == Failure(NoneHasNoAttribute)
    ensures umg && rules.Some? ==> r.Success? && |r.value| == |rules.value|
    ensures umg && rules.Some? ==> forall i :: 0 <= i < |rules.value| ==>
      && r.value[i].primaryGroup == rules.value[i].primaryGroup
      && forall g :: g in r.value[i].signGroups <==>
           exists j :: 0 <= j < |rules.value[i].signGroups| && Lower(rules.value[i].signGroups[j]) == g
    ensures r.Success? ==> forall i, g :: 0 <= i < |r.value| && g in r.value[i].signGroups ==> IsLowerCase(g)
    ensures umg && rules.Some? ==> forall i :: 0 <= i < |rules.value| ==> r.value[i] == RuleOf(rules.value[i])
  {
    var result: seq<PrimaryGroupRule> := [];
    if umg {
      if rules.None? {
        return Failure(NoneHasNoAttribute);
      }
      var config := rules.value;
      for i := 0 to |config|
        invariant |result| == i
        invariant forall x :: 0 <= x < i ==>
          && result[x].primaryGroup == config[x].primaryGroup
          && forall g :: g in result[x].signGroups <==>
               exists j :: 0 <= j < |config[x].signGroups| && Lower(config[x].signGroups[j]) == g
        invariant forall x, g :: 0 <= x < i && g in result[x].signGroups ==> IsLowerCase(g)
      {
        var names := config[i].signGroups;
        var required := set g | g in names :: Lower(g);
        forall g | g in required ensures IsLowerCase(g) {
          var n :| n in names && Lower(n) == g;
          LowerIsLowerCase(n);
        }
        result := result + [PrimaryGroupRule(required, config[i].primaryGroup)];
      }
    }
    return Success(result);
  }

  // ---------------------------------------------------------------------------------------
  // The `--users` invocation option (`load_invocation_options`)

  /** The group names a `group` users option names: a comma-separated list, or the rest of the list. */
  function GroupFilterNames(spec: seq<string>): seq<string>
    requires |spec| >= 2
  {
    if |spec| == 2 then Split(spec[1], ',') else spec[1..]
  }

  lemma StrippedNames(names: seq<string>)
    ensures forall d :: d in (set n | n in names :: Strip(n)) ==> Strip(d) == d
  {
    forall d | d in (set n | n in names :: Strip(n)) ensures Strip(d) == d {
      var n :| n in names && Strip(n) == d;
      StripIsIdempotent(n);
    }
  }

  /**
   * Applies the `--users` option: `all` (refused with the okta connector), `mapped` (read only
   * mapped groups) or `group` (read only the named groups, stripped and de-duplicated);
   * any other action is refused. `normalize` is the source's `normalize_string`.
   */
  function ApplyUsersOption(options: InvocationOptions, normalize: string -> string): (r: Result<InvocationOptions, SyncError>)
    ensures options.users.None? || options.users.value == [] ==> r == Success(options)
    ensures r.Success? ==> r.value.users == options.users && r.value.directoryConnectorType == options.directoryConnectorType
    ensures r.Failure? <==>
      options.users.Some? && options.users.value != [] &&
      var action := normalize(options.users.value[0]);
      (action == "all" && options.directoryConnectorType == "okta")
      || (action == "group" && |options.users.value| < 2)
      || (action != "all" && action != "mapped" && action != "group")
    ensures options.users.Some? && options.users.value != [] && normalize(options.users.value[0]) == "all" && r.Success? ==>
      r.value == options
    ensures options.users.Some? && options.users.value != [] && normalize(options.users.value[0]) == "mapped" ==>
      r == Success(options.(directoryGroupMapped := true))
    ensures options.users.Some? && |options.users.value| >= 2 && normalize(options.users.value[0]) == "group" ==>
      && r.Success? && r.value.directoryGroupFilter.Some?
      && r.value.(directoryGroupFilter := options.directoryGroupFilter) == options
      && (forall d :: d in r.value.directoryGroupFilter.value <==>
            exists n :: n in GroupFilterNames(options.users.value) && Strip(n) == d)
    ensures r.Success? && r.value.directoryGroupMapped != options.directoryGroupMapped ==>
      normalize(options.users.value[0]) == "mapped" && r.value.directoryGroupMapped
    ensures r.Success? && r.value.directoryGroupFilter != options.directoryGroupFilter ==>
      && normalize(options.users.value[0]) == "group"
      && r.value.directoryGroupFilter.Some?
      && (forall d :: d in r.value.directoryGroupFilter.value ==> Strip(d) == d)
      && (|options.users.value| == 2 ==> forall d :: d in r.value.directoryGroupFilter.value ==> ',' !in d)
      && (forall d :: d in r.value.directoryGroupFilter.value <==>
            exists n :: n in GroupFilterNames(options.users.value) && Strip(n) == d)
  {
    if options.users.None? || options.users.value == [] then Success(options)
    else
      var spec := options.users.value;
      var action := normalize(spec[0]);
      if action == "all" then
        if options.directoryConnectorType == "okta" then Failure(OktaDoesNotSupportAllUsers)
        else Success(options)
      else if action == "mapped" then
        Success(options.(directoryGroupMapped := true))
      else if action == "group" then
        if |spec| < 2 then Failure(GroupsNotSpecified)
        else
          var names := GroupFilterNames(spec);
          var filter := set n | n in names :: Strip(n);
          StrippedNames(names);
          assert |spec| == 2 ==> forall d :: d in filter ==> ',' !in d by {
            if |spec| == 2 {
              forall d | d in filter ensures ',' !in d {
                var n :| n in names && Strip(n) == d;
                assert ',' !in n;
                StripIsPart(n, ',');
              }
            }
          }
          Success(options.(directoryGroupFilter := Some(filter)))
      else Failure(UnknownUsersOption(action))
  }

  lemma StripIsPart(s: string, c: char)
    requires c !in s
    ensures c !in Strip(s)
  {
    var t := s[LeadingSpaces(s)..];
    assert forall x :: x in t ==> x in s;
    var u := t[..|t| - TrailingSpaces(t)];
    assert forall x :: x in u ==> x in t;
  }

  // ---------------------------------------------------------------------------------------
  // Target orgs and engine options

  /**
   * `get_target_options`: every configured org's connector configuration; refused when
   * `sign_orgs` has no `primary` key. `loadSubConfig` stands for reading a connector file.
   */
  method GetTargetOptions<T>(signOrgs: map<string, string>, loadSubConfig: string -> T)
    returns (r: Result<map<string, T>, SyncError>)
    ensures r.Failure? <==> DefaultOrgName !in signOrgs
    ensures r.Success? ==> r.value.Keys == signOrgs.Keys
    ensures r.Success? ==> forall k :: k in signOrgs ==> r.value[k] == loadSubConfig(signOrgs[k])
  {
    if DefaultOrgName !in signOrgs {
      return Failure(MissingPrimaryOrg);
    }
    var primaryOptions := loadSubConfig(signOrgs[DefaultOrgName]);
    var all: map<string, T> := map[];
    var pending := signOrgs.Keys;
    while pending != {}
      invariant pending <= signOrgs.Keys
      invariant forall k :: k in all <==> k in signOrgs && k !in pending && k != DefaultOrgName
      invariant forall k :: k in all ==> all[k] == loadSubConfig(signOrgs[k])
      decreases |pending|
    {
      var targetId :| targetId in pending;
      pending := pending - {targetId};
      if targetId == DefaultOrgName {
        continue;
      }
      all := all[targetId := loadSubConfig(signOrgs[targetId])];
    }
    all := all[DefaultOrgName := primaryOptions];
    assert all.Keys == signOrgs.Keys;
    return Success(all);
  }

  /**
   * The options the engine runs with (`get_engine_options`): UMG off unless `umg` is set, the
   * directory group filter widened to every mapped directory group under `--users mapped`, and
   * the admin mappings and primary-group rules built as above.
   */
  method GetEngineOptions(
    parse: GroupParser,
    invocation: InvocationOptions,
    umgSetting: Option<bool>,
    signOnlyUserAction: SignOnlyUserAction,
    entries: seq<MappingEntry>,
    accountAdminGroups: Option<seq<string>>,
    primaryGroupRules: Option<seq<PrimaryRuleEntry>>,
    directoryGroups: map<string, DirectoryGroupMapping>)
    returns (r: Result<EngineOptions, SyncError>)
    ensures r.Success? ==> r.value.umg == (umgSetting == Some(true))
    ensures r.Success? ==> r.value.signOnlyUserAction == signOnlyUserAction
    ensures r.Success? ==>
      r.value.directoryGroupFilter == (if invocation.directoryGroupMapped then Some(directoryGroups.Keys) else invocation.directoryGroupFilter)
    ensures r.Success? && !r.value.umg ==> r.value.primaryGroupRules == []
    ensures umgSetting == Some(true) && primaryGroupRules.None? ==> r.Failure?
    ensures r.Failure? <==>
      GroupAdminMappingsSpec(parse, umgSetting == Some(true), entries).None? || (umgSetting == Some(true) && primaryGroupRules.None?)
    ensures r.Success? ==> r.value.groupAdminMappings == GroupAdminMappingsSpec(parse, r.value.umg, entries).value
    ensures r.Success? && r.value.umg ==>
      && primaryGroupRules.Some? && |r.value.primaryGroupRules| == |primaryGroupRules.value|
      && forall i :: 0 <= i < |primaryGroupRules.value| ==> r.value.primaryGroupRules[i] == RuleOf(primaryGroupRules.value[i])
    ensures r.Success? ==> forall g :: g in r.value.accountAdminGroups <==>
      (exists i :: 0 <= i < |entries| && entries[i].accountAdmin == Some(true) && entries[i].directoryGroup == g)
      || (accountAdminGroups.Some? && g in accountAdminGroups.value)
  {
    var umg := umgSetting == Some(true);
    var filter := invocation.directoryGroupFilter;
    if invocation.directoryGroupMapped {
      filter := Some(directoryGroups.Keys);
    }
    var admins := LoadAccountAdminGroups(entries, accountAdminGroups);
    var groupAdmins :- LoadGroupAdminMappings(parse, umg, entries);
    var rules :- LoadPrimaryGroupRules(umg, primaryGroupRules);
    return Success(EngineOptions(umg, signOnlyUserAction, filter, admins, groupAdmins, rules));
  }
}
