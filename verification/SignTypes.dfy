/**
 * The records the document-signing sync works on: groups named in the configuration, the
 * remote service's users, groups and group memberships, directory users before and after
 * group-mapping resolution, and the errors the sync raises.
 */
module SignTypes {
  import opened Wrappers
  import opened Text

  /** The org every group without an explicit org prefix belongs to. */
  const DefaultOrgName: string := "primary"

  /** A target group named in the configuration: its name and the org ("umapi name") it targets. */
  datatype AdobeGroup = AdobeGroup(groupName: string, umapiName: string)

  /** One directory group's entry in the mapping table. */
  datatype DirectoryGroupMapping = DirectoryGroupMapping(priority: nat, groups: seq<AdobeGroup>)

  /** A primary-group rule: when every group of `signGroups` is held, `primaryGroup` is primary. */
  datatype PrimaryGroupRule = PrimaryGroupRule(signGroups: set<string>, primaryGroup: string)

  /** A group of the remote service. */
  datatype GroupInfo = GroupInfo(groupId: string, groupName: string, isDefaultGroup: bool)

  /** ACTIVE adds or keeps a membership, DELETED removes it. */
  datatype MembershipStatus = Active | Deleted

  /** A user's membership in one remote group, as read and as sent back. */
  datatype UserGroupInfo = UserGroupInfo(
    id: string,
    name: string,
    isGroupAdmin: bool,
    isPrimaryGroup: bool,
    status: MembershipStatus)

  /** A user of the remote service. `status` is the service's own string ("ACTIVE", "INACTIVE", ...). */
  datatype SignUser = SignUser(
    id: string,
    email: string,
    status: string,
    isAccountAdmin: bool,
    firstName: string,
    lastName: string)

  /** A user as the directory connector delivers it; `email` may be absent. */
  datatype DirectoryUser = DirectoryUser(
    email: Option<string>,
    firstname: string,
    lastname: string,
    groups: seq<string>)

  /** A directory user enriched with the outcome of group-mapping resolution. */
  datatype ResolvedUser = ResolvedUser(
    email: string,
    firstname: string,
    lastname: string,
    groups: seq<string>,
    signGroups: seq<AdobeGroup>,
    isAdmin: bool,
    isGroupAdmin: bool,
    adminGroups: set<AdobeGroup>)

  /** The configured policy for remote users that have no directory counterpart. */
  datatype SignOnlyUserAction = Exclude | Reset | Deactivate | RemoveRoles | RemoveGroups

  /** The options the configuration hands to the engine. */
  datatype EngineOptions = EngineOptions(
    umg: bool,
    signOnlyUserAction: SignOnlyUserAction,
    directoryGroupFilter: Option<set<string>>,
    accountAdminGroups: set<string>,
    groupAdminMappings: map<string, set<AdobeGroup>>,
    primaryGroupRules: seq<PrimaryGroupRule>)

  /** What the sync raises. The last three stand for Python's KeyError, IndexError and AttributeError. */
  datatype SyncError =
    | BadSignGroup(name: string)
    | GroupAdminWithoutSignGroup(directoryGroup: string)
    | OktaDoesNotSupportAllUsers
    | GroupsNotSpecified
    | UnknownUsersOption(action: string)
    | MissingPrimaryOrg
    | InvalidSignGroup(groupName: string)
    | RemoveAssignOverlap(groupName: string)
    | NoPrimaryGroup(email: string)
    | MissingKey(key: string)
    | IndexOutOfRange
    | NoneHasNoAttribute

  /** No element of `s` occurs twice. */
  predicate NoDuplicates<T(==)>(s: seq<T>) {
    forall i, j :: 0 <= i < j < |s| ==> s[i] != s[j]
  }

  /** The remote service returns its groups keyed by lower-cased name. */
  predicate GroupsKeyedByName(groups: map<string, GroupInfo>) {
    forall k :: k in groups ==> Lower(groups[k].groupName) == k
  }

  /** A user's memberships keyed by lower-cased group name. */
  predicate AssignmentsKeyedByName(memberships: map<string, UserGroupInfo>) {
    forall k :: k in memberships ==> Lower(memberships[k].name) == k
  }
}
