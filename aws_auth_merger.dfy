/**
 * The merge engine and source reader of the aws-auth merger (aws_auth_merger.go): read the
 * role and user mapping lists out of each source ConfigMap, fold them together in input order
 * and build the single `kube-system/aws-auth` ConfigMap, refusing on a parse error or on an
 * ARN that two sources declare.
 */
module AwsAuthMerger {
  import opened Wrappers
  import opened Mapping
  import opened KubeApi

  const MainAwsAuthConfigMapNamespace := "kube-system"
  const MainAwsAuthConfigMapName := "aws-auth"
  const ManagedByLabelKey := "gruntwork.io/managed-by"
  const ManagedByLabelValue := "aws-auth-merger"
  const SourcesAnnotationKey := "gruntwork.io/aws-auth-merger-sources"
  const AutoCreateAnnotationKey := "gruntwork.io/aws-auth-merger-created"
  const MergedTimestampAnnotationKey := "gruntwork.io/aws-auth-merger-timestamp"
  const MapRolesKey := "mapRoles"
  const MapUsersKey := "mapUsers"
  const PreExistingConfigMapCreateName := "preexisting-aws-auth"

  /**
   * The YAML and JSON (un)marshallers, which the model does not look inside. A parse failure
   * and an encode failure carry the library's message.
   */
  datatype Codec = Codec(
    parseRoles: string -> Result<seq<RoleMapping>, string>,
    parseUsers: string -> Result<seq<UserMapping>, string>,
    encodeRoles: seq<RoleMapping> -> Result<string, string>,
    encodeUsers: seq<UserMapping> -> Result<string, string>,
    encodeSources: seq<string> -> Result<string, string>)

  /** A source whose mapping list does not parse: the kind, the ConfigMap's name and the parser's message. */
  datatype InvalidMappingListErr =
    InvalidMappingListErr(mappingType: MappingType, configMapName: string, underlyingErr: string)

  /** Every way a merge can fail. */
  datatype MergeError =
    | Conflict(conflict: MappingConflictErr)
    | InvalidMappingList(invalid: InvalidMappingListErr)
    | EncodeFailed(message: string)

  // Source reader

  /** getRoleMappingFromConfigMap */
  function GetRoleMappingFromConfigMap(codec: Codec, configmap: ConfigMap)
    : (r: Result<seq<RoleMapping>, InvalidMappingListErr>)
    ensures MapRolesKey !in configmap.data ==> r == Success([])
    ensures MapRolesKey in configmap.data ==>
              match codec.parseRoles(configmap.data[MapRolesKey])
              case Success(roles) => r == Success(roles)
              case Failure(e) => r == Failure(InvalidMappingListErr(RoleMappingType, configmap.name, e))
  {
    if MapRolesKey !in configmap.data then Success([])
    else
      match codec.parseRoles(configmap.data[MapRolesKey])
      case Success(roles) => Success(roles)
      case Failure(e) => Failure(InvalidMappingListErr(RoleMappingType, configmap.name, e))
  }

  /** getUserMappingFromConfigMap */
  function GetUserMappingFromConfigMap(codec: Codec, configmap: ConfigMap)
    : (r: Result<seq<UserMapping>, InvalidMappingListErr>)
    ensures MapUsersKey !in configmap.data ==> r == Success([])
    ensures MapUsersKey in configmap.data ==>
              match codec.parseUsers(configmap.data[MapUsersKey])
              case Success(users) => r == Success(users)
              case Failure(e) => r == Failure(InvalidMappingListErr(UserMappingType, configmap.name, e))
  {
    if MapUsersKey !in configmap.data then Success([])
    else
      match codec.parseUsers(configmap.data[MapUsersKey])
      case Success(users) => Success(users)
      case Failure(e) => Failure(InvalidMappingListErr(UserMappingType, configmap.name, e))
  }

  /** isManagedByMerger: the managed-by label is present with exactly the merger's value. */
  predicate IsManagedByMerger(configmap: ConfigMap)
  {
    ManagedByLabelKey in configmap.labels && configmap.labels[ManagedByLabelKey] == ManagedByLabelValue
  }

  /** The merger manages a ConfigMap exactly when the pair (managed-by key, merger value) is among its labels. */
  lemma ManagedByLabelPair(configmap: ConfigMap)
    ensures IsManagedByMerger(configmap) <==> (ManagedByLabelKey, ManagedByLabelValue) in configmap.labels.Items
  {
    if (ManagedByLabelKey, ManagedByLabelValue) in configmap.labels.Items {
      assert ManagedByLabelKey in configmap.labels;
    }
  }

  // The fold over sources

  /** What the merge has gathered so far: source names, merged roles, merged users. */
  datatype Accumulated = Accumulated(sources: seq<string>, roles: seq<RoleMapping>, users: seq<UserMapping>)

  /** One round of the merge loop: record the name, then read and merge roles, then users. */
  function MergeSource(codec: Codec, acc: Accumulated, configmap: ConfigMap): Result<Accumulated, MergeError> {
    match GetRoleMappingFromConfigMap(codec, configmap)
    case Failure(e) => Failure(InvalidMappingList(e))
    case Success(roles) =>
      match MergedLists(RoleMappingType, acc.roles, roles, RoleArnOf)
      case Failure(c) => Failure(Conflict(c))
      case Success(mergedRoles) =>
        match GetUserMappingFromConfigMap(codec, configmap)
        case Failure(e) => Failure(InvalidMappingList(e))
        case Success(users) =>
          match MergedLists(UserMappingType, acc.users, users, UserArnOf)
          case Failure(c) => Failure(Conflict(c))
          case Success(mergedUsers) => Success(Accumulated(acc.sources + [configmap.name], mergedRoles, mergedUsers))
  }

  /** The left fold of `MergeSource` over the sources in input order; the first error ends it. */
  function FoldSources(codec: Codec, configmaps: seq<ConfigMap>): Result<Accumulated, MergeError>
    decreases |configmaps|
  {
    if configmaps == [] then Success(Accumulated([], [], []))
    else
      match FoldSources(codec, configmaps[..|configmaps| - 1])
      case Failure(e) => Failure(e)
      case Success(acc) => MergeSource(codec, acc, configmaps[|configmaps| - 1])
  }

  /** The merged `kube-system/aws-auth` ConfigMap built from the folded sources. */
  function MergedConfigMap(codec: Codec, configmaps: seq<ConfigMap>, timestamp: string): Result<ConfigMap, MergeError> {
    match FoldSources(codec, configmaps)
    case Failure(e) => Failure(e)
    case Success(acc) =>
      match codec.encodeSources(acc.sources)
      case Failure(m) => Failure(EncodeFailed(m))
      case Success(sourcesJson) =>
        match codec.encodeRoles(acc.roles)
        case Failure(m) => Failure(EncodeFailed(m))
        case Success(mapRolesYaml) =>
          match codec.encodeUsers(acc.users)
          case Failure(m) => Failure(EncodeFailed(m))
          case Success(mapUsersYaml) =>
            Success(ConfigMap(
              MainAwsAuthConfigMapName, "", MainAwsAuthConfigMapNamespace,
              map[ManagedByLabelKey := ManagedByLabelValue],
              map[SourcesAnnotationKey := sourcesJson, MergedTimestampAnnotationKey := timestamp],
              map[MapRolesKey := mapRolesYaml, MapUsersKey := mapUsersYaml]))
  }

  /**
   * mergeAwsAuthConfigMaps. The wall clock is the `timestamp` parameter (already formatted).
   */
  method MergeAwsAuthConfigMaps(codec: Codec, configmaps: seq<ConfigMap>, timestamp: string)
    returns (r: Result<ConfigMap, MergeError>)
    ensures r == MergedConfigMap(codec, configmaps, timestamp)
    ensures r.Success? ==>
              && r.value.name == MainAwsAuthConfigMapName
              && r.value.namespace == MainAwsAuthConfigMapNamespace
              && r.value.labels == map[ManagedByLabelKey := ManagedByLabelValue]
              && IsManagedByMerger(r.value)
              && r.value.annotations.Keys == {SourcesAnnotationKey, MergedTimestampAnnotationKey}
              && r.value.annotations[MergedTimestampAnnotationKey] == timestamp
              && r.value.data.Keys == {MapRolesKey, MapUsersKey}
  {
    var sources: seq<string> := [];
    var mapRolesMerged: seq<RoleMapping> := [];
    var mapUsersMerged: seq<UserMapping> := [];
    for i := 0 to |configmaps|
      invariant FoldSources(codec, configmaps[..i]) == Success(Accumulated(sources, mapRolesMerged, mapUsersMerged))
    {
      var configmap := configmaps[i];
      assert configmaps[..i + 1][..i] == configmaps[..i];
      assert FoldSources(codec, configmaps[..i + 1])
          == MergeSource(codec, Accumulated(sources, mapRolesMerged, mapUsersMerged), configmap);
      sources := sources + [configmap.name];

      var currentMapRoles := GetRoleMappingFromConfigMap(codec, configmap);
      if currentMapRoles.Failure? {
        FoldFailurePersists(codec, configmaps, i + 1);
        return Failure(InvalidMappingList(currentMapRoles.error));
      }
      var rolesResult := MergeRoleMappingLists(mapRolesMerged, currentMapRoles.value);
      if rolesResult.Failure? {
        FoldFailurePersists(codec, configmaps, i + 1);
        return Failure(Conflict(rolesResult.error));
      }
      mapRolesMerged := rolesResult.value;

      var currentMapUsers := GetUserMappingFromConfigMap(codec, configmap);
      if currentMapUsers.Failure? {
        FoldFailurePersists(codec, configmaps, i + 1);
        return Failure(InvalidMappingList(currentMapUsers.error));
      }
      var usersResult := MergeUserMappingLists(mapUsersMerged, currentMapUsers.value);
      if usersResult.Failure? {
        FoldFailurePersists(codec, configmaps, i + 1);
        return Failure(Conflict(usersResult.error));
      }
      mapUsersMerged := usersResult.value;
    }
    assert configmaps[..|configmaps|] == configmaps;

    var sourcesJson := codec.encodeSources(sources);
    if sourcesJson.Failure? {
      return Failure(EncodeFailed(sourcesJson.error));
    }
    var mapRolesYaml := codec.encodeRoles(mapRolesMerged);
    if mapRolesYaml.Failure? {
      return Failure(EncodeFailed(mapRolesYaml.error));
    }
    var mapUsersYaml := codec.encodeUsers(mapUsersMerged);
    if mapUsersYaml.Failure? {
      return Failure(EncodeFailed(mapUsersYaml.error));
    }
    var merged := ConfigMap(
      MainAwsAuthConfigMapName, "", MainAwsAuthConfigMapNamespace,
      map[ManagedByLabelKey := ManagedByLabelValue],
      map[SourcesAnnotationKey := sourcesJson.value, MergedTimestampAnnotationKey := timestamp],
      map[MapRolesKey := mapRolesYaml.value, MapUsersKey := mapUsersYaml.value]);
    return Success(merged);
  }

  /** Once a prefix of the sources fails, the whole fold fails with the same error. */
  lemma {:induction false} FoldFailurePersists(codec: Codec, configmaps: seq<ConfigMap>, n: nat)
    requires n <= |configmaps|
    requires FoldSources(codec, configmaps[..n]).Failure?
    ensures FoldSources(codec, configmaps) == FoldSources(codec, configmaps[..n])
  {
    if n == |configmaps| {
      assert configmaps[..n] == configmaps;
    } else {
      var prefix := configmaps[..|configmaps| - 1];
      assert prefix[..n] == configmaps[..n];
      FoldFailurePersists(codec, prefix, n);
    }
  }

  // What the fold computes, stated without the fold

  /** The role list a source contributes (empty when it is missing or does not parse). */
  function SourceRoles(codec: Codec, configmap: ConfigMap): seq<RoleMapping> {
    GetRoleMappingFromConfigMap(codec, configmap).GetOr([])
  }

  /** The user list a source contributes (empty when it is missing or does not parse). */
  function SourceUsers(codec: Codec, configmap: ConfigMap): seq<UserMapping> {
    GetUserMappingFromConfigMap(codec, configmap).GetOr([])
  }

  function RoleLists(codec: Codec, configmaps: seq<ConfigMap>): (r: seq<seq<RoleMapping>>)
    ensures |r| == |configmaps|
    ensures forall i :: 0 <= i < |configmaps| ==> r[i] == SourceRoles(codec, configmaps[i])
  {
    seq(|configmaps|, i requires 0 <= i < |configmaps| => SourceRoles(codec, configmaps[i]))
  }

  function UserLists(codec: Codec, configmaps: seq<ConfigMap>): (r: seq<seq<UserMapping>>)
    ensures |r| == |configmaps|
    ensures forall i :: 0 <= i < |configmaps| ==> r[i] == SourceUsers(codec, configmaps[i])
  {
    seq(|configmaps|, i requires 0 <= i < |configmaps| => SourceUsers(codec, configmaps[i]))
  }

  function Names(configmaps: seq<ConfigMap>): (r: seq<string>)
    ensures |r| == |configmaps|
    ensures forall i :: 0 <= i < |configmaps| ==> r[i] == configmaps[i].name
  {
    seq(|configmaps|, i requires 0 <= i < |configmaps| => configmaps[i].name)
  }

  /** The lists one after another, in order. */
  function Flatten<T>(lists: seq<seq<T>>): seq<T> {
    if lists == [] then [] else Flatten(lists[..|lists| - 1]) + lists[|lists| - 1]
  }

  /** No ARN occurs in two different lists (repeats inside one list are allowed). */
  ghost predicate CrossListDisjoint<T>(lists: seq<seq<T>>, key: T -> string) {
    forall i, j :: 0 <= i < j < |lists| ==> Arns(lists[i], key) !! Arns(lists[j], key)
  }

  /** Every present `mapRoles` and `mapUsers` value of every source parses. */
  ghost predicate SourcesParse(codec: Codec, configmaps: seq<ConfigMap>) {
    forall i :: 0 <= i < |configmaps| ==>
      GetRoleMappingFromConfigMap(codec, configmaps[i]).Success? &&
      GetUserMappingFromConfigMap(codec, configmaps[i]).Success?
  }

  lemma {:induction false} ArnsFlatten<T>(lists: seq<seq<T>>, key: T -> string, x: string)
    ensures x in Arns(Flatten(lists), key) <==> exists i :: 0 <= i < |lists| && x in Arns(lists[i], key)
  {
    if lists != [] {
      var prefix := lists[..|lists| - 1];
      ArnsFlatten(prefix, key, x);
      ArnsConcat(Flatten(prefix), lists[|lists| - 1], key);
      if x in Arns(Flatten(lists), key) && x !in Arns(lists[|lists| - 1], key) {
        var i :| 0 <= i < |prefix| && x in Arns(prefix[i], key);
        assert lists[i] == prefix[i];
      }
      if exists i :: 0 <= i < |lists| && x in Arns(lists[i], key) {
        var i :| 0 <= i < |lists| && x in Arns(lists[i], key);
        if i < |prefix| {
          assert lists[i] == prefix[i];
        }
      }
    }
  }

  lemma CrossListDisjointSnoc<T>(lists: seq<seq<T>>, last: seq<T>, key: T -> string)
    ensures CrossListDisjoint(lists + [last], key) <==>
            CrossListDisjoint(lists, key) && Arns(Flatten(lists), key) !! Arns(last, key)
  {
    var all := lists + [last];
    assert all[..|all| - 1] == lists;
    if CrossListDisjoint(all, key) {
      forall i, j | 0 <= i < j < |lists|
        ensures Arns(lists[i], key) !! Arns(lists[j], key)
      {
        assert all[i] == lists[i] && all[j] == lists[j];
      }
      forall x | x in Arns(last, key)
        ensures x !in Arns(Flatten(lists), key)
      {
        ArnsFlatten(lists, key, x);
        forall i | 0 <= i < |lists|
          ensures x !in Arns(lists[i], key)
        {
          assert all[i] == lists[i] && all[|lists|] == last;
        }
      }
    }
    if CrossListDisjoint(lists, key) && Arns(Flatten(lists), key) !! Arns(last, key) {
      forall i, j | 0 <= i < j < |all|
        ensures Arns(all[i], key) !! Arns(all[j], key)
      {
        if j < |lists| {
          assert all[i] == lists[i] && all[j] == lists[j];
        } else {
          assert all[i] == lists[i] && all[j] == last;
          forall x | x in Arns(lists[i], key)
            ensures x !in Arns(last, key)
          {
            ArnsFlatten(lists, key, x);
          }
        }
      }
    }
  }

  /** One round of the merge succeeds exactly when both lists parse and neither shares an ARN with what came before. */
  lemma MergeSourceSpec(codec: Codec, acc: Accumulated, configmap: ConfigMap)
    ensures MergeSource(codec, acc, configmap).Success? <==>
              && GetRoleMappingFromConfigMap(codec, configmap).Success?
              && GetUserMappingFromConfigMap(codec, configmap).Success?
              && Arns(acc.roles, RoleArnOf) !! Arns(SourceRoles(codec, configmap), RoleArnOf)
              && Arns(acc.users, UserArnOf) !! Arns(SourceUsers(codec, configmap), UserArnOf)
    ensures MergeSource(codec, acc, configmap).Success? ==>
              MergeSource(codec, acc, configmap).value == Accumulated(
                acc.sources + [configmap.name],
                acc.roles + SourceRoles(codec, configmap),
                acc.users + SourceUsers(codec, configmap))
  {
    MergeSucceedsIffDisjoint(RoleMappingType, acc.roles, SourceRoles(codec, configmap), RoleArnOf);
    MergeSucceedsIffDisjoint(UserMappingType, acc.users, SourceUsers(codec, configmap), UserArnOf);
    MergeOutcome(RoleMappingType, acc.roles, SourceRoles(codec, configmap), RoleArnOf);
    MergeOutcome(UserMappingType, acc.users, SourceUsers(codec, configmap), UserArnOf);
  }

  lemma SourcesParseSnoc(codec: Codec, prefix: seq<ConfigMap>, last: ConfigMap)
    ensures SourcesParse(codec, prefix + [last]) <==>
            SourcesParse(codec, prefix) &&
            GetRoleMappingFromConfigMap(codec, last).Success? &&
            GetUserMappingFromConfigMap(codec, last).Success?
  {
    var all := prefix + [last];
    assert all[|prefix|] == last;
    assert forall i :: 0 <= i < |prefix| ==> all[i] == prefix[i];
  }

  /**
   * The fold succeeds exactly when every source parses and no ARN is declared by two different
   * sources; it then holds every source name in input order, and the concatenation of the
   * sources' role lists and of their user lists, again in input order.
   */
  lemma {:induction false} FoldSourcesSpec(codec: Codec, configmaps: seq<ConfigMap>)
    ensures FoldSources(codec, configmaps).Success? <==>
              && SourcesParse(codec, configmaps)
              && CrossListDisjoint(RoleLists(codec, configmaps), RoleArnOf)
              && CrossListDisjoint(UserLists(codec, configmaps), UserArnOf)
    ensures FoldSources(codec, configmaps).Success? ==>
              FoldSources(codec, configmaps).value == Accumulated(
                Names(configmaps),
                Flatten(RoleLists(codec, configmaps)),
                Flatten(UserLists(codec, configmaps)))
  {
    if configmaps != [] {
      var n := |configmaps|;
      var prefix := configmaps[..n - 1];
      var last := configmaps[n - 1];
      assert configmaps == prefix + [last];
      FoldSourcesSpec(codec, prefix);
      var roleLists, userLists := RoleLists(codec, prefix), UserLists(codec, prefix);
      assert RoleLists(codec, configmaps) == roleLists + [SourceRoles(codec, last)];
      assert UserLists(codec, configmaps) == userLists + [SourceUsers(codec, last)];
      assert (roleLists + [SourceRoles(codec, last)])[..n - 1] == roleLists;
      assert (userLists + [SourceUsers(codec, last)])[..n - 1] == userLists;
      assert Names(configmaps) == Names(prefix) + [last.name];
      CrossListDisjointSnoc(roleLists, SourceRoles(codec, last), RoleArnOf);
      CrossListDisjointSnoc(userLists, SourceUsers(codec, last), UserArnOf);
      SourcesParseSnoc(codec, prefix, last);
      if FoldSources(codec, prefix).Success? {
        MergeSourceSpec(codec, FoldSources(codec, prefix).value, last);
      }
    }
  }

  // Properties of the merged ConfigMap

  /**
   * The merge succeeds exactly when every source parses, no role ARN and no user ARN is declared
   * by two sources, and the three encodings succeed. The sources annotation then encodes every
   * source name in input order, and the data holds the concatenated role and user lists.
   */
  lemma MergedConfigMapSpec(codec: Codec, configmaps: seq<ConfigMap>, timestamp: string)
    ensures MergedConfigMap(codec, configmaps, timestamp).Success? <==>
              && SourcesParse(codec, configmaps)
              && CrossListDisjoint(RoleLists(codec, configmaps), RoleArnOf)
              && CrossListDisjoint(UserLists(codec, configmaps), UserArnOf)
              && codec.encodeSources(Names(configmaps)).Success?
              && codec.encodeRoles(Flatten(RoleLists(codec, configmaps))).Success?
              && codec.encodeUsers(Flatten(UserLists(codec, configmaps))).Success?
    ensures MergedConfigMap(codec, configmaps, timestamp).Success? ==>
              var merged := MergedConfigMap(codec, configmaps, timestamp).value;
              && merged.annotations[SourcesAnnotationKey] == codec.encodeSources(Names(configmaps)).value
              && merged.data[MapRolesKey] == codec.encodeRoles(Flatten(RoleLists(codec, configmaps))).value
              && merged.data[MapUsersKey] == codec.encodeUsers(Flatten(UserLists(codec, configmaps))).value
  {
    FoldSourcesSpec(codec, configmaps);
  }

  /** Two sources that declare the same role ARN make the whole merge fail. */
  lemma CrossSourceRoleConflictAborts(codec: Codec, configmaps: seq<ConfigMap>, timestamp: string, i: nat, j: nat, x: string)
    requires i < j < |configmaps|
    requires x in Arns(SourceRoles(codec, configmaps[i]), RoleArnOf)
    requires x in Arns(SourceRoles(codec, configmaps[j]), RoleArnOf)
    ensures MergedConfigMap(codec, configmaps, timestamp).Failure?
  {
    MergedConfigMapSpec(codec, configmaps, timestamp);
    assert RoleLists(codec, configmaps)[i] == SourceRoles(codec, configmaps[i]);
    assert RoleLists(codec, configmaps)[j] == SourceRoles(codec, configmaps[j]);
  }

  /** Two sources that declare the same user ARN make the whole merge fail. */
  lemma CrossSourceUserConflictAborts(codec: Codec, configmaps: seq<ConfigMap>, timestamp: string, i: nat, j: nat, x: string)
    requires i < j < |configmaps|
    requires x in Arns(SourceUsers(codec, configmaps[i]), UserArnOf)
    requires x in Arns(SourceUsers(codec, configmaps[j]), UserArnOf)
    ensures MergedConfigMap(codec, configmaps, timestamp).Failure?
  {
    MergedConfigMapSpec(codec, configmaps, timestamp);
    assert UserLists(codec, configmaps)[i] == SourceUsers(codec, configmaps[i]);
    assert UserLists(codec, configmaps)[j] == SourceUsers(codec, configmaps[j]);
  }

  /**
   * The error of the first source that fails (to parse, or by a conflict with the sources
   * before it) is the error of the whole merge.
   */
  lemma FirstFailingSourceDecides(codec: Codec, configmaps: seq<ConfigMap>, timestamp: string, i: nat)
    requires i < |configmaps|
    requires FoldSources(codec, configmaps[..i]).Success?
    requires MergeSource(codec, FoldSources(codec, configmaps[..i]).value, configmaps[i]).Failure?
    ensures MergedConfigMap(codec, configmaps, timestamp)
         == Failure(MergeSource(codec, FoldSources(codec, configmaps[..i]).value, configmaps[i]).error)
  {
    assert configmaps[..i + 1][..i] == configmaps[..i];
    FoldFailurePersists(codec, configmaps, i + 1);
  }

  /**
   * A present `mapRoles` value that does not parse, in the first source that fails, makes the
   * merge return an invalid-mapping-list error naming the role kind and that source's name.
   */
  lemma InvalidRolesAbortMerge(codec: Codec, configmaps: seq<ConfigMap>, timestamp: string, i: nat)
    requires i < |configmaps|
    requires FoldSources(codec, configmaps[..i]).Success?
    requires MapRolesKey in configmaps[i].data
    requires codec.parseRoles(configmaps[i].data[MapRolesKey]).Failure?
    ensures MergedConfigMap(codec, configmaps, timestamp) == Failure(InvalidMappingList(InvalidMappingListErr(
              RoleMappingType, configmaps[i].name, codec.parseRoles(configmaps[i].data[MapRolesKey]).error)))
  {
    FirstFailingSourceDecides(codec, configmaps, timestamp, i);
  }

  /**
   * The same for `mapUsers`: roles are read and merged first, so this is the error when the
   * source's roles are fine and its users do not parse.
   */
  lemma InvalidUsersAbortMerge(codec: Codec, configmaps: seq<ConfigMap>, timestamp: string, i: nat)
    requires i < |configmaps|
    requires FoldSources(codec, configmaps[..i]).Success?
    requires GetRoleMappingFromConfigMap(codec, configmaps[i]).Success?
    requires MergedLists(RoleMappingType, FoldSources(codec, configmaps[..i]).value.roles,
                         SourceRoles(codec, configmaps[i]), RoleArnOf).Success?
    requires MapUsersKey in configmaps[i].data
    requires codec.parseUsers(configmaps[i].data[MapUsersKey]).Failure?
    ensures MergedConfigMap(codec, configmaps, timestamp) == Failure(InvalidMappingList(InvalidMappingListErr(
              UserMappingType, configmaps[i].name, codec.parseUsers(configmaps[i].data[MapUsersKey]).error)))
  {
    FirstFailingSourceDecides(codec, configmaps, timestamp, i);
  }

  /** Two merges of the same sources differ only in the timestamp annotation. */
  lemma MergeDeterministicButForTimestamp(codec: Codec, configmaps: seq<ConfigMap>, t1: string, t2: string)
    ensures MergedConfigMap(codec, configmaps, t1).Success? <==> MergedConfigMap(codec, configmaps, t2).Success?
    ensures MergedConfigMap(codec, configmaps, t1).Success? ==>
              var m1 := MergedConfigMap(codec, configmaps, t1).value;
              MergedConfigMap(codec, configmaps, t2).value
                == m1.(annotations := m1.annotations[MergedTimestampAnnotationKey := t2])
  {
  }

  /**
   * Three sources, each with both keys: one role and an empty user list, an empty role list and
   * one user, two of each. The merge holds the three names in order, the three roles and the
   * three users.
   */
  lemma ThreeSourcesScenario(
    codec: Codec, s1: ConfigMap, s2: ConfigMap, s3: ConfigMap,
    roleA: RoleMapping, roleB: RoleMapping, roleC: RoleMapping,
    userA: UserMapping, userB: UserMapping, userC: UserMapping)
    requires s1.data.Keys == {MapRolesKey, MapUsersKey} && codec.parseRoles(s1.data[MapRolesKey]) == Success([roleA])
    requires codec.parseUsers(s1.data[MapUsersKey]) == Success([])
    requires s2.data.Keys == {MapRolesKey, MapUsersKey} && codec.parseUsers(s2.data[MapUsersKey]) == Success([userA])
    requires codec.parseRoles(s2.data[MapRolesKey]) == Success([])
    requires s3.data.Keys == {MapRolesKey, MapUsersKey}
    requires codec.parseRoles(s3.data[MapRolesKey]) == Success([roleB, roleC])
    requires codec.parseUsers(s3.data[MapUsersKey]) == Success([userB, userC])
    requires roleA.roleArn != roleB.roleArn && roleA.roleArn != roleC.roleArn
    requires userA.userArn != userB.userArn && userA.userArn != userC.userArn
    ensures FoldSources(codec, [s1, s2, s3])
         == Success(Accumulated([s1.name, s2.name, s3.name], [roleA, roleB, roleC], [userA, userB, userC]))
  {
    ThreeSourcesFirstStep(codec, s1, roleA);
    ThreeSourcesSecondStep(codec, s1, s2, roleA, userA);
    var acc2 := Accumulated([s1.name, s2.name], [roleA], [userA]);
    ThreeSourcesLastStep(codec, s1, s2, s3, acc2, roleA, roleB, roleC, userA, userB, userC);
  }

  lemma ThreeSourcesFirstStep(codec: Codec, s1: ConfigMap, roleA: RoleMapping)
    requires s1.data.Keys == {MapRolesKey, MapUsersKey} && codec.parseRoles(s1.data[MapRolesKey]) == Success([roleA])
    requires codec.parseUsers(s1.data[MapUsersKey]) == Success([])
    ensures FoldSources(codec, [s1]) == Success(Accumulated([s1.name], [roleA], []))
  {
    var noRoles: seq<RoleMapping>, noUsers: seq<UserMapping> := [], [];
    var none: seq<ConfigMap>, noNames: seq<string> := [], [];
    assert Arns(noRoles, RoleArnOf) == {} && Arns(noUsers, UserArnOf) == {};
    assert FoldSources(codec, none) == Success(Accumulated(noNames, noRoles, noUsers));
    assert SourceRoles(codec, s1) == [roleA] && SourceUsers(codec, s1) == noUsers;
    FoldStep(codec, none, s1, Accumulated(noNames, noRoles, noUsers));
    assert none + [s1] == [s1] && noNames + [s1.name] == [s1.name];
    assert noRoles + [roleA] == [roleA] && noUsers + noUsers == noUsers;
  }

  lemma ThreeSourcesSecondStep(codec: Codec, s1: ConfigMap, s2: ConfigMap, roleA: RoleMapping, userA: UserMapping)
    requires FoldSources(codec, [s1]) == Success(Accumulated([s1.name], [roleA], []))
    requires s2.data.Keys == {MapRolesKey, MapUsersKey} && codec.parseUsers(s2.data[MapUsersKey]) == Success([userA])
    requires codec.parseRoles(s2.data[MapRolesKey]) == Success([])
    ensures FoldSources(codec, [s1, s2]) == Success(Accumulated([s1.name, s2.name], [roleA], [userA]))
  {
    var noRoles: seq<RoleMapping>, noUsers: seq<UserMapping> := [], [];
    assert Arns(noRoles, RoleArnOf) == {} && Arns(noUsers, UserArnOf) == {};
    var acc1 := Accumulated([s1.name], [roleA], noUsers);
    assert SourceRoles(codec, s2) == noRoles && SourceUsers(codec, s2) == [userA];
    FoldStep(codec, [s1], s2, acc1);
    assert [s1] + [s2] == [s1, s2];
    assert [roleA] + noRoles == [roleA] && noUsers + [userA] == [userA];
    assert [s1.name] + [s2.name] == [s1.name, s2.name];
  }

  lemma ThreeSourcesLastStep(
    codec: Codec, s1: ConfigMap, s2: ConfigMap, s3: ConfigMap, acc2: Accumulated,
    roleA: RoleMapping, roleB: RoleMapping, roleC: RoleMapping,
    userA: UserMapping, userB: UserMapping, userC: UserMapping)
    requires FoldSources(codec, [s1, s2]) == Success(acc2)
    requires acc2 == Accumulated([s1.name, s2.name], [roleA], [userA])
    requires s3.data.Keys == {MapRolesKey, MapUsersKey}
    requires codec.parseRoles(s3.data[MapRolesKey]) == Success([roleB, roleC])
    requires codec.parseUsers(s3.data[MapUsersKey]) == Success([userB, userC])
    requires roleA.roleArn != roleB.roleArn && roleA.roleArn != roleC.roleArn
    requires userA.userArn != userB.userArn && userA.userArn != userC.userArn
    ensures FoldSources(codec, [s1, s2, s3])
         == Success(Accumulated([s1.name, s2.name, s3.name], [roleA, roleB, roleC], [userA, userB, userC]))
  {
    ArnsSingleton(roleA, RoleArnOf);
    ArnsSingleton(roleB, RoleArnOf);
    ArnsSingleton(roleC, RoleArnOf);
    ArnsConcat([roleB], [roleC], RoleArnOf);
    assert [roleB] + [roleC] == [roleB, roleC];
    ArnsSingleton(userA, UserArnOf);
    ArnsSingleton(userB, UserArnOf);
    ArnsSingleton(userC, UserArnOf);
    ArnsConcat([userB], [userC], UserArnOf);
    assert [userB] + [userC] == [userB, userC];
    FoldStep(codec, [s1, s2], s3, acc2);
    assert [s1, s2] + [s3] == [s1, s2, s3];
    assert [s1.name, s2.name] + [s3.name] == [s1.name, s2.name, s3.name];
    assert [roleA] + [roleB, roleC] == [roleA, roleB, roleC];
    assert [userA] + [userB, userC] == [userA, userB, userC];
  }

  /** Folding one more source whose lists parse and share no ARN with what came before. */
  lemma FoldStep(codec: Codec, prefix: seq<ConfigMap>, configmap: ConfigMap, acc: Accumulated)
    requires FoldSources(codec, prefix) == Success(acc)
    requires GetRoleMappingFromConfigMap(codec, configmap).Success?
    requires GetUserMappingFromConfigMap(codec, configmap).Success?
    requires Arns(acc.roles, RoleArnOf) !! Arns(SourceRoles(codec, configmap), RoleArnOf)
    requires Arns(acc.users, UserArnOf) !! Arns(SourceUsers(codec, configmap), UserArnOf)
    ensures FoldSources(codec, prefix + [configmap]) == Success(Accumulated(
              acc.sources + [configmap.name],
              acc.roles + SourceRoles(codec, configmap),
              acc.users + SourceUsers(codec, configmap)))
  {
    assert (prefix + [configmap])[..|prefix|] == prefix;
    MergeSourceSpec(codec, acc, configmap);
  }

  /**
   * Two sources both declaring role ARN `x` (with whatever principals) make the merge fail with
   * a conflict naming the role kind and `x`.
   */
  lemma ConflictingRoleScenario(codec: Codec, s1: ConfigMap, s2: ConfigMap, r1: RoleMapping, r2: RoleMapping, timestamp: string)
    requires s1.data.Keys == {MapRolesKey} && codec.parseRoles(s1.data[MapRolesKey]) == Success([r1])
    requires s2.data.Keys == {MapRolesKey} && codec.parseRoles(s2.data[MapRolesKey]) == Success([r2])
    requires r1.roleArn == r2.roleArn
    ensures MergedConfigMap(codec, [s1, s2], timestamp)
         == Failure(Conflict(MappingConflictErr(RoleMappingType, r2.roleArn)))
  {
    assert [s1, s2][..1] == [s1];
    assert [s1][..0] == [];
    var noRoles: seq<RoleMapping>, noUsers: seq<UserMapping> := [], [];
    assert Arns(noRoles, RoleArnOf) == {} && Arns(noUsers, UserArnOf) == {};
    var acc0 := Accumulated([], noRoles, noUsers);
    assert FoldSources(codec, []) == Success(acc0);
    assert SourceRoles(codec, s1) == [r1] && SourceUsers(codec, s1) == noUsers;
    MergeSourceSpec(codec, acc0, s1);
    var acc1 := Accumulated([s1.name], [r1], noUsers);
    assert acc0.sources + [s1.name] == [s1.name] && noRoles + [r1] == [r1] && noUsers + noUsers == noUsers;
    assert FoldSources(codec, [s1]) == Success(acc1);
    ArnsSingleton(r1, RoleArnOf);
    assert FirstCollision(Arns([r1], RoleArnOf), [r2], RoleArnOf) == Some(0);
  }
}
