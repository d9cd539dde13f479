/**
 * The merger's conversations with the API server (aws_auth_merger.go): fetch the main
 * aws-auth ConfigMap, list the source ConfigMaps page by page, migrate a hand-managed main
 * ConfigMap into a source, upsert the merged result, and the sync that chains list, merge and
 * upsert. The server is a `KubeApi.Cluster`; the clock is the `timestamp` parameter and the
 * server's random name suffix the `suffix` parameter.
 */
module AwsAuthSync {
  import opened Wrappers
  import opened KubeApi
  import opened AwsAuthMerger

  /** The merger's settings as the command line gives them. The label selector is applied by the server. */
  datatype MergerConfig = MergerConfig(
    namespace: string,
    labelSelector: string,
    autoCreateLabels: map<string, string>)

  /** Where EKS reads the main aws-auth ConfigMap from. */
  const MainKey := ObjectKey(MainAwsAuthConfigMapNamespace, MainAwsAuthConfigMapName)

  /** Why a sync stopped. */
  datatype SyncError =
    | MigrateFailed(migrateError: ApiError)
    | ListFailed(listError: ApiError)
    | MergeFailed(mergeError: MergeError)
    | UpsertFailed(upsertError: ApiError)

  /**
   * The source ConfigMap that preserves a hand-managed main ConfigMap: a server-generated name
   * starting with "preexisting-aws-auth" in the merger's namespace, the auto-create labels, the
   * auto-created annotation and the main ConfigMap's data.
   */
  function MigratedCopy(config: MergerConfig, main: ConfigMap): (cm: ConfigMap)
    ensures cm.name == "" && cm.generateName == PreExistingConfigMapCreateName
    ensures cm.namespace == config.namespace && cm.labels == config.autoCreateLabels
    ensures cm.annotations == map[AutoCreateAnnotationKey := "true"] && cm.data == main.data
  {
    ConfigMap("", PreExistingConfigMapCreateName, config.namespace, config.autoCreateLabels,
              map[AutoCreateAnnotationKey := "true"], main.data)
  }

  /** getMainAwsAuthConfigMap: a missing main ConfigMap is no error, any other failure is. */
  method GetMainAwsAuthConfigMap(cluster: Cluster) returns (r: Result<Option<ConfigMap>, ApiError>)
    ensures GetVerb in cluster.faults ==> r == Failure(Transport(GetVerb))
    ensures GetVerb !in cluster.faults ==>
              r == Success(if MainKey in cluster.configMaps then Some(cluster.configMaps[MainKey]) else None)
  {
    var res := cluster.Get(MainAwsAuthConfigMapNamespace, MainAwsAuthConfigMapName);
    if res.Failure? && res.error == NotFound {
      return Success(None);
    } else if res.Failure? {
      return Failure(res.error);
    }
    return Success(Some(res.value));
  }

  /** Each page's token leads to the next page. */
  lemma NextPage(pages: seq<ConfigMapList>, k: nat)
    requires PagesWellFormed(pages)
    requires k < |pages| - 1
    ensures pages[k].continueToken != ""
    ensures PageAfter(pages, pages[k].continueToken) == Some(k + 1)
  {
    assert forall j :: 0 <= j < |pages| && j != k ==> pages[j].continueToken != pages[k].continueToken;
  }

  /**
   * listAwsAuthConfigMaps: ask for the first page, then follow continue tokens until one is
   * empty, collecting the items of every page in page order; any failed page fails the list.
   */
  method ListAwsAuthConfigMaps(cluster: Cluster) returns (r: Result<seq<ConfigMap>, ApiError>)
    requires cluster.Valid()
    ensures ListVerb in cluster.faults ==> r == Failure(Transport(ListVerb))
    ensures ListVerb !in cluster.faults ==> r == Success(AllItems(cluster.pages))
  {
    var res := cluster.List("");
    if res.Failure? {
      return Failure(res.error);
    }
    var configmapList := res.value;
    var allConfigMaps := configmapList.items;
    ghost var k: nat := 0;
    assert cluster.pages[..1][..0] == [];
    while configmapList.continueToken != ""
      invariant k < |cluster.pages| && configmapList == cluster.pages[k]
      invariant allConfigMaps == AllItems(cluster.pages[..k + 1])
      invariant ListVerb !in cluster.faults
      decreases |cluster.pages| - k
    {
      NextPage(cluster.pages, k);
      res := cluster.List(configmapList.continueToken);
      configmapList := res.value;
      assert cluster.pages[..k + 2][..k + 1] == cluster.pages[..k + 1];
      allConfigMaps := allConfigMaps + configmapList.items;
      k := k + 1;
    }
    assert k == |cluster.pages| - 1;
    assert cluster.pages[..k + 1] == cluster.pages;
    return Success(allConfigMaps);
  }

  /**
   * migratePreExistingConfigMap: when the main ConfigMap exists and the merger does not manage
   * it, copy its data into a freshly named source ConfigMap in the merger's namespace, so that
   * the first sync keeps its mappings. Returns the copy that was created, or None.
   */
  method MigratePreExistingConfigMap(cluster: Cluster, config: MergerConfig, suffix: string)
    returns (r: Result<Option<ConfigMap>, ApiError>)
    requires cluster.Valid()
    modifies cluster
    ensures cluster.Valid() && cluster.faults == old(cluster.faults)
    ensures GetVerb in cluster.faults ==> r == Failure(Transport(GetVerb))
    ensures GetVerb !in cluster.faults &&
            (MainKey !in old(cluster.configMaps) || IsManagedByMerger(old(cluster.configMaps)[MainKey])) ==>
              r == Success(None)
    ensures GetVerb !in cluster.faults && MainKey in old(cluster.configMaps)
            && !IsManagedByMerger(old(cluster.configMaps)[MainKey]) ==>
              var created := MigratedCopy(config, old(cluster.configMaps)[MainKey])
                               .(name := PreExistingConfigMapCreateName + suffix);
              && (CreateVerb in cluster.faults ==> r == Failure(Transport(CreateVerb)))
              && (CreateVerb !in cluster.faults ==>
                    if KeyOf(created) in old(cluster.configMaps) then r == Failure(AlreadyExists)
                    else r == Success(Some(created)))
    ensures r.Success? && r.value.Some? ==>
              && KeyOf(r.value.value) !in old(cluster.configMaps)
              && cluster.configMaps == old(cluster.configMaps)[KeyOf(r.value.value) := r.value.value]
              && cluster.pages == PagesAfterWrite(old(cluster.pages), r.value.value, cluster.selects(r.value.value))
    ensures !(r.Success? && r.value.Some?) ==>
              cluster.configMaps == old(cluster.configMaps) && cluster.pages == old(cluster.pages)
  {
    var mainConfigMap := GetMainAwsAuthConfigMap(cluster);
    if mainConfigMap.Failure? {
      return Failure(mainConfigMap.error);
    }
    if mainConfigMap.value.None? {
      return Success(None);
    }
    var main := mainConfigMap.value.value;
    if IsManagedByMerger(main) {
      return Success(None);
    }
    var newConfigMap := MigratedCopy(config, main);
    var createdConfigMap := cluster.Create(newConfigMap, suffix);
    if createdConfigMap.Failure? {
      return Failure(createdConfigMap.error);
    }
    return Success(Some(createdConfigMap.value));
  }

  /**
   * upsertConfigMap: get the object; if it is missing create it (true), if it exists replace it
   * (false). Any other get failure, and a failed create or update, writes nothing.
   */
  method UpsertConfigMap(cluster: Cluster, configmap: ConfigMap) returns (r: Result<bool, ApiError>)
    requires cluster.Valid()
    modifies cluster
    ensures cluster.Valid() && cluster.faults == old(cluster.faults)
    ensures configmap.name == "" ==> r == Failure(Invalid)
    ensures configmap.name != "" && GetVerb in cluster.faults ==> r == Failure(Transport(GetVerb))
    ensures configmap.name != "" && GetVerb !in cluster.faults ==>
              if KeyOf(configmap) in old(cluster.configMaps)
              then r == (if UpdateVerb in cluster.faults then Failure(Transport(UpdateVerb)) else Success(false))
              else r == (if CreateVerb in cluster.faults then Failure(Transport(CreateVerb)) else Success(true))
    ensures r.Success? ==>
              && cluster.configMaps == old(cluster.configMaps)[KeyOf(configmap) := configmap]
              && cluster.pages == PagesAfterWrite(old(cluster.pages), configmap, cluster.selects(configmap))
              && (r.value <==> KeyOf(configmap) !in old(cluster.configMaps))
    ensures r.Failure? ==> cluster.configMaps == old(cluster.configMaps) && cluster.pages == old(cluster.pages)
  {
    var existing: Option<ConfigMap>;
    var result := cluster.Get(configmap.namespace, configmap.name);
    if result.Failure? && result.error != NotFound {
      return Failure(result.error);
    } else if result.Success? {
      existing := Some(result.value);
    } else {
      existing := None;
    }

    if existing.None? {
      var created := cluster.Create(configmap, "");
      if created.Failure? {
        return Failure(created.error);
      }
      return Success(true);
    }

    var updated := cluster.Update(configmap);
    if updated.Failure? {
      return Failure(updated.error);
    }
    return Success(false);
  }

  /**
   * syncAwsAuthConfigMaps: list the sources, merge them, and upsert the merged ConfigMap as
   * `kube-system/aws-auth`. A list or merge failure leaves the store as it was; on success the
   * main ConfigMap is exactly the merge of the listed sources.
   */
  method SyncAwsAuthConfigMaps(cluster: Cluster, codec: Codec, timestamp: string) returns (r: Outcome<SyncError>)
    requires cluster.Valid()
    modifies cluster
    ensures cluster.Valid() && cluster.faults == old(cluster.faults)
    ensures ListVerb in cluster.faults ==> r == Fail(ListFailed(Transport(ListVerb)))
    ensures ListVerb !in cluster.faults && MergedConfigMap(codec, AllItems(old(cluster.pages)), timestamp).Failure? ==>
              r == Fail(MergeFailed(MergedConfigMap(codec, AllItems(old(cluster.pages)), timestamp).error))
    ensures ListVerb !in cluster.faults && MergedConfigMap(codec, AllItems(old(cluster.pages)), timestamp).Success? ==>
              (r.Pass? <==> GetVerb !in cluster.faults &&
                            (if MainKey in old(cluster.configMaps) then UpdateVerb !in cluster.faults
                             else CreateVerb !in cluster.faults))
    ensures r.Pass? ==>
              var merged := MergedConfigMap(codec, AllItems(old(cluster.pages)), timestamp);
              && merged.Success?
              && cluster.configMaps == old(cluster.configMaps)[MainKey := merged.value]
              && cluster.pages == PagesAfterWrite(old(cluster.pages), merged.value, cluster.selects(merged.value))
              && IsManagedByMerger(cluster.configMaps[MainKey])
    ensures r.Fail? ==> cluster.configMaps == old(cluster.configMaps) && cluster.pages == old(cluster.pages)
    ensures r.Fail? ==> !r.error.MigrateFailed?
  {
    var configmaps := ListAwsAuthConfigMaps(cluster);
    if configmaps.Failure? {
      return Fail(ListFailed(configmaps.error));
    }
    var merged := MergeAwsAuthConfigMaps(codec, configmaps.value, timestamp);
    if merged.Failure? {
      return Fail(MergeFailed(merged.error));
    }
    assert KeyOf(merged.value) == MainKey;
    var created := UpsertConfigMap(cluster, merged.value);
    if created.Failure? {
      return Fail(UpsertFailed(created.error));
    }
    return Pass;
  }

  /** The sources the first sync of a start lists: the listed ones, then a selected migrated copy. */
  function SourcesAfterMigration(listed: seq<ConfigMap>, migrated: Option<ConfigMap>, selects: ConfigMap -> bool)
    : seq<ConfigMap>
  {
    if migrated.Some? && selects(migrated.value) then listed + [migrated.value] else listed
  }

  /** The store after the migration step of a start. */
  function StoreAfterMigration(configMaps: map<ObjectKey, ConfigMap>, migrated: Option<ConfigMap>)
    : map<ObjectKey, ConfigMap>
  {
    if migrated.Some? then configMaps[KeyOf(migrated.value) := migrated.value] else configMaps
  }

  /** The list answer after the migration step of a start. */
  function PagesAfterMigration(pages: seq<ConfigMapList>, migrated: Option<ConfigMap>, selects: ConfigMap -> bool)
    : seq<ConfigMapList>
  {
    if migrated.Some? then PagesAfterWrite(pages, migrated.value, selects(migrated.value)) else pages
  }

  /**
   * When the migration step of a start fails: the get of the main ConfigMap fails, or a
   * hand-managed main ConfigMap exists and its copy cannot be created (a failing create, or a
   * generated name that is taken).
   */
  ghost predicate MigrationFails(configMaps: map<ObjectKey, ConfigMap>, faults: set<Verb>, config: MergerConfig, suffix: string) {
    || GetVerb in faults
    || (&& MainKey in configMaps
        && !IsManagedByMerger(configMaps[MainKey])
        && (|| CreateVerb in faults
            || KeyOf(MigratedCopy(config, configMaps[MainKey]).(name := PreExistingConfigMapCreateName + suffix)) in configMaps))
  }

  /**
   * The sequential start of the event loop: migrate a hand-managed main ConfigMap, then sync.
   * The sync lists the sources, now with the copy when the merger's list query selects it, and
   * writes their merge as the main ConfigMap. After a successful start the main ConfigMap
   * carries the managed-by label, so a restarted merger finds nothing to migrate and the
   * hand-managed data is copied at most once.
   */
  method Start(cluster: Cluster, config: MergerConfig, codec: Codec, suffix: string, timestamp: string)
    returns (r: Outcome<SyncError>, migrated: Option<ConfigMap>)
    requires cluster.Valid()
    modifies cluster
    ensures cluster.Valid() && cluster.faults == old(cluster.faults)
    ensures migrated.Some? ==>
              && MainKey in old(cluster.configMaps) && !IsManagedByMerger(old(cluster.configMaps)[MainKey])
              && migrated.value == MigratedCopy(config, old(cluster.configMaps)[MainKey])
                                     .(name := PreExistingConfigMapCreateName + suffix)
              && KeyOf(migrated.value) !in old(cluster.configMaps)
    ensures (r.Fail? && r.error.MigrateFailed?) <==>
              MigrationFails(old(cluster.configMaps), cluster.faults, config, suffix)
    ensures r.Fail? && r.error.MigrateFailed? ==>
              migrated.None? && cluster.configMaps == old(cluster.configMaps) && cluster.pages == old(cluster.pages)
    ensures !(r.Fail? && r.error.MigrateFailed?) ==>
              (migrated.Some? <==> MainKey in old(cluster.configMaps) && !IsManagedByMerger(old(cluster.configMaps)[MainKey]))
    ensures !(r.Fail? && r.error.MigrateFailed?) ==>
              var sources := SourcesAfterMigration(AllItems(old(cluster.pages)), migrated, cluster.selects);
              (r.Pass? <==> && ListVerb !in cluster.faults
                            && MergedConfigMap(codec, sources, timestamp).Success?
                            && (if MainKey in old(cluster.configMaps) then UpdateVerb !in cluster.faults
                                else CreateVerb !in cluster.faults))
    ensures r.Pass? ==>
              var sources := SourcesAfterMigration(AllItems(old(cluster.pages)), migrated, cluster.selects);
              var merged := MergedConfigMap(codec, sources, timestamp);
              && merged.Success?
              && cluster.configMaps == StoreAfterMigration(old(cluster.configMaps), migrated)[MainKey := merged.value]
              && cluster.pages
                 == PagesAfterWrite(PagesAfterMigration(old(cluster.pages), migrated, cluster.selects),
                                    merged.value, cluster.selects(merged.value))
              && IsManagedByMerger(cluster.configMaps[MainKey])
    ensures r.Fail? && !r.error.MigrateFailed? ==>
              && cluster.configMaps == StoreAfterMigration(old(cluster.configMaps), migrated)
              && cluster.pages == PagesAfterMigration(old(cluster.pages), migrated, cluster.selects)
  {
    migrated := None;
    ghost var store0, pages0 := cluster.configMaps, cluster.pages;
    var m := MigratePreExistingConfigMap(cluster, config, suffix);
    if m.Failure? {
      return Fail(MigrateFailed(m.error)), None;
    }
    migrated := m.value;
    ghost var store1 := StoreAfterMigration(store0, migrated);
    ghost var sources := SourcesAfterMigration(AllItems(pages0), migrated, cluster.selects);
    if migrated.Some? {
      FreshWriteAppends(pages0, store0, cluster.selects, migrated.value);
      // A generated "preexisting-aws-auth..." name is longer than "aws-auth", so the sync below,
      // which writes only the main key, keeps the copy.
      assert |migrated.value.name| >= |PreExistingConfigMapCreateName| > |MainAwsAuthConfigMapName|;
      assert KeyOf(migrated.value) != MainKey;
    }
    assert cluster.configMaps == store1;
    assert cluster.pages == PagesAfterMigration(pages0, migrated, cluster.selects);
    assert AllItems(cluster.pages) == sources;
    assert GetVerb !in cluster.faults;
    assert MainKey in store1 <==> MainKey in store0;
    r := SyncAwsAuthConfigMaps(cluster, codec, timestamp);
  }

  /**
   * The hand-managed mappings reach the merged ConfigMap: when the migrated copy of `main` is
   * merged after the other sources, the merged role and user data encode the other sources'
   * lists followed by exactly the lists `main` held, and the sources annotation ends with the
   * copy's name.
   */
  lemma MigratedMappingsReachMerge(codec: Codec, config: MergerConfig, main: ConfigMap, suffix: string,
                                   listed: seq<ConfigMap>, timestamp: string)
    requires MergedConfigMap(codec, listed + [MigratedCopy(config, main).(name := PreExistingConfigMapCreateName + suffix)],
                             timestamp).Success?
    ensures GetRoleMappingFromConfigMap(codec, main).Success? && GetUserMappingFromConfigMap(codec, main).Success?
    ensures var copy := MigratedCopy(config, main).(name := PreExistingConfigMapCreateName + suffix);
            var merged := MergedConfigMap(codec, listed + [copy], timestamp).value;
            && codec.encodeRoles(Flatten(RoleLists(codec, listed)) + GetRoleMappingFromConfigMap(codec, main).value)
               == Success(merged.data[MapRolesKey])
            && codec.encodeUsers(Flatten(UserLists(codec, listed)) + GetUserMappingFromConfigMap(codec, main).value)
               == Success(merged.data[MapUsersKey])
            && codec.encodeSources(Names(listed) + [copy.name]) == Success(merged.annotations[SourcesAnnotationKey])
  {
    var copy := MigratedCopy(config, main).(name := PreExistingConfigMapCreateName + suffix);
    var all := listed + [copy];
    MergedConfigMapSpec(codec, all, timestamp);
    assert all[|listed|] == copy;
    assert copy.data == main.data;
    CopyContributes(codec, listed, copy);
  }

  /** A source merged last contributes its role list and user list at the end, and its name last. */
  lemma CopyContributes(codec: Codec, listed: seq<ConfigMap>, copy: ConfigMap)
    ensures Flatten(RoleLists(codec, listed + [copy])) == Flatten(RoleLists(codec, listed)) + SourceRoles(codec, copy)
    ensures Flatten(UserLists(codec, listed + [copy])) == Flatten(UserLists(codec, listed)) + SourceUsers(codec, copy)
    ensures Names(listed + [copy]) == Names(listed) + [copy.name]
  {
    var all := listed + [copy];
    var roles, users := RoleLists(codec, all), UserLists(codec, all);
    assert roles[..|listed|] == RoleLists(codec, listed);
    assert users[..|listed|] == UserLists(codec, listed);
  }
}
