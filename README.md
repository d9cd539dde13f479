# aws-auth merger, modelled in Dafny

The aws-auth merger keeps the EKS `kube-system/aws-auth` ConfigMap in step with many small
"source" ConfigMaps that live in one namespace. Each source may hold a YAML list of IAM-role
mappings under `mapRoles` and a list of IAM-user mappings under `mapUsers`. The merger lists the
sources, concatenates their lists in order, and refuses the whole merge when two sources declare
the same ARN. It then writes the result as the main ConfigMap, labelled
`gruntwork.io/managed-by=aws-auth-merger`. At start-up it copies a hand-managed main ConfigMap
into a new source called `preexisting-aws-auth…`, so that those mappings survive the first sync.
Syncs are debounced: a burst of change notifications leads to one sync.

The project has these modules:

- `Wrappers` (`wrappers.dfy`): `Option`, `Result` and `Outcome`. They replace Go's `(value, err)` pairs.
- `Mapping` (`mapping.dfy`): role and user mappings and the two list merges. Both merges are
  methods with the source's `seen`-map loops. Each is proved equal to one reference definition,
  `MergedLists`, and the lemmas state what that definition means.
- `KubeApi` (`kube_api.dfy`): the API server as the merger sees it. It is a `Cluster` object
  with a store keyed by (namespace, name), the merger's list query, the paged answer to that
  query, and the set of verbs that currently fail. Its invariant keeps the list answer equal to
  the stored objects the query selects. `Get` returns the stored object, NotFound or a
  transport error, and refuses an empty name. `List` follows continue tokens through the pages.
  `Create` and `Update` write the store, and the list answer follows every write.
- `AwsAuthMerger` (`aws_auth_merger.dfy`): the source reader, the managed-by predicate and the
  merge. The merge is a method with the source's loop. It is proved equal to a left fold,
  `FoldSources`. The fold is characterised without reference to itself: it succeeds exactly when
  every source parses and no ARN appears in two sources, and it then yields the concatenated lists.
- `AwsAuthSync` (`aws_auth_sync.dfy`): the store protocols, which run against a `Cluster`:
  - get the main ConfigMap;
  - list the sources with pagination;
  - migrate a hand-managed main ConfigMap;
  - upsert;
  - sync;
  - the sequential start of the event loop.
- `Cli` (`cli.dfy`): the `key=value` parser for `--autocreate-labels`. It follows Go's
  `strings.Split` and `strings.Join` and is proved against a direct definition of the key (the
  text before the first `=`) and the value (the text after it).
- `Debouncer` (`debouncer.dfy`): the trailing-edge debouncer as a state machine on a discrete
  clock. It has pure step functions with lemmas, plus a `Debouncer` class whose methods are
  proved to perform those steps.

These take the place of things outside the program:

- YAML and JSON are a `Codec` parameter of function fields. A parse or encode failure carries
  the library's message.
- The wall clock of the merged-at annotation is a `timestamp` parameter.
- The server's random `generateName` suffix is a `suffix` parameter.
- The result of the debounced function is a parameter of the step in which the timer fires.

## Model

| member | source | states |
|---|---|---|
| Mapping.FirstCollision | modules/eks-aws-auth-merger/aws-auth-merger/mapping.go:41-44 | the index of the first entry of B whose ARN was already seen, with every earlier entry unseen; None exactly when no entry of B was seen |
| Mapping.MergeRoleMappingLists | modules/eks-aws-auth-merger/aws-auth-merger/mapping.go:31-48 | the role merge with its seen-map loops returns exactly `MergedLists` keyed on the role ARN |
| Mapping.MergeUserMappingLists | modules/eks-aws-auth-merger/aws-auth-merger/mapping.go:52-69 | the user merge returns exactly `MergedLists` keyed on the user ARN |
| Mapping.MergeOutcome | modules/eks-aws-auth-merger/aws-auth-merger/mapping.go:37-47 | success yields A followed by B in order, whose length is the sum of both lengths; failure yields no list and an error with the kind and the ARN of the first colliding B entry in B order |
| Mapping.DuplicatesWithinOneListAreNoConflict | modules/eks-aws-auth-merger/aws-auth-merger/mapping.go:34-40 | an ARN repeated inside A and another repeated inside B do not conflict; the merge keeps all four entries |
| Mapping.MergeEmpty | modules/eks-aws-auth-merger/aws-auth-merger/mapping.go:32-33 | merging two empty lists succeeds with the empty list |
| Mapping.MergeSucceedsIffDisjoint | modules/eks-aws-auth-merger/aws-auth-merger/mapping.go:37-44 | the merge succeeds if and only if the ARN sets of A and B are disjoint |
| Mapping.MergeAssociative | modules/eks-aws-auth-merger/aws-auth-merger/mapping.go:37-47 | when merging A with B and then with C succeeds, merging B with C first and then A with the result succeeds too and gives the same list |
| KubeApi.PageAfter | modules/eks-aws-auth-merger/aws-auth-merger/aws_auth_merger.go:202-205 | the page after the first page that carries the given continue token, or None when no page before the last carries it |
| KubeApi.WriteKeepsListMatch | modules/eks-aws-auth-merger/aws-auth-merger/aws_auth_merger.go:195-205 | after any write the answer to the merger's list query still holds exactly the stored objects the query selects, as stored, on well-formed pages |
| KubeApi.FreshWriteAppends | modules/eks-aws-auth-merger/aws-auth-merger/aws_auth_merger.go:243 | writing an object under a key nothing holds yet adds that object, and only it, to the list answer when the query selects it |
| KubeApi.Cluster.Create | modules/eks-aws-auth-merger/aws-auth-merger/aws_auth_merger.go:243 | the object is stored under its name, or under generateName plus the server's suffix, and the list answer follows the write; a taken name, an empty name or a failing verb stores nothing and leaves the list answer |
| KubeApi.Cluster.Update | modules/eks-aws-auth-merger/aws-auth-merger/aws_auth_merger.go:325 | the stored object is replaced wholesale and the list answer follows the write; a missing object or a failing verb stores nothing and leaves the list answer |
| AwsAuthMerger.GetRoleMappingFromConfigMap | modules/eks-aws-auth-merger/aws-auth-merger/aws_auth_merger.go:410-421 | a missing `mapRoles` key gives the empty list; a value that does not parse gives an invalid-mapping-list error with the role kind, the ConfigMap name and the parser's message |
| AwsAuthMerger.GetUserMappingFromConfigMap | modules/eks-aws-auth-merger/aws-auth-merger/aws_auth_merger.go:425-436 | the same for `mapUsers` and the user kind |
| AwsAuthMerger.ManagedByLabelPair | modules/eks-aws-auth-merger/aws-auth-merger/aws_auth_merger.go:440-444 | a ConfigMap is managed by the merger if and only if its labels hold the pair `gruntwork.io/managed-by` = `aws-auth-merger` |
| AwsAuthMerger.MergeAwsAuthConfigMaps | modules/eks-aws-auth-merger/aws-auth-merger/aws_auth_merger.go:347-406 | the loop returns exactly the fold-based `MergedConfigMap`; on success the result is `kube-system/aws-auth`, carries exactly the managed-by label, the sources and timestamp annotations (the timestamp given), and exactly the data keys `mapRoles` and `mapUsers` |
| AwsAuthMerger.FoldFailurePersists | modules/eks-aws-auth-merger/aws-auth-merger/aws_auth_merger.go:352-372 | once a prefix of the sources fails, the merge of all sources fails with that same error |
| AwsAuthMerger.FoldSourcesSpec | modules/eks-aws-auth-merger/aws-auth-merger/aws_auth_merger.go:348-372 | the fold succeeds if and only if every source parses and no role ARN or user ARN is in two different sources; it then holds every source name in input order and the concatenation of the sources' role lists and of their user lists |
| AwsAuthMerger.MergedConfigMapSpec | modules/eks-aws-auth-merger/aws-auth-merger/aws_auth_merger.go:347-406 | the merge succeeds if and only if the fold succeeds and the three encodings succeed; the sources annotation then encodes all source names in order, and the data encodes the concatenated lists |
| AwsAuthMerger.CrossSourceRoleConflictAborts | modules/eks-aws-auth-merger/aws-auth-merger/aws_auth_merger.go:359-362 | two different sources declaring the same role ARN make the merge fail |
| AwsAuthMerger.CrossSourceUserConflictAborts | modules/eks-aws-auth-merger/aws-auth-merger/aws_auth_merger.go:368-371 | two different sources declaring the same user ARN make the merge fail |
| AwsAuthMerger.FirstFailingSourceDecides | modules/eks-aws-auth-merger/aws-auth-merger/aws_auth_merger.go:352-371 | the error of the first source that fails to parse or conflicts with the sources before it is the error of the whole merge |
| AwsAuthMerger.InvalidRolesAbortMerge | modules/eks-aws-auth-merger/aws-auth-merger/aws_auth_merger.go:355-358 | an unparsable `mapRoles` in the first failing source makes the merge return the invalid-mapping-list error naming the role kind and that source |
| AwsAuthMerger.InvalidUsersAbortMerge | modules/eks-aws-auth-merger/aws-auth-merger/aws_auth_merger.go:364-367 | an unparsable `mapUsers`, after that source's roles merged, makes the merge return the invalid-mapping-list error naming the user kind and that source |
| AwsAuthMerger.MergeDeterministicButForTimestamp | modules/eks-aws-auth-merger/aws-auth-merger/aws_auth_merger.go:388-399 | two merges of the same sources agree on success and differ only in the timestamp annotation |
| AwsAuthMerger.ThreeSourcesScenario | modules/eks-aws-auth-merger/aws-auth-merger/aws_auth_merger_test.go:155-213 | three sources that each hold both keys (one role and an empty user list, an empty role list and one user, two roles and two users) fold to their three names in order, three roles and three users |
| AwsAuthMerger.FoldStep | modules/eks-aws-auth-merger/aws-auth-merger/aws_auth_merger.go:352-371 | one more source that parses and shares no ARN with the sources before it appends its name, roles and users |
| AwsAuthMerger.ConflictingRoleScenario | modules/eks-aws-auth-merger/aws-auth-merger/aws_auth_merger.go:359-362 | two sources with one role each, sharing the ARN, give a role-kind conflict on that ARN |
| AwsAuthSync.MigratedCopy | modules/eks-aws-auth-merger/aws-auth-merger/aws_auth_merger.go:230-242 | the copy has no name, the `preexisting-aws-auth` generate-name, the merger's namespace, the auto-create labels, exactly the created annotation and the main ConfigMap's data |
| AwsAuthSync.GetMainAwsAuthConfigMap | modules/eks-aws-auth-merger/aws-auth-merger/aws_auth_merger.go:181-191 | a missing main ConfigMap gives None, not an error; a get failure is returned; otherwise the stored main ConfigMap |
| AwsAuthSync.NextPage | modules/eks-aws-auth-merger/aws-auth-merger/aws_auth_merger.go:201-205 | every page but the last has a non-empty token, and that token leads to the next page |
| AwsAuthSync.ListAwsAuthConfigMaps | modules/eks-aws-auth-merger/aws-auth-merger/aws_auth_merger.go:194-213 | the pagination loop returns the items of all pages concatenated in page order, or the list error |
| AwsAuthSync.MigratePreExistingConfigMap | modules/eks-aws-auth-merger/aws-auth-merger/aws_auth_merger.go:217-248 | an absent or merger-managed main ConfigMap leads to no copy and no write; otherwise exactly one copy is created under `preexisting-aws-auth` plus the suffix, with the main data, under a key nothing held, and the list answer follows; a failing get or create writes nothing |
| AwsAuthSync.UpsertConfigMap | modules/eks-aws-auth-merger/aws-auth-merger/aws_auth_merger.go:306-329 | a missing object is created (true), an existing one is replaced wholesale (false), and the list answer follows; any other get error and a failed create or update write nothing |
| AwsAuthSync.SyncAwsAuthConfigMaps | modules/eks-aws-auth-merger/aws-auth-merger/aws_auth_merger.go:269-295 | a list or merge failure writes nothing; on success the main ConfigMap is exactly the merge of all sources the list answer held before, managed by the merger, and nothing else in the store changes |
| AwsAuthSync.Start | modules/eks-aws-auth-merger/aws-auth-merger/aws_auth_merger.go:109-123 | the start fails with the migration error exactly when the get fails or a hand-managed main ConfigMap cannot be copied, and then writes nothing; otherwise a copy exists exactly when the main ConfigMap was hand-managed, it is the migrated copy under a fresh key, and the start passes exactly when the list, the merge of the listed sources followed by the selected copy, and the update or create all succeed; after a pass the store is the old store plus the copy with the main ConfigMap set to that merge, and the list answer follows both writes; a failed sync leaves only the copy written |
| AwsAuthSync.MigratedMappingsReachMerge | modules/eks-aws-auth-merger/aws-auth-merger/aws_auth_merger.go:215-216 | when the migrated copy is merged after the other sources, the merged role and user data encode the other sources' lists followed by exactly the lists the hand-managed ConfigMap held, and the sources annotation ends with the copy's name |
| Cli.Split | modules/eks-aws-auth-merger/aws-auth-merger/cli.go:133 | at least one piece, none containing the separator |
| Cli.JoinSplit | modules/eks-aws-auth-merger/aws-auth-merger/cli.go:133-139 | joining the pieces of a split with the separator gives back the text |
| Cli.LabelKey | modules/eks-aws-auth-merger/aws-auth-merger/cli.go:133-134 | the key never contains `=`, and is the whole text when the text has no `=` |
| Cli.LabelValue | modules/eks-aws-auth-merger/aws-auth-merger/cli.go:135-140 | a text without `=` gives the empty value |
| Cli.KeyValueReassemble | modules/eks-aws-auth-merger/aws-auth-merger/cli.go:133-140 | a text with `=` is the key, one `=`, and the value (which keeps any later `=`); without `=` it is the key and the value is empty |
| Cli.KeyValueOfAssembled | modules/eks-aws-auth-merger/aws-auth-merger/cli.go:133-140 | conversely, `key=value` with `=` absent from the key parses to exactly that key and value |
| Cli.SplitGivesKeyValue | modules/eks-aws-auth-merger/aws-auth-merger/cli.go:133-140 | the first piece of the split is the key, and the join of the remaining pieces (or "" for one piece) is the value |
| Cli.ParseLabelsKeyValuePairs | modules/eks-aws-auth-merger/aws-auth-merger/cli.go:130-144 | the loop over Split/Join returns exactly `Labels`, the labels the arguments describe one after another |
| Cli.LabelsKeys | modules/eks-aws-auth-merger/aws-auth-merger/cli.go:131-143 | the label keys are exactly the keys of the arguments; no arguments give no labels |
| Cli.LabelsLastWins | modules/eks-aws-auth-merger/aws-auth-merger/cli.go:141 | an argument with no later argument of the same key decides that key's value |
| Cli.LabelsFromArguments | modules/eks-aws-auth-merger/aws-auth-merger/cli.go:131-143 | every label is the key and value of some argument |
| Cli.SampleArguments | modules/eks-aws-auth-merger/aws-auth-merger/cli.go:133-141 | `a=b=c` and `flag` give the labels `a`=`b=c` and `flag`="" |
| Debouncer.Send | modules/eks-aws-auth-merger/aws-auth-merger/debouncer.go:28 | a send appends the result behind every outstanding result and changes nothing else |
| Debouncer.StepKeepsInv | modules/eks-aws-auth-merger/aws-auth-merger/debouncer.go:19 | every step keeps at most 10 results in the channel, lets a send wait only while it is full, and keeps an armed deadline ahead of the clock |
| Debouncer.RunKeepsInv | modules/eks-aws-auth-merger/aws-auth-merger/debouncer.go:19 | the same for any sequence of steps |
| Debouncer.StepOutstanding | modules/eks-aws-auth-merger/aws-auth-merger/debouncer.go:28 | a call appends exactly its result, a trigger changes no result, and a receive yields the oldest outstanding result, or nothing exactly when none is outstanding |
| Debouncer.RunWithoutTriggers | modules/eks-aws-auth-merger/aws-auth-merger/debouncer.go:23-29 | from a state whose armed deadline, if any, lies strictly ahead of the clock, a run without triggers runs the function exactly once if the clock reaches the deadline and never otherwise, and gives the exact clock and pending deadline |
| Debouncer.NoCallBeforeInterval | modules/eks-aws-auth-merger/aws-auth-merger/debouncer.go:26 | less than `interval` after the most recent trigger, the function has not run |
| Debouncer.OneCallAfterInterval | modules/eks-aws-auth-merger/aws-auth-merger/debouncer.go:26-29 | once `interval` has passed after the most recent trigger, the function has run exactly once more and no call is pending |
| Debouncer.BurstDefers | modules/eks-aws-auth-merger/aws-auth-merger/debouncer.go:20-30 | triggers separated by gaps shorter than `interval` run nothing and leave one call pending `interval` after the last trigger |
| Debouncer.DebounceBurst | modules/eks-aws-auth-merger/aws-auth-merger/debouncer_test.go:24-45 | such a burst followed by a wait of at least `interval` runs the function exactly once and queues exactly its result |
| Debouncer.RetriggerAfterCall | modules/eks-aws-auth-merger/aws-auth-merger/debouncer_test.go:64-79 | after a call, a fresh trigger runs the function once more; both results are queued in order |
| Debouncer.Debouncer.constructor | modules/eks-aws-auth-merger/aws-auth-merger/debouncer.go:17-19 | no timer is armed and the channel is empty |
| Debouncer.Debouncer.Debounced | modules/eks-aws-auth-merger/aws-auth-merger/debouncer.go:20-30 | the armed timer, if any, is replaced by one `interval` from now; the invariant is kept |
| Debouncer.Debouncer.Advance | modules/eks-aws-auth-merger/aws-auth-merger/debouncer.go:26-29 | time passes; reaching the deadline runs the function once and sends its result; the invariant is kept |
| Debouncer.Debouncer.Receive | modules/eks-aws-auth-merger/aws-auth-merger/debouncer.go:19 | the consumer takes the oldest buffered result, and the oldest waiting send moves into the buffer |

The role ARN is sometimes described as a unique key of the merged list. The code checks only ARNs shared between the merged lists (mapping.go:34-44), so a merged list repeats an ARN that one source repeats. The model follows the code; `Mapping.DuplicatesWithinOneListAreNoConflict` shows such a merge.

## Left out

- Credential loading (`newK8sClientset`, `setK8sClientset`), logging (`logConfig`, the log lines) and the command-line framework (`initCli`, `newApp`, `awsAuthMerger`): I/O with no logic of the merger's own.
- The steady-state part of `eventLoop` is left out because it is a channel `select` over watch notifications, a ticker and the result channel. Only its sequential start (migrate, then sync) is modelled, as `AwsAuthSync.Start`.
- `configmap_watch_controller.go`: informer wiring and event delivery across goroutines.
- The YAML and JSON libraries: they are the opaque `Codec`. Their grammar, and whether a round trip through them preserves the lists, are not modelled.
- Label-selector evaluation and namespace filtering belong to the server. The merger's list query is the predicate `Cluster.selects`; its selector string is not parsed.
- `KubeApi.PagesAfterWrite`: the server lists objects in its own order. The model keeps the set of listed objects in step with the store, and puts a written object at the end of the last page; that position is a modelling choice.
- Server errors are reduced to a set of failing verbs and a few typed errors. A server that fails one page of a list but not another is not modelled.
- `AwsAuthSync.UpsertConfigMap`: get then create is not atomic in the source. The model runs the two calls back to back on one store, so another writer slipping in between is not modelled.
- `AwsAuthSync.Start`: no other writer changes the store between the migration and the sync, so the sync sees exactly the store the migration left.
- `Debouncer`: goroutines, the timer's own thread and the race between `Stop` and a timer firing are not modelled. The debouncer runs on a discrete clock, and the function runs at the instant the deadline is reached and takes no time.
- `Debouncer.OneCallAfterInterval`: requires `interval > 0`. A timer of zero duration fires at the next passing of time in this model, not on its own.
- `Debouncer.Debouncer.Receive`: a receive on an empty channel returns None instead of blocking. Blocked senders are released in order, and that order is part of the model.
- `Debouncer`: the channel buffer is a sequence bounded by the invariant to 10 entries, not an array.
