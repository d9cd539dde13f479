/**
 * The slice of the Kubernetes API server that the aws-auth merger talks to: ConfigMap
 * objects stored under (namespace, name), get / create / update, and paged list answers that
 * follow the store. The server is an external collaborator; this module states only what its
 * calls return.
 */
module KubeApi {
  import opened Wrappers

  /** A ConfigMap: object metadata plus its string data. `generateName` asks the server for a fresh name. */
  datatype ConfigMap = ConfigMap(
    name: string,
    generateName: string,
    namespace: string,
    labels: map<string, string>,
    annotations: map<string, string>,
    data: map<string, string>)

  /** Where the server stores an object. */
  datatype ObjectKey = ObjectKey(namespace: string, name: string)

  function KeyOf(cm: ConfigMap): ObjectKey {
    ObjectKey(cm.namespace, cm.name)
  }

  /** API verbs, used to say which calls the server currently rejects. */
  datatype Verb = GetVerb | ListVerb | CreateVerb | UpdateVerb

  /** Errors a call can return. `Transport` stands for every failure not otherwise distinguished. */
  datatype ApiError = NotFound | AlreadyExists | Invalid | Expired | Transport(verb: Verb)

  /** One page of a list answer; an empty `continueToken` marks the last page. */
  datatype ConfigMapList = ConfigMapList(items: seq<ConfigMap>, continueToken: string)

  /** Every page but the last carries a non-empty token, no two tokens are alike, and the last token is "". */
  ghost predicate PagesWellFormed(pages: seq<ConfigMapList>) {
    && |pages| > 0
    && pages[|pages| - 1].continueToken == ""
    && (forall k :: 0 <= k < |pages| - 1 ==> pages[k].continueToken != "")
    && (forall k, l :: 0 <= k < l < |pages| ==> pages[k].continueToken != pages[l].continueToken)
  }

  /** The index of the page that follows the first page whose token is `token`. */
  function PageAfter(pages: seq<ConfigMapList>, token: string): (r: Option<nat>)
    ensures r.Some? ==> 0 < r.value < |pages| && pages[r.value - 1].continueToken == token
    ensures r.Some? ==> forall k :: 0 <= k < r.value - 1 ==> pages[k].continueToken != token
    ensures r.None? ==> forall k :: 0 <= k < |pages| - 1 ==> pages[k].continueToken != token
  {
    if |pages| < 2 then None
    else if pages[0].continueToken == token then Some(1)
    else
      match PageAfter(pages[1..], token)
      case None => None
      case Some(k) => Some(k + 1)
  }

  /** All items of the pages, in page order. */
  function AllItems(pages: seq<ConfigMapList>): seq<ConfigMap> {
    if pages == [] then [] else AllItems(pages[..|pages| - 1]) + pages[|pages| - 1].items
  }

  /** The name a create call gives the new object: its own name, else `generateName` plus the server's suffix. */
  function CreatedName(cm: ConfigMap, suffix: string): string {
    if cm.name != "" then cm.name
    else if cm.generateName != "" then cm.generateName + suffix
    else ""
  }

  /** The items whose key is not `key`, in their order. */
  function Without(items: seq<ConfigMap>, key: ObjectKey): seq<ConfigMap>
    decreases |items|
  {
    if items == [] then []
    else
      var last := items[|items| - 1];
      Without(items[..|items| - 1], key) + (if KeyOf(last) == key then [] else [last])
  }

  lemma {:induction false} WithoutMembers(items: seq<ConfigMap>, key: ObjectKey, x: ConfigMap)
    ensures x in Without(items, key) <==> x in items && KeyOf(x) != key
    decreases |items|
  {
    if items != [] {
      var prefix := items[..|items| - 1];
      WithoutMembers(prefix, key, x);
      assert items == prefix + [items[|items| - 1]];
    }
  }

  lemma {:induction false} WithoutConcat(a: seq<ConfigMap>, b: seq<ConfigMap>, key: ObjectKey)
    ensures Without(a + b, key) == Without(a, key) + Without(b, key)
    decreases |b|
  {
    if b == [] {
      assert a + b == a;
    } else {
      var prefix := b[..|b| - 1];
      assert (a + b)[..|a + b| - 1] == a + prefix;
      WithoutConcat(a, prefix, key);
    }
  }

  /** Nothing is taken out when no item carries the key. */
  lemma {:induction false} WithoutAbsent(items: seq<ConfigMap>, key: ObjectKey)
    requires forall i :: 0 <= i < |items| ==> KeyOf(items[i]) != key
    ensures Without(items, key) == items
    decreases |items|
  {
    if items != [] {
      var prefix := items[..|items| - 1];
      assert forall i :: 0 <= i < |prefix| ==> prefix[i] == items[i];
      WithoutAbsent(prefix, key);
      assert items == prefix + [items[|items| - 1]];
    }
  }

  /** Every page with the items of key `key` taken out. */
  function PagesWithout(pages: seq<ConfigMapList>, key: ObjectKey): (r: seq<ConfigMapList>)
    ensures |r| == |pages|
    ensures forall k :: 0 <= k < |pages| ==> r[k] == pages[k].(items := Without(pages[k].items, key))
  {
    seq(|pages|, k requires 0 <= k < |pages| => pages[k].(items := Without(pages[k].items, key)))
  }

  lemma {:induction false} AllItemsWithout(pages: seq<ConfigMapList>, key: ObjectKey)
    ensures AllItems(PagesWithout(pages, key)) == Without(AllItems(pages), key)
    decreases |pages|
  {
    if pages != [] {
      var n := |pages|;
      var prefix := pages[..n - 1];
      var pw, qw := PagesWithout(pages, key), PagesWithout(prefix, key);
      assert pw[..n - 1] == qw by {
        forall k | 0 <= k < n - 1
          ensures pw[..n - 1][k] == qw[k]
        {
          assert prefix[k] == pages[k];
        }
      }
      assert AllItems(pw) == AllItems(qw) + Without(pages[n - 1].items, key);
      AllItemsWithout(prefix, key);
      WithoutConcat(AllItems(prefix), pages[n - 1].items, key);
    }
  }

  /** The pages with `cm` added at the end of the last one. */
  function AppendToLast(pages: seq<ConfigMapList>, cm: ConfigMap): seq<ConfigMapList> {
    if pages == [] then [ConfigMapList([cm], "")]
    else
      var n := |pages|;
      pages[..n - 1] + [pages[n - 1].(items := pages[n - 1].items + [cm])]
  }

  lemma AllItemsAppendToLast(pages: seq<ConfigMapList>, cm: ConfigMap)
    ensures AllItems(AppendToLast(pages, cm)) == AllItems(pages) + [cm]
  {
    if pages != [] {
      var n := |pages|;
      assert AppendToLast(pages, cm)[..n - 1] == pages[..n - 1];
    } else {
      var single := [ConfigMapList([cm], "")];
      assert single[..0] == [];
    }
  }

  /**
   * The list answer after `cm` is written: earlier versions of the object leave it, and `cm`
   * comes last when the merger's list query selects it. Page boundaries and tokens stay.
   */
  function PagesAfterWrite(pages: seq<ConfigMapList>, cm: ConfigMap, selected: bool): seq<ConfigMapList> {
    var rest := PagesWithout(pages, KeyOf(cm));
    if selected then AppendToLast(rest, cm) else rest
  }

  /** Every object is stored under its own namespace and name. */
  ghost predicate StoreKeyed(configMaps: map<ObjectKey, ConfigMap>) {
    forall k :: k in configMaps ==> KeyOf(configMaps[k]) == k
  }

  /**
   * The items of the list answer are exactly the stored objects that the merger's list query
   * selects, each as currently stored.
   */
  ghost predicate ListMatchesStore(items: seq<ConfigMap>, configMaps: map<ObjectKey, ConfigMap>, selects: ConfigMap -> bool) {
    && (forall cm :: cm in items ==> KeyOf(cm) in configMaps && configMaps[KeyOf(cm)] == cm && selects(cm))
    && (forall k :: k in configMaps && selects(configMaps[k]) ==> configMaps[k] in items)
  }

  /** Pages with the same tokens are well formed together. */
  lemma SameTokens(pages: seq<ConfigMapList>, other: seq<ConfigMapList>)
    requires PagesWellFormed(pages)
    requires |other| == |pages|
    requires forall k :: 0 <= k < |pages| ==> other[k].continueToken == pages[k].continueToken
    ensures PagesWellFormed(other)
  {
  }

  /** The list answer after a write: the other objects in their order, then the written one if selected. */
  lemma ItemsAfterWrite(pages: seq<ConfigMapList>, cm: ConfigMap, selected: bool)
    requires PagesWellFormed(pages)
    ensures PagesWellFormed(PagesAfterWrite(pages, cm, selected))
    ensures AllItems(PagesAfterWrite(pages, cm, selected))
            == Without(AllItems(pages), KeyOf(cm)) + (if selected then [cm] else [])
  {
    var rest := PagesWithout(pages, KeyOf(cm));
    AllItemsWithout(pages, KeyOf(cm));
    if selected {
      AllItemsAppendToLast(rest, cm);
      SameTokens(pages, AppendToLast(rest, cm));
    } else {
      SameTokens(pages, rest);
    }
  }

  /**
   * Writing an object keeps the list answer in step with the store: the answer still consists
   * of exactly the selected stored objects, and its pages stay well formed.
   */
  lemma WriteKeepsListMatch(pages: seq<ConfigMapList>, configMaps: map<ObjectKey, ConfigMap>,
                            selects: ConfigMap -> bool, cm: ConfigMap)
    requires PagesWellFormed(pages) && StoreKeyed(configMaps)
    requires ListMatchesStore(AllItems(pages), configMaps, selects)
    ensures PagesWellFormed(PagesAfterWrite(pages, cm, selects(cm)))
    ensures StoreKeyed(configMaps[KeyOf(cm) := cm])
    ensures ListMatchesStore(AllItems(PagesAfterWrite(pages, cm, selects(cm))), configMaps[KeyOf(cm) := cm], selects)
  {
    var key := KeyOf(cm);
    var before := AllItems(pages);
    var after := Without(before, key) + (if selects(cm) then [cm] else []);
    var store := configMaps[key := cm];
    ItemsAfterWrite(pages, cm, selects(cm));
    forall x | x in after
      ensures KeyOf(x) in store && store[KeyOf(x)] == x && selects(x)
    {
      if x != cm || !selects(cm) {
        WithoutMembers(before, key, x);
      }
    }
    forall k | k in store && selects(store[k])
      ensures store[k] in after
    {
      if k != key {
        WithoutMembers(before, key, store[k]);
      }
    }
    assert ListMatchesStore(after, store, selects);
  }

  /** Writing an object under a key nothing holds yet adds it at the end of the list answer, if selected. */
  lemma FreshWriteAppends(pages: seq<ConfigMapList>, configMaps: map<ObjectKey, ConfigMap>,
                          selects: ConfigMap -> bool, cm: ConfigMap)
    requires ListMatchesStore(AllItems(pages), configMaps, selects)
    requires KeyOf(cm) !in configMaps
    ensures AllItems(PagesAfterWrite(pages, cm, selects(cm))) == AllItems(pages) + (if selects(cm) then [cm] else [])
  {
    AllItemsWithout(pages, KeyOf(cm));
    assert forall i :: 0 <= i < |AllItems(pages)| ==> AllItems(pages)[i] in AllItems(pages);
    WithoutAbsent(AllItems(pages), KeyOf(cm));
    if selects(cm) {
      AllItemsAppendToLast(PagesWithout(pages, KeyOf(cm)), cm);
    }
  }

  /**
   * The API server, as far as the merger can observe it. `selects` is the merger's list query
   * (its namespace and label selector) as the server evaluates it, and `pages` is the server's
   * paged answer to that query, kept in step with the store; `faults` are the verbs the server
   * currently fails with a transport error.
   */
  class Cluster {
    var configMaps: map<ObjectKey, ConfigMap>
    var pages: seq<ConfigMapList>
    var faults: set<Verb>
    const selects: ConfigMap -> bool

    ghost predicate Valid()
      reads this
    {
      && PagesWellFormed(pages)
      && StoreKeyed(configMaps)
      && ListMatchesStore(AllItems(pages), configMaps, selects)
    }

    constructor (configMaps: map<ObjectKey, ConfigMap>, pages: seq<ConfigMapList>, faults: set<Verb>,
                 selects: ConfigMap -> bool)
      requires PagesWellFormed(pages) && StoreKeyed(configMaps)
      requires ListMatchesStore(AllItems(pages), configMaps, selects)
      ensures Valid()
      ensures this.configMaps == configMaps && this.pages == pages && this.faults == faults
      ensures this.selects == selects
    {
      this.configMaps := configMaps;
      this.pages := pages;
      this.faults := faults;
      this.selects := selects;
    }

    /** The answer to `Get(namespace, name)`; the client refuses an empty name before any request. */
    function Get(namespace: string, name: string): Result<ConfigMap, ApiError>
      reads this
    {
      if name == "" then Failure(Invalid)
      else if GetVerb in faults then Failure(Transport(GetVerb))
      else if ObjectKey(namespace, name) in configMaps then Success(configMaps[ObjectKey(namespace, name)])
      else Failure(NotFound)
    }

    /** The answer to a list call carrying `token` ("" for the first page). An unknown token has expired. */
    function List(token: string): Result<ConfigMapList, ApiError>
      reads this
    {
      if ListVerb in faults then Failure(Transport(ListVerb))
      else if token == "" then (if |pages| > 0 then Success(pages[0]) else Success(ConfigMapList([], "")))
      else
        match PageAfter(pages, token)
        case Some(k) => Success(pages[k])
        case None => Failure(Expired)
    }

    /**
     * Create `cm` in its namespace; `suffix` is the random suffix the server appends to a
     * generated name. Fails if the name is taken; a failed call stores nothing.
     */
    method Create(cm: ConfigMap, suffix: string) returns (r: Result<ConfigMap, ApiError>)
      requires Valid()
      modifies this
      ensures Valid() && faults == old(faults)
      ensures CreateVerb in faults ==> r == Failure(Transport(CreateVerb))
      ensures CreateVerb !in faults && CreatedName(cm, suffix) == "" ==> r == Failure(Invalid)
      ensures CreateVerb !in faults && CreatedName(cm, suffix) != "" ==>
                if ObjectKey(cm.namespace, CreatedName(cm, suffix)) in old(configMaps)
                then r == Failure(AlreadyExists)
                else r == Success(cm.(name := CreatedName(cm, suffix)))
      ensures r.Success? ==>
                && configMaps == old(configMaps)[KeyOf(r.value) := r.value]
                && pages == PagesAfterWrite(old(pages), r.value, selects(r.value))
      ensures r.Failure? ==> configMaps == old(configMaps) && pages == old(pages)
    {
      var name := CreatedName(cm, suffix);
      if CreateVerb in faults {
        r := Failure(Transport(CreateVerb));
      } else if name == "" {
        r := Failure(Invalid);
      } else if ObjectKey(cm.namespace, name) in configMaps {
        r := Failure(AlreadyExists);
      } else {
        var created := cm.(name := name);
        WriteKeepsListMatch(pages, configMaps, selects, created);
        configMaps := configMaps[KeyOf(created) := created];
        pages := PagesAfterWrite(pages, created, selects(created));
        r := Success(created);
      }
    }

    /** Replace the stored object with `cm` wholesale; fails if there is none. */
    method Update(cm: ConfigMap) returns (r: Result<ConfigMap, ApiError>)
      requires Valid()
      modifies this
      ensures Valid() && faults == old(faults)
      ensures UpdateVerb in faults ==> r == Failure(Transport(UpdateVerb))
      ensures UpdateVerb !in faults ==>
                if KeyOf(cm) in old(configMaps) then r == Success(cm) else r == Failure(NotFound)
      ensures r.Success? ==>
                && configMaps == old(configMaps)[KeyOf(cm) := cm]
                && pages == PagesAfterWrite(old(pages), cm, selects(cm))
      ensures r.Failure? ==> configMaps == old(configMaps) && pages == old(pages)
    {
      if UpdateVerb in faults {
        r := Failure(Transport(UpdateVerb));
      } else if KeyOf(cm) in configMaps {
        WriteKeepsListMatch(pages, configMaps, selects, cm);
        configMaps := configMaps[KeyOf(cm) := cm];
        pages := PagesAfterWrite(pages, cm, selects(cm));
        r := Success(cm);
      } else {
        r := Failure(NotFound);
      }
    }
  }
}
