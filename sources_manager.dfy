/**
 * The index of all sources the adapter knows: every source adapter is
 * registered (which gives it its id) and reachable by actor name, by
 * normalised path and by URL. Several actors (one per thread) may serve the
 * same source; they share one adapter.
 */
module SourcesManagers {
  import opened Wrappers
  import opened Text
  import opened Protocol
  import opened Registries
  import opened DeferredMaps
  import opened Sources
  import opened Fs

  /** `pathsAreEqual`, which is not part of this model: whether a path or URL names an adapter's path. */
  type PathsAreEqual = (string, Option<string>) -> bool

  /** The filter of `findSourceAdaptersForPathOrUrl`. */
  function MatchesPathOrUrl(pathsAreEqual: PathsAreEqual, pathOrUrl: string): SourceAdapter -> bool {
    (a: SourceAdapter) => pathsAreEqual(pathOrUrl, a.path) || a.url == Some(pathOrUrl)
  }

  /** The filter of `findSourceAdaptersForUrlWithoutQuery`: the adapter's URL up to its first `?`. */
  function MatchesUrlWithoutQuery(url: string): SourceAdapter -> bool {
    (a: SourceAdapter) => Truthy(a.url) && BeforeFirst(a.url.value, '?') == url
  }

  /**
   * `removeActor` on values: the pools of the registered adapters and the
   * actor-name index. An actor whose name is not indexed changes nothing;
   * otherwise its name leaves the index and it is spliced out of the pool of
   * the adapter indexed under that name.
   */
  function RemoveActorFrom(pools: map<SourceAdapter, seq<SourceActor>>, index: map<string, SourceAdapter>, actor: SourceActor)
    : (r: (map<SourceAdapter, seq<SourceActor>>, map<string, SourceAdapter>))
    ensures r.0.Keys == pools.Keys && r.1 == index - {actor.Name()}
    ensures forall a :: a in pools && !(actor.Name() in index && index[actor.Name()] == a) ==> r.0[a] == pools[a]
    ensures actor.Name() in index && index[actor.Name()] in pools ==>
      r.0[index[actor.Name()]] == RemoveFirst(pools[index[actor.Name()]], actor)
  {
    if actor.Name() !in index then (pools, index)
    else
      var adapter := index[actor.Name()];
      (if adapter in pools then pools[adapter := RemoveFirst(pools[adapter], actor)] else pools, index - {actor.Name()})
  }

  class SourcesManager {
    /** whether paths are normalised as on Windows */
    const isWindows: bool
    const adapters: Registry<SourceAdapter>
    const adaptersByPath: DeferredMap<string, SourceAdapter>
    const adaptersByActor: DeferredMap<string, SourceAdapter>
    var adaptersByUrl: map<string, SourceAdapter>

    /** The actor pools of the registered adapters. */
    function Collections(): set<SourceActorCollection<SourceActor>>
      reads this, adapters
    {
      set a | a in adapters.objectsById.Values :: a.actors
    }

    ghost predicate Valid()
      reads this, adapters, adaptersByPath, adaptersByActor, Collections()
    {
      && adapters.Valid() && adaptersByPath.Valid() && adaptersByActor.Valid()
      && adaptersByPath != adaptersByActor
      && IndexesRegistered()
      && PoolsValid()
      && PoolsApart()
    }

    /** Every indexed adapter is a registered one. */
    ghost predicate IndexesRegistered()
      reads this, adapters, adaptersByPath, adaptersByActor
    {
      && (forall a :: a in adaptersByUrl.Values ==> a in adapters.objectsById.Values)
      && (forall a :: a in adaptersByPath.existing.Values ==> a in adapters.objectsById.Values)
      && (forall a :: a in adaptersByActor.existing.Values ==> a in adapters.objectsById.Values)
    }

    ghost predicate PoolsValid()
      reads this, adapters, Collections()
    {
      forall a :: a in adapters.objectsById.Values ==> a.actors.Valid()
    }

    /** The contents of the pools of the registered adapters. */
    ghost function Pools(): map<SourceAdapter, seq<SourceActor>>
      reads this, adapters, Collections()
    {
      map a | a in adapters.objectsById.Values :: a.actors.actors
    }

    /** No two registered adapters share a pool. */
    ghost predicate PoolsApart()
      reads this, adapters
    {
      forall a, b :: a in adapters.objectsById.Values && b in adapters.objectsById.Values && a != b ==> a.actors != b.actors
    }

    /** The pools of the registered adapters other than `adapter` are as they were at `before`. */
    twostate predicate OtherPoolsKept(before: set<SourceAdapter>, new adapter: SourceAdapter)
      reads before, set a | a in before :: a.actors
    {
      forall a :: a in before && a != adapter ==> a.actors.actors == old(a.actors.actors)
    }

    constructor (isWindows: bool)
      ensures Valid() && fresh(adapters) && fresh(adaptersByPath) && fresh(adaptersByActor)
      ensures adapters.objectsById == map[] && adaptersByUrl == map[]
      ensures adaptersByPath.existing == map[] && adaptersByActor.existing == map[]
    {
      this.isWindows := isWindows;
      adapters := new Registry();
      adaptersByPath := new DeferredMap();
      adaptersByActor := new DeferredMap();
      adaptersByUrl := map[];
    }

    /**
     * `addActor`: attaches the actor to the adapter already known under its
     * URL, else to the one known under its normalised path, else to a new
     * adapter; then indexes that adapter under the actor's name, path and URL.
     * `path` is what the path mapper makes of the actor's source.
     */
    method AddActor(actor: SourceActor, path: Option<string>) returns (adapter: SourceAdapter)
      requires Valid()
      modifies this, adapters, adaptersByPath, adaptersByActor, Collections()
      ensures Valid()
      ensures Truthy(actor.Url()) && actor.Url().value in old(adaptersByUrl) ==>
        adapter == old(adaptersByUrl[actor.Url().value])
      ensures !(Truthy(actor.Url()) && actor.Url().value in old(adaptersByUrl)) && Truthy(path)
              && NormalizePath(isWindows, path.value) in old(adaptersByPath.existing) ==>
        adapter == old(adaptersByPath.existing[NormalizePath(isWindows, path.value)])
      ensures !(Truthy(actor.Url()) && actor.Url().value in old(adaptersByUrl))
              && !(Truthy(path) && NormalizePath(isWindows, path.value) in old(adaptersByPath.existing)) ==>
        !old(adapter in adapters.objectsById.Values)
      ensures !old(adapter in adapters.objectsById.Values) ==>
        && fresh(adapter) && adapter.id == old(adapters.nextId) && adapter.actors.actors == [actor]
        && adapters.objectsById == old(adapters.objectsById)[adapter.id := adapter]
      ensures old(adapter in adapters.objectsById.Values) ==>
        adapter.actors.actors == old(adapter.actors.actors) + [actor] && adapters.objectsById == old(adapters.objectsById)
      ensures OtherPoolsKept(old(adapters.objectsById.Values), adapter)
      ensures adaptersByActor.existing == old(adaptersByActor.existing)[actor.Name() := adapter]
      ensures adaptersByUrl == if Truthy(actor.Url()) then old(adaptersByUrl)[actor.Url().value := adapter] else old(adaptersByUrl)
      ensures adaptersByPath.existing ==
        if Truthy(path) then old(adaptersByPath.existing)[NormalizePath(isWindows, path.value) := adapter]
        else old(adaptersByPath.existing)
    {
      var normalizedPath := if Truthy(path) then Some(NormalizePath(isWindows, path.value)) else None;
      adapter := Attach(actor, path, normalizedPath);
      Index(actor, normalizedPath, adapter);
    }

    /** The first half of `addActor`: find or create the adapter and add the actor to its pool. */
    method Attach(actor: SourceActor, path: Option<string>, normalizedPath: Option<string>)
      returns (adapter: SourceAdapter)
      requires Valid()
      modifies adapters, Collections()
      ensures Valid() && adapter in adapters.objectsById.Values
      ensures adaptersByUrl == old(adaptersByUrl)
      ensures Truthy(actor.Url()) && actor.Url().value in adaptersByUrl ==>
        adapter == adaptersByUrl[actor.Url().value]
      ensures !(Truthy(actor.Url()) && actor.Url().value in adaptersByUrl) && normalizedPath.Some?
              && normalizedPath.value in adaptersByPath.existing ==>
        adapter == adaptersByPath.existing[normalizedPath.value]
      ensures !(Truthy(actor.Url()) && actor.Url().value in adaptersByUrl)
              && !(normalizedPath.Some? && normalizedPath.value in adaptersByPath.existing) ==>
        !old(adapter in adapters.objectsById.Values)
      ensures !old(adapter in adapters.objectsById.Values) ==>
        && fresh(adapter) && adapter.id == old(adapters.nextId) && adapter.actors.actors == [actor]
        && adapters.objectsById == old(adapters.objectsById)[adapter.id := adapter]
      ensures old(adapter in adapters.objectsById.Values) ==>
        adapter.actors.actors == old(adapter.actors.actors) + [actor] && adapters.objectsById == old(adapters.objectsById)
      ensures OtherPoolsKept(old(adapters.objectsById.Values), adapter)
    {
      var found := if Truthy(actor.Url()) && actor.Url().value in adaptersByUrl then Some(adaptersByUrl[actor.Url().value]) else None;
      if found.None? && normalizedPath.Some? {
        found := adaptersByPath.GetExisting(normalizedPath.value);
      }
      if found.Some? {
        adapter := found.value;
        JoinPool(adapter, actor);
      } else {
        adapter := Create(actor, path);
      }
    }

    /** Adds the actor to the pool of an adapter that is already registered. */
    method JoinPool(adapter: SourceAdapter, actor: SourceActor)
      requires Valid() && adapter in adapters.objectsById.Values
      modifies adapter.actors
      ensures Valid()
      ensures adapter.actors.actors == old(adapter.actors.actors) + [actor]
      ensures OtherPoolsKept(adapters.objectsById.Values, adapter)
    {
      assert adapter.actors in Collections();
      adapter.actors.Add(actor);
    }

    /** Creates (and thereby registers) a new adapter whose pool holds just the actor. */
    method Create(actor: SourceActor, path: Option<string>) returns (adapter: SourceAdapter)
      requires Valid()
      modifies adapters
      ensures Valid() && adapter in adapters.objectsById.Values
      ensures fresh(adapter) && adapter.id == old(adapters.nextId) && adapter.actors.actors == [actor]
      ensures adapters.objectsById == old(adapters.objectsById)[adapter.id := adapter]
    {
      var before := adapters.objectsById;
      adapter := new SourceAdapter(actor, path, adapters);
      ValuesOfUpdate(before, adapter.id, adapter);
    }

    /** The second half of `addActor`: index the adapter under the actor's path, name and URL. */
    method Index(actor: SourceActor, normalizedPath: Option<string>, adapter: SourceAdapter)
      requires Valid() && adapter in adapters.objectsById.Values
      modifies this`adaptersByUrl, adaptersByPath, adaptersByActor
      ensures Valid()
      ensures adaptersByActor.existing == old(adaptersByActor.existing)[actor.Name() := adapter]
      ensures adaptersByUrl == if Truthy(actor.Url()) then old(adaptersByUrl)[actor.Url().value := adapter] else old(adaptersByUrl)
      ensures adaptersByPath.existing ==
        if normalizedPath.Some? then old(adaptersByPath.existing)[normalizedPath.value := adapter]
        else old(adaptersByPath.existing)
    {
      if normalizedPath.Some? {
        IndexUnder(adaptersByPath, normalizedPath.value, adapter);
      }
      IndexUnder(adaptersByActor, actor.Name(), adapter);
      if Truthy(actor.Url()) {
        adaptersByUrl := adaptersByUrl[actor.Url().value := adapter];
      }
    }

    /** Records `adapter` under `key` in one of the two deferred indices. */
    method IndexUnder(index: DeferredMap<string, SourceAdapter>, key: string, adapter: SourceAdapter)
      requires Valid() && adapter in adapters.objectsById.Values
      requires index == adaptersByPath || index == adaptersByActor
      modifies index
      ensures Valid()
      ensures index.existing == old(index.existing)[key := adapter]
      ensures index.GetExisting(key) == Some(adapter)
    {
      index.Set(key, adapter);
      assert IndexesRegistered() by {
        assert forall a :: a in index.existing.Values ==> a == adapter || a in old(index.existing.Values);
      }
    }

    /**
     * `removeActor`: an unknown actor changes nothing; otherwise only the
     * actor-name entry goes, and the actor leaves its adapter's pool. The
     * path and URL indices keep the adapter.
     */
    method RemoveActor(actor: SourceActor)
      requires Valid()
      modifies adaptersByActor, Collections()
      ensures Valid()
      ensures adaptersByUrl == old(adaptersByUrl) && adaptersByPath.existing == old(adaptersByPath.existing)
      ensures old(adaptersByActor.GetExisting(actor.Name())).None? ==>
        adaptersByActor.existing == old(adaptersByActor.existing)
      ensures old(adaptersByActor.GetExisting(actor.Name())).Some? ==>
        var adapter := old(adaptersByActor.GetExisting(actor.Name())).value;
        && adaptersByActor.existing == old(adaptersByActor.existing) - {actor.Name()}
        && adapter.actors.actors == RemoveFirst(old(adapter.actors.actors), actor)
        && OtherPoolsKept(adapters.objectsById.Values, adapter)
      ensures old(adaptersByActor.GetExisting(actor.Name())).None? ==>
        forall a :: a in adapters.objectsById.Values ==> a.actors.actors == old(a.actors.actors)
      ensures (Pools(), adaptersByActor.existing) == RemoveActorFrom(old(Pools()), old(adaptersByActor.existing), actor)
    {
      var adapter := adaptersByActor.GetExisting(actor.Name());
      if adapter.None? {
        return;
      }
      adaptersByActor.Delete(actor.Name());
      SplicePool(adapter.value, actor);
    }

    /** The second half of `removeActor`: the actor is spliced out of one registered adapter's pool. */
    method SplicePool(adapter: SourceAdapter, actor: SourceActor)
      requires Valid() && adapter in adapters.objectsById.Values
      modifies adapter.actors
      ensures Valid()
      ensures adapter.actors.actors == RemoveFirst(old(adapter.actors.actors), actor)
      ensures OtherPoolsKept(adapters.objectsById.Values, adapter)
      ensures Pools() == old(Pools())[adapter := RemoveFirst(old(adapter.actors.actors), actor)]
    {
      assert adapter.actors in Collections();
      adapter.actors.Remove(actor);
    }

    /** `getExistingAdapterForPath`. */
    function GetExistingAdapterForPath(path: string): (r: Option<SourceAdapter>)
      reads this, adapters, adaptersByPath, adaptersByActor, Collections()
      requires Valid()
      ensures r.Some? <==> path in adaptersByPath.existing
      ensures r.Some? ==> r.value == adaptersByPath.existing[path] && r.value in adapters.objectsById.Values
    {
      adaptersByPath.GetExisting(path)
    }

    /** `getAdapterForPath`: the promise of the adapter for `path`, settled once it is indexed. */
    method GetAdapterForPath(path: string) returns (handle: nat)
      requires Valid()
      modifies adaptersByPath
      ensures Valid()
      ensures adaptersByPath.existing == old(adaptersByPath.existing)
      ensures path in old(adaptersByPath.promises) ==> handle == old(adaptersByPath.promises[path])
      ensures path in adaptersByPath.existing ==> adaptersByPath.Settled(path).Some?
    {
      handle := adaptersByPath.Get(path);
    }

    /** `findSourceAdaptersForPathOrUrl`: the empty string matches nothing. */
    method FindSourceAdaptersForPathOrUrl(pathOrUrl: string, pathsAreEqual: PathsAreEqual)
      returns (r: seq<SourceAdapter>)
      requires Valid()
      ensures pathOrUrl == "" ==> r == []
      ensures pathOrUrl != "" ==> r == Keep(adapters.Entries(), MatchesPathOrUrl(pathsAreEqual, pathOrUrl))
    {
      if pathOrUrl == "" {
        return [];
      }
      r := adapters.Filter(MatchesPathOrUrl(pathsAreEqual, pathOrUrl));
    }

    /** `findSourceAdaptersForUrlWithoutQuery`. */
    method FindSourceAdaptersForUrlWithoutQuery(url: string) returns (r: seq<SourceAdapter>)
      requires Valid()
      ensures r == Keep(adapters.Entries(), MatchesUrlWithoutQuery(url))
    {
      r := adapters.Filter(MatchesUrlWithoutQuery(url));
    }
  }

  /** Adding a key adds its value to the values and keeps the others. */
  lemma ValuesOfUpdate<K, V>(m: map<K, V>, k: K, v: V)
    requires k !in m
    ensures m[k := v].Values == m.Values + {v}
  {
    forall a | a in m.Values ensures a in m[k := v].Values {
      var k' :| k' in m && m[k'] == a;
      assert m[k := v][k'] == a;
    }
    assert m[k := v][k] == v;
  }

  /**
   * Only adapters with a URL can match a query-less URL, and they match when
   * their URL is that URL, optionally followed by a query.
   */
  lemma MatchesUrlWithoutQueryExactly(a: SourceAdapter, url: string)
    ensures !Truthy(a.url) ==> !MatchesUrlWithoutQuery(url)(a)
    ensures '?' !in url && Truthy(a.url) && (a.url.value == url || StartsWith(a.url.value, url + "?")) ==>
      MatchesUrlWithoutQuery(url)(a)
    ensures MatchesUrlWithoutQuery(url)(a) ==> '?' !in url && StartsWith(a.url.value, url)
  {
    if '?' !in url && Truthy(a.url) && StartsWith(a.url.value, url + "?") {
      var u := a.url.value;
      IndexOfFirst(u, '?', 0);
      assert u[|url|] == '?';
      assert BeforeFirst(u, '?') == u[..|url|];
    }
    if '?' !in url && Truthy(a.url) && a.url.value == url {
      IndexOfFirst(url, '?', 0);
    }
  }
}
