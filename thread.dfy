/**
 * The adapter of one debuggee thread: the objects whose lifetime ends with
 * the current pause or with the thread, the memo of the current pause's
 * stack frames, and the orderly disposal of all of it.
 */
module Threads {
  import opened Wrappers
  import opened Protocol
  import opened Registries
  import opened Sources
  import opened SourcesManagers

  /** An object grip adapter; the thread sees only whether it lives as long as the thread. */
  class ObjectGripAdapter {
    var threadLifetime: bool

    constructor (threadLifetime: bool)
      ensures this.threadLifetime == threadLifetime
    {
      this.threadLifetime := threadLifetime;
    }
  }

  /** A scope adapter, known to the thread only by identity. */
  class ScopeAdapter {
  }

  /** One thing the thread disposes, in the order it disposes them. */
  datatype Disposal =
    | FrameDisposed(frame: Frame)
    | ScopeDisposed(scope: ScopeAdapter)
    | GripDisposed(grip: ObjectGripAdapter)
    | SourceActorDisposed(actor: SourceActor)
    | ProxyDisposed(name: string)

  function DisposeFrame(f: Frame): Disposal { FrameDisposed(f) }
  function DisposeScope(s: ScopeAdapter): Disposal { ScopeDisposed(s) }
  function DisposeGrip(o: ObjectGripAdapter): Disposal { GripDisposed(o) }
  function DisposeSourceActor(a: SourceActor): Disposal { SourceActorDisposed(a) }

  /** The disposals of `items`, one each, in order. */
  function Disposals<T>(items: seq<T>, dispose: T -> Disposal): (r: seq<Disposal>)
    ensures |r| == |items|
    ensures forall i :: 0 <= i < |items| ==> r[i] == dispose(items[i])
  {
    if items == [] then [] else [dispose(items[0])] + Disposals(items[1..], dispose)
  }

  lemma DisposalsAppend<T>(items: seq<T>, x: T, dispose: T -> Disposal)
    ensures Disposals(items + [x], dispose) == Disposals(items, dispose) + [dispose(x)]
  {
  }

  /** What the end of a pause disposes: the memoised frames, then the scopes, then the pause-lifetime objects. */
  function PauseDisposals(frames: Option<seq<Frame>>, scopes: seq<ScopeAdapter>, objects: seq<ObjectGripAdapter>): seq<Disposal> {
    (if frames.Some? then Disposals(frames.value, DisposeFrame) else [])
      + Disposals(scopes, DisposeScope)
      + Disposals(objects, DisposeGrip)
  }

  /** The end of a pause disposes an object grip adapter exactly when it is on the pause-lifetime list. */
  lemma PauseDisposesPauseObjects(frames: Option<seq<Frame>>, scopes: seq<ScopeAdapter>,
                                  objects: seq<ObjectGripAdapter>, o: ObjectGripAdapter)
    ensures GripDisposed(o) in PauseDisposals(frames, scopes, objects) <==> o in objects
  {
    var fs := if frames.Some? then Disposals(frames.value, DisposeFrame) else [];
    var ss := Disposals(scopes, DisposeScope);
    var os := Disposals(objects, DisposeGrip);
    assert PauseDisposals(frames, scopes, objects) == fs + ss + os;
    if o in objects {
      var i :| 0 <= i < |objects| && objects[i] == o;
      assert os[i] == GripDisposed(o);
    }
    if GripDisposed(o) in os {
      var i :| 0 <= i < |os| && os[i] == GripDisposed(o);
      assert objects[i] == o;
    }
    assert GripDisposed(o) !in fs && GripDisposed(o) !in ss;
  }

  /** Splicing out the first occurrence of an element that occurs once leaves it out altogether. */
  lemma {:induction false} RemoveFirstDrops<A>(s: seq<A>, x: A)
    requires multiset(s)[x] <= 1
    ensures x !in RemoveFirst(s, x)
    ensures forall y :: y != x ==> (y in RemoveFirst(s, x) <==> y in s)
  {
    var i := IndexIn(s, x);
    if i >= 0 {
      assert s == s[..i] + [x] + s[i + 1..];
      assert multiset(s) == multiset(s[..i]) + multiset{x} + multiset(s[i + 1..]);
      assert x !in s[i + 1..];
    }
  }

  /**
   * `fetchStackFrames(start, count)`: the window of `count` frames from
   * `start` (or every frame from `start` when `count` is not positive),
   * both ends clamped to the frames there are, as `Array.prototype.slice` does.
   */
  function RequestedFrames<T>(frames: seq<T>, start: nat, count: int): seq<T> {
    if start >= |frames| then []
    else if count > 0 && start + count < |frames| then frames[start..start + count]
    else frames[start..]
  }

  /** The window holds the frames from `start` on, as many as asked for and as there are. */
  lemma RequestedFramesWindow<T>(frames: seq<T>, start: nat, count: int)
    ensures var r := RequestedFrames(frames, start, count);
      && |r| == (if start >= |frames| then 0
                 else if count > 0 && start + count < |frames| then count
                 else |frames| - start)
      && forall i :: 0 <= i < |r| ==> r[i] == frames[start + i]
  {
  }

  /** Paging: two consecutive windows make up the window of their combined size. */
  lemma ConsecutivePages<T>(frames: seq<T>, start: nat, count: nat, count': nat)
    requires count > 0 && count' > 0
    ensures RequestedFrames(frames, start, count) + RequestedFrames(frames, start + count, count')
      == RequestedFrames(frames, start, count + count')
  {
    if start + count < |frames| {
      var first := RequestedFrames(frames, start, count);
      assert first == frames[start..start + count];
      if start + count + count' < |frames| {
        assert frames[start..start + count] + frames[start + count..start + count + count']
          == frames[start..start + count + count'];
      } else {
        assert frames[start..start + count] + frames[start + count..] == frames[start..];
      }
    }
  }

  /** The names of the source actors in `actors`. */
  function ActorNames(actors: seq<SourceActor>): set<string> {
    set a | a in actors :: a.Name()
  }

  class ThreadAdapter {
    var id: nat
    const name: string
    /** the names of the thread, target and console actor proxies */
    const actorName: string
    const targetActorName: string
    const consoleActorName: string
    /** the session's registry of threads and its sources manager */
    const threads: Registry<ThreadAdapter>
    const sources: SourcesManager

    /** the source actors of this thread (a `Set`, in insertion order) */
    var sourceActors: seq<SourceActor>
    /** the memo of the current pause's frames (`framesPromise`) */
    var framesMemo: Option<seq<Frame>>
    /** how many times the frames were requested from the thread actor */
    var frameFetches: nat
    var scopes: seq<ScopeAdapter>
    var pauseLifetimeObjects: seq<ObjectGripAdapter>
    var threadLifetimeObjects: seq<ObjectGripAdapter>
    var threadPausedReason: Option<PausedReason>
    /** everything the thread has disposed, in order */
    var disposals: seq<Disposal>

    /** Every object on the thread-lifetime list knows it lives as long as the thread. */
    ghost predicate Valid()
      reads this, threadLifetimeObjects
    {
      forall o :: o in threadLifetimeObjects ==> o.threadLifetime
    }

    /** Creates the adapter and registers it with the session's threads, which hands out its id. */
    constructor (name: string, actorName: string, targetActorName: string, consoleActorName: string,
                 threads: Registry<ThreadAdapter>, sources: SourcesManager)
      requires threads.Valid()
      modifies threads
      ensures Valid() && threads.Valid()
      ensures id == old(threads.nextId) && threads.objectsById == old(threads.objectsById)[id := this]
      ensures threads.announced == old(threads.announced) + [this]
      ensures this.name == name && this.actorName == actorName && this.targetActorName == targetActorName
      ensures this.consoleActorName == consoleActorName && this.threads == threads && this.sources == sources
      ensures sourceActors == [] && framesMemo == None && frameFetches == 0 && scopes == []
      ensures pauseLifetimeObjects == [] && threadLifetimeObjects == [] && threadPausedReason == None
      ensures disposals == []
    {
      this.name := name;
      this.actorName := actorName;
      this.targetActorName := targetActorName;
      this.consoleActorName := consoleActorName;
      this.threads := threads;
      this.sources := sources;
      sourceActors, framesMemo, frameFetches, scopes := [], None, 0, [];
      pauseLifetimeObjects, threadLifetimeObjects, threadPausedReason, disposals := [], [], None, [];
      new;
      id := threads.Register(this);
    }

    /** The source actors form a set: no actor occurs twice. */
    ghost predicate SourceActorsDistinct()
      reads this
    {
      forall i, j :: 0 <= i < j < |sourceActors| ==> sourceActors[i] != sourceActors[j]
    }

    /** `sourceActors.add`: a new actor is appended, and one already present changes nothing. */
    method AddSourceActor(a: SourceActor)
      requires SourceActorsDistinct()
      modifies this`sourceActors
      ensures SourceActorsDistinct() && a in sourceActors
      ensures a in old(sourceActors) ==> sourceActors == old(sourceActors)
      ensures a !in old(sourceActors) ==> sourceActors == old(sourceActors) + [a]
    {
      if a !in sourceActors {
        sourceActors := sourceActors + [a];
      }
    }

    method RegisterScopeAdapter(scope: ScopeAdapter)
      modifies this`scopes
      ensures scopes == old(scopes) + [scope]
    {
      scopes := scopes + [scope];
    }

    /** `registerObjectGripAdapter`: the object joins the list its lifetime flag names. */
    method RegisterObjectGripAdapter(o: ObjectGripAdapter)
      requires Valid()
      modifies this`threadLifetimeObjects, this`pauseLifetimeObjects
      ensures Valid()
      ensures o.threadLifetime ==>
        threadLifetimeObjects == old(threadLifetimeObjects) + [o] && pauseLifetimeObjects == old(pauseLifetimeObjects)
      ensures !o.threadLifetime ==>
        pauseLifetimeObjects == old(pauseLifetimeObjects) + [o] && threadLifetimeObjects == old(threadLifetimeObjects)
    {
      if o.threadLifetime {
        threadLifetimeObjects := threadLifetimeObjects + [o];
      } else {
        pauseLifetimeObjects := pauseLifetimeObjects + [o];
      }
    }

    /**
     * `threadLifetime`: extends a pause-lifetime object to the thread's
     * lifetime; an object that already has it is left alone.
     */
    method ThreadLifetime(o: ObjectGripAdapter)
      requires Valid()
      modifies this`threadLifetimeObjects, this`pauseLifetimeObjects, o`threadLifetime
      ensures Valid() && o.threadLifetime
      ensures old(o.threadLifetime) ==>
        threadLifetimeObjects == old(threadLifetimeObjects) && pauseLifetimeObjects == old(pauseLifetimeObjects)
      ensures !old(o.threadLifetime) ==>
        && pauseLifetimeObjects == RemoveFirst(old(pauseLifetimeObjects), o)
        && threadLifetimeObjects == old(threadLifetimeObjects) + [o]
    {
      if !o.threadLifetime {
        var index := IndexIn(pauseLifetimeObjects, o);
        if index >= 0 {
          pauseLifetimeObjects := pauseLifetimeObjects[..index] + pauseLifetimeObjects[index + 1..];
        }
        threadLifetimeObjects := threadLifetimeObjects + [o];
        o.threadLifetime := true;
      }
    }

    /**
     * `fetchAllStackFrames`: the frames of the current pause, requested
     * from the thread actor (whose answer is `remote`) only when they are
     * not memoised yet.
     */
    method FetchAllStackFrames(remote: seq<Frame>) returns (frames: seq<Frame>)
      modifies this`framesMemo, this`frameFetches
      ensures framesMemo == Some(frames)
      ensures old(framesMemo).Some? ==> frames == old(framesMemo).value && frameFetches == old(frameFetches)
      ensures old(framesMemo).None? ==> frames == remote && frameFetches == old(frameFetches) + 1
    {
      if framesMemo.None? {
        framesMemo := Some(remote);
        frameFetches := frameFetches + 1;
      }
      frames := framesMemo.value;
    }

    /** `fetchStackFrames`: the requested window of the pause's frames and how many there are in all. */
    method FetchStackFrames(start: nat, count: int, remote: seq<Frame>) returns (requested: seq<Frame>, total: nat)
      modifies this`framesMemo, this`frameFetches
      ensures framesMemo.Some? && total == |framesMemo.value|
      ensures requested == RequestedFrames(framesMemo.value, start, count)
      ensures old(framesMemo).Some? ==> framesMemo == old(framesMemo) && frameFetches == old(frameFetches)
      ensures old(framesMemo).None? ==> framesMemo == Some(remote) && frameFetches == old(frameFetches) + 1
    {
      var frames := FetchAllStackFrames(remote);
      requested := RequestedFrames(frames, start, count);
      total := |frames|;
    }

    /** Disposes `items` in order, recording each disposal. */
    method DisposeEach<T>(items: seq<T>, dispose: T -> Disposal)
      modifies this`disposals
      ensures disposals == old(disposals) + Disposals(items, dispose)
    {
      for i := 0 to |items|
        invariant disposals == old(disposals) + Disposals(items[..i], dispose)
      {
        DisposalsAppend(items[..i], items[i], dispose);
        assert items[..i + 1] == items[..i] + [items[i]];
        disposals := disposals + [dispose(items[i])];
      }
      assert items[..|items|] == items;
    }

    /**
     * `disposePauseLifetimeAdapters`: disposes the memoised frames (and
     * forgets them), the scopes and the pause-lifetime objects; the
     * thread-lifetime objects stay.
     */
    method DisposePauseLifetimeAdapters()
      requires Valid()
      modifies this`framesMemo, this`scopes, this`pauseLifetimeObjects, this`disposals
      ensures Valid()
      ensures disposals == old(disposals) + PauseDisposals(old(framesMemo), old(scopes), old(pauseLifetimeObjects))
      ensures framesMemo == None && scopes == [] && pauseLifetimeObjects == []
    {
      ghost var fs := if framesMemo.Some? then Disposals(framesMemo.value, DisposeFrame) else [];
      ghost var ss := Disposals(scopes, DisposeScope);
      ghost var os := Disposals(pauseLifetimeObjects, DisposeGrip);
      ghost var d0 := disposals;
      if framesMemo.Some? {
        DisposeEach(framesMemo.value, DisposeFrame);
        framesMemo := None;
      }
      assert disposals == d0 + fs;
      DisposeEach(scopes, DisposeScope);
      scopes := [];
      assert disposals == d0 + fs + ss;
      DisposeEach(pauseLifetimeObjects, DisposeGrip);
      pauseLifetimeObjects := [];
      assert disposals == d0 + fs + ss + os;
      Associative(d0, fs + ss, os);
      Associative(d0, fs, ss);
    }

    /**
     * `dispose`: ends the pause, disposes the thread-lifetime objects,
     * removes every source actor of the thread from the sources manager
     * (and disposes it), disposes the three actor proxies and unregisters
     * the thread.
     */
    method Dispose()
      requires Valid() && threads.Valid() && sources.Valid()
      requires threads as object != sources.adapters
      modifies this`framesMemo, this`scopes, this`pauseLifetimeObjects, this`disposals
      modifies threads, sources.adaptersByActor, sources.Collections()
      ensures threads.Valid() && sources.Valid()
      ensures threads.objectsById == old(threads.objectsById) - {id}
      ensures sources.adaptersByActor.existing == old(sources.adaptersByActor.existing) - ActorNames(sourceActors)
      ensures sources.Pools() == RemoveActors(old(sources.Pools()), old(sources.adaptersByActor.existing), sourceActors).0
      ensures disposals == old(disposals)
        + PauseDisposals(old(framesMemo), old(scopes), old(pauseLifetimeObjects))
        + Disposals(threadLifetimeObjects, DisposeGrip)
        + Disposals(sourceActors, DisposeSourceActor)
        + [ProxyDisposed(actorName), ProxyDisposed(targetActorName), ProxyDisposed(consoleActorName)]
      ensures framesMemo == None && scopes == [] && pauseLifetimeObjects == []
    {
      ghost var grips := Disposals(threadLifetimeObjects, DisposeGrip);
      ghost var removed := Disposals(sourceActors, DisposeSourceActor);
      DisposeLifetimes();
      ghost var d1 := disposals;
      RemoveSourceActors();
      assert framesMemo == None && scopes == [] && pauseLifetimeObjects == [];
      assert disposals == d1 + removed;
      Retire();
    }

    /** The first part of `dispose`: the end of the pause, then the thread-lifetime objects. */
    method DisposeLifetimes()
      requires Valid() && sources.Valid()
      modifies this`framesMemo, this`scopes, this`pauseLifetimeObjects, this`disposals
      ensures sources.Valid() && sources.Pools() == old(sources.Pools())
      ensures sources.adaptersByActor.existing == old(sources.adaptersByActor.existing)
      ensures disposals == old(disposals)
        + PauseDisposals(old(framesMemo), old(scopes), old(pauseLifetimeObjects))
        + Disposals(threadLifetimeObjects, DisposeGrip)
      ensures framesMemo == None && scopes == [] && pauseLifetimeObjects == []
    {
      DisposePauseLifetimeAdapters();
      DisposeEach(threadLifetimeObjects, DisposeGrip);
    }

    /** The last part of `dispose`: the three actor proxies go, and the thread leaves the registry. */
    method Retire()
      requires threads.Valid() && sources.Valid() && threads as object != sources.adapters
      modifies this`disposals, threads
      ensures threads.Valid() && threads.objectsById == old(threads.objectsById) - {id}
      ensures sources.Valid() && sources.Pools() == old(sources.Pools())
      ensures sources.adaptersByActor.existing == old(sources.adaptersByActor.existing)
      ensures disposals == old(disposals) + [ProxyDisposed(actorName), ProxyDisposed(targetActorName), ProxyDisposed(consoleActorName)]
    {
      disposals := disposals + [ProxyDisposed(actorName), ProxyDisposed(targetActorName), ProxyDisposed(consoleActorName)];
      var _ := threads.Unregister(id);
    }

    /** The loop of `dispose` over the thread's source actors. */
    method RemoveSourceActors()
      requires sources.Valid()
      modifies this`disposals, sources.adaptersByActor, sources.Collections()
      ensures sources.Valid()
      ensures sources.adaptersByActor.existing == old(sources.adaptersByActor.existing) - ActorNames(sourceActors)
      ensures sources.Pools() == RemoveActors(old(sources.Pools()), old(sources.adaptersByActor.existing), sourceActors).0
      ensures disposals == old(disposals) + Disposals(sourceActors, DisposeSourceActor)
    {
      disposals := disposals + Disposals(sourceActors, DisposeSourceActor);
      RemoveAll(sources, sourceActors);
    }
  }

  /** The loop of `dispose`: `removeActor` for each actor, in order. */
  method RemoveAll(sources: SourcesManager, actors: seq<SourceActor>)
    requires sources.Valid()
    modifies sources.adaptersByActor, sources.Collections()
    ensures sources.Valid()
    ensures sources.adaptersByActor.existing == old(sources.adaptersByActor.existing) - ActorNames(actors)
    ensures sources.Pools() == RemoveActors(old(sources.Pools()), old(sources.adaptersByActor.existing), actors).0
  {
    ghost var pools0 := sources.Pools();
    ghost var existing0 := sources.adaptersByActor.existing;
    for i := 0 to |actors|
      invariant sources.Valid() && sources.Collections() == old(sources.Collections())
      invariant (sources.Pools(), sources.adaptersByActor.existing) == RemoveActors(pools0, existing0, actors[..i])
    {
      RemoveActorStep(sources, actors, i, pools0, existing0);
    }
    assert actors[..|actors|] == actors;
    RemoveActorsIndex(pools0, existing0, actors);
  }

  /**
   * The removals of `dispose` on values: `removeActor` for each of the
   * thread's source actors, in order.
   */
  function RemoveActors(pools: map<SourceAdapter, seq<SourceActor>>, index: map<string, SourceAdapter>, actors: seq<SourceActor>)
    : (map<SourceAdapter, seq<SourceActor>>, map<string, SourceAdapter>)
    decreases |actors|
  {
    if actors == [] then (pools, index)
    else
      var before := RemoveActors(pools, index, actors[..|actors| - 1]);
      RemoveActorFrom(before.0, before.1, actors[|actors| - 1])
  }

  /** The removals take exactly the actors' names out of the index and keep the set of pools. */
  lemma {:induction false} RemoveActorsIndex(pools: map<SourceAdapter, seq<SourceActor>>, index: map<string, SourceAdapter>, actors: seq<SourceActor>)
    ensures RemoveActors(pools, index, actors).0.Keys == pools.Keys
    ensures RemoveActors(pools, index, actors).1 == index - ActorNames(actors)
    decreases |actors|
  {
    if actors != [] {
      var init := actors[..|actors| - 1];
      RemoveActorsIndex(pools, index, init);
      assert actors == init + [actors[|actors| - 1]];
      assert ActorNames(actors) == ActorNames(init) + {actors[|actors| - 1].Name()};
    }
  }

  /**
   * Only the thread's actors leave a pool, each at most once per removal,
   * and a pool that no actor's name points to is left as it was.
   */
  lemma {:induction false} RemoveActorsOnlyTheirs(pools: map<SourceAdapter, seq<SourceActor>>, index: map<string, SourceAdapter>,
                                                  actors: seq<SourceActor>, a: SourceAdapter)
    requires a in pools
    ensures var r := RemoveActors(pools, index, actors).0;
      && a in r
      && (forall x :: x !in actors ==> multiset(r[a])[x] == multiset(pools[a])[x])
      && (forall x :: multiset(r[a])[x] <= multiset(pools[a])[x])
      && ((forall x :: x in actors && x.Name() in index ==> index[x.Name()] != a) ==> r[a] == pools[a])
    decreases |actors|
  {
    if actors != [] {
      var init := actors[..|actors| - 1];
      var last := actors[|actors| - 1];
      RemoveActorsOnlyTheirs(pools, index, init, a);
      RemoveActorsIndex(pools, index, init);
      var before := RemoveActors(pools, index, init);
      assert actors == init + [last];
      if last.Name() in before.1 && before.1[last.Name()] == a {
        RemoveFirstMultiset(before.0[a], last);
      }
    }
  }

  /** Splicing out the first `x` removes one `x` when there is one and nothing else. */
  lemma RemoveFirstMultiset<A>(s: seq<A>, x: A)
    ensures multiset(RemoveFirst(s, x)) == multiset(s) - multiset{x}
  {
    var i := IndexIn(s, x);
    if i >= 0 {
      assert s == s[..i] + [x] + s[i + 1..];
    }
  }

  /** One round of the removals of `dispose`: `removeActor` for the next actor. */
  method RemoveActorStep(sources: SourcesManager, actors: seq<SourceActor>, i: nat,
                         ghost pools0: map<SourceAdapter, seq<SourceActor>>, ghost existing0: map<string, SourceAdapter>)
    requires sources.Valid() && i < |actors|
    requires (sources.Pools(), sources.adaptersByActor.existing) == RemoveActors(pools0, existing0, actors[..i])
    modifies sources.adaptersByActor, sources.Collections()
    ensures sources.Valid() && sources.Collections() == old(sources.Collections())
    ensures (sources.Pools(), sources.adaptersByActor.existing) == RemoveActors(pools0, existing0, actors[..i + 1])
  {
    sources.RemoveActor(actors[i]);
    assert actors[..i + 1][..i] == actors[..i];
  }
}
