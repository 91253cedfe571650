/**
 * The adapter of one debuggee (a tab, a web extension or the parent
 * process): it registers itself, its thread configuration proxy and its
 * breakpoint list proxy with the session's registries, and undoes all of
 * that on dispose.
 */
module Descriptors {
  import opened Wrappers
  import opened Registries
  import opened ActorProxies
  import opened Threads

  class DescriptorAdapter {
    var id: nat
    const configuratorId: nat
    const breakpointListId: nat
    const descriptorRegistry: Registry<DescriptorAdapter>
    const configurators: Registry<ActorProxy>
    const breakpointLists: Registry<ActorProxy>
    const descriptorActor: ActorProxy
    const watcherActor: ActorProxy
    const configurator: ActorProxy
    const breakpointList: ActorProxy
    /** the adapter's threads (a `Set`, in insertion order) */
    var threads: seq<ThreadAdapter>
    /** the threads this adapter has disposed, in order */
    var disposedThreads: seq<ThreadAdapter>

    /** The three registrations made by the constructor are in place. */
    ghost predicate Registered()
      reads this, descriptorRegistry, configurators, breakpointLists
    {
      && descriptorRegistry.Valid() && configurators.Valid() && breakpointLists.Valid()
      && descriptorRegistry.Find(id) == Some(this)
      && configurators.Find(configuratorId) == Some(configurator)
      && breakpointLists.Find(breakpointListId) == Some(breakpointList)
    }

    /**
     * Registers the adapter, its configurator and its breakpoint list, each
     * under the next id of its registry; no registry loses or changes an entry.
     */
    constructor (descriptorRegistry: Registry<DescriptorAdapter>, configurators: Registry<ActorProxy>,
                 breakpointLists: Registry<ActorProxy>, descriptorActor: ActorProxy, watcherActor: ActorProxy,
                 configurator: ActorProxy, breakpointList: ActorProxy)
      requires descriptorRegistry.Valid() && configurators.Valid() && breakpointLists.Valid()
      requires configurators != breakpointLists
      modifies descriptorRegistry, configurators, breakpointLists
      ensures Registered() && threads == [] && disposedThreads == []
      ensures id == old(descriptorRegistry.nextId) && id !in old(descriptorRegistry.objectsById)
      ensures descriptorRegistry.objectsById == old(descriptorRegistry.objectsById)[id := this]
      ensures configuratorId == old(configurators.nextId) && configuratorId !in old(configurators.objectsById)
      ensures configurators.objectsById == old(configurators.objectsById)[configuratorId := configurator]
      ensures breakpointListId == old(breakpointLists.nextId) && breakpointListId !in old(breakpointLists.objectsById)
      ensures breakpointLists.objectsById == old(breakpointLists.objectsById)[breakpointListId := breakpointList]
      ensures this.descriptorRegistry == descriptorRegistry && this.configurators == configurators
      ensures this.breakpointLists == breakpointLists && this.descriptorActor == descriptorActor
      ensures this.watcherActor == watcherActor && this.configurator == configurator
      ensures this.breakpointList == breakpointList
    {
      this.descriptorRegistry := descriptorRegistry;
      this.configurators := configurators;
      this.breakpointLists := breakpointLists;
      this.descriptorActor := descriptorActor;
      this.watcherActor := watcherActor;
      this.configurator := configurator;
      this.breakpointList := breakpointList;
      threads, disposedThreads := [], [];
      var cid := configurators.Register(configurator);
      var bid := breakpointLists.Register(breakpointList);
      configuratorId, breakpointListId := cid, bid;
      new;
      id := descriptorRegistry.Register(this);
    }

    /**
     * Disposes the threads, removes exactly the three registrations made by
     * the constructor and unregisters the four actor proxies from the
     * connection they share.
     */
    method Dispose()
      requires descriptorRegistry.Valid() && configurators.Valid() && breakpointLists.Valid()
      requires configurators != breakpointLists
      requires descriptorActor.connection.Valid()
      requires watcherActor.connection == configurator.connection == breakpointList.connection == descriptorActor.connection
      modifies this`disposedThreads, descriptorRegistry, configurators, breakpointLists, descriptorActor.connection`actors
      ensures descriptorRegistry.Valid() && configurators.Valid() && breakpointLists.Valid()
      ensures disposedThreads == old(disposedThreads) + threads
      ensures descriptorRegistry.objectsById == old(descriptorRegistry.objectsById) - {id}
      ensures configurators.objectsById == old(configurators.objectsById) - {configuratorId}
      ensures breakpointLists.objectsById == old(breakpointLists.objectsById) - {breakpointListId}
      ensures descriptorActor.connection.Valid()
      ensures descriptorActor.connection.actors == old(descriptorActor.connection.actors)
        - {descriptorActor.name, configurator.name, breakpointList.name, watcherActor.name}
    {
      disposedThreads := disposedThreads + threads;
      Unregister();
      DisposeProxies();
    }

    /** The three registrations made by the constructor are removed, and only those. */
    method Unregister()
      requires descriptorRegistry.Valid() && configurators.Valid() && breakpointLists.Valid()
      requires configurators != breakpointLists
      modifies descriptorRegistry, configurators, breakpointLists
      ensures descriptorRegistry.Valid() && configurators.Valid() && breakpointLists.Valid()
      ensures descriptorRegistry.objectsById == old(descriptorRegistry.objectsById) - {id}
      ensures configurators.objectsById == old(configurators.objectsById) - {configuratorId}
      ensures breakpointLists.objectsById == old(breakpointLists.objectsById) - {breakpointListId}
    {
      var _ := descriptorRegistry.Unregister(id);
      var _ := configurators.Unregister(configuratorId);
      var _ := breakpointLists.Unregister(breakpointListId);
    }

    /** The four actor proxies leave the connection's routing table. */
    method DisposeProxies()
      requires descriptorActor.connection.Valid()
      requires watcherActor.connection == configurator.connection == breakpointList.connection == descriptorActor.connection
      modifies descriptorActor.connection`actors
      ensures descriptorActor.connection.Valid()
      ensures descriptorActor.connection.actors == old(descriptorActor.connection.actors)
        - {descriptorActor.name, configurator.name, breakpointList.name, watcherActor.name}
    {
      var c := descriptorActor.connection;
      ghost var before := c.actors;
      descriptorActor.Dispose();
      configurator.Dispose();
      breakpointList.Dispose();
      watcherActor.Dispose();
      assert c.actors == before - {descriptorActor.name} - {configurator.name} - {breakpointList.name} - {watcherActor.name};
    }
  }
}
