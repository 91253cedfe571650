/**
 * The proxy of an object grip actor: a reference count that unregisters
 * the proxy when it drops to zero, and two requests memoised per proxy.
 */
module ObjectGrips {
  import opened ActorProxies

  const PrototypeAndPropertiesKey := "prototypeAndProperties"
  const ThreadGripKey := "threadGrip"

  class ObjectGripProxy {
    const proxy: ActorProxy
    var refCount: int

    /** A new grip proxy is registered under its name and nobody holds it yet. */
    constructor (name: string, connection: DebugConnection)
      requires connection.Valid()
      modifies connection`actors
      ensures refCount == 0 && fresh(proxy) && proxy.name == name && proxy.connection == connection
      ensures proxy.Valid() && proxy.State() == Queue([], [], []) && proxy.cached == map[]
      ensures connection.Valid() && connection.actors == old(connection.actors)[name := proxy]
    {
      proxy := new ActorProxy(name, [], connection);
      refCount := 0;
    }

    method IncreaseRefCount()
      modifies this`refCount
      ensures refCount == old(refCount) + 1
    {
      refCount := refCount + 1;
    }

    /** Drops one reference; the proxy is unregistered exactly when the count reaches zero. */
    method DecreaseRefCount()
      requires proxy.connection.Valid()
      modifies this`refCount, proxy.connection`actors
      ensures refCount == old(refCount) - 1 && proxy.connection.Valid()
      ensures refCount == 0 ==> proxy.connection.actors == old(proxy.connection.actors) - {proxy.name}
      ensures refCount != 0 ==> proxy.connection.actors == old(proxy.connection.actors)
    {
      refCount := refCount - 1;
      if refCount == 0 {
        proxy.connection.Unregister(proxy);
      }
    }

    /** `fetchPrototypeAndProperties`: sent once per proxy; later calls share the first request. */
    method FetchPrototypeAndProperties() returns (h: nat)
      requires proxy.Valid()
      modifies proxy`pending, proxy`nextHandle, proxy`cached, proxy.connection`sent
      ensures proxy.Valid() && PrototypeAndPropertiesKey in proxy.cached && proxy.cached[PrototypeAndPropertiesKey] == h
      ensures PrototypeAndPropertiesKey in old(proxy.cached) ==>
        h == old(proxy.cached[PrototypeAndPropertiesKey]) && proxy.connection.sent == old(proxy.connection.sent)
      ensures PrototypeAndPropertiesKey !in old(proxy.cached) ==>
        proxy.connection.sent == old(proxy.connection.sent) + [Request(proxy.name, "prototypeAndProperties")]
    {
      h := proxy.SendCachedRequest(PrototypeAndPropertiesKey, "prototypeAndProperties");
    }

    /** `threadLifetime`: asks once per proxy for the grip to outlive the pause. */
    method ThreadLifetime() returns (h: nat)
      requires proxy.Valid()
      modifies proxy`pending, proxy`nextHandle, proxy`cached, proxy.connection`sent
      ensures proxy.Valid() && ThreadGripKey in proxy.cached && proxy.cached[ThreadGripKey] == h
      ensures ThreadGripKey in old(proxy.cached) ==>
        h == old(proxy.cached[ThreadGripKey]) && proxy.connection.sent == old(proxy.connection.sent)
      ensures ThreadGripKey !in old(proxy.cached) ==>
        proxy.connection.sent == old(proxy.connection.sent) + [Request(proxy.name, "threadGrip")]
    {
      h := proxy.SendCachedRequest(ThreadGripKey, "threadGrip");
    }

    /** `addWatchpoint`: sent without awaiting an answer. */
    method AddWatchpoint()
      modifies proxy.connection`sent
      ensures proxy.connection.sent == old(proxy.connection.sent) + [Request(proxy.name, "addWatchpoint")]
    {
      proxy.SendRequestWithoutResponse("addWatchpoint");
    }

    /** `removeWatchpoint`: sent without awaiting an answer. */
    method RemoveWatchpoint()
      modifies proxy.connection`sent
      ensures proxy.connection.sent == old(proxy.connection.sent) + [Request(proxy.name, "removeWatchpoint")]
    {
      proxy.SendRequestWithoutResponse("removeWatchpoint");
    }
  }
}
