/**
 * The proxy of a target actor: it turns the runtime's resource
 * notifications (in their two wire shapes) into typed events for its
 * listeners, and flattens announced sources through the source-map layer.
 */
module Targets {
  import opened Wrappers
  import opened Protocol
  import opened ActorProxies
  import opened SourceMaps

  /**
   * One entry of a `resources-available-array` message: the resource type
   * and its payload. The protocol's typing fixes the payload of the
   * `source` and `thread-state` types, so an `OtherBatch` never carries
   * one of those two names.
   */
  datatype ArrayEntry = SourceBatch(sources: seq<Source>) | StateBatch(states: seq<ThreadState>) | OtherBatch(resourceType: string, payload: string)
  type ResourceEntry = e: ArrayEntry | e.OtherBatch? ==> e.resourceType != "source" && e.resourceType != "thread-state"
    witness SourceBatch([])

  /** One resource of a `resource-available-form` message, by its `resourceType`. */
  datatype FormResource =
    | SourceForm(source: Source)
    | StateForm(state: ThreadState)
    | ConsoleForm(message: ConsoleMessage)
    | ErrorForm(pageError: string)
    | UnknownForm(resourceType: string)
  {
    function ResourceType(): string {
      match this
      case SourceForm(_) => "source"
      case StateForm(_) => "thread-state"
      case ConsoleForm(_) => "console-message"
      case ErrorForm(_) => "error-message"
      case UnknownForm(t) => t
    }
  }
  type FormEntry = r: FormResource | r.UnknownForm? ==>
    r.resourceType !in ["source", "thread-state", "console-message", "error-message"]
    witness UnknownForm("")

  /** A message sent by the target actor, by its `type`. */
  datatype TargetMessage = ResourcesArray(entries: seq<ResourceEntry>) | ResourceForms(resources: seq<FormEntry>) | FrameUpdate | Unrecognised(msgType: string)

  /** What the proxy emits to its listeners, by event name. */
  datatype TargetEvent =
    | SourcesEvent(sources: seq<SourceActor>)
    | ThreadStateEvent(state: ThreadState)
    | ConsoleMessagesEvent(messages: seq<ConsoleMessage>)
    | ErrorMessagesEvent(errors: seq<string>)
    | NamedEvent(name: string, payload: string)
  {
    function Name(): string {
      match this
      case SourcesEvent(_) => "source"
      case ThreadStateEvent(_) => "thread-state"
      case ConsoleMessagesEvent(_) => "console-message"
      case ErrorMessagesEvent(_) => "error-message"
      case NamedEvent(n, _) => n
    }
  }

  /** The source actor proxies made for announced sources, one per source in order. */
  function Proxies(sources: seq<Source>): (r: seq<SourceActor>)
    ensures |r| == |sources| && forall k :: 0 <= k < |sources| ==> r[k] == SourceActor(sources[k], Remote)
  {
    seq(|sources|, k requires 0 <= k < |sources| => SourceActor(sources[k], Remote))
  }

  /** One `thread-state` event per state, in order. */
  function StateEvents(states: seq<ThreadState>): seq<TargetEvent>
  {
    if states == [] then [] else StateEvents(states[..|states| - 1]) + [ThreadStateEvent(states[|states| - 1])]
  }

  /** The events of one array entry. */
  function EntryEvents(e: ResourceEntry): seq<TargetEvent>
  {
    match e
    case SourceBatch(sources) => [SourcesEvent(Proxies(sources))]
    case StateBatch(states) => StateEvents(states)
    case OtherBatch(t, payload) => [NamedEvent(t, payload)]
  }

  /** The events of the array shape: each entry's, in order. */
  function ArrayEvents(entries: seq<ResourceEntry>): seq<TargetEvent>
  {
    if entries == [] then [] else ArrayEvents(entries[..|entries| - 1]) + EntryEvents(entries[|entries| - 1])
  }

  /** The event of one resource of the form shape; a resource of an unknown type has none. */
  function FormEvents1(r: FormEntry): seq<TargetEvent>
  {
    match r
    case SourceForm(source) => [SourcesEvent([SourceActor(source, Remote)])]
    case StateForm(state) => [ThreadStateEvent(state)]
    case ConsoleForm(message) => [ConsoleMessagesEvent([message])]
    case ErrorForm(pageError) => [ErrorMessagesEvent([pageError])]
    case UnknownForm(_) => []
  }

  /** The events of the form shape: each resource's, in order. */
  function FormEvents(resources: seq<FormEntry>): seq<TargetEvent>
  {
    if resources == [] then [] else FormEvents(resources[..|resources| - 1]) + FormEvents1(resources[|resources| - 1])
  }

  /** Everything `handleEvent` emits for a message. */
  function Events(m: TargetMessage): seq<TargetEvent>
  {
    match m
    case ResourcesArray(entries) => ArrayEvents(entries)
    case ResourceForms(resources) => FormEvents(resources)
    case FrameUpdate => []
    case Unrecognised(_) => []
  }

  /** The sources a message announces, in order; a proxy is made and registered for each. */
  function AnnouncedSources(m: TargetMessage): seq<Source>
  {
    match m
    case ResourcesArray(entries) => BatchSources(entries)
    case ResourceForms(resources) => FormSources(resources)
    case FrameUpdate => []
    case Unrecognised(_) => []
  }

  function EntrySources(e: ResourceEntry): seq<Source>
  {
    if e.SourceBatch? then e.sources else []
  }

  function BatchSources(entries: seq<ResourceEntry>): seq<Source>
  {
    if entries == [] then [] else BatchSources(entries[..|entries| - 1]) + EntrySources(entries[|entries| - 1])
  }

  function FormSources1(r: FormEntry): seq<Source>
  {
    if r.SourceForm? then [r.source] else []
  }

  function FormSources(resources: seq<FormEntry>): seq<Source>
  {
    if resources == [] then [] else FormSources(resources[..|resources| - 1]) + FormSources1(resources[|resources| - 1])
  }

  lemma ArrayStep(entries: seq<ResourceEntry>, i: nat)
    requires i < |entries|
    ensures ArrayEvents(entries[..i + 1]) == ArrayEvents(entries[..i]) + EntryEvents(entries[i])
    ensures BatchSources(entries[..i + 1]) == BatchSources(entries[..i]) + EntrySources(entries[i])
  {
    assert entries[..i + 1][..i] == entries[..i];
  }

  lemma FormStep(resources: seq<FormEntry>, i: nat)
    requires i < |resources|
    ensures FormEvents(resources[..i + 1]) == FormEvents(resources[..i]) + FormEvents1(resources[i])
    ensures FormSources(resources[..i + 1]) == FormSources(resources[..i]) + FormSources1(resources[i])
  {
    assert resources[..i + 1][..i] == resources[..i];
  }

  /** The actor names of some sources. */
  function Names(sources: seq<Source>): set<string>
  {
    set s | s in sources :: s.actor
  }

  lemma NamesAppend(a: seq<Source>, b: seq<Source>)
    ensures Names(a + b) == Names(a) + Names(b)
  {
  }

  /**
   * The registrations after making proxies for `sources`: their names are
   * added, and every other name keeps its proxy.
   */
  ghost predicate Registers(before: map<string, ActorProxy>, after: map<string, ActorProxy>, sources: seq<Source>)
  {
    && after.Keys == before.Keys + Names(sources)
    && (forall n :: n in before && n !in Names(sources) ==> after[n] == before[n])
  }

  lemma RegistersNothing(a: map<string, ActorProxy>)
    ensures Registers(a, a, [])
  {
    assert Names([]) == {};
  }

  lemma RegistersThen(a0: map<string, ActorProxy>, a1: map<string, ActorProxy>, a2: map<string, ActorProxy>, s1: seq<Source>, s2: seq<Source>)
    requires Registers(a0, a1, s1) && Registers(a1, a2, s2)
    ensures Registers(a0, a2, s1 + s2)
  {
    NamesAppend(s1, s2);
  }

  // ---- what the listeners of each event see ----

  /** The thread states delivered by a run of events, in order. */
  function StatesIn(events: seq<TargetEvent>): seq<ThreadState>
  {
    if events == [] then []
    else StatesIn(events[..|events| - 1]) + (if events[|events| - 1].ThreadStateEvent? then [events[|events| - 1].state] else [])
  }

  /** The source proxies delivered by a run of events, in order. */
  function SourcesIn(events: seq<TargetEvent>): seq<SourceActor>
  {
    if events == [] then []
    else SourcesIn(events[..|events| - 1]) + (if events[|events| - 1].SourcesEvent? then events[|events| - 1].sources else [])
  }

  /** The thread states the array shape carries, in order. */
  function BatchStates(entries: seq<ResourceEntry>): seq<ThreadState>
  {
    if entries == [] then []
    else BatchStates(entries[..|entries| - 1]) + (if entries[|entries| - 1].StateBatch? then entries[|entries| - 1].states else [])
  }

  /** The resources of the form shape whose type the proxy knows. */
  function Known(resources: seq<FormEntry>): seq<FormEntry>
  {
    if resources == [] then []
    else Known(resources[..|resources| - 1]) + (if resources[|resources| - 1].UnknownForm? then [] else [resources[|resources| - 1]])
  }

  lemma StatesInAppend(a: seq<TargetEvent>, b: seq<TargetEvent>)
    ensures StatesIn(a + b) == StatesIn(a) + StatesIn(b)
    decreases |b|
  {
    if b != [] {
      assert (a + b)[..|a + b| - 1] == a + b[..|b| - 1];
      StatesInAppend(a, b[..|b| - 1]);
    } else {
      assert a + b == a;
    }
  }

  lemma SourcesInAppend(a: seq<TargetEvent>, b: seq<TargetEvent>)
    ensures SourcesIn(a + b) == SourcesIn(a) + SourcesIn(b)
    decreases |b|
  {
    if b != [] {
      assert (a + b)[..|a + b| - 1] == a + b[..|b| - 1];
      SourcesInAppend(a, b[..|b| - 1]);
    } else {
      assert a + b == a;
    }
  }

  lemma StatesInOne(e: TargetEvent)
    ensures StatesIn([e]) == if e.ThreadStateEvent? then [e.state] else []
  {
    assert [e][..0] == [];
  }

  lemma SourcesInOne(e: TargetEvent)
    ensures SourcesIn([e]) == if e.SourcesEvent? then e.sources else []
  {
    assert [e][..0] == [];
  }

  lemma ProxiesAppend(a: seq<Source>, b: seq<Source>)
    ensures Proxies(a + b) == Proxies(a) + Proxies(b)
  {
  }

  /** A `thread-state` entry delivers exactly its states, in order, and no source. */
  lemma {:induction false} StateEventsDeliver(states: seq<ThreadState>)
    ensures StatesIn(StateEvents(states)) == states && SourcesIn(StateEvents(states)) == []
  {
    if states != [] {
      var init, last := states[..|states| - 1], ThreadStateEvent(states[|states| - 1]);
      StateEventsDeliver(init);
      assert StateEvents(states) == StateEvents(init) + [last];
      assert StatesIn(StateEvents(states)) == states by {
        StatesInAppend(StateEvents(init), [last]);
        StatesInOne(last);
      }
      assert SourcesIn(StateEvents(states)) == [] by {
        SourcesInAppend(StateEvents(init), [last]);
        SourcesInOne(last);
      }
    }
  }

  /** The states and sources one array entry delivers. */
  lemma EntryDelivers(e: ResourceEntry)
    ensures StatesIn(EntryEvents(e)) == (if e.StateBatch? then e.states else [])
    ensures SourcesIn(EntryEvents(e)) == (if e.SourceBatch? then Proxies(e.sources) else [])
  {
    match e
    case SourceBatch(sources) =>
      StatesInOne(SourcesEvent(Proxies(sources)));
      SourcesInOne(SourcesEvent(Proxies(sources)));
    case StateBatch(states) =>
      StateEventsDeliver(states);
    case OtherBatch(t, payload) =>
      StatesInOne(NamedEvent(t, payload));
      SourcesInOne(NamedEvent(t, payload));
  }

  /** In the array shape every announced thread state reaches the `thread-state` listeners, in the order of the message. */
  lemma {:induction false} ArrayStatesDelivered(entries: seq<ResourceEntry>)
    ensures StatesIn(ArrayEvents(entries)) == BatchStates(entries)
  {
    if entries != [] {
      var init, e := entries[..|entries| - 1], entries[|entries| - 1];
      ArrayStatesDelivered(init);
      assert ArrayEvents(entries) == ArrayEvents(init) + EntryEvents(e);
      assert StatesIn(ArrayEvents(entries)) == StatesIn(ArrayEvents(init)) + StatesIn(EntryEvents(e)) by {
        StatesInAppend(ArrayEvents(init), EntryEvents(e));
      }
      EntryDelivers(e);
    }
  }

  /** In the array shape every announced source reaches the `source` listeners as a proxy, in the order of the message. */
  lemma {:induction false} ArraySourcesDelivered(entries: seq<ResourceEntry>)
    ensures SourcesIn(ArrayEvents(entries)) == Proxies(BatchSources(entries))
  {
    if entries != [] {
      var init, e := entries[..|entries| - 1], entries[|entries| - 1];
      ArraySourcesDelivered(init);
      assert ArrayEvents(entries) == ArrayEvents(init) + EntryEvents(e);
      assert SourcesIn(ArrayEvents(entries)) == SourcesIn(ArrayEvents(init)) + SourcesIn(EntryEvents(e)) by {
        SourcesInAppend(ArrayEvents(init), EntryEvents(e));
      }
      EntryDelivers(e);
      ProxiesAppend(BatchSources(init), EntrySources(e));
    }
  }

  /** In the form shape each resource of a known type yields exactly one event, named by that type, in order. */
  lemma {:induction false} FormEventsOneEach(resources: seq<FormEntry>)
    ensures |FormEvents(resources)| == |Known(resources)|
    ensures forall k :: 0 <= k < |Known(resources)| ==> FormEvents(resources)[k].Name() == Known(resources)[k].ResourceType()
  {
    if resources != [] {
      FormEventsOneEach(resources[..|resources| - 1]);
    }
  }

  /** The thread states the form shape carries, in order. */
  function FormStates(resources: seq<FormEntry>): seq<ThreadState>
  {
    if resources == [] then []
    else FormStates(resources[..|resources| - 1]) + (if resources[|resources| - 1].StateForm? then [resources[|resources| - 1].state] else [])
  }

  /** The states and sources one resource of the form shape delivers. */
  lemma FormDelivers(r: FormEntry)
    ensures StatesIn(FormEvents1(r)) == (if r.StateForm? then [r.state] else [])
    ensures SourcesIn(FormEvents1(r)) == (if r.SourceForm? then Proxies([r.source]) else [])
  {
    if !r.UnknownForm? {
      var e := FormEvents1(r)[0];
      assert FormEvents1(r) == [e];
      StatesInOne(e);
      SourcesInOne(e);
    }
  }

  /** The form shape delivers its thread-state resources themselves, in order. */
  lemma {:induction false} FormStatesDelivered(resources: seq<FormEntry>)
    ensures StatesIn(FormEvents(resources)) == FormStates(resources)
  {
    if resources != [] {
      var init, r := resources[..|resources| - 1], resources[|resources| - 1];
      FormStatesDelivered(init);
      assert FormEvents(resources) == FormEvents(init) + FormEvents1(r);
      assert StatesIn(FormEvents(resources)) == StatesIn(FormEvents(init)) + StatesIn(FormEvents1(r)) by {
        StatesInAppend(FormEvents(init), FormEvents1(r));
      }
      FormDelivers(r);
    }
  }

  /** The form shape delivers a proxy per source resource, in order. */
  lemma {:induction false} FormSourcesDelivered(resources: seq<FormEntry>)
    ensures SourcesIn(FormEvents(resources)) == Proxies(FormSources(resources))
  {
    if resources != [] {
      var init, r := resources[..|resources| - 1], resources[|resources| - 1];
      FormSourcesDelivered(init);
      assert FormEvents(resources) == FormEvents(init) + FormEvents1(r);
      assert SourcesIn(FormEvents(resources)) == SourcesIn(FormEvents(init)) + SourcesIn(FormEvents1(r)) by {
        SourcesInAppend(FormEvents(init), FormEvents1(r));
      }
      FormDelivers(r);
      ProxiesAppend(FormSources(init), FormSources1(r));
    }
  }
  /**
   * Whatever its shape, a message's events deliver exactly the sources it
   * announces, one proxy each, in order.
   */
  lemma EventsDeliverAnnounced(m: TargetMessage)
    ensures SourcesIn(Events(m)) == Proxies(AnnouncedSources(m))
  {
    match m
    case ResourcesArray(entries) => ArraySourcesDelivered(entries);
    case ResourceForms(resources) => FormSourcesDelivered(resources);
    case FrameUpdate =>
    case Unrecognised(_) =>
  }


  /**
   * `onSources`' flattening for one announced source: the sources its info
   * lists, then the source itself unless it is among them.
   */
  function Block(underlying: SourceActor, info: SourceMappingInfo): seq<SourceActor>
  {
    info.sources + (if underlying in info.sources then [] else [underlying])
  }

  /** What `onSources` hands its callback: the blocks of the announced sources, in order. */
  function Mapped(underlying: seq<SourceActor>, infos: seq<SourceMappingInfo>): seq<SourceActor>
    requires |infos| == |underlying|
  {
    if underlying == [] then []
    else Mapped(underlying[..|underlying| - 1], infos[..|infos| - 1]) + Block(underlying[|underlying| - 1], infos[|infos| - 1])
  }

  /** `x` is the announced source `underlying` or one of the sources its info lists. */
  predicate Covers(underlying: SourceActor, info: SourceMappingInfo, x: SourceActor)
  {
    x == underlying || x in info.sources
  }

  lemma BlockMembers(underlying: SourceActor, info: SourceMappingInfo, x: SourceActor)
    ensures x in Block(underlying, info) <==> Covers(underlying, info, x)
  {
  }

  /**
   * The callback receives exactly the announced sources and the sources
   * their infos list: nothing announced is lost, nothing else appears.
   */
  lemma {:induction false} MappedMembers(underlying: seq<SourceActor>, infos: seq<SourceMappingInfo>, x: SourceActor)
    requires |infos| == |underlying|
    ensures x in Mapped(underlying, infos) <==> exists i :: 0 <= i < |underlying| && Covers(underlying[i], infos[i], x)
  {
    if underlying != [] {
      var n := |underlying| - 1;
      var u0, i0 := underlying[..n], infos[..n];
      MappedMembers(u0, i0, x);
      assert Mapped(underlying, infos) == Mapped(u0, i0) + Block(underlying[n], infos[n]);
      BlockMembers(underlying[n], infos[n], x);
      if x in Mapped(underlying, infos) {
        if x in Mapped(u0, i0) {
          var i :| 0 <= i < n && Covers(u0[i], i0[i], x);
          assert Covers(underlying[i], infos[i], x);
        } else {
          assert Covers(underlying[n], infos[n], x);
        }
      } else {
        forall i | 0 <= i < |underlying|
          ensures !Covers(underlying[i], infos[i], x)
        {
          if i < n {
            assert u0[i] == underlying[i] && i0[i] == infos[i];
          }
        }
      }
    }
  }

  /** A source without a usable map is delivered alone. */
  lemma IdentityBlock(underlying: SourceActor)
    ensures Block(underlying, IdentityInfo(underlying)) == [underlying]
  {
  }

  /** A mapped source whose originals are new actors is delivered after them. */
  lemma MappedBlock(underlying: SourceActor, info: SourceMappingInfo)
    requires underlying !in info.sources
    ensures Block(underlying, info) == info.sources + [underlying] && |Block(underlying, info)| == |info.sources| + 1
  {
  }

  class TargetActorProxy {
    const proxy: ActorProxy
    /** the events emitted to listeners, oldest first */
    var emitted: seq<TargetEvent>
    /** messages `handleEvent` only warned about */
    var warned: seq<TargetMessage>

    /** A target proxy is registered under the target's actor name and has emitted nothing. */
    constructor (actor: string, connection: DebugConnection)
      requires connection.Valid()
      modifies connection`actors
      ensures fresh(proxy) && proxy.name == actor && proxy.connection == connection && proxy.Valid()
      ensures emitted == [] && warned == []
      ensures connection.Valid() && connection.actors == old(connection.actors)[actor := proxy]
    {
      proxy := new ActorProxy(actor, [], connection);
      emitted, warned := [], [];
    }

    /**
     * `handleEvent`: emits `Events(m)` and registers a new source proxy
     * per announced source; a frame update is only logged, and any other
     * message only warned about.
     */
    method HandleEvent(m: TargetMessage)
      requires proxy.connection.Valid()
      modifies this`emitted, this`warned, proxy.connection`actors
      ensures emitted == old(emitted) + Events(m)
      ensures warned == old(warned) + (if m.Unrecognised? then [m] else [])
      ensures proxy.connection.Valid() && Registers(old(proxy.connection.actors), proxy.connection.actors, AnnouncedSources(m))
    {
      match m
      case ResourcesArray(entries) =>
        EmitArray(entries);
      case ResourceForms(resources) =>
        EmitForms(resources);
      case FrameUpdate =>
        RegistersNothing(proxy.connection.actors);
      case Unrecognised(_) =>
        warned := warned + [m];
        RegistersNothing(proxy.connection.actors);
    }

    method EmitArray(entries: seq<ResourceEntry>)
      requires proxy.connection.Valid()
      modifies this`emitted, proxy.connection`actors
      ensures emitted == old(emitted) + ArrayEvents(entries)
      ensures proxy.connection.Valid() && Registers(old(proxy.connection.actors), proxy.connection.actors, BatchSources(entries))
    {
      for i := 0 to |entries|
        invariant emitted == old(emitted) + ArrayEvents(entries[..i])
        invariant proxy.connection.Valid() && Registers(old(proxy.connection.actors), proxy.connection.actors, BatchSources(entries[..i]))
      {
        ArrayStep(entries, i);
        ghost var before := proxy.connection.actors;
        EmitEntry(entries[i]);
        RegistersThen(old(proxy.connection.actors), before, proxy.connection.actors, BatchSources(entries[..i]), EntrySources(entries[i]));
      }
      assert entries[..|entries|] == entries;
    }

    /** One entry of the array shape. */
    method EmitEntry(e: ResourceEntry)
      requires proxy.connection.Valid()
      modifies this`emitted, proxy.connection`actors
      ensures emitted == old(emitted) + EntryEvents(e)
      ensures proxy.connection.Valid() && Registers(old(proxy.connection.actors), proxy.connection.actors, EntrySources(e))
    {
      match e
      case SourceBatch(sources) =>
        var made := MakeProxies(sources);
        emitted := emitted + [SourcesEvent(made)];
      case StateBatch(states) =>
        EmitStates(states);
        RegistersNothing(proxy.connection.actors);
      case OtherBatch(t, payload) =>
        emitted := emitted + [NamedEvent(t, payload)];
        RegistersNothing(proxy.connection.actors);
    }

    /** A `thread-state` entry: one event per state, in order. */
    method EmitStates(states: seq<ThreadState>)
      modifies this`emitted
      ensures emitted == old(emitted) + StateEvents(states)
    {
      for j := 0 to |states|
        invariant emitted == old(emitted) + StateEvents(states[..j])
      {
        assert states[..j + 1][..j] == states[..j];
        emitted := emitted + [ThreadStateEvent(states[j])];
      }
      assert states[..|states|] == states;
    }

    method EmitForms(resources: seq<FormEntry>)
      requires proxy.connection.Valid()
      modifies this`emitted, proxy.connection`actors
      ensures emitted == old(emitted) + FormEvents(resources)
      ensures proxy.connection.Valid() && Registers(old(proxy.connection.actors), proxy.connection.actors, FormSources(resources))
    {
      for i := 0 to |resources|
        invariant emitted == old(emitted) + FormEvents(resources[..i])
        invariant proxy.connection.Valid() && Registers(old(proxy.connection.actors), proxy.connection.actors, FormSources(resources[..i]))
      {
        FormStep(resources, i);
        ghost var before := proxy.connection.actors;
        EmitForm(resources[i]);
        RegistersThen(old(proxy.connection.actors), before, proxy.connection.actors, FormSources(resources[..i]), FormSources1(resources[i]));
      }
      assert resources[..|resources|] == resources;
    }

    /** One resource of the form shape; a resource of an unknown type is passed over. */
    method EmitForm(r: FormEntry)
      requires proxy.connection.Valid()
      modifies this`emitted, proxy.connection`actors
      ensures emitted == old(emitted) + FormEvents1(r)
      ensures proxy.connection.Valid() && Registers(old(proxy.connection.actors), proxy.connection.actors, FormSources1(r))
    {
      match r
      case SourceForm(source) =>
        var made := MakeProxies([source]);
        assert made == [SourceActor(source, Remote)];
        emitted := emitted + [SourcesEvent(made)];
      case StateForm(state) =>
        emitted := emitted + [ThreadStateEvent(state)];
        RegistersNothing(proxy.connection.actors);
      case ConsoleForm(message) =>
        emitted := emitted + [ConsoleMessagesEvent([message])];
        RegistersNothing(proxy.connection.actors);
      case ErrorForm(pageError) =>
        emitted := emitted + [ErrorMessagesEvent([pageError])];
        RegistersNothing(proxy.connection.actors);
      case UnknownForm(_) =>
        RegistersNothing(proxy.connection.actors);
    }

    /** `new SourceActorProxy(source, connection)` for each source in order: each registers itself. */
    method MakeProxies(sources: seq<Source>) returns (made: seq<SourceActor>)
      requires proxy.connection.Valid()
      modifies proxy.connection`actors
      ensures made == Proxies(sources)
      ensures proxy.connection.Valid() && Registers(old(proxy.connection.actors), proxy.connection.actors, sources)
    {
      made := [];
      for k := 0 to |sources|
        invariant made == Proxies(sources[..k])
        invariant proxy.connection.Valid() && Registers(old(proxy.connection.actors), proxy.connection.actors, sources[..k])
      {
        assert sources[..k + 1] == sources[..k] + [sources[k]];
        ghost var before := proxy.connection.actors;
        var _ := new ActorProxy(sources[k].actor, [], proxy.connection);
        assert Registers(before, proxy.connection.actors, [sources[k]]);
        RegistersThen(old(proxy.connection.actors), before, proxy.connection.actors, sources[..k], [sources[k]]);
        made := made + [SourceActor(sources[k], Remote)];
      }
      assert sources[..|sources|] == sources;
    }

    /**
     * `onSources`' handler: for each announced source in order, awaits its
     * source-mapping info (created from `created[i]` when the manager has
     * none) and collects the sources it lists, plus the announced source
     * itself unless it is among them.
     */
    method OnSources(manager: SourceMapsManager, underlying: seq<SourceActor>, created: seq<SourceMappingInfo>)
      returns (all: seq<SourceActor>, ghost used: seq<SourceMappingInfo>)
      requires manager.Valid() && |created| == |underlying|
      modifies manager
      ensures manager.Valid() && |used| == |underlying| && all == Mapped(underlying, used)
      ensures forall i :: 0 <= i < |underlying| ==> manager.Settled(underlying[i].Name()) == Some(used[i])
    {
      all, used := [], [];
      for i := 0 to |underlying|
        invariant manager.Valid() && |used| == i && all == Mapped(underlying[..i], used)
        invariant forall k :: 0 <= k < i ==> manager.Settled(underlying[k].Name()) == Some(used[k])
      {
        var info := AwaitInfo(manager, underlying[i], created[i]);
        assert underlying[..i + 1][..i] == underlying[..i] && (used + [info])[..i] == used;
        assert Mapped(underlying[..i + 1], used + [info]) == all + Block(underlying[i], info);
        all := all + info.sources;
        if underlying[i] !in info.sources {
          all := all + [underlying[i]];
        }
        used := used + [info];
      }
      assert underlying[..|underlying|] == underlying;
    }

    /**
     * The awaited `getOrCreateSourceMappingInfo` of one announced source: the
     * info the manager already settled for its actor, else `created`; no
     * other actor's info changes.
     */
    static method AwaitInfo(manager: SourceMapsManager, u: SourceActor, created: SourceMappingInfo) returns (info: SourceMappingInfo)
      requires manager.Valid()
      modifies manager
      ensures manager.Valid() && manager.Settled(u.Name()) == Some(info)
      ensures info == if old(manager.Settled(u.Name())).Some? then old(manager.Settled(u.Name())).value else created
      ensures forall a :: a != u.Name() ==> manager.Settled(a) == old(manager.Settled(a))
    {
      var _ := manager.GetOrCreateSourceMappingInfo(u.source, created);
      info := manager.Settled(u.Name()).value;
    }
  }
}
