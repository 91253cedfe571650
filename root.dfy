/**
 * The proxy of the root actor: the memoised `getRoot` request and the
 * proxies it names, the polled tab list diffed into created and closed
 * tabs, and the dispatch of the root's unsolicited messages.
 */
module Roots {
  import opened Wrappers
  import opened Text
  import opened ActorProxies

  /** What the root proxy emits to its listeners. */
  datatype RootEvent =
    | TabOpened(tab: ActorProxy)
    | TabClosed(tab: ActorProxy)
    | Init(message: Message)
    | TabListChanged
    | AddonListChanged

  /**
   * `isEvent`: a message with a type or an application type. Whatever the
   * root emits is such a message; any other would only be warned about.
   */
  predicate IsEvent(m: Message): (r: bool)
    ensures Dispatch(m).Emit? ==> r
    ensures !r ==> Dispatch(m) == Warn
  {
    Truthy(m.msgType) || Truthy(m.applicationType)
  }

  /**
   * The root's reading of messages differs from the base reading, which
   * only looks at the type: a greeting with an application type and no
   * type is an event to the root and an answer to the base, while every
   * message the base reads as an event (no error) is one to the root too.
   */
  lemma IsEventAgainstBase(m: Message, responseTypes: seq<string>)
    ensures Classify(m, responseTypes) == Event ==> IsEvent(m)
    ensures !Truthy(m.error) && !Truthy(m.msgType) && Truthy(m.applicationType) ==>
      IsEvent(m) && Classify(m, responseTypes) == Answer
    ensures !IsEvent(m) ==> Classify(m, responseTypes) != Event
  {
  }

  /** What `handleEvent` does with a message. */
  datatype Handling = Emit(event: RootEvent) | Ignore | Warn

  /**
   * `handleEvent`'s choice: an application type always means `init`;
   * otherwise the two list changes are passed on under their own name,
   * `forwardingCancelled` is dropped silently and anything else is only
   * warned about.
   */
  function Dispatch(m: Message): (r: Handling)
    ensures r.Emit? && r.event.Init? <==> Truthy(m.applicationType)
    ensures r == Emit(TabListChanged) <==> !Truthy(m.applicationType) && m.msgType == Some("tabListChanged")
    ensures r == Emit(AddonListChanged) <==> !Truthy(m.applicationType) && m.msgType == Some("addonListChanged")
    ensures r == Ignore <==> !Truthy(m.applicationType) && m.msgType == Some("forwardingCancelled")
    ensures r.Emit? ==> r.event.Init? || r.event.TabListChanged? || r.event.AddonListChanged?
  {
    if Truthy(m.applicationType) then Emit(Init(m))
    else if m.msgType == Some("tabListChanged") then Emit(TabListChanged)
    else if m.msgType == Some("addonListChanged") then Emit(AddonListChanged)
    else if m.msgType != Some("forwardingCancelled") then Warn
    else Ignore
  }

  /**
   * The ids of `ids` that are not in `known`, in order and with repeats: the
   * ids that need a new proxy, and the known ids missing from a new answer.
   */
  function Unknown(ids: seq<string>, known: set<string>): (r: seq<string>)
    ensures forall x :: x in r <==> x in ids && x !in known
  {
    if ids == [] then []
    else Unknown(ids[..|ids| - 1], known) + (if ids[|ids| - 1] in known then [] else [ids[|ids| - 1]])
  }

  /** Each id at its first occurrence: the key order of a `Map` filled from `ids`. */
  function FirstOccurrences(ids: seq<string>): (r: seq<string>)
  {
    if ids == [] then []
    else
      var p := FirstOccurrences(ids[..|ids| - 1]);
      if ids[|ids| - 1] in p then p else p + [ids[|ids| - 1]]
  }

  /** The first occurrences list every id once and nothing else. */
  lemma {:induction false} FirstOccurrencesListsOnce(ids: seq<string>)
    ensures ListsOnce(FirstOccurrences(ids), Ids(ids))
  {
    if ids != [] {
      var init := ids[..|ids| - 1];
      FirstOccurrencesListsOnce(init);
      assert ids == init + [ids[|ids| - 1]];
      assert Ids(ids) == Ids(init) + {ids[|ids| - 1]};
      if ids[|ids| - 1] !in FirstOccurrences(init) {
        ListsOnceAppend(FirstOccurrences(init), Ids(init), ids[|ids| - 1]);
      }
    }
  }

  /** The `tabOpened` events for the created proxies, in order. */
  function OpenedEvents(tabs: seq<ActorProxy>): (r: seq<RootEvent>)
    ensures |r| == |tabs| && forall i :: 0 <= i < |tabs| ==> r[i] == TabOpened(tabs[i])
  {
    seq(|tabs|, i requires 0 <= i < |tabs| => TabOpened(tabs[i]))
  }

  /**
   * The `tabClosed` events for the names of `order` that are not in `now`,
   * in order; `order` lists the keys of `tabs`, so every such name has a proxy.
   */
  function Closings(order: seq<string>, now: set<string>, tabs: map<string, ActorProxy>): seq<RootEvent> {
    if order == [] then []
    else
      var last := order[|order| - 1];
      Closings(order[..|order| - 1], now, tabs) + (if last in now || last !in tabs then [] else [TabClosed(tabs[last])])
  }

  /** Each id of the old order that is gone from the answer closes its own proxy, in the old order, and no other closes. */
  lemma {:induction false} ClosingsAreGone(order: seq<string>, now: set<string>, tabs: map<string, ActorProxy>)
    requires forall x :: x in order ==> x in tabs
    ensures |Closings(order, now, tabs)| == |Unknown(order, now)|
    ensures forall i :: 0 <= i < |Unknown(order, now)| ==> Closings(order, now, tabs)[i] == TabClosed(tabs[Unknown(order, now)[i]])
  {
    if order != [] {
      ClosingsAreGone(order[..|order| - 1], now, tabs);
    }
  }

  lemma OpenedEventsAppend(before: seq<ActorProxy>, after: seq<ActorProxy>)
    requires after == before || (|after| == |before| + 1 && after == before + [after[|before|]])
    ensures OpenedEvents(after) == OpenedEvents(before) + (if after == before then [] else [TabOpened(after[|before|])])
  {
  }

  /** The ids a sequence holds. */
  function Ids(s: seq<string>): set<string> {
    set x | x in s
  }

  /** `base` with each entry of `current` whose key is not in `known` laid over it. */
  function WithNew<V>(base: map<string, V>, current: map<string, V>, known: set<string>): map<string, V> {
    base + map id | id in current.Keys - known :: current[id]
  }

  /** Taking the `i`-th id extends each of the ghost summaries of the answer by that id. */
  lemma StepFacts(ids: seq<string>, i: nat, known: set<string>)
    requires i < |ids|
    ensures Ids(ids[..i + 1]) == Ids(ids[..i]) + {ids[i]}
    ensures Unknown(ids[..i + 1], known) == Unknown(ids[..i], known) + (if ids[i] in known then [] else [ids[i]])
    ensures FirstOccurrences(ids[..i + 1]) ==
      (if ids[i] in FirstOccurrences(ids[..i]) then FirstOccurrences(ids[..i]) else FirstOccurrences(ids[..i]) + [ids[i]])
    ensures ids[i] in FirstOccurrences(ids[..i]) <==> ids[i] in Ids(ids[..i])
  {
    assert ids[..i + 1][..i] == ids[..i];
    assert ids[..i + 1] == ids[..i] + [ids[i]];
    FirstOccurrencesListsOnce(ids[..i]);
  }

  /** Laying one more entry over the registrations. */
  lemma WithNewStep<V>(base: map<string, V>, current: map<string, V>, known: set<string>, id: string, v: V)
    ensures id in known ==> WithNew(base, current[id := v], known) == WithNew(base, current, known)
    ensures id !in known ==> WithNew(base, current[id := v], known) == WithNew(base, current, known)[id := v]
  {
  }

  /** The state of the first half of the diff after the first `i` ids of the answer. */
  ghost predicate Opening(ids: seq<string>, i: nat, current: map<string, ActorProxy>, order: seq<string>, created: seq<ActorProxy>,
                          tabs: map<string, ActorProxy>)
  {
    OpeningTabs(ids, i, current, order, tabs) && OpeningCreated(ids, i, created, tabs)
  }

  /** The tabs gathered so far: one per id seen, in first-seen order, known ids keeping their proxy. */
  ghost predicate OpeningTabs(ids: seq<string>, i: nat, current: map<string, ActorProxy>, order: seq<string>, tabs: map<string, ActorProxy>)
  {
    && i <= |ids|
    && current.Keys == Ids(ids[..i]) && order == FirstOccurrences(ids[..i])
    && (forall id :: id in current ==> current[id].name == id)
    && (forall id :: id in current && id in tabs ==> current[id] == tabs[id])
  }

  /** The proxies created so far: one per occurrence of an id not known before. */
  ghost predicate OpeningCreated(ids: seq<string>, i: nat, created: seq<ActorProxy>, tabs: map<string, ActorProxy>)
  {
    && i <= |ids|
    && |created| == |Unknown(ids[..i], tabs.Keys)|
    && (forall k :: 0 <= k < |created| ==> created[k].name == Unknown(ids[..i], tabs.Keys)[k])
  }

  /** Taking the `i`-th id of the answer, with its proxy `tab`, keeps the summary of the first half of the diff. */
  lemma OpeningStep(ids: seq<string>, i: nat, current: map<string, ActorProxy>, order: seq<string>, created: seq<ActorProxy>,
                           tabs: map<string, ActorProxy>, tab: ActorProxy)
    requires i < |ids| && Opening(ids, i, current, order, created, tabs)
    requires tab.name == ids[i] && (ids[i] in tabs ==> tab == tabs[ids[i]])
    ensures Opening(ids, i + 1, current[ids[i] := tab], if ids[i] in order then order else order + [ids[i]],
                    if ids[i] in tabs then created else created + [tab], tabs)
  {
    StepFacts(ids, i, tabs.Keys);
    OpeningTabsStep(ids, i, current, order, tabs, tab);
    OpeningCreatedStep(ids, i, created, tabs, tab);
  }

  lemma OpeningTabsStep(ids: seq<string>, i: nat, current: map<string, ActorProxy>, order: seq<string>,
                        tabs: map<string, ActorProxy>, tab: ActorProxy)
    requires i < |ids| && OpeningTabs(ids, i, current, order, tabs)
    requires tab.name == ids[i] && (ids[i] in tabs ==> tab == tabs[ids[i]])
    requires Ids(ids[..i + 1]) == Ids(ids[..i]) + {ids[i]}
    requires FirstOccurrences(ids[..i + 1]) ==
      (if ids[i] in FirstOccurrences(ids[..i]) then FirstOccurrences(ids[..i]) else FirstOccurrences(ids[..i]) + [ids[i]])
    ensures OpeningTabs(ids, i + 1, current[ids[i] := tab], if ids[i] in order then order else order + [ids[i]], tabs)
  {
  }

  lemma OpeningCreatedStep(ids: seq<string>, i: nat, created: seq<ActorProxy>, tabs: map<string, ActorProxy>, tab: ActorProxy)
    requires i < |ids| && OpeningCreated(ids, i, created, tabs) && tab.name == ids[i]
    requires Unknown(ids[..i + 1], tabs.Keys) == Unknown(ids[..i], tabs.Keys) + (if ids[i] in tabs.Keys then [] else [ids[i]])
    ensures OpeningCreated(ids, i + 1, if ids[i] in tabs then created else created + [tab], tabs)
  {
  }

  /** The answer of `getRoot`: the names of the actors the root lists. */
  datatype RootResponse = RootResponse(preferenceActor: string, addonsActor: Option<string>, deviceActor: string)

  const RootName := "root"

  /** The proxies of the actors a `getRoot` answer names, each reused when registered. */
  method Listed(connection: DebugConnection, response: RootResponse) returns (preference: ActorProxy, addons: Option<ActorProxy>, device: ActorProxy)
    requires connection.Valid()
    modifies connection`actors
    ensures connection.Valid()
    ensures addons.Some? <==> Truthy(response.addonsActor)
    ensures preference.name == response.preferenceActor && device.name == response.deviceActor
    ensures addons.Some? ==> addons.value.name == response.addonsActor.value
    ensures response.preferenceActor in connection.actors && preference == connection.actors[response.preferenceActor]
    ensures response.deviceActor in connection.actors && device == connection.actors[response.deviceActor]
    ensures addons.Some? ==> addons.value.name in connection.actors && addons.value == connection.actors[addons.value.name]
    ensures forall n :: n in old(connection.actors) ==> n in connection.actors && connection.actors[n] == old(connection.actors)[n]
    ensures forall n :: n in connection.actors && n !in old(connection.actors) ==> fresh(connection.actors[n])
    ensures connection.actors.Keys == old(connection.actors).Keys + {response.preferenceActor, response.deviceActor}
      + (if Truthy(response.addonsActor) then {response.addonsActor.value} else {})
  {
    preference := connection.GetOrCreate(response.preferenceActor, []);
    addons := None;
    if Truthy(response.addonsActor) {
      var a := connection.GetOrCreate(response.addonsActor.value, []);
      addons := Some(a);
    }
    device := connection.GetOrCreate(response.deviceActor, []);
  }

  class RootProxy {
    const proxy: ActorProxy
    /** the known tabs by descriptor actor id */
    var tabs: map<string, ActorProxy>
    /** the ids of `tabs` in the map's insertion order */
    var tabOrder: seq<string>
    var emitted: seq<RootEvent>
    /** messages `handleEvent` only warned about */
    var warned: seq<Message>

    ghost predicate Valid()
      reads this`tabs, this`tabOrder
    {
      proxy.name == RootName && ListsOnce(tabOrder, tabs.Keys) && (forall id :: id in tabs ==> tabs[id].name == id)
    }

    /** The root proxy registers under the name `root` and knows no tabs. */
    constructor (connection: DebugConnection)
      requires connection.Valid()
      modifies connection`actors
      ensures Valid() && fresh(proxy) && proxy.name == RootName && proxy.connection == connection && proxy.Valid()
      ensures connection.Valid() && connection.actors == old(connection.actors)[RootName := proxy]
      ensures tabs == map[] && tabOrder == [] && emitted == [] && warned == []
    {
      proxy := new ActorProxy(RootName, [], connection);
      tabs, tabOrder, emitted, warned := map[], [], [], [];
    }

    /** `handleEvent`: emits, ignores or warns as `Dispatch` says. */
    method HandleEvent(m: Message)
      modifies this`emitted, this`warned
      ensures Dispatch(m).Emit? ==> emitted == old(emitted) + [Dispatch(m).event] && warned == old(warned)
      ensures Dispatch(m) == Warn ==> emitted == old(emitted) && warned == old(warned) + [m]
      ensures Dispatch(m) == Ignore ==> emitted == old(emitted) && warned == old(warned)
    {
      if Truthy(m.applicationType) {
        emitted := emitted + [Init(m)];
      } else if m.msgType == Some("tabListChanged") {
        emitted := emitted + [TabListChanged];
      } else if m.msgType == Some("addonListChanged") {
        emitted := emitted + [AddonListChanged];
      } else if m.msgType != Some("forwardingCancelled") {
        warned := warned + [m];
      }
    }

    /**
     * `fetchRoot`, with `response` the answer to the memoised `getRoot`
     * request: the preference and device proxies always, the addons proxy
     * only when the answer names one, each reused when registered.
     */
    method FetchRoot(response: RootResponse) returns (preference: ActorProxy, addons: Option<ActorProxy>, device: ActorProxy)
      requires Valid() && proxy.Valid() && proxy.connection.Valid()
      modifies proxy`pending, proxy`nextHandle, proxy`cached, proxy.connection`sent, proxy.connection`actors
      ensures proxy.Valid() && proxy.connection.Valid() && "getRoot" in proxy.cached
      ensures "getRoot" in old(proxy.cached) ==> proxy.connection.sent == old(proxy.connection.sent)
      ensures "getRoot" !in old(proxy.cached) ==> proxy.connection.sent == old(proxy.connection.sent) + [Request(RootName, "getRoot")]
      ensures addons.Some? <==> Truthy(response.addonsActor)
      ensures preference.name == response.preferenceActor && device.name == response.deviceActor
      ensures addons.Some? ==> addons.value.name == response.addonsActor.value
      ensures response.preferenceActor in proxy.connection.actors && preference == proxy.connection.actors[response.preferenceActor]
      ensures response.deviceActor in proxy.connection.actors && device == proxy.connection.actors[response.deviceActor]
      ensures addons.Some? ==> addons.value.name in proxy.connection.actors && addons.value == proxy.connection.actors[addons.value.name]
      ensures forall n :: n in old(proxy.connection.actors) ==>
        n in proxy.connection.actors && proxy.connection.actors[n] == old(proxy.connection.actors)[n]
      ensures forall n :: n in proxy.connection.actors && n !in old(proxy.connection.actors) ==> fresh(proxy.connection.actors[n])
      ensures proxy.connection.actors.Keys == old(proxy.connection.actors).Keys + {response.preferenceActor, response.deviceActor}
        + (if Truthy(response.addonsActor) then {response.addonsActor.value} else {})
    {
      var _ := proxy.SendCachedRequest("getRoot", "getRoot");
      preference, addons, device := Listed(proxy.connection, response);
    }

    /**
     * The diff at the heart of `fetchTabs`: known ids keep their proxy, an
     * id not known before gets a new registered proxy and a `tabOpened`
     * (once per occurrence in the answer), every known id missing from the
     * answer gets a `tabClosed` in the old order, and the answer's ids
     * become the known tabs. `created` names the new proxies in the order
     * of their `tabOpened`.
     */
    method UpdateTabs(ids: seq<string>) returns (ghost created: seq<ActorProxy>)
      requires Valid() && proxy.connection.Valid()
      modifies this`tabs, this`tabOrder, this`emitted, proxy.connection`actors
      ensures Valid() && proxy.connection.Valid()
      ensures tabs.Keys == Ids(ids) && tabOrder == FirstOccurrences(ids)
      ensures forall id :: id in tabs && id in old(tabs) ==> tabs[id] == old(tabs[id])
      ensures forall id :: id in tabs && id !in old(tabs) ==> fresh(tabs[id])
      ensures |created| == |Unknown(ids, old(tabs).Keys)|
      ensures forall k :: 0 <= k < |created| ==> created[k].name == Unknown(ids, old(tabs).Keys)[k]
      ensures emitted == old(emitted) + OpenedEvents(created) + Closings(old(tabOrder), tabs.Keys, old(tabs))
      ensures proxy.connection.actors == WithNew(old(proxy.connection.actors), tabs, old(tabs).Keys)
    {
      var current, order;
      current, order, created := OpenTabs(ids);
      CloseTabs(current.Keys);
      FirstOccurrencesListsOnce(ids);
      tabs, tabOrder := current, order;
    }

    /** The first half of the diff: the proxies of the answer's ids, in `Map` order, announcing the new ones. */
    method OpenTabs(ids: seq<string>) returns (current: map<string, ActorProxy>, order: seq<string>, ghost created: seq<ActorProxy>)
      requires Valid() && proxy.connection.Valid()
      modifies this`emitted, proxy.connection`actors
      ensures Valid() && proxy.connection.Valid()
      ensures current.Keys == Ids(ids) && order == FirstOccurrences(ids)
      ensures forall id :: id in current ==> current[id].name == id
      ensures forall id :: id in current && id in tabs ==> current[id] == tabs[id]
      ensures forall id :: id in current && id !in tabs ==> fresh(current[id])
      ensures |created| == |Unknown(ids, tabs.Keys)|
      ensures forall k :: 0 <= k < |created| ==> created[k].name == Unknown(ids, tabs.Keys)[k]
      ensures emitted == old(emitted) + OpenedEvents(created)
      ensures proxy.connection.actors == WithNew(old(proxy.connection.actors), current, tabs.Keys)
    {
      current, order, created := map[], [], [];
      for i := 0 to |ids|
        invariant Valid() && proxy.connection.Valid()
        invariant Opened(ids, i, current, order, created, old(proxy.connection.actors), old(emitted))
        invariant forall id :: id in current && id !in tabs ==> fresh(current[id])
      {
        current, order, created := OpenOne(ids, i, current, order, created, old(proxy.connection.actors), old(emitted));
      }
      assert ids[..|ids|] == ids;
    }

    /**
     * The first half of the diff after the first `i` ids of the answer,
     * from the registrations `actors0` and the events `emitted0` it started with.
     */
    ghost predicate Opened(ids: seq<string>, i: nat, current: map<string, ActorProxy>, order: seq<string>, created: seq<ActorProxy>,
                           actors0: map<string, ActorProxy>, emitted0: seq<RootEvent>)
      reads this`tabs, this`emitted, proxy.connection`actors
    {
      && Opening(ids, i, current, order, created, tabs)
      && emitted == emitted0 + OpenedEvents(created)
      && proxy.connection.actors == WithNew(actors0, current, tabs.Keys)
    }

    /** One step of the first half of the diff. */
    method OpenOne(ids: seq<string>, i: nat, current: map<string, ActorProxy>, order: seq<string>, ghost created: seq<ActorProxy>,
                   ghost actors0: map<string, ActorProxy>, ghost emitted0: seq<RootEvent>)
      returns (current': map<string, ActorProxy>, order': seq<string>, ghost created': seq<ActorProxy>)
      requires i < |ids| && Valid() && proxy.connection.Valid() && Opened(ids, i, current, order, created, actors0, emitted0)
      modifies this`emitted, proxy.connection`actors
      ensures Valid() && proxy.connection.Valid() && Opened(ids, i + 1, current', order', created', actors0, emitted0)
      ensures forall id :: id in current' && id !in tabs ==> (id in current && current'[id] == current[id]) || fresh(current'[id])
    {
      var id := ids[i];
      ghost var emitted1 := emitted;
      assert emitted1 == emitted0 + OpenedEvents(created);
      assert proxy.connection.actors == WithNew(actors0, current, tabs.Keys);
      var tab := TakeTab(id);
      WithNewStep(actors0, current, tabs.Keys, id, tab);
      if id in tabs {
        created' := created;
      } else {
        created' := created + [tab];
        OpenedEventsAppend(created, created');
        Associative(emitted0, OpenedEvents(created), [TabOpened(tab)]);
      }
      current' := current[id := tab];
      order' := if id in order then order else order + [id];
      OpeningStep(ids, i, current, order, created, tabs, tab);
    }

    /** The second half of the diff: a `tabClosed` for each known tab whose id is not in `now`, in the old order. */
    method CloseTabs(now: set<string>)
      requires Valid()
      modifies this`emitted
      ensures emitted == old(emitted) + Closings(tabOrder, now, tabs)
    {
      for j := 0 to |tabOrder|
        invariant emitted == old(emitted) + Closings(tabOrder[..j], now, tabs)
      {
        assert tabOrder[..j + 1] == tabOrder[..j] + [tabOrder[j]];
        assert tabOrder[..j + 1][..j] == tabOrder[..j];
        if tabOrder[j] !in now {
          emitted := emitted + [TabClosed(tabs[tabOrder[j]])];
        }
      }
      assert tabOrder[..|tabOrder|] == tabOrder;
    }

    /** One id of the answer: the known proxy, or a new registered one announced with `tabOpened`. */
    method TakeTab(id: string) returns (tab: ActorProxy)
      requires Valid() && proxy.connection.Valid()
      modifies this`emitted, proxy.connection`actors
      ensures Valid() && proxy.connection.Valid() && tab.name == id
      ensures id in tabs ==> tab == tabs[id] && emitted == old(emitted) && proxy.connection.actors == old(proxy.connection.actors)
      ensures id !in tabs ==>
        (fresh(tab) && emitted == old(emitted) + [TabOpened(tab)]
         && proxy.connection.actors == old(proxy.connection.actors)[id := tab])
    {
      if id in tabs {
        tab := tabs[id];
      } else {
        tab := new ActorProxy(id, [], proxy.connection);
        emitted := emitted + [TabOpened(tab)];
      }
    }

    /** The `listTabs` requests of `fetchTabs` that are answered with no tabs. */
    method Poll(answers: seq<seq<string>>) returns (polls: nat)
      requires proxy.Valid() && proxy.connection.Valid()
      modifies proxy`pending, proxy`nextHandle, proxy.connection`sent
      ensures proxy.Valid() && proxy.connection.Valid()
      ensures polls <= |answers| && (forall k :: 0 <= k < polls ==> answers[k] == [])
      ensures polls < |answers| ==> answers[polls] != []
      ensures |proxy.connection.sent| == |old(proxy.connection.sent)| + polls
      ensures forall k :: |old(proxy.connection.sent)| <= k < |proxy.connection.sent| ==> proxy.connection.sent[k] == Request(proxy.name, "listTabs")
    {
      polls := 0;
      while polls < |answers| && answers[polls] == []
        invariant polls <= |answers| && forall k :: 0 <= k < polls ==> answers[k] == []
        invariant proxy.Valid() && proxy.connection.Valid()
        invariant |proxy.connection.sent| == |old(proxy.connection.sent)| + polls
        invariant forall k :: |old(proxy.connection.sent)| <= k < |proxy.connection.sent| ==> proxy.connection.sent[k] == Request(proxy.name, "listTabs")
        decreases |answers| - polls
      {
        var _ := proxy.SendRequest("listTabs");
        polls := polls + 1;
      }
    }

    /**
     * `fetchTabs`, with `answers` the successive answers to `listTabs`: it
     * asks again while the answer is empty and diffs the first non-empty
     * answer into the known tabs. When every given answer is empty it
     * returns `None` (the source keeps polling).
     */
    method FetchTabs(answers: seq<seq<string>>) returns (polls: nat, r: Option<map<string, ActorProxy>>, ghost created: seq<ActorProxy>)
      requires Valid() && proxy.Valid() && proxy.connection.Valid()
      modifies this`tabs, this`tabOrder, this`emitted, proxy`pending, proxy`nextHandle, proxy.connection`actors, proxy.connection`sent
      ensures Valid() && proxy.Valid() && proxy.connection.Valid()
      ensures polls <= |answers| && forall k :: 0 <= k < polls - 1 ==> answers[k] == []
      ensures r.None? ==>
        (polls == |answers| && (forall k :: 0 <= k < |answers| ==> answers[k] == [])
         && tabs == old(tabs) && tabOrder == old(tabOrder) && emitted == old(emitted)
         && proxy.connection.actors == old(proxy.connection.actors))
      ensures r.Some? ==> 0 < polls && answers[polls - 1] != [] && r.value == tabs
      ensures r.Some? ==> var ids := answers[polls - 1];
        && tabs.Keys == Ids(ids) && tabOrder == FirstOccurrences(ids)
        && (forall id :: id in tabs && id in old(tabs) ==> tabs[id] == old(tabs[id]))
        && (forall id :: id in tabs && id !in old(tabs) ==> fresh(tabs[id]))
        && |created| == |Unknown(ids, old(tabs).Keys)|
        && (forall k :: 0 <= k < |created| ==> created[k].name == Unknown(ids, old(tabs).Keys)[k])
        && emitted == old(emitted) + OpenedEvents(created) + Closings(old(tabOrder), tabs.Keys, old(tabs))
        && proxy.connection.actors == WithNew(old(proxy.connection.actors), tabs, old(tabs).Keys)
      ensures |proxy.connection.sent| == |old(proxy.connection.sent)| + polls
      ensures forall k :: |old(proxy.connection.sent)| <= k < |proxy.connection.sent| ==> proxy.connection.sent[k] == Request(RootName, "listTabs")
    {
      polls := Poll(answers);
      if polls == |answers| {
        return polls, None, [];
      }
      var ids := answers[polls];
      var _ := proxy.SendRequest("listTabs");
      polls := polls + 1;
      created := UpdateTabs(ids);
      r := Some(tabs);
    }
  }
}
