/**
 * The actor layer: a proxy per remote actor, correlating requests with the
 * answers that come back in send order, memoising requests by key and
 * telling events from answers; and the connection that routes each inbound
 * message to the proxy registered under the message's sender. The
 * transport is a log of the requests sent.
 */
module ActorProxies {
  import opened Wrappers
  import opened Text

  /** The fields of an inbound message that routing and classification look at. */
  datatype Message = Message(from: string, error: Option<string>, msgType: Option<string>, applicationType: Option<string>)

  /** An outbound request: the actor it goes to and its `type`. */
  datatype Request = Request(to: string, kind: string)

  /** How a pending request was settled: the request's handle and the message that settled it. */
  datatype Settlement = Resolved(handle: nat, message: Message) | Rejected(handle: nat, message: Message)

  /** The three ways `receiveResponse` reads a message. */
  datatype Reading = ErrorAnswer | Event | Answer

  /**
   * `receiveResponse`'s reading: a message is an error answer exactly when
   * it has an error, an event exactly when it has no error and a type not
   * among the response types, and an answer otherwise.
   */
  function Classify(m: Message, responseTypes: seq<string>): (r: Reading)
    ensures r == ErrorAnswer <==> m.error.Some? && m.error.value != ""
    ensures r == Event <==>
      !Truthy(m.error) && m.msgType.Some? && m.msgType.value != "" && m.msgType.value !in responseTypes
    ensures r == Answer <==>
      !Truthy(m.error) && (!Truthy(m.msgType) || m.msgType.value in responseTypes)
  {
    if Truthy(m.error) then ErrorAnswer
    else if Truthy(m.msgType) && m.msgType.value !in responseTypes then Event
    else Answer
  }

  /** The request bookkeeping of one proxy: requests awaiting an answer, oldest first, and what happened so far. */
  datatype Queue = Queue(pending: seq<nat>, settled: seq<Settlement>, events: seq<Message>)

  /** The handles of settlements, in settling order. */
  function Handles(s: seq<Settlement>): (r: seq<nat>)
    ensures |r| == |s| && forall i :: 0 <= i < |s| ==> r[i] == s[i].handle
  {
    if s == [] then [] else Handles(s[..|s| - 1]) + [s[|s| - 1].handle]
  }

  /** Every request ever sent, settled ones first in settling order, then the pending ones. */
  function Requests(q: Queue): seq<nat> {
    Handles(q.settled) + q.pending
  }

  /**
   * `receiveResponse` on the bookkeeping: an error answer rejects the
   * oldest pending request, an event is handed on and settles nothing, any
   * other message resolves the oldest pending request; with nothing
   * pending an answer settles nothing.
   */
  function Receive(q: Queue, m: Message, responseTypes: seq<string>): Queue {
    match Classify(m, responseTypes)
    case Event => q.(events := q.events + [m])
    case ErrorAnswer =>
      if q.pending == [] then q else Queue(q.pending[1..], q.settled + [Rejected(q.pending[0], m)], q.events)
    case Answer =>
      if q.pending == [] then q else Queue(q.pending[1..], q.settled + [Resolved(q.pending[0], m)], q.events)
  }

  /** The bookkeeping after a run of messages. */
  function ReceiveAll(q: Queue, ms: seq<Message>, responseTypes: seq<string>): Queue
    decreases |ms|
  {
    if ms == [] then q else ReceiveAll(Receive(q, ms[0], responseTypes), ms[1..], responseTypes)
  }

  /**
   * Receiving never reorders, drops or invents a request: the settled
   * requests followed by the pending ones stay the same sequence, so the
   * request settled is always the oldest one waiting. An event settles
   * nothing, and any answer settles one request when one is pending.
   */
  lemma ReceiveKeepsRequests(q: Queue, m: Message, responseTypes: seq<string>)
    ensures var r := Receive(q, m, responseTypes);
      && Requests(r) == Requests(q)
      && (Classify(m, responseTypes) == Event ==> r.pending == q.pending && r.settled == q.settled && r.events == q.events + [m])
      && (Classify(m, responseTypes) != Event ==> r.events == q.events)
      && (Classify(m, responseTypes) != Event && q.pending != [] ==>
            (|r.settled| == |q.settled| + 1
             && r.settled[|q.settled|].handle == q.pending[0]
             && r.settled[|q.settled|].Rejected? == (Classify(m, responseTypes) == ErrorAnswer)))
  {
    var r := Receive(q, m, responseTypes);
    if Classify(m, responseTypes) != Event && q.pending != [] {
      var s := r.settled[|q.settled|];
      assert r.settled == q.settled + [s];
      assert Handles(r.settled) == Handles(q.settled) + [q.pending[0]];
      assert [q.pending[0]] + q.pending[1..] == q.pending;
    }
  }

  /** Over any run of messages the requests keep their order, and the settled ones stay a prefix of it. */
  lemma {:induction false} ReceiveAllKeepsRequests(q: Queue, ms: seq<Message>, responseTypes: seq<string>)
    ensures Requests(ReceiveAll(q, ms, responseTypes)) == Requests(q)
    ensures Handles(ReceiveAll(q, ms, responseTypes).settled) <= Requests(q)
    decreases |ms|
  {
    if ms != [] {
      ReceiveKeepsRequests(q, ms[0], responseTypes);
      ReceiveAllKeepsRequests(Receive(q, ms[0], responseTypes), ms[1..], responseTypes);
    }
  }

  /** Handles strictly increase along the sequence. */
  ghost predicate Increasing(s: seq<nat>) {
    forall i, j :: 0 <= i < j < |s| ==> s[i] < s[j]
  }

  /**
   * The bookkeeping of a proxy whose next handle is `next`: requests are
   * numbered in send order, so settled-then-pending handles increase and
   * all lie below `next`.
   */
  ghost predicate InSendOrder(q: Queue, next: nat) {
    Increasing(Requests(q)) && forall i :: 0 <= i < |Requests(q)| ==> Requests(q)[i] < next
  }

  /**
   * Requests are settled strictly in send order: a settlement's request
   * was sent before every later settlement's and before every request
   * still pending.
   */
  lemma SettledInSendOrder(q: Queue, next: nat)
    requires InSendOrder(q, next)
    ensures forall i, j :: 0 <= i < j < |q.settled| ==> q.settled[i].handle < q.settled[j].handle
    ensures forall i, j :: 0 <= i < |q.settled| && 0 <= j < |q.pending| ==> q.settled[i].handle < q.pending[j]
  {
    var all := Requests(q);
    forall i, j | 0 <= i < |q.settled| && 0 <= j < |q.pending|
      ensures q.settled[i].handle < q.pending[j]
    {
      assert all[i] == q.settled[i].handle && all[|q.settled| + j] == q.pending[j];
    }
    forall i, j | 0 <= i < j < |q.settled|
      ensures q.settled[i].handle < q.settled[j].handle
    {
      assert all[i] == q.settled[i].handle && all[j] == q.settled[j].handle;
    }
  }

  /** The routing table of the connection (`actors`) and the transport it writes to. */
  class DebugConnection {
    var actors: map<string, ActorProxy>
    /** the requests handed to the transport, in order */
    var sent: seq<Request>
    /** inbound messages from actors nobody registered, which are logged and dropped */
    var dropped: seq<Message>

    /** Each proxy is registered under its own name. */
    ghost predicate Valid()
      reads this
    {
      forall n :: n in actors ==> actors[n].name == n
    }

    constructor ()
      ensures Valid() && actors == map[] && sent == [] && dropped == []
    {
      actors, sent, dropped := map[], [], [];
    }

    /** `sendRequest`: hands the request to the transport. */
    method SendRequest(r: Request)
      modifies this`sent
      ensures sent == old(sent) + [r]
    {
      sent := sent + [r];
    }

    /** `register`: routes the proxy's name to it, replacing any proxy registered under that name. */
    method Register(a: ActorProxy)
      requires Valid()
      modifies this`actors
      ensures Valid() && actors == old(actors)[a.name := a]
    {
      actors := actors[a.name := a];
    }

    /** `unregister`: removes the proxy's name, whichever proxy that name routes to. */
    method Unregister(a: ActorProxy)
      requires Valid()
      modifies this`actors
      ensures Valid() && actors == old(actors) - {a.name}
    {
      actors := actors - {a.name};
    }

    method Has(name: string) returns (b: bool)
      ensures b <==> name in actors
    {
      b := name in actors;
    }

    /**
     * `getOrCreate`, with the factory every caller passes: a proxy for
     * `name`, which registers itself. A registered name gets its proxy and
     * nothing is created.
     */
    method GetOrCreate(name: string, responseTypes: seq<string>) returns (p: ActorProxy)
      requires Valid()
      modifies this`actors
      ensures Valid() && name in actors && p == actors[name]
      ensures name in old(actors) ==> actors == old(actors)
      ensures name !in old(actors) ==>
        (fresh(p) && actors == old(actors)[name := p]
         && p.connection == this && p.responseTypes == responseTypes && p.State() == Queue([], [], []))
    {
      if name in actors {
        p := actors[name];
      } else {
        p := new ActorProxy(name, responseTypes, this);
      }
    }

    /**
     * The transport's message handler: a message goes to the proxy
     * registered under its sender, which alone changes; a message from an
     * unknown actor is dropped.
     */
    method Deliver(m: Message)
      modifies this`dropped, actors.Values
      ensures m.from in actors ==>
        (dropped == old(dropped)
         && actors[m.from].State() == Receive(old(actors[m.from].State()), m, actors[m.from].responseTypes))
      ensures m.from !in actors ==> dropped == old(dropped) + [m]
      ensures forall p :: p in actors.Values && (m.from !in actors || p != actors[m.from]) ==> unchanged(p)
    {
      if m.from in actors {
        actors[m.from].ReceiveResponse(m);
      } else {
        dropped := dropped + [m];
      }
    }
  }

  /** `BaseActorProxy`: one remote actor's requests and events. */
  class ActorProxy {
    const name: string
    const responseTypes: seq<string>
    const connection: DebugConnection
    /** handles of the requests awaiting an answer, oldest first (`pendingRequests`) */
    var pending: seq<nat>
    var settled: seq<Settlement>
    /** the messages handed to `handleEvent` */
    var events: seq<Message>
    /** the request each memo key stands for (`cachedRequestPromises`) */
    var cached: map<string, nat>
    var nextHandle: nat

    function State(): Queue
      reads this
    {
      Queue(pending, settled, events)
    }

    ghost predicate Valid()
      reads this
    {
      InSendOrder(State(), nextHandle) && forall k :: k in cached ==> cached[k] < nextHandle
    }

    /** Constructing a proxy registers it with its connection under its name. */
    constructor (name: string, responseTypes: seq<string>, connection: DebugConnection)
      requires connection.Valid()
      modifies connection`actors
      ensures this.name == name && this.responseTypes == responseTypes && this.connection == connection
      ensures Valid() && State() == Queue([], [], []) && cached == map[] && nextHandle == 0
      ensures connection.Valid() && connection.actors == old(connection.actors)[name := this]
    {
      this.name, this.responseTypes, this.connection := name, responseTypes, connection;
      pending, settled, events, cached, nextHandle := [], [], [], map[], 0;
      new;
      connection.Register(this);
    }

    /** `sendRequest`: queues a new request behind the pending ones and sends it to this actor. */
    method SendRequest(kind: string) returns (h: nat)
      requires Valid()
      modifies this`pending, this`nextHandle, connection`sent
      ensures Valid()
      ensures h == old(nextHandle) && pending == old(pending) + [h] && nextHandle == h + 1
      ensures connection.sent == old(connection.sent) + [Request(name, kind)]
    {
      h := nextHandle;
      assert Requests(Queue(pending + [h], settled, events)) == Requests(State()) + [h];
      pending := pending + [h];
      nextHandle := nextHandle + 1;
      connection.SendRequest(Request(name, kind));
    }

    /** A request nobody awaits an answer for: sent, and not queued. */
    method SendRequestWithoutResponse(kind: string)
      modifies connection`sent
      ensures connection.sent == old(connection.sent) + [Request(name, kind)]
    {
      connection.SendRequest(Request(name, kind));
    }

    /**
     * `sendCachedRequest`: the first call with a key sends the request and
     * remembers it; every later call with that key gets the same request
     * and sends nothing.
     */
    method SendCachedRequest(key: string, kind: string) returns (h: nat)
      requires Valid()
      modifies this`pending, this`nextHandle, this`cached, connection`sent
      ensures Valid() && key in cached && h == cached[key]
      ensures key in old(cached) ==>
        h == old(cached[key]) && pending == old(pending) && cached == old(cached) && connection.sent == old(connection.sent)
      ensures key !in old(cached) ==>
        h == old(nextHandle) && pending == old(pending) + [h] && cached == old(cached)[key := h]
        && connection.sent == old(connection.sent) + [Request(name, kind)]
    {
      if key in cached {
        h := cached[key];
      } else {
        h := SendRequest(kind);
        cached := cached[key := h];
      }
    }

    /** `receiveResponse`: reads the message and settles or hands it on. */
    method ReceiveResponse(m: Message)
      modifies this`pending, this`settled, this`events
      ensures State() == Receive(old(State()), m, responseTypes)
      ensures old(Valid()) ==> Valid()
    {
      ReceiveKeepsRequests(State(), m, responseTypes);
      var reading := Classify(m, responseTypes);
      if reading == Event {
        events := events + [m];
      } else if pending != [] {
        var s := if reading == ErrorAnswer then Rejected(pending[0], m) else Resolved(pending[0], m);
        settled := settled + [s];
        pending := pending[1..];
      }
    }

    /** `dispose`: unregisters this proxy's name. */
    method Dispose()
      requires connection.Valid()
      modifies connection`actors
      ensures connection.Valid() && connection.actors == old(connection.actors) - {name}
    {
      connection.Unregister(this);
    }
  }

  /** Receiving keeps a proxy's requests in send order. */
  lemma ReceiveKeepsSendOrder(q: Queue, next: nat, m: Message, responseTypes: seq<string>)
    requires InSendOrder(q, next)
    ensures InSendOrder(Receive(q, m, responseTypes), next)
  {
    ReceiveKeepsRequests(q, m, responseTypes);
  }
}
