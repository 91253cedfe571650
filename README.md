# vscode-firefox-debug: the adapter's bookkeeping, modelled in Dafny

This project models the core of the Firefox debug adapter for VS Code. The
adapter sits between the editor, which speaks the Debug Adapter Protocol,
and Firefox, which speaks its remote debugging protocol. The model covers
the adapter's bookkeeping and decision logic:

- how breakpoints requested by the editor are kept, reused, numbered, placed
  and removed;
- logpoint messages and where breakpoints snap to;
- the pool of source actors behind each source;
- the indices of sources, the registries and the deferred map;
- the lifetime lists of threads and descriptors;
- the merge of event-breakpoint categories;
- the routing of messages to actor proxies, their request queues and memoised
  requests, and reference counts;
- the tab list, and the normalisation of resource events;
- the source-map cache;
- the session's rules for pauses, stops, console output and new sources.

Remote answers are parameters of the model. These include breakable
positions, stack frames, tab lists, parsed source maps and the answers of
the path mapper and skip-files manager. Each asynchronous handler is one
sequential step.

The files, one module each:

| file | module | source |
|---|---|---|
| wrappers.dfy | Wrappers | `Option` and small sequence facts |
| text.dfy | Text | the JavaScript string operations the source uses |
| protocol.dfy | Protocol | value shapes of the remote protocol |
| fs.dfy | Fs | src/adapter/util/fs.ts |
| registry.dfy | Registries | src/adapter/adapter/registry.ts |
| deferred_map.dfy | DeferredMaps | src/common/deferredMap.ts |
| breakpoint.dfy | Breakpoints | src/adapter/adapter/breakpoint.ts |
| logpoint.dfy | Logpoints | `convertLogpointMessage` of src/adapter/adapter/breakpointsManager.ts |
| breakpoints_manager.dfy, breakpoints_properties.dfy | BreakpointsManagers, BreakpointsProperties | src/adapter/adapter/breakpointsManager.ts |
| source.dfy | Sources | src/adapter/adapter/source.ts |
| sources_manager.dfy | SourcesManagers | src/adapter/adapter/sourcesManager.ts |
| thread.dfy | Threads | src/adapter/adapter/thread.ts |
| descriptor.dfy | Descriptors | src/adapter/adapter/descriptor.ts |
| event_breakpoints.dfy | EventBreakpoints | src/adapter/adapter/eventBreakpointsManager.ts |
| actor_proxy.dfy | ActorProxies | src/adapter/firefox/actorProxy/base.ts and src/adapter/firefox/connection.ts |
| object_grip.dfy | ObjectGrips | src/adapter/firefox/actorProxy/objectGrip.ts |
| root.dfy | Roots | src/adapter/firefox/actorProxy/root.ts |
| target.dfy | Targets | src/adapter/firefox/actorProxy/target.ts |
| source_maps.dfy | SourceMaps | src/adapter/firefox/sourceMaps/manager.ts |
| session.dfy | Session | the decision rules of src/adapter/firefoxDebugSession.ts |

Objects that the source updates in place are Dafny classes. Examples are
`BreakpointInfo`, `SourceAdapter`, the registries, the deferred map, the
proxies, the connection and the managers. Their methods carry `modifies`
clauses and state the new state outright. Pure computations are functions,
and the properties that relate several calls are lemmas.

Promises are integer handles. A map records what each settled handle
resolved to. So "the same promise" is "the same handle", and "resolves to v"
is an entry in that map.

## Model

| member | source | states |
|---|---|---|
| Fs.NormalizePath | src/adapter/util/fs.ts:19-25 | The result equals the input unless the platform is Windows and the path starts with a drive prefix. Then every character of it is lower-cased. |
| Fs.NormalizePathIdempotent | src/adapter/util/fs.ts:19-25 | Normalising an already normalised key changes nothing. |
| Fs.NormalizePathFoldsCase | src/adapter/util/fs.ts:19-25 | On Windows, two drive paths that differ only in letter case get the same key. |
| Registries.Registry.constructor | src/adapter/adapter/registry.ts:9-10 | A new registry is empty and its next id is 1. |
| Registries.Registry.Register | src/adapter/adapter/registry.ts:15-20 | The id returned is the old `nextId`, which then grows by one. The id was not in use. After the call, `find(id)` is the object, `has(id)` holds, the count grew by one, the object is announced to subscribers and the id joins the iteration order. |
| Registries.Registry.Unregister | src/adapter/adapter/registry.ts:22-24 | It returns true exactly when the id was registered. It removes that entry and no other, and leaves `nextId` alone, so ids are never reused. |
| Registries.Registry.Entries | src/adapter/adapter/registry.ts:38-40 | Iteration yields the registered objects in the order of their ids. |
| Registries.Registry.Map | src/adapter/adapter/registry.ts:42-48 | The result is `f` of every registered object, one each, in iteration order. |
| Registries.Registry.Filter | src/adapter/adapter/registry.ts:50-58 | The result is exactly the registered objects that satisfy `f`, in iteration order. |
| Registries.Registry.Has | src/adapter/adapter/registry.ts:26-28 | An id is registered iff `find` gives an object for it. A registered id is one that was handed out. |
| Registries.Registry.Find | src/adapter/adapter/registry.ts:30-32 | Something is found iff the id is registered, and it is the object registered under that id. |
| Registries.Registry.FoundIsIterated | src/adapter/adapter/registry.ts:30-40 | An id gives an object iff iteration visits it, and the object found is one iteration yields. |
| Registries.Registry.Count | src/adapter/adapter/registry.ts:34-36 | The count is zero iff nothing is registered. |
| Registries.Registry.CountIsIterationLength | src/adapter/adapter/registry.ts:34-40 | The count is the number of objects iteration yields. |
| Registries.KeepMembers | src/adapter/adapter/registry.ts:50-58 | An object is in a filtered list iff it is in the list and satisfies the predicate. |
| Registries.RemovalConsistent | src/adapter/adapter/registry.ts:22-24 | Removing an id keeps the registry's map and its iteration order consistent. |
| DeferredMaps.DeferredMap.constructor | src/common/deferredMap.ts:2-4 | A new map has no waiters, no values and no promises. |
| DeferredMaps.DeferredMap.Get | src/common/deferredMap.ts:6-17 | A key that already has a promise gets that same promise, and nothing changes. Otherwise a new promise and its waiter are created. Values never change. |
| DeferredMaps.DeferredMap.GetExisting | src/common/deferredMap.ts:19-21 | It is defined exactly for the keys that have been set, and it is the latest value set. |
| DeferredMaps.DeferredMap.GetAllExisting | src/common/deferredMap.ts:23-25 | It returns exactly the values currently set, one per key, in the order the keys were first set. |
| DeferredMaps.DeferredMap.Set | src/common/deferredMap.ts:27-36 | A pending waiter of the key is settled with the value and cleared. A key that already had a promise keeps it: an already settled promise keeps its value, and `get` keeps returning it. `getExisting` then returns the new value. No other key changes. |
| DeferredMaps.DeferredMap.Settle | src/common/deferredMap.ts:28-34 | The promise half of `set` settles the waiter or creates an already settled promise, and settles nothing else. |
| DeferredMaps.DeferredMap.Delete | src/common/deferredMap.ts:38-42 | The waiter, the value and the promise of that key go, and those of every other key stay. |
| DeferredMaps.SharedPromise | src/common/deferredMap.ts:6-36 | Two `get`s of a key around a `set` return the same promise. That promise resolves to the value set when it was still pending. |
| Breakpoints.HitLimitOf | src/adapter/adapter/breakpoint.ts:23 | The limit is 0 (no limit) when the hit condition is absent, empty or not a decimal number. |
| Breakpoints.HitLimitOfDecimal | src/adapter/adapter/breakpoint.ts:23 | A hit condition that spells `n` in decimal gives the limit `n`. |
| Breakpoints.IsEquivalentProperties | src/adapter/adapter/breakpoint.ts:26-33 | Equivalence is reflexive, symmetric and transitive. It ignores the hit condition, and holds exactly when the requests agree apart from the hit condition. |
| Breakpoints.BreakpointInfo.constructor | src/adapter/adapter/breakpoint.ts:9-24 | A new breakpoint keeps its id and request, is unverified, has no actual location and has been hit 0 times. Its hit limit is that of its hit condition. |
| ActorProxies.Classify | src/adapter/firefox/actorProxy/base.ts:42-50 | A message is an error answer iff it carries an error. It is an event iff it has no error and a type outside the response types. Otherwise it is an answer. |
| ActorProxies.Handles | src/adapter/firefox/actorProxy/base.ts:42-50 | The requests settled so far are listed one per settlement, in settling order. |
| ActorProxies.ReceiveKeepsRequests | src/adapter/firefox/actorProxy/base.ts:42-50 | Receiving one message never reorders, drops or invents a request. An event settles nothing. Any answer settles the oldest pending request when there is one. |
| ActorProxies.ReceiveAllKeepsRequests | src/adapter/firefox/actorProxy/base.ts:42-50 | Over any run of messages the requests keep their order, and the settled ones stay a prefix of them. |
| ActorProxies.SettledInSendOrder | src/adapter/firefox/actorProxy/base.ts:20-50 | Requests are settled strictly in the order they were sent. |
| ActorProxies.ReceiveKeepsSendOrder | src/adapter/firefox/actorProxy/base.ts:42-50 | Receiving keeps the requests of a proxy in send order. |
| ActorProxies.ActorProxy.constructor | src/adapter/firefox/actorProxy/base.ts:11-18 | A new proxy has no requests and no memo, and is registered with its connection under its name. |
| ActorProxies.ActorProxy.SendRequest | src/adapter/firefox/actorProxy/base.ts:20-25 | The request is queued behind the pending ones under a new handle, and sent to this actor. |
| ActorProxies.ActorProxy.SendRequestWithoutResponse | src/adapter/firefox/actorProxy/objectGrip.ts:42-48 | The request is sent to this actor and not queued. |
| ActorProxies.ActorProxy.SendCachedRequest | src/adapter/firefox/actorProxy/base.ts:27-32 | The first request under a key is sent and memoised. Every later call with that key returns the same handle and sends nothing. |
| ActorProxies.ActorProxy.ReceiveResponse | src/adapter/firefox/actorProxy/base.ts:42-50 | The request bookkeeping becomes `Receive` of the old bookkeeping and the message: reject, hand on as an event, or resolve. |
| ActorProxies.ActorProxy.Dispose | src/adapter/firefox/actorProxy/base.ts:52-54 | The proxy's name leaves the routing table. |
| ActorProxies.DebugConnection.constructor | src/adapter/firefox/connection.ts:24 | A new connection routes no names. |
| ActorProxies.DebugConnection.SendRequest | src/adapter/firefox/connection.ts:41-46 | The request is appended to what the transport sends. |
| ActorProxies.DebugConnection.Register | src/adapter/firefox/connection.ts:48-50 | The name routes to the proxy, replacing any earlier proxy of that name. |
| ActorProxies.DebugConnection.Unregister | src/adapter/firefox/connection.ts:52-54 | The proxy's name stops routing, and every other name is kept. |
| ActorProxies.DebugConnection.Has | src/adapter/firefox/connection.ts:56-58 | It holds iff the name is routed. |
| ActorProxies.DebugConnection.GetOrCreate | src/adapter/firefox/connection.ts:60-66 | A routed name returns its proxy and changes nothing. Otherwise a new proxy of that name is created and registered. |
| ActorProxies.DebugConnection.Deliver | src/adapter/firefox/connection.ts:29-38 | A message from a routed actor goes to that proxy's `receiveResponse` (the code names `receiveMessage`, which no class defines; see below), and every other proxy is unchanged. A message from an unknown actor is logged and dropped. |
| ObjectGrips.ObjectGripProxy.constructor | src/adapter/firefox/actorProxy/objectGrip.ts:14-18 | A new grip proxy has reference count 0 and is registered under its name. |
| ObjectGrips.ObjectGripProxy.IncreaseRefCount | src/adapter/firefox/actorProxy/objectGrip.ts:24-26 | The count grows by one. |
| ObjectGrips.ObjectGripProxy.DecreaseRefCount | src/adapter/firefox/actorProxy/objectGrip.ts:28-33 | The count drops by one. The proxy is unregistered exactly when the count reaches 0. |
| ObjectGrips.ObjectGripProxy.FetchPrototypeAndProperties | src/adapter/firefox/actorProxy/objectGrip.ts:35-40 | The request is sent once per proxy, and later calls share the first promise. |
| ObjectGrips.ObjectGripProxy.ThreadLifetime | src/adapter/firefox/actorProxy/objectGrip.ts:50-52 | `threadGrip` is sent once per proxy, and later calls share the first promise. |
| ObjectGrips.ObjectGripProxy.AddWatchpoint | src/adapter/firefox/actorProxy/objectGrip.ts:42-44 | One `addWatchpoint` request is sent, and no answer is awaited. |
| ObjectGrips.ObjectGripProxy.RemoveWatchpoint | src/adapter/firefox/actorProxy/objectGrip.ts:46-48 | One `removeWatchpoint` request is sent, and no answer is awaited. |
| BreakpointsManagers.QueryColumn | src/adapter/adapter/breakpointsManager.ts:28-31 | An absent or zero column asks for column 0. Any other column `c` asks for `c - 1`. |
| BreakpointsManagers.LogValue | src/adapter/adapter/breakpointsManager.ts:95-98 | A logpoint expression is sent exactly when the log message is truthy. |
| BreakpointsManagers.ToEach | src/adapter/adapter/breakpointsManager.ts:103-111 | The command goes to every breakpoint list, one each, in registry order. |
| BreakpointsManagers.FirstEquivalentFrom | src/adapter/adapter/breakpointsManager.ts:177-179 | The result is -1 or a position in the list, and the entry found is equivalent to the request. |
| BreakpointsManagers.FirstEquivalentFromSkips | src/adapter/adapter/breakpointsManager.ts:177-179 | No entry before the one found (or before the end, when none is found) is equivalent, so `find` returns the first match. |
| BreakpointsManagers.Reused | src/adapter/adapter/breakpointsManager.ts:170-187 | An entry that is reused comes from the previous list of the path and is equivalent to the request. |
| BreakpointsManagers.ReusedNone | src/adapter/adapter/breakpointsManager.ts:170-187 | A request gets a new entry iff there is no previous list or no previous entry is equivalent to it. |
| BreakpointsManagers.NewCount | src/adapter/adapter/breakpointsManager.ts:170-187 | At most one new id is used per request. |
| BreakpointsManagers.NewCountGrows | src/adapter/adapter/breakpointsManager.ts:186 | A new entry gets a larger id than every new entry of an earlier request. |
| BreakpointsManagers.ObtainedStep | src/adapter/adapter/breakpointsManager.ts:74-76 | Obtaining the entry of one more request extends what the earlier requests obtained, and a new entry moves the next id on by one. |
| BreakpointsManagers.StoreConsistent | src/adapter/adapter/breakpointsManager.ts:78 | Storing the renewed list keeps every id below the next id, and one id names one entry of one path. |
| BreakpointsManagers.ObtainedDistinct | src/adapter/adapter/breakpointsManager.ts:170-187 | Each obtained entry is either a previous entry of the path or carries an id handed out by this call. Two obtained entries with the same id are the same entry. |
| BreakpointsManagers.ObtainedSpots | src/adapter/adapter/breakpointsManager.ts:177-179 | Every obtained entry is at the line and column of its request. |
| BreakpointsManagers.NewEntriesApart | src/adapter/adapter/breakpointsManager.ts:80-81 | A new entry occurs once in the renewed list, so it is placed once. |
| BreakpointsManagers.Landings | src/adapter/adapter/breakpointsManager.ts:23-58 | There is one landing per entry replayed. |
| BreakpointsManagers.LandingsAt | src/adapter/adapter/breakpointsManager.ts:28-31 | Entry `j` lands where its own request lands in the source. |
| BreakpointsManagers.EntriesOfPaths | src/adapter/adapter/breakpointsManager.ts:23-26 | The entries of every path are among the entries the replay covers. |
| BreakpointsManagers.ConsistentPathsApart | src/adapter/adapter/breakpointsManager.ts:23-26 | In a consistent table, two distinct paths share no entry, so the replay of one path leaves the entries of the others alone. |
| BreakpointsManagers.OnePath | src/adapter/adapter/breakpointsManager.ts:78 | In a consistent table an entry belongs to one path only. |
| BreakpointsManagers.BreakpointsManager.constructor | src/adapter/adapter/breakpointsManager.ts:20-21 | A new manager has no paths, the next id is 1, and nothing has been sent. |
| BreakpointsManagers.BreakpointsManager.GetBreakpoints | src/adapter/adapter/breakpointsManager.ts:154-156 | The result is the list stored under the normalised path, or none. |
| BreakpointsManagers.BreakpointsManager.VerifyBreakpoint | src/adapter/adapter/breakpointsManager.ts:158-168 | A breakpoint without an actual location changes nothing. Otherwise one `breakpoint` event with the 1-based column is sent, and the entry becomes verified. |
| BreakpointsManagers.BreakpointsManager.GetOrCreateBreakpointInfo | src/adapter/adapter/breakpointsManager.ts:170-187 | A request that an earlier entry is equivalent to gets that first such entry back, and no id is used. Otherwise it gets a new unverified entry with the next id, and the counter moves on by one. |
| BreakpointsManagers.BreakpointsManager.ObtainInfos | src/adapter/adapter/breakpointsManager.ts:74-76 | There is one entry per request, in order. An entry is new iff no previous entry is equivalent to its request, and new entries are numbered consecutively from the old counter. |
| BreakpointsManagers.BreakpointsManager.Land | src/adapter/adapter/breakpointsManager.ts:88-115 | If the request lands, its location is recorded. A landing with a URL sets the breakpoint in every list with the generated position and the logpoint value. The entry is reported unless it was already verified. |
| BreakpointsManagers.BreakpointsManager.Tell | src/adapter/adapter/breakpointsManager.ts:103-111 | Exactly one copy of the command per breakpoint list is appended, in order. |
| BreakpointsManagers.BreakpointsManager.Place | src/adapter/adapter/breakpointsManager.ts:81-116 | With no known adapter an `unknownSource` event comes first. The entry ends up placed where its request lands in the awaited adapter, and verified exactly when it landed. |
| BreakpointsManagers.BreakpointsManager.Unplace | src/adapter/adapter/breakpointsManager.ts:127-146 | One `removeBreakpoint` is sent per list, for the position the request lands at now, and nothing when it does not land at a URL. |
| BreakpointsManagers.BreakpointsManager.PlaceNew | src/adapter/adapter/breakpointsManager.ts:80-119 | Exactly the new entries (by identity) are placed, in request order. The events and commands are those of placing each of them, and every new entry ends up placed. |
| BreakpointsManagers.BreakpointsManager.PlaceOne | src/adapter/adapter/breakpointsManager.ts:80-119 | One round of the placement loop places entry `i` iff it is new and leaves the other entries alone. |
| BreakpointsManagers.BreakpointsManager.RemoveStale | src/adapter/adapter/breakpointsManager.ts:121-149 | A previous entry is removed from every list iff no renewed entry has its line and column, and the removals go in the previous list's order. |
| BreakpointsManagers.BreakpointsManager.RemoveOne | src/adapter/adapter/breakpointsManager.ts:121-149 | One round of the removal loop removes previous entry `i` iff its line and column are no longer requested. |
| BreakpointsManagers.BreakpointsManager.SetBreakpoints | src/adapter/adapter/breakpointsManager.ts:65-152 | The normalised path's list is replaced by the renewed entries, which are returned, and no other path changes. New entries are exactly those with no equivalent previous entry, and they are numbered in request order and placed. The events and commands are the placements followed by the removals of previous entries whose spot is no longer requested. |
| BreakpointsManagers.BreakpointsManager.Renew | src/adapter/adapter/breakpointsManager.ts:72-78 | The table half of `setBreakpoints` stores the obtained entries under the key and keeps the table consistent. |
| BreakpointsManagers.BreakpointsManager.Store | src/adapter/adapter/breakpointsManager.ts:78 | The key maps to the list. A new key goes last in iteration order, and a known key keeps its place. |
| BreakpointsManagers.BreakpointsManager.OnBreakpointListRegistered | src/adapter/adapter/breakpointsManager.ts:23-58 | For every path, in insertion order, whose adapter has resolved with a URL, each entry lands anew and is set in the new list only. An entry is reported only if it was not verified before. Entries of other paths keep their state. |
| BreakpointsManagers.BreakpointsManager.ReplayPaths | src/adapter/adapter/breakpointsManager.ts:23-58 | The loop over the paths produces exactly the replay commands and events of all paths. |
| BreakpointsManagers.BreakpointsManager.ReplayStep | src/adapter/adapter/breakpointsManager.ts:23-58 | One path of the replay lands its entries and leaves the later paths as they were. |
| BreakpointsManagers.BreakpointsManager.ReplayPath | src/adapter/adapter/breakpointsManager.ts:27-55 | The replay of one path sends one `setBreakpoint` per landing entry to the new list, and reports the entries not yet verified. |
| BreakpointsManagers.BreakpointsManager.ReplayOne | src/adapter/adapter/breakpointsManager.ts:27-55 | One entry of the replay lands anew, and the other entries of the path are unchanged. |
| BreakpointsProperties.NoneNew | src/adapter/adapter/breakpointsManager.ts:170-187 | When every request reuses an entry, no new id is used. |
| BreakpointsProperties.ObtainedEquivalent | src/adapter/adapter/breakpointsManager.ts:170-187 | Every obtained entry is equivalent to its request. |
| BreakpointsProperties.RepeatCreatesNothing | src/adapter/adapter/breakpointsManager.ts:65-152 | Sending the same requests again reuses a stored entry for every request, so nothing is new and the id counter stays. |
| BreakpointsProperties.NothingNewNothingPlaced | src/adapter/adapter/breakpointsManager.ts:80-119 | When every entry is reused, nothing is placed and nothing is reported. |
| BreakpointsProperties.AllSpotsKept | src/adapter/adapter/breakpointsManager.ts:121-149 | When every previous line and column is still requested, nothing is removed. |
| BreakpointsProperties.ConditionChangeRemovesNothing | src/adapter/adapter/breakpointsManager.ts:121-149 | Changing only conditions, hit conditions or log messages, at the same lines and columns, removes no breakpoint. |
| BreakpointsProperties.NewIdsIncrease | src/adapter/adapter/breakpointsManager.ts:170-187 | The new entries of one call carry ids in the call's range, increasing in request order. |
| Logpoints.EscapeChar | src/adapter/adapter/breakpointsManager.ts:206-214 | Every character has a non-empty escape. |
| Logpoints.JsonQuote | src/adapter/adapter/breakpointsManager.ts:206-214 | A literal is written between double quotes. |
| Logpoints.UnescapeEscapeChar | src/adapter/adapter/breakpointsManager.ts:206-214 | Reading back the JSON escape of any character gives that character, whatever follows it. |
| Logpoints.UnescapeEscape | src/adapter/adapter/breakpointsManager.ts:206-214 | Every string survives the trip through a JSON string literal. |
| Logpoints.JsonQuoteInjective | src/adapter/adapter/breakpointsManager.ts:206-214 | Distinct literal texts give distinct items. |
| Logpoints.Items | src/adapter/adapter/breakpointsManager.ts:200-218 | The item list starts with the first literal, and literals and expressions alternate, with one more literal than expressions. |
| Logpoints.SplitBraceFree | src/adapter/adapter/breakpointsManager.ts:200-218 | No literal contains `{`, and no expression contains `}`. |
| Logpoints.SplitRebuild | src/adapter/adapter/breakpointsManager.ts:200-218 | Putting the pieces back with braces gives the message again. A message that ends inside an expression gets the missing `}`. |
| Logpoints.ItemsAt | src/adapter/adapter/breakpointsManager.ts:200-218 | Item `2k` is the `k`-th literal, quoted, and item `2k+1` is the `k`-th expression, verbatim. |
| Logpoints.LogpointItems | src/adapter/adapter/breakpointsManager.ts:195-222 | A message with `n` expressions gives `2n + 1` items. |
| Logpoints.JoinedItems | src/adapter/adapter/breakpointsManager.ts:221 | The items joined with commas are the array text read straight off the message. |
| Logpoints.ConvertLogpointMessage | src/adapter/adapter/breakpointsManager.ts:195-222 | The brace-scanning loop returns the array literal of the message's items followed by the `reduce` call. |
| Threads.ObjectGripAdapter.constructor | src/adapter/adapter/thread.ts:77-83 | A grip adapter carries the lifetime flag the thread sorts it by. |
| Threads.Disposals | src/adapter/adapter/thread.ts:218-231 | A `forEach` dispose loop disposes every item once, in order. |
| Threads.DisposalsAppend | src/adapter/adapter/thread.ts:218-231 | Disposing one more item appends exactly its disposal. |
| Threads.PauseDisposesPauseObjects | src/adapter/adapter/thread.ts:214-234 | The end of a pause disposes a grip adapter iff it is on the pause-lifetime list. Thread-lifetime objects survive a pause. |
| Threads.RemoveFirstDrops | src/adapter/adapter/thread.ts:92-95 | Splicing out an object that occurs once removes it and keeps every other object. |
| Threads.RequestedFramesWindow | src/adapter/adapter/thread.ts:168-175 | The window is the frames from `start` on: `count` of them when `count` is positive and that many remain, otherwise all that remain, and none past the end. |
| Threads.ConsecutivePages | src/adapter/adapter/thread.ts:168-175 | Two consecutive pages make up the page of their combined size. |
| Threads.ThreadAdapter.constructor | src/adapter/adapter/thread.ts:61-71 | The thread registers itself, takes the registry's next id, and starts with empty lifetime lists, no frame memo and no pause reason. |
| Threads.ThreadAdapter.RegisterScopeAdapter | src/adapter/adapter/thread.ts:73-75 | The scope is appended to the pause's scopes. |
| Threads.ThreadAdapter.RegisterObjectGripAdapter | src/adapter/adapter/thread.ts:77-83 | The adapter joins the thread-lifetime list iff its flag is set, otherwise the pause-lifetime list. The other list is unchanged. |
| Threads.ThreadAdapter.ThreadLifetime | src/adapter/adapter/thread.ts:85-100 | An adapter that already lives as long as the thread changes nothing. Otherwise its first occurrence leaves the pause list, it is appended to the thread list, and its flag is set. |
| Threads.ThreadAdapter.FetchAllStackFrames | src/adapter/adapter/thread.ts:126-166 | The frames are fetched from the thread actor only when no memo exists. Every later call returns the memoised frames without fetching. |
| Threads.ThreadAdapter.FetchStackFrames | src/adapter/adapter/thread.ts:168-175 | The result is the requested window of the pause's frames and the total count, fetching at most once per pause. |
| Threads.ThreadAdapter.DisposeEach | src/adapter/adapter/thread.ts:218-231 | Each item is disposed once, in order. |
| Threads.ThreadAdapter.DisposePauseLifetimeAdapters | src/adapter/adapter/thread.ts:214-234 | The memoised frames, then the scopes, then the pause-lifetime objects are disposed. The memo, scopes and pause list are cleared, and the thread-lifetime list stays. |
| Threads.ThreadAdapter.DisposeLifetimes | src/adapter/adapter/thread.ts:238-242 | The end of the pause is followed by the disposal of every thread-lifetime object. The sources manager is untouched. |
| Threads.ThreadAdapter.RemoveSourceActors | src/adapter/adapter/thread.ts:244-247 | Each of the thread's source actors is disposed, in order, and leaves the sources manager. The pools and the actor index become what `RemoveActors` gives: the thread's names leave the index and no other name does. |
| Threads.RemoveActorStep | src/adapter/adapter/thread.ts:244-247 | One round removes one more actor, as `RemoveActorFrom` does, and touches no actor pool outside the manager. |
| Threads.RemoveAll | src/adapter/adapter/thread.ts:244-247 | The loop leaves the pools and the actor index that `RemoveActors` gives for the thread's actors. Every name of them leaves the index and no other name does. |
| Threads.RemoveActorsIndex | src/adapter/adapter/thread.ts:244-247 | Removing the thread's actors removes exactly their names from the index and keeps every adapter's pool. |
| Threads.RemoveActorsOnlyTheirs | src/adapter/adapter/thread.ts:244-247 | Removing the thread's actors never adds to a pool, keeps every other actor in every pool as often as before, and leaves a pool alone when none of the thread's actors is indexed to it. |
| Threads.RemoveFirstMultiset | src/adapter/adapter/source.ts:121-131 | Splicing out one occurrence takes exactly one copy of the actor out of the pool when it is there, and nothing otherwise. |
| Threads.ThreadAdapter.AddSourceActor | src/adapter/firefoxDebugSession.ts:583 | The thread's source actors behave as a set: a new actor is appended, one already present changes nothing, and no actor occurs twice. |
| Threads.ThreadAdapter.Retire | src/adapter/adapter/thread.ts:249-253 | The thread, target and console proxies are disposed, in that order, and the thread leaves the registry, which keeps every other entry. The sources manager is untouched. |
| Threads.ThreadAdapter.Dispose | src/adapter/adapter/thread.ts:236-254 | The disposals are, in order: the pause, the thread-lifetime objects, the source actors and the three proxies. The thread's actor names leave the sources index and no other name does. The pools become what `RemoveActors` gives, so they lose exactly the thread's actors. Only the thread's own registry entry is removed. |
| Sources.IndexIn | src/adapter/adapter/source.ts:122 | The result is -1 iff the element is absent. Otherwise it is the position of its first occurrence. |
| Sources.SourceActorCollection.constructor | src/adapter/adapter/source.ts:108-111 | A new pool holds just its first actor and offers it at once. |
| Sources.SourceActorCollection.Add | src/adapter/adapter/source.ts:113-119 | The actor is appended. A waiting pool now offers that actor, and a pool that had one keeps offering it. |
| Sources.SourceActorCollection.Remove | src/adapter/adapter/source.ts:121-131 | The first occurrence is spliced out. An absent actor changes nothing. The pool then offers its first actor, or waits when it is empty. |
| Sources.SourceActorCollection.RunWithSomeActor | src/adapter/adapter/source.ts:133-146 | The loop leaves the result and the pool that the closed form `Run` gives. |
| Sources.FirstLive | src/adapter/adapter/source.ts:133-146 | Every actor before the index answered `noSuchActor`, and the one at it did not. |
| Sources.RunCharacterised | src/adapter/adapter/source.ts:133-146 | Every actor before the first live one is dropped from the pool. The first live actor's answer is returned, or its failure is rethrown. With no live actor the call waits on an empty pool. |
| Sources.DestroyedAfterAdd | src/test/testSourceActorCollection.ts:92-97 | When the first actor is gone after a second was added, the call is answered through the second. |
| Sources.ReplacedActor | src/test/testSourceActorCollection.ts:59-65 | After the only actor is replaced, calls go through the new actor. |
| Sources.SecondRemoved | src/test/testSourceActorCollection.ts:76-82 | Removing a later actor keeps calls going through the first. |
| Sources.FirstAtOrAfter | src/adapter/adapter/source.ts:81-86 | A location found is on the list and at or after the requested column. |
| Sources.FirstAtOrAfterNone | src/adapter/adapter/source.ts:81-86 | Nothing is found iff every location's column is before the requested one. |
| Sources.FirstAtOrAfterIsFirst | src/adapter/adapter/source.ts:82-86 | A location found is the first one on the list at or after the requested column. Every location before it is before that column. |
| Sources.FirstOnLaterLineSpec | src/adapter/adapter/source.ts:88-96 | Nothing is found iff no listed later line has positions. Otherwise the result is the first position of the first listed later line that has any. Every listed later line before that one has none. |
| Sources.NextBreakableNeverBackwards | src/adapter/adapter/source.ts:76-99 | A breakpoint never snaps backwards. It is not placed iff no position on its line is at or after the column and no later line has positions. |
| Sources.NextBreakableIsFirst | src/adapter/adapter/source.ts:76-99 | The chosen location is the first on the requested line at or after the column. Failing that, every position on that line is before the column, and the result is the first position of the first listed later line that has positions. |
| Sources.FindNextBreakableLocation | src/adapter/adapter/source.ts:76-99 | The two loops find exactly the snap-forward location `NextBreakable` describes. |
| Sources.AfterLastSeparator | src/adapter/adapter/source.ts:41 | What follows the last separator is the text after it, when that text has no separator. |
| Sources.SourceName | src/adapter/adapter/source.ts:39-44 | A source with a URL is named after its last `/` segment, cut at `#`, so the name has neither character. A source without one is named after its introduction type, and its last word is the adapter id. |
| Sources.SourceFor | src/adapter/adapter/source.ts:46-50 | A source with a path is referred to by that path with reference 0. Otherwise it is referred to by its id, with the URL as path when there is one. |
| Sources.BlackboxRequests | src/adapter/adapter/source.ts:148-150 | One `setBlackbox` with the flag goes to every actor of the pool. |
| Sources.SourceAdapter.constructor | src/adapter/adapter/source.ts:26-53 | The adapter registers itself and gets the registry's next id. Its URL, generated URL and introduction type come from the actor. Its display source is `SourceFor`, and its pool holds the actor. It starts not black-boxed. |
| Sources.SourceAdapter.SetBlackBoxed | src/adapter/adapter/source.ts:55-62 | An unchanged flag does nothing. A change sets the flag and the hint (`deemphasize` or `normal`) and tells every actor. |
| SourcesManagers.SourcesManager.constructor | src/adapter/adapter/sourcesManager.ts:12-19 | A new manager has no adapters and empty indices. |
| SourcesManagers.SourcesManager.AddActor | src/adapter/adapter/sourcesManager.ts:21-50 | The adapter is the one known under the actor's URL, else the one under its normalised path, else a new adapter that was not registered before and holds just the actor. A new adapter is registered under the next id, and no other registry entry changes. A known adapter gets the actor appended to its pool, the registry is unchanged, and every other adapter keeps its pool. The actor's name now maps to the adapter and every other name keeps its entry. The URL and path indices gain the adapter and keep their other entries. |
| SourcesManagers.SourcesManager.Attach | src/adapter/adapter/sourcesManager.ts:24-39 | The lookup order is URL, then path, then a new unregistered adapter. The actor ends up in the adapter's pool. A new adapter is the only registry change, a known one leaves the registry as it was, and every other adapter keeps its pool. |
| SourcesManagers.SourcesManager.JoinPool | src/adapter/adapter/sourcesManager.ts:29-35 | The actor is appended to a known adapter's pool, and every other adapter keeps its pool. |
| SourcesManagers.SourcesManager.Create | src/adapter/adapter/sourcesManager.ts:37 | A new adapter is registered under the next id, with just the actor in its pool, and no other registry entry changes. |
| SourcesManagers.SourcesManager.Index | src/adapter/adapter/sourcesManager.ts:41-47 | The actor's name now maps to the adapter and every other name keeps its entry. The adapter is also recorded under the normalised path (if any) and the URL (if truthy). |
| SourcesManagers.SourcesManager.IndexUnder | src/adapter/adapter/sourcesManager.ts:42-44 | One deferred index maps the key to the adapter. |
| SourcesManagers.SourcesManager.RemoveActor | src/adapter/adapter/sourcesManager.ts:52-63 | An unknown actor changes no pool and no index. Otherwise only its name entry goes, the actor is spliced out of its adapter's pool, and every other adapter keeps its pool. The path and URL indices keep the adapter. Pools and index become what `RemoveActorFrom` gives. |
| SourcesManagers.RemoveActorFrom | src/adapter/adapter/sourcesManager.ts:52-63 | On the pools and the actor index: the actor's name leaves the index and no other name does. The pool of the adapter it named loses the actor's first occurrence, and every other pool is unchanged. |
| SourcesManagers.SourcesManager.SplicePool | src/adapter/adapter/sourcesManager.ts:56-61 | The actor's first occurrence leaves the adapter's pool, and every other adapter keeps its pool. |
| SourcesManagers.SourcesManager.GetExistingAdapterForPath | src/adapter/adapter/sourcesManager.ts:73-75 | The result is defined iff the path is indexed, and it is a registered adapter. |
| SourcesManagers.SourcesManager.GetAdapterForPath | src/adapter/adapter/sourcesManager.ts:69-71 | An existing promise for the path is returned again. The promise of an indexed path is settled. No index entry changes. |
| SourcesManagers.SourcesManager.FindSourceAdaptersForPathOrUrl | src/adapter/adapter/sourcesManager.ts:85-91 | The empty string matches nothing. Otherwise the result is the registered adapters whose path equals it or whose URL is it, in registry order. |
| SourcesManagers.SourcesManager.FindSourceAdaptersForUrlWithoutQuery | src/adapter/adapter/sourcesManager.ts:93-107 | The result is the registered adapters whose URL, cut at its first `?`, is the given URL, in registry order. |
| SourcesManagers.ValuesOfUpdate | src/adapter/adapter/sourcesManager.ts:37 | Registering a new adapter adds it to the registered adapters and keeps the others. |
| SourcesManagers.MatchesUrlWithoutQueryExactly | src/adapter/adapter/sourcesManager.ts:93-107 | Adapters without a URL never match. A query-less URL matches adapters whose URL is it, with or without a query. A match implies the URL is a query-less prefix of the adapter's URL. |
| SourceMaps.CreateOriginalSource | src/adapter/firefox/sourceMaps/manager.ts:202-219 | An original source is named `generated!url`. It has that URL, is source-mapped, not black-boxed and not pretty-printed, and records the generated URL, the map URL and the introduction of its generated source. |
| SourceMaps.OriginalActorNamesDistinct | src/adapter/firefox/sourceMaps/manager.ts:209 | One generated source never gives two original URLs the same actor name. |
| SourceMaps.OriginalActors | src/adapter/firefox/sourceMaps/manager.ts:187-197 | There is one original source actor per source of the map, in the map's order. |
| SourceMaps.CreateSourceMappingInfoCases | src/adapter/firefox/sourceMaps/manager.ts:123-200 | The info has a map iff the source names a map URL that is absolute or can be resolved against its URL, and the map could be read. Otherwise the source stands for itself. Either way the info wraps the source's own actor, and a mapped info lists one source-mapped original per URL of the map. |
| SourceMaps.FindOriginalFirst | src/adapter/firefox/sourceMaps/manager.ts:76-99 | A location is reported only from an info of the generated URL whose lookup gives a URL and a non-zero line. It comes from the first such info in insertion order. When every info is settled and none qualifies, nothing is found. |
| SourceMaps.MappedWhereCases | src/adapter/firefox/sourceMaps/manager.ts:101-121 | A frame moves iff its info has a map, its line is non-zero and the lookup gives a URL. It then names the original source's actor, and a zero line or column becomes absent. |
| SourceMaps.FreshHandleKeepsOthers | src/adapter/firefox/sourceMaps/manager.ts:52-53 | A new promise for one actor leaves what every other actor's promise resolved to alone. |
| SourceMaps.AddSettledTables | src/adapter/firefox/sourceMaps/manager.ts:52-53 | Adding an actor with a settled promise keeps the tables consistent. |
| SourceMaps.AddPendingTables | src/adapter/firefox/sourceMaps/manager.ts:66-70 | Adding an actor with a pending placeholder keeps the tables consistent. |
| SourceMaps.SourceMapsManager.constructor | src/adapter/firefox/sourceMaps/manager.ts:19-25 | A new manager has no infos and no placeholders. |
| SourceMaps.SourceMapsManager.GetOrCreateSourceMappingInfo | src/adapter/firefox/sourceMaps/manager.ts:27-56 | A known actor keeps its promise, and a waiting placeholder is settled with the created info. An unknown actor gets a new promise of the created info, appended in insertion order. No other actor's promise or placeholder changes. |
| SourceMaps.SourceMapsManager.Fill | src/adapter/firefox/sourceMaps/manager.ts:31-46 | A placeholder is settled with the created info, and an already settled promise keeps its value. |
| SourceMaps.SourceMapsManager.AddSettled | src/adapter/firefox/sourceMaps/manager.ts:52-54 | An unknown actor gets a fresh promise resolved to the created info. |
| SourceMaps.SourceMapsManager.AddPending | src/adapter/firefox/sourceMaps/manager.ts:66-72 | An unknown actor gets a fresh pending placeholder. |
| SourceMaps.SourceMapsManager.GetSourceMappingInfo | src/adapter/firefox/sourceMaps/manager.ts:58-74 | A known actor's promise is returned and nothing changes. An unknown actor gets a pending placeholder, appended in insertion order. |
| SourceMaps.SourceMapsManager.InfosInOrder | src/adapter/firefox/sourceMaps/manager.ts:82-83 | The infos are listed in insertion order, one per actor, as far as settled. |
| SourceMaps.SourceMapsManager.FindOriginalLocation | src/adapter/firefox/sourceMaps/manager.ts:76-99 | The loop over the infos gives the first-match search `FindOriginal`. |
| SourceMaps.SourceMapsManager.ApplySourceMapToFrame | src/adapter/firefox/sourceMaps/manager.ts:101-121 | The call waits iff the frame's actor has no settled info, and then the frame is unchanged. Otherwise the frame moves where `MappedWhere` says, or stays. |
| Roots.IsEventAgainstBase | src/adapter/firefox/actorProxy/root.ts:31-33 | The root reads as an event every message the base reads as one. A greeting with an application type and no type is an event to the root but an answer to the base. A message that is not an event to the root is never one to the base. |
| Roots.IsEvent | src/adapter/firefox/actorProxy/root.ts:31-33 | Every message the root emits is an event in this sense, and a message that is not one is only warned about. |
| Roots.Dispatch | src/adapter/firefox/actorProxy/root.ts:109-117 | An application type means `init`. Otherwise `tabListChanged` and `addonListChanged` are passed on under their own names, `forwardingCancelled` is dropped, and anything else is only warned about. Each case holds iff its condition does. |
| Roots.Unknown | src/adapter/firefox/actorProxy/root.ts:73-86 | The ids that get a new proxy are exactly those of the answer that were not known. Applied to the old order and the new ids, the same filter gives exactly the tabs that close: known and missing from the answer. |
| Roots.FirstOccurrencesListsOnce | src/adapter/firefox/actorProxy/root.ts:72-89 | The new tab map's key order lists every id of the answer once and nothing else. |
| Roots.OpenedEvents | src/adapter/firefox/actorProxy/root.ts:85 | There is one `tabOpened` per created proxy, in order. |
| Roots.ClosingsAreGone | src/adapter/firefox/actorProxy/root.ts:92-97 | Each known id missing from the answer gets a `tabClosed` carrying its own proxy, in the old order, and there are no other closings. |
| Roots.OpenedEventsAppend | src/adapter/firefox/actorProxy/root.ts:85 | One more created proxy adds exactly its `tabOpened`. |
| Roots.StepFacts | src/adapter/firefox/actorProxy/root.ts:73-89 | Taking one more id of the answer extends the seen ids, the unknown ids and the key order by that id as a `Map` does. |
| Roots.WithNewStep | src/adapter/firefox/actorProxy/root.ts:83 | Only a proxy for an unknown id is laid over the connection's registrations. |
| Roots.OpeningStep | src/adapter/firefox/actorProxy/root.ts:73-89 | One round of the loop keeps the summary of the tabs gathered so far. |
| Roots.OpeningTabsStep | src/adapter/firefox/actorProxy/root.ts:75-88 | The gathered tabs stay one per id seen, in first-seen order, and known ids keep their proxy. |
| Roots.OpeningCreatedStep | src/adapter/firefox/actorProxy/root.ts:79-86 | The created proxies stay one per occurrence of an unknown id. |
| Roots.Listed | src/adapter/firefox/actorProxy/root.ts:41-52 | The preference and device proxies are always obtained, and the addons proxy iff the answer names one. Each carries the answered name and is the one the connection now routes that name to; a registered one is reused. Every name the connection routed before keeps its proxy, and every newly routed name has a new proxy. Only those names join the connection. |
| Roots.RootProxy.constructor | src/adapter/firefox/actorProxy/root.ts:25-29 | The proxy registers under `root` and knows no tabs. |
| Roots.RootProxy.HandleEvent | src/adapter/firefox/actorProxy/root.ts:109-117 | The proxy emits, ignores or warns exactly as `Dispatch` says. |
| Roots.RootProxy.FetchRoot | src/adapter/firefox/actorProxy/root.ts:35-59 | `getRoot` is sent once per proxy, and later calls send nothing. The proxies are those `Listed` gives, so the connection's earlier routes are kept. |
| Roots.RootProxy.UpdateTabs | src/adapter/firefox/actorProxy/root.ts:68-101 | The known tabs become the answer's ids, in first-seen order. Known ids keep their proxy, and unknown ids get fresh proxies announced with `tabOpened`, one per occurrence. Known ids missing from the answer get `tabClosed` in the old order. Only the new proxies join the connection. |
| Roots.RootProxy.OpenTabs | src/adapter/firefox/actorProxy/root.ts:72-89 | The first half of the diff gathers one proxy per id, reusing the known ones and announcing the new ones. |
| Roots.RootProxy.OpenOne | src/adapter/firefox/actorProxy/root.ts:73-89 | One id of the answer is taken, keeping the summary. A proxy is new only when its id was unknown. |
| Roots.RootProxy.TakeTab | src/adapter/firefox/actorProxy/root.ts:74-86 | A known id gives its proxy and changes nothing. An unknown id gives a new registered proxy announced with `tabOpened`. |
| Roots.RootProxy.CloseTabs | src/adapter/firefox/actorProxy/root.ts:92-97 | A `tabClosed` is emitted for each known tab missing from the answer, in the old order. |
| Roots.RootProxy.FetchTabs | src/adapter/firefox/actorProxy/root.ts:61-102 | One `listTabs` is sent per poll, and polling goes on while the answer is empty. With no non-empty answer, the known tabs and the connection's routes are unchanged. Otherwise the first non-empty answer is applied as `UpdateTabs` states: its ids become the known tabs in first-seen order, known ids keep their proxy, and the others get new proxies announced with `tabOpened`, while known tabs missing from it are announced with `tabClosed`. |
| Roots.RootProxy.Poll | src/adapter/firefox/actorProxy/root.ts:62-66 | The `listTabs` requests answered with no tabs: one request per empty answer, and polling stops at the first non-empty answer. |
| Targets.Proxies | src/adapter/firefox/actorProxy/target.ts:47 | One source actor proxy is made per announced source, in order. |
| Targets.ArrayStep | src/adapter/firefox/actorProxy/target.ts:45-55 | One more entry of the array shape appends exactly its events and its sources. |
| Targets.FormStep | src/adapter/firefox/actorProxy/target.ts:57-76 | One more resource of the form shape appends exactly its events and its sources. |
| Targets.NamesAppend | src/adapter/firefox/actorProxy/target.ts:47-60 | The names registered for two runs of sources are those of each. |
| Targets.RegistersNothing | src/adapter/firefox/actorProxy/target.ts:52-54 | A message that announces no source registers nothing. |
| Targets.RegistersThen | src/adapter/firefox/actorProxy/target.ts:45-76 | Registering two runs of sources one after the other registers both. |
| Targets.StatesInAppend | src/adapter/firefox/actorProxy/target.ts:43-82 | The thread states delivered by two runs of events are those of the first run followed by the second. |
| Targets.SourcesInAppend | src/adapter/firefox/actorProxy/target.ts:43-82 | The sources delivered by two runs of events are those of the first run followed by the second. |
| Targets.StatesInOne | src/adapter/firefox/actorProxy/target.ts:50-64 | Only a `thread-state` event delivers a state. |
| Targets.SourcesInOne | src/adapter/firefox/actorProxy/target.ts:47-60 | Only a `source` event delivers sources. |
| Targets.ProxiesAppend | src/adapter/firefox/actorProxy/target.ts:47 | The proxies of two runs of sources are those of each, in order. |
| Targets.StateEventsDeliver | src/adapter/firefox/actorProxy/target.ts:48-51 | A `thread-state` entry delivers exactly its states, one event each, in order, and no source. |
| Targets.EntryDelivers | src/adapter/firefox/actorProxy/target.ts:46-54 | A `source` entry delivers exactly its sources' proxies, a `thread-state` entry exactly its states, and any other entry neither. |
| Targets.ArrayStatesDelivered | src/adapter/firefox/actorProxy/target.ts:44-55 | In the array shape every announced thread state reaches the `thread-state` listeners, in message order. |
| Targets.ArraySourcesDelivered | src/adapter/firefox/actorProxy/target.ts:44-55 | In the array shape every announced source reaches the `source` listeners as a proxy, in message order. |
| Targets.FormEventsOneEach | src/adapter/firefox/actorProxy/target.ts:56-76 | In the form shape each resource of one of the four known types yields exactly one event named by its type, in order. Resources of other types yield none. |
| Targets.FormDelivers | src/adapter/firefox/actorProxy/target.ts:58-75 | One resource of the form shape delivers its own state, or a proxy for itself, according to its type. |
| Targets.FormStatesDelivered | src/adapter/firefox/actorProxy/target.ts:56-76 | The form shape delivers its thread-state resources, in order. |
| Targets.FormSourcesDelivered | src/adapter/firefox/actorProxy/target.ts:56-76 | The form shape delivers one proxy per source resource, in order. |
| Targets.EventsDeliverAnnounced | src/adapter/firefox/actorProxy/target.ts:43-82 | Whatever the shape of a message, `handleEvent`'s events deliver exactly the sources it announces, one proxy each, in order. |
| Targets.BlockMembers | src/adapter/firefox/actorProxy/target.ts:30-33 | One announced source contributes exactly itself and the sources its info lists. |
| Targets.MappedMembers | src/adapter/firefox/actorProxy/target.ts:25-37 | The callback receives exactly the announced sources and the sources their infos list. Nothing announced is lost and nothing else appears. |
| Targets.IdentityBlock | src/adapter/firefox/actorProxy/target.ts:30-33 | A source without a usable map is delivered once, alone. |
| Targets.MappedBlock | src/adapter/firefox/actorProxy/target.ts:30-33 | A mapped source is delivered after its originals. |
| Targets.TargetActorProxy.constructor | src/adapter/firefox/actorProxy/target.ts:10-15 | The proxy registers under the target's actor name and has emitted nothing. |
| Targets.TargetActorProxy.HandleEvent | src/adapter/firefox/actorProxy/target.ts:43-82 | The proxy emits `Events(m)` and registers one new source proxy per announced source. A frame update emits nothing, and any other message is only warned about. |
| Targets.TargetActorProxy.EmitArray | src/adapter/firefox/actorProxy/target.ts:44-55 | The loop over the array shape emits the entries' events in order and registers their sources. |
| Targets.TargetActorProxy.EmitEntry | src/adapter/firefox/actorProxy/target.ts:46-54 | One entry's events are emitted, and its sources are registered. |
| Targets.TargetActorProxy.EmitStates | src/adapter/firefox/actorProxy/target.ts:49-51 | One event is emitted per state, in order. |
| Targets.TargetActorProxy.EmitForms | src/adapter/firefox/actorProxy/target.ts:56-76 | The loop over the form shape emits the resources' events in order and registers their sources. |
| Targets.TargetActorProxy.EmitForm | src/adapter/firefox/actorProxy/target.ts:58-75 | One resource's event is emitted. A resource of an unknown type is passed over. |
| Targets.TargetActorProxy.MakeProxies | src/adapter/firefox/actorProxy/target.ts:47 | One proxy per source is made in order, and each registers itself under its actor name. |
| Targets.TargetActorProxy.OnSources | src/adapter/firefox/actorProxy/target.ts:25-37 | Each announced source's info is awaited in order, and the callback gets the flattened list `Mapped`. Each announced actor's info is then settled, to the info used. |
| Targets.TargetActorProxy.AwaitInfo | src/adapter/firefox/actorProxy/target.ts:29 | The info awaited is the one the manager already settled for the actor, else the created one. No other actor's info changes. |
| EventBreakpoints.LeTotal | src/adapter/adapter/eventBreakpointsManager.ts:41-48 | The name order used by the sorts is total. |
| EventBreakpoints.InsertByFacts | src/adapter/adapter/eventBreakpointsManager.ts:41-48 | Inserting adds exactly the element, and the last element is the inserted one or the old last one. |
| EventBreakpoints.InsertBySorted | src/adapter/adapter/eventBreakpointsManager.ts:41-48 | Inserting into a sorted list keeps it sorted. |
| EventBreakpoints.SortBySorted | src/adapter/adapter/eventBreakpointsManager.ts:41-48 | The sort yields its elements in name order. |
| EventBreakpoints.SortByPermutes | src/adapter/adapter/eventBreakpointsManager.ts:41-48 | The sort is a permutation: the same elements, as often each. |
| EventBreakpoints.SortByMembers | src/adapter/adapter/eventBreakpointsManager.ts:41-48 | The sort keeps which elements there are. |
| EventBreakpoints.InsertByDistinct | src/adapter/adapter/eventBreakpointsManager.ts:41-48 | Inserting an element whose key is new keeps keys distinct. |
| EventBreakpoints.SortByDistinct | src/adapter/adapter/eventBreakpointsManager.ts:41-48 | Sorting keeps keys distinct. |
| EventBreakpoints.Project | src/adapter/adapter/eventBreakpointsManager.ts:21-24 | Each announced event is kept as its name and id, in order. |
| EventBreakpoints.FindCategory | src/adapter/adapter/eventBreakpointsManager.ts:16 | The result is the first category with the name, or none iff no category has it. |
| EventBreakpoints.HasIdIds | src/adapter/adapter/eventBreakpointsManager.ts:32 | `find` by id succeeds iff the id is among the category's ids. |
| EventBreakpoints.AddEventsExtends | src/adapter/adapter/eventBreakpointsManager.ts:30-39 | The inner loop only appends, and reports an addition iff it appended. |
| EventBreakpoints.AddEventsIds | src/adapter/adapter/eventBreakpointsManager.ts:30-39 | After the inner loop the category has its old ids and every announced one. |
| EventBreakpoints.AddEventsUnique | src/adapter/adapter/eventBreakpointsManager.ts:30-39 | The inner loop never lists an id twice in a category that did not. |
| EventBreakpoints.AddEventsNothingNew | src/adapter/adapter/eventBreakpointsManager.ts:30-39 | Announcing only known ids leaves the category unchanged and reports no addition. |
| EventBreakpoints.CatIdsAppend | src/adapter/adapter/eventBreakpointsManager.ts:19-25 | Appending a category adds its ids under its own name only. |
| EventBreakpoints.CatIdsAt | src/adapter/adapter/eventBreakpointsManager.ts:16 | With unique names, the ids under a category's name are its own. |
| EventBreakpoints.CatIdsUnknown | src/adapter/adapter/eventBreakpointsManager.ts:16-18 | An unknown name lists no ids. |
| EventBreakpoints.CatIdsUpdate | src/adapter/adapter/eventBreakpointsManager.ts:30-43 | Updating one category in place keeps names unique and changes only the ids under its name. |
| EventBreakpoints.NamesUpdate | src/adapter/adapter/eventBreakpointsManager.ts:30-43 | Updating a category in place keeps the set of names. |
| EventBreakpoints.ProjectIds | src/adapter/adapter/eventBreakpointsManager.ts:21-24 | A new category has exactly the announced ids. |
| EventBreakpoints.SortedIds | src/adapter/adapter/eventBreakpointsManager.ts:41-43 | Sorting a category's events keeps its ids. |
| EventBreakpoints.AnnouncedAppend | src/adapter/adapter/eventBreakpointsManager.ts:15 | One more announced category adds its name, and its ids under that name. |
| EventBreakpoints.MergeCategoryNames | src/adapter/adapter/eventBreakpointsManager.ts:16-28 | A category is appended iff its name is new, and names stay unique. A known name keeps every category's name in place. |
| EventBreakpoints.MergeCategoryIds | src/adapter/adapter/eventBreakpointsManager.ts:16-43 | One announced category adds its ids under its name and nothing elsewhere. |
| EventBreakpoints.MergeCategoryUnique | src/adapter/adapter/eventBreakpointsManager.ts:16-43 | Merging never lists an id twice in a category. |
| EventBreakpoints.MergeCategoryKnown | src/adapter/adapter/eventBreakpointsManager.ts:30-43 | A known category changes only when it gains an id, and its events are then sorted by name. |
| EventBreakpoints.MergeAllStep | src/adapter/adapter/eventBreakpointsManager.ts:15-44 | One more announced category continues the outer loop. |
| EventBreakpoints.AnnouncedStep | src/adapter/adapter/eventBreakpointsManager.ts:15 | One more announced category extends the announced names and ids. |
| EventBreakpoints.MergeAllNames | src/adapter/adapter/eventBreakpointsManager.ts:15-44 | The outer loop keeps names unique and adds exactly the announced names. |
| EventBreakpoints.MergeAllAdded | src/adapter/adapter/eventBreakpointsManager.ts:14-44 | The outer loop reports an addition iff some announced name is new. Otherwise every category keeps its position. |
| EventBreakpoints.MergeAllIds | src/adapter/adapter/eventBreakpointsManager.ts:15-44 | After the outer loop each name lists its old ids and every id announced under it. |
| EventBreakpoints.MergeAllUnique | src/adapter/adapter/eventBreakpointsManager.ts:15-44 | After the outer loop no category lists an id twice. |
| EventBreakpoints.MergeAllNothingNew | src/adapter/adapter/eventBreakpointsManager.ts:15-44 | Announcing only known names with known ids changes nothing. |
| EventBreakpoints.MergedKeeps | src/adapter/adapter/eventBreakpointsManager.ts:12-51 | In the published list names are unique and are the old plus the announced ones. Each name lists its old ids and every id announced under it. |
| EventBreakpoints.MergedOrder | src/adapter/adapter/eventBreakpointsManager.ts:46-48 | The categories are sorted by name when one was added, and otherwise keep their order. |
| EventBreakpoints.MergedUnique | src/adapter/adapter/eventBreakpointsManager.ts:12-51 | A category announced twice under one name still lists each id once. |
| EventBreakpoints.MergedIdempotent | src/adapter/adapter/eventBreakpointsManager.ts:12-51 | Announcing the same categories again changes nothing. |
| EventBreakpoints.MergeAllPrefix | src/adapter/adapter/eventBreakpointsManager.ts:15-44 | The outer loop over one more category is the merge of that category into the prefix's result. |
| EventBreakpoints.AddEventsPrefix | src/adapter/adapter/eventBreakpointsManager.ts:31-39 | The inner loop over one more event appends it iff its id is new. |
| EventBreakpoints.AddNewEvents | src/adapter/adapter/eventBreakpointsManager.ts:30-39 | The inner loop computes what `AddEvents` describes. |
| EventBreakpoints.EventBreakpointsManager.constructor | src/adapter/adapter/eventBreakpointsManager.ts:7-11 | A new manager offers no categories and has published nothing. |
| EventBreakpoints.EventBreakpointsManager.OnRegistered | src/adapter/adapter/eventBreakpointsManager.ts:12-51 | The list becomes `Merged` of the old list and the announcement, names stay unique, and that list is published. |
| EventBreakpoints.EventBreakpointsManager.MergeOne | src/adapter/adapter/eventBreakpointsManager.ts:16-43 | One announced category is merged as `MergeCategory` says. |
| Descriptors.DescriptorAdapter.constructor | src/adapter/adapter/descriptor.ts:15-27 | The adapter, its configurator and its breakpoint list are each registered under the next id of their registry, an id not in use before. No other registry entry changes. |
| Descriptors.DescriptorAdapter.Dispose | src/adapter/adapter/descriptor.ts:29-40 | The threads are disposed, and exactly the three registrations of the constructor are removed. The four proxies leave the connection, and no other name does. |
| Descriptors.DescriptorAdapter.Unregister | src/adapter/adapter/descriptor.ts:33-35 | Exactly the three registrations of the constructor are removed. |
| Descriptors.DescriptorAdapter.DisposeProxies | src/adapter/adapter/descriptor.ts:36-39 | Exactly the four proxies' names leave the connection. |
| Session.ConsoleCategory | src/adapter/firefoxDebugSession.ts:601-602 | `error` goes to `stderr`, `warn` to `console`, and every other level to `stdout`. Each is an iff. |
| Session.LogpointArguments | src/adapter/firefoxDebugSession.ts:648-675 | Only a logpoint loses its final argument, the empty literal its message ends with. Other levels keep all their arguments. |
| Session.ConsoleOutputFor | src/adapter/firefoxDebugSession.ts:588-680 | `clear` clears the screen. A `time` call produces nothing iff it starts its timer without error. Errors go to `stderr` and warnings to `console`. Timer messages go to `console` or `stdout`. A single primitive argument becomes its text and anything else the argument list. |
| Session.ExceptionText | src/adapter/firefoxDebugSession.ts:701-728 | There is text iff the thrown value is a non-empty string or an object. A string's text is the string. An object's text is its class, followed by its message when the preview is an `Error`. |
| Session.StoppedEventFor | src/adapter/firefoxDebugSession.ts:701-728 | The stop names the thread and the pause's type, or `interrupt` without one. It carries text iff the pause has an exception with text. |
| Session.NewSourceEventFor | src/adapter/firefoxDebugSession.ts:748-760 | A source is announced iff it has a URL that does not start with `javascript:`. |
| Session.SkipDecision | src/adapter/firefoxDebugSession.ts:564-573 | The path decides when there is one. Otherwise the generated URL decides when the source's own URL is missing or relative, and else the URL. There is no decision iff there is no path and no URL of either kind. |
| Session.ApplySkip | src/adapter/firefoxDebugSession.ts:575-581 | A decision always ends up in the flag. A change tells every actor. A decision to skip that the flag already records is sent to the new actor alone. No decision, or not skipping an unskipped source, changes nothing. |
| Session.FindHit | src/adapter/firefoxDebugSession.ts:497-499 | The result is the first breakpoint set exactly where the thread paused, and none iff no breakpoint is there. |
| Session.ResumedHits | src/adapter/firefoxDebugSession.ts:501-512 | At most the number of hits is resumed. |
| Session.ResumedHitsCount | src/adapter/firefoxDebugSession.ts:501-512 | With hit limit `L`, the first `L - 1` hits resume and every later hit stops. Without a limit every hit stops. |
| Session.FirefoxDebugSession.constructor | src/adapter/firefoxDebugSession.ts:95-97 | A new session keeps the given thread registry and breakpoint manager, starts with active thread id 0, and has sent no event. |
| Session.FirefoxDebugSession.GetActiveThread | src/adapter/firefoxDebugSession.ts:255-269 | The result is the last active thread while it is registered. Otherwise it is the first registered thread, which becomes the active one. It is nothing iff no thread is registered. |
| Session.FirefoxDebugSession.HitTarget | src/adapter/firefoxDebugSession.ts:492-499 | A breakpoint is only hit on a breakpoint pause in a source with a path. It is one of the manager's breakpoints and set exactly where the thread paused. |
| Session.FirefoxDebugSession.OnPaused | src/adapter/firefoxDebugSession.ts:473-546 | While the top frame's source is not announced, the handler waits and changes nothing. A pause in a black-boxed source resumes. Otherwise a hit breakpoint with a limit has its count raised, which touches no other count, and the pause resumes while the count is below the limit. An exception pause waits while its outermost frame's source is not announced, and resumes when that source is debugger-evaluated code. Each case is an iff. Any other pause records its reason and sends one stopped event. |

### Where the code and the model differ

- `SourcesManager.addActor` and `removeActor` (src/adapter/adapter/sourcesManager.ts:29, 35, 58-61) call
  the array methods `push`, `indexOf` and `splice` on the adapter's `actors` field. That field is a
  `SourceActorCollection`, which offers only `add` and `remove`. The model calls `add` and `remove`.
- `DebugConnection` hands a message from a registered actor to that proxy's `receiveMessage`
  (src/adapter/firefox/connection.ts:34). The actor proxy base class defines no such method; its
  message handler is `receiveResponse` (src/adapter/firefox/actorProxy/base.ts:42). The model
  delivers the message to `receiveResponse`.
- Most actor proxies, among them the object grip, root, target and source proxies, call the base
  constructor as `super(name, connection, log)` (src/adapter/firefox/actorProxy/objectGrip.ts:17,
  root.ts:28, target.ts:14, source.ts:30), while it takes `(name, responseTypes, connection)`
  (src/adapter/firefox/actorProxy/base.ts:11-15). The model gives these proxies no response types,
  so every message of theirs that has a type and no error reads as an event.
- `fetchRoot` and `fetchPrototypeAndProperties` call `sendCachedRequest` with a key and a request but
  no `convert` (src/adapter/firefox/actorProxy/root.ts:36-39, objectGrip.ts:36-39), which base.ts:29
  calls on the answer. The model memoises the request and uses the answer itself.
- The object grip proxy calls `sendRequestWithoutResponse` (src/adapter/firefox/actorProxy/objectGrip.ts:43, 47),
  which the base class does not define. The model sends the request to this actor and queues nothing
  awaiting an answer.
- `DescriptorAdapter`'s constructor registers the adapter before it creates its
  configurator and breakpoint list (src/adapter/adapter/descriptor.ts:24). The model registers it
  after them. The three registries are distinct, so the final state is the same.

## Left out

- Asynchronous interleaving. Each `async` handler is one sequential step, and the order in which concurrent handlers finish is not modelled.
- Remote answers are parameters: breakable positions, stack frames, tab lists, available events and actor replies. So are the answers of the path mapper, the skip-files manager and `isAbsoluteUrl`.
- Fetching and parsing source maps, file I/O, timers and the polling delay are not modelled. Parsed maps are parameters.
- Roots.RootProxy.FetchTabs: where the source keeps polling `listTabs` until a tab appears, the model stops and returns none after the answers it is given.
- Roots.RootProxy.Poll: the 100 ms delay between polls is not modelled.
- `fetchAddons` and the registration of `on*` listeners in root.ts and target.ts are left out. Emitted events are recorded in an `emitted` log instead.
- Debug and warning logging is modelled only as a `warned` log.
- The payload of resource types other than sources and thread states is an opaque string.
- `compareStrings` is assumed to be lexicographic order, because src/adapter/util/misc.ts is not part of this model. The model compares Unicode code points, while JavaScript compares UTF-16 code units. The two orders differ only between characters outside the Basic Multilingual Plane and those from U+E000 to U+FFFF.
- EventBreakpoints.SortBy: sorted order and permutation are proved, stability is not.
- `setActiveEventBreakpoints`, and the fields of an available event other than its name, id and type, are left out.
- Descriptors.DescriptorAdapter.Dispose: records that each thread is disposed but does not perform the disposal; `Threads.ThreadAdapter.Dispose` models that.
- Descriptors.DescriptorAdapter.constructor: registers the adapter last rather than first, as described above.
- Of `attachSource`, only the skip decision and its application are modelled. The `addActor` and `sourceActors.add` wiring and sending the new-source event are covered by `SourcesManagers` and `Session.NewSourceEventFor`.
- The location attached to console output (`addLocation`) is left out. So are `VariableAdapter` and `ConsoleAPICallAdapter`, which format values.
- Session.LogpointArguments: for a logpoint with no arguments the source fails when it reads the last one. The model keeps the empty list instead.
- The `showConsoleCallLocation` option, which appends the call location to console output, is left out.
- The display value of an object grip is assumed to be non-empty text.
- The prefetch of stack frames after a stop is left out. So is the handling of frame-finished and exception scopes inside `fetchAllStackFrames`.
- The resumed branch of the pause handler, which disposes pause-lifetime adapters and sends a continued event, is left out. The disposal itself is `Threads.ThreadAdapter.DisposePauseLifetimeAdapters`.
- A thread adapter's `id` is assumed to be its registry key.
- A thread's interrupt, resume, step and evaluate requests only forward to actors and are left out.
- `getAdapterForID`, `getAdapterForActor` and `getAdapterForUrl` are plain lookups and are left out.
- The `listTabs` answers are not delivered through the request queue of the root proxy.
- Breakpoints.HitLimitOf: reads only decimal digit strings. Other strings that JavaScript's unary `+` accepts, such as `0x10` or `1e2`, give 0 here.
- Fs.NormalizePath: lower-cases ASCII letters only, and keeps the length of the path. JavaScript's `toLowerCase` also folds other Unicode letters and can change a string's length (`İ` becomes two code units).
- Fs.NormalizePathFoldsCase: states the folding of drive paths that differ in the case of ASCII letters only, for the same reason.
- Targets.TargetActorProxy.OnSources: source actors are compared by value, where the source compares proxies by identity (`===`). Two distinct proxies with the same source description and kind count as one here. So an announced source whose info lists an equal but distinct proxy is delivered once, where the source would deliver both proxies.
- Sources.SourceActorCollection.Remove: finds the actor to splice out by value, where the source's `indexOf` finds the proxy object itself. With two equal but distinct proxies in a pool, the model may splice out the other one.
- Threads.ThreadAdapter.AddSourceActor: the thread's `Set` of source actor proxies is a sequence without repeats, and actors are compared by value rather than by proxy identity.
- ActorProxies.ActorProxy.SendRequestWithoutResponse: models a method the base class does not define, as sending the request to this actor without queueing anything (see "Where the code and the model differ").
- Roots.RootProxy.FetchRoot: uses the `getRoot` answer itself, where the code passes no `convert` to `sendCachedRequest` (see "Where the code and the model differ").
