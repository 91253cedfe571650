/**
 * The breakpoints the editor has set, per normalised source path or URL, and
 * their synchronisation with the breakpoint lists of the debuggee. Every
 * `setBreakpoints` request replaces the list of one path: requests equivalent
 * to a previous entry keep that entry, the others get new numbered entries
 * that are placed in every breakpoint list, and previous entries whose line
 * and column are no longer requested are removed from every list.
 *
 * The session's messages are recorded, in order, in `events` (to the editor)
 * and `commands` (to the breakpoint-list actors). The runtime's answers about
 * breakable positions, and the source adapters the sources index hands out,
 * are parameters.
 */
module BreakpointsManagers {
  import opened Wrappers
  import opened Text
  import opened Fs
  import opened Protocol
  import opened Breakpoints
  import opened Logpoints
  import opened Sources

  /** What the runtime answers about a source: the breakable positions per line, and the breakable lines. */
  datatype Breakables = Breakables(locationsOn: int -> seq<MappedLocation>, lines: seq<int>)

  /**
   * The source adapter for one path, as the sources index gives it: the one
   * already known (`getExistingAdapterForPath`), and what the promise of
   * `getAdapterForPath` resolves to (`None` while no source has that path).
   */
  datatype Lookup = Lookup(existing: Option<SourceAdapter>, awaited: Option<SourceAdapter>) {
    /** The adapter a placement works with: the known one, else the awaited one. */
    function Placing(): Option<SourceAdapter> {
      if existing.Some? then existing else awaited
    }
  }

  /** Events sent to the editor. */
  datatype SessionEvent =
    | UnknownSource(pathOrUrl: string)
    | BreakpointChanged(id: nat, line: int, column: int)

  /** Requests sent to the breakpoint-list actor with id `list`. */
  datatype ListCommand =
    | SetBreakpoint(list: nat, url: string, line: int, column: int, condition: Option<string>, logValue: Option<string>)
    | RemoveBreakpoint(list: nat, url: string, line: int, column: int)

  /** The 0-based column asked for: `(column || 1) - 1`, so an absent or zero column asks for column 0. */
  function QueryColumn(bp: SourceBreakpoint): (r: int)
    ensures bp.column.Some? && bp.column.value != 0 ==> r == bp.column.value - 1
    ensures bp.column.None? || bp.column.value == 0 ==> r == 0
  {
    (if bp.column.Some? && bp.column.value != 0 then bp.column.value else 1) - 1
  }

  /** Where a breakpoint lands in a source with a URL; a source without one is never asked. */
  function Landing(adapter: Option<SourceAdapter>, bp: SourceBreakpoint, remote: SourceAdapter -> Breakables): Option<MappedLocation> {
    if adapter.Some? && Truthy(adapter.value.url) then
      var answers := remote(adapter.value);
      NextBreakable(bp.line, QueryColumn(bp), answers.locationsOn, answers.lines)
    else None
  }

  /** The URL and position the runtime is told: the generated ones for a location in an original source. */
  function Target(adapter: SourceAdapter, loc: MappedLocation): (Option<string>, Location) {
    if loc.generated.Some? then (adapter.generatedUrl, loc.generated.value)
    else (adapter.url, Location(loc.line, loc.column))
  }

  /** The expression a logpoint evaluates: `"..."` followed by its converted message. */
  function LogValue(bp: SourceBreakpoint): (r: Option<string>)
    ensures r.Some? <==> Truthy(bp.logMessage)
  {
    if Truthy(bp.logMessage) then Some("..." + LogpointExpression(bp.logMessage.value)) else None
  }

  /** The command `c` addressed to each breakpoint list in turn. */
  function ToEach(lists: seq<nat>, c: ListCommand): (r: seq<ListCommand>)
    ensures |r| == |lists|
    ensures forall i :: 0 <= i < |lists| ==> r[i] == c.(list := lists[i])
  {
    if lists == [] then [] else ToEach(lists[..|lists| - 1], c) + [c.(list := lists[|lists| - 1])]
  }

  /** What placing `bp` tells the breakpoint lists: one `setBreakpoint` each, if it lands at a URL. */
  function PlaceCommands(bp: SourceBreakpoint, adapter: Option<SourceAdapter>, remote: SourceAdapter -> Breakables,
                         lists: seq<nat>): seq<ListCommand>
  {
    var loc := Landing(adapter, bp, remote);
    if loc.None? then [] else
    var (url, at) := Target(adapter.value, loc.value);
    if Truthy(url) then ToEach(lists, SetBreakpoint(0, url.value, at.line, at.column, bp.condition, LogValue(bp))) else []
  }

  /** What removing `bp` tells the breakpoint lists: one `removeBreakpoint` each, if it lands at a URL. */
  function RemoveCommands(bp: SourceBreakpoint, adapter: Option<SourceAdapter>, remote: SourceAdapter -> Breakables,
                          lists: seq<nat>): seq<ListCommand>
  {
    var loc := Landing(adapter, bp, remote);
    if loc.None? then [] else
    var (url, at) := Target(adapter.value, loc.value);
    if Truthy(url) then ToEach(lists, RemoveBreakpoint(0, url.value, at.line, at.column)) else []
  }

  /** `verifyBreakpoint` reports a breakpoint once, when it first lands; columns are reported 1-based. */
  function VerifyEvents(id: nat, loc: Option<MappedLocation>, verified: bool): seq<SessionEvent> {
    if loc.Some? && !verified then [BreakpointChanged(id, loc.value.line, loc.value.column + 1)] else []
  }

  /** The events of placing a new breakpoint: `unknownSource` when no adapter is known yet, then its verification. */
  function PlaceEvents(id: nat, bp: SourceBreakpoint, pathOrUrl: string, lookup: Lookup,
                       remote: SourceAdapter -> Breakables): seq<SessionEvent>
  {
    (if lookup.existing.None? then [UnknownSource(pathOrUrl)] else [])
    + VerifyEvents(id, Landing(lookup.Placing(), bp, remote), false)
  }

  /** The position of the first entry at or after `from` equivalent to `bp`, or -1. */
  function FirstEquivalentFrom(infos: seq<BreakpointInfo>, bp: SourceBreakpoint, from: nat): (r: int)
    requires from <= |infos|
    ensures r == -1 || from <= r < |infos|
    ensures r >= 0 ==> IsEquivalent(infos[r].requested, bp)
    decreases |infos| - from
  {
    if from == |infos| then -1
    else if IsEquivalent(infos[from].requested, bp) then from
    else FirstEquivalentFrom(infos, bp, from + 1)
  }

  /** No entry from `from` up to the one found (or up to the end) is equivalent to `bp`. */
  lemma {:induction false} FirstEquivalentFromSkips(infos: seq<BreakpointInfo>, bp: SourceBreakpoint, from: nat)
    requires from <= |infos|
    ensures var r := FirstEquivalentFrom(infos, bp, from);
      forall j :: from <= j < (if r < 0 then |infos| else r) ==> !IsEquivalent(infos[j].requested, bp)
    decreases |infos| - from
  {
    if from < |infos| && !IsEquivalent(infos[from].requested, bp) {
      FirstEquivalentFromSkips(infos, bp, from + 1);
    }
  }

  /** The previous entry a request reuses: the first one equivalent to it, if there is a previous list. */
  function Reused(olds: Option<seq<BreakpointInfo>>, bp: SourceBreakpoint): (r: Option<BreakpointInfo>)
    ensures r.Some? ==> olds.Some? && r.value in olds.value && IsEquivalent(r.value.requested, bp)
  {
    if olds.None? then None
    else
      var i := FirstEquivalentFrom(olds.value, bp, 0);
      if i < 0 then None else Some(olds.value[i])
  }

  /** A request gets a new entry exactly when no previous entry is equivalent to it. */
  lemma ReusedNone(olds: Option<seq<BreakpointInfo>>, bp: SourceBreakpoint)
    ensures Reused(olds, bp).None? <==>
      olds.None? || forall j :: 0 <= j < |olds.value| ==> !IsEquivalent(olds.value[j].requested, bp)
  {
    if olds.Some? {
      FirstEquivalentFromSkips(olds.value, bp, 0);
    }
  }

  /** How many of the first `n` requests get a new entry. */
  function NewCount(olds: Option<seq<BreakpointInfo>>, bps: seq<SourceBreakpoint>, n: nat): (r: nat)
    requires n <= |bps|
    ensures r <= n
  {
    if n == 0 then 0
    else NewCount(olds, bps, n - 1) + (if Reused(olds, bps[n - 1]).None? then 1 else 0)
  }

  /**
   * `info` is what `getOrCreateBreakpointInfo` gives the `i`-th request: the
   * previous entry it reuses, else a new entry for it numbered after the new
   * entries of the requests before it.
   */
  ghost predicate Obtained(info: BreakpointInfo, olds: Option<seq<BreakpointInfo>>, bps: seq<SourceBreakpoint>,
                           i: nat, firstId: nat)
    requires i < |bps|
  {
    var reused := Reused(olds, bps[i]);
    if reused.Some? then info == reused.value
    else && info.id == firstId + NewCount(olds, bps, i)
         && info.requested == bps[i]
         && info.hitLimit == HitLimitOf(bps[i].hitCondition)
  }

  /**
   * `infos` holds what the first `|infos|` requests of `bps` obtain, new
   * entries being numbered from `firstId`; `nextId` is the id after the
   * last new one.
   */
  ghost predicate ObtainedPrefix(infos: seq<BreakpointInfo>, olds: Option<seq<BreakpointInfo>>, bps: seq<SourceBreakpoint>,
                                 firstId: nat, nextId: nat)
  {
    && |infos| <= |bps|
    && nextId == firstId + NewCount(olds, bps, |infos|)
    && (forall j {:trigger infos[j]} :: 0 <= j < |infos| ==> Obtained(infos[j], olds, bps, j, firstId))
    && (forall j {:trigger infos[j]} :: 0 <= j < |infos| && Reused(olds, bps[j]).None? ==> firstId <= infos[j].id < nextId)
  }

  /** One more request: the entry it obtains extends the prefix, and a new one moves the next id on. */
  lemma ObtainedStep(infos: seq<BreakpointInfo>, olds: Option<seq<BreakpointInfo>>, bps: seq<SourceBreakpoint>,
                     firstId: nat, nextId: nat, info: BreakpointInfo)
    requires |infos| < |bps| && ObtainedPrefix(infos, olds, bps, firstId, nextId)
    requires Obtained(info, olds, bps, |infos|, firstId)
    ensures ObtainedPrefix(infos + [info], olds, bps, firstId,
                           nextId + (if Reused(olds, bps[|infos|]).None? then 1 else 0))
  {
    forall j | 0 <= j < |infos| + 1
      ensures Obtained((infos + [info])[j], olds, bps, j, firstId)
    {
      if j < |infos| {
        assert (infos + [info])[j] == infos[j];
      }
    }
  }

  /** Whether an obtained entry is new: not one of the previous entries (compared by identity). */
  predicate IsNew(olds: Option<seq<BreakpointInfo>>, info: BreakpointInfo) {
    olds.None? || info !in olds.value
  }

  /** The events of placing the new ones among the first `n` entries, in order. */
  function PlacementEvents(olds: Option<seq<BreakpointInfo>>, infos: seq<BreakpointInfo>, n: nat,
                           pathOrUrl: string, lookup: Lookup, remote: SourceAdapter -> Breakables): seq<SessionEvent>
    requires n <= |infos|
  {
    if n == 0 then []
    else
      var info := infos[n - 1];
      PlacementEvents(olds, infos, n - 1, pathOrUrl, lookup, remote)
      + (if IsNew(olds, info) then PlaceEvents(info.id, info.requested, pathOrUrl, lookup, remote) else [])
  }

  /** The commands of placing the new ones among the first `n` entries, in order. */
  function PlacementCommands(olds: Option<seq<BreakpointInfo>>, infos: seq<BreakpointInfo>, n: nat,
                             adapter: Option<SourceAdapter>, remote: SourceAdapter -> Breakables, lists: seq<nat>)
    : seq<ListCommand>
    requires n <= |infos|
  {
    if n == 0 then []
    else
      var info := infos[n - 1];
      PlacementCommands(olds, infos, n - 1, adapter, remote, lists)
      + (if IsNew(olds, info) then PlaceCommands(info.requested, adapter, remote, lists) else [])
  }

  /** Whether some entry is requested at the line and column of `bp`. */
  predicate SpotRequested(infos: seq<BreakpointInfo>, bp: SourceBreakpoint) {
    exists i :: 0 <= i < |infos| && infos[i].requested.line == bp.line && infos[i].requested.column == bp.column
  }

  /** The commands that remove the first `n` previous entries whose line and column no entry of `infos` has. */
  function RemovalCommands(olds: seq<BreakpointInfo>, n: nat, infos: seq<BreakpointInfo>, adapter: Option<SourceAdapter>,
                           remote: SourceAdapter -> Breakables, lists: seq<nat>): seq<ListCommand>
    requires n <= |olds|
  {
    if n == 0 then []
    else
      var o := olds[n - 1];
      RemovalCommands(olds, n - 1, infos, adapter, remote, lists)
      + (if !SpotRequested(infos, o.requested) then RemoveCommands(o.requested, adapter, remote, lists) else [])
  }

  /**
   * Numbering: a new entry has a larger id than every new entry of an earlier request.
   */
  lemma {:induction false} NewCountGrows(olds: Option<seq<BreakpointInfo>>, bps: seq<SourceBreakpoint>, i: nat, j: nat)
    requires i < j <= |bps| && Reused(olds, bps[i]).None?
    ensures NewCount(olds, bps, i) < NewCount(olds, bps, j)
    decreases j
  {
    if j > i + 1 {
      NewCountGrows(olds, bps, i, j - 1);
    }
  }

  /** The previous list of `key`, if there is one. */
  function Previous(table: map<string, seq<BreakpointInfo>>, key: string): Option<seq<BreakpointInfo>> {
    if key in table then Some(table[key]) else None
  }

  /**
   * The ids in the table are below the next id to hand out, and an id
   * identifies one entry, which belongs to one path.
   */
  ghost predicate TableConsistent(table: map<string, seq<BreakpointInfo>>, nextId: nat) {
    && nextId >= 1
    && (forall p, x :: p in table && x in table[p] ==> 1 <= x.id < nextId)
    && (forall p, q, x, y {:trigger x in table[p], y in table[q]} :: p in table && q in table && x in table[p] && y in table[q] && x.id == y.id ==> p == q && x == y)
  }

  /** Storing a list of reused entries and entries numbered from `nextId` keeps the table consistent. */
  lemma StoreConsistent(table: map<string, seq<BreakpointInfo>>, nextId: nat, key: string,
                        infos: seq<BreakpointInfo>, nextId': nat)
    requires TableConsistent(table, nextId) && nextId <= nextId'
    requires forall x :: x in infos ==> (key in table && x in table[key]) || nextId <= x.id < nextId'
    requires forall x, y :: x in infos && y in infos && x.id == y.id ==> x == y
    ensures TableConsistent(table[key := infos], nextId')
  {
  }

  /** Distinct requests that get new entries get distinct ids; a reused entry keeps its (smaller) id. */
  lemma ObtainedDistinct(table: map<string, seq<BreakpointInfo>>, key: string, infos: seq<BreakpointInfo>,
                         bps: seq<SourceBreakpoint>, firstId: nat, nextId: nat)
    requires TableConsistent(table, firstId)
    requires ObtainedPrefix(infos, Previous(table, key), bps, firstId, nextId)
    ensures forall x :: x in infos ==> (key in table && x in table[key]) || firstId <= x.id < nextId
    ensures forall x, y :: x in infos && y in infos && x.id == y.id ==> x == y
  {
    var olds := Previous(table, key);
    forall x | x in infos
      ensures (key in table && x in table[key]) || firstId <= x.id < nextId
    {
      var i :| 0 <= i < |infos| && infos[i] == x;
      assert Obtained(infos[i], olds, bps, i, firstId);
    }
    forall x, y | x in infos && y in infos && x.id == y.id
      ensures x == y
    {
      var i :| 0 <= i < |infos| && infos[i] == x;
      var j :| 0 <= j < |infos| && infos[j] == y;
      assert Obtained(infos[i], olds, bps, i, firstId) && Obtained(infos[j], olds, bps, j, firstId);
      if Reused(olds, bps[i]).None? && Reused(olds, bps[j]).None? && i != j {
        if i < j { NewCountGrows(olds, bps, i, j); } else { NewCountGrows(olds, bps, j, i); }
      }
    }
  }

  /** Every entry obtained for a request is at the line and column of that request. */
  lemma ObtainedSpots(infos: seq<BreakpointInfo>, olds: Option<seq<BreakpointInfo>>, bps: seq<SourceBreakpoint>,
                      firstId: nat, nextId: nat)
    requires ObtainedPrefix(infos, olds, bps, firstId, nextId)
    ensures forall j :: 0 <= j < |infos| ==>
      infos[j].requested.line == bps[j].line && infos[j].requested.column == bps[j].column
  {
    forall j | 0 <= j < |infos|
      ensures infos[j].requested.line == bps[j].line && infos[j].requested.column == bps[j].column
    {
      assert Obtained(infos[j], olds, bps, j, firstId);
    }
  }

  /**
   * `infos` is what `setBreakpoints` obtains for the requests `bps`: one
   * entry per request, new entries numbered from `firstId` up to `nextId`,
   * and an entry is new exactly when no previous entry is equivalent to its
   * request.
   */
  ghost predicate Renewed(infos: seq<BreakpointInfo>, olds: Option<seq<BreakpointInfo>>, bps: seq<SourceBreakpoint>,
                          firstId: nat, nextId: nat)
  {
    && |infos| == |bps| && ObtainedPrefix(infos, olds, bps, firstId, nextId)
    && (forall i {:trigger infos[i]} :: 0 <= i < |infos| ==> (IsNew(olds, infos[i]) <==> Reused(olds, bps[i]).None?))
  }

  /** A new entry before its placement. */
  ghost predicate Unplaced(info: BreakpointInfo)
    reads info
  {
    info.actualLocation == None && !info.verified
  }

  /** An entry after a placement that lands at `loc` (verified exactly when it lands). */
  ghost predicate Placed(info: BreakpointInfo, loc: Option<MappedLocation>)
    reads info
  {
    info.actualLocation == loc && info.verified == loc.Some?
  }

  /** The new entries before `i` are placed where they land at `adapter`, those from `i` on are not yet. */
  ghost predicate PlacedUpTo(infos: seq<BreakpointInfo>, olds: Option<seq<BreakpointInfo>>, i: nat, adapter: Option<SourceAdapter>,
                             remote: SourceAdapter -> Breakables)
    reads infos
  {
    && (forall j {:trigger infos[j]} :: 0 <= j < i && j < |infos| && IsNew(olds, infos[j]) ==>
          Placed(infos[j], Landing(adapter, infos[j].requested, remote)))
    && (forall j {:trigger infos[j]} :: i <= j < |infos| && IsNew(olds, infos[j]) ==> Unplaced(infos[j]))
  }

  /** The new entries among those obtained. */
  function NewEntries(infos: seq<BreakpointInfo>, olds: Option<seq<BreakpointInfo>>): set<BreakpointInfo> {
    set j | 0 <= j < |infos| && IsNew(olds, infos[j]) :: infos[j]
  }

  /** A new entry appears once among the obtained entries. */
  lemma NewEntriesApart(infos: seq<BreakpointInfo>, olds: Option<seq<BreakpointInfo>>, bps: seq<SourceBreakpoint>,
                        firstId: nat, nextId: nat)
    requires ObtainedPrefix(infos, olds, bps, firstId, nextId)
    requires forall j {:trigger infos[j]} :: 0 <= j < |infos| ==> (IsNew(olds, infos[j]) <==> Reused(olds, bps[j]).None?)
    ensures forall j, k {:trigger infos[j], infos[k]} :: 0 <= j < k < |infos| && IsNew(olds, infos[j]) ==> infos[j] != infos[k]
  {
    forall j, k | 0 <= j < k < |infos| && IsNew(olds, infos[j])
      ensures infos[j] != infos[k]
    {
      assert Obtained(infos[j], olds, bps, j, firstId) && Obtained(infos[k], olds, bps, k, firstId);
      if Reused(olds, bps[k]).None? {
        NewCountGrows(olds, bps, j, k);
      }
    }
  }

  /** Where each of the first `n` entries lands. */
  function Landings(adapter: Option<SourceAdapter>, infos: seq<BreakpointInfo>, n: nat, remote: SourceAdapter -> Breakables)
    : (r: seq<Option<MappedLocation>>)
    requires n <= |infos|
    ensures |r| == n
  {
    if n == 0 then [] else Landings(adapter, infos, n - 1, remote) + [Landing(adapter, infos[n - 1].requested, remote)]
  }

  lemma {:induction false} LandingsAt(adapter: Option<SourceAdapter>, infos: seq<BreakpointInfo>, n: nat,
                                      remote: SourceAdapter -> Breakables, j: nat)
    requires j < n <= |infos|
    ensures Landings(adapter, infos, n, remote)[j] == Landing(adapter, infos[j].requested, remote)
  {
    if j < n - 1 {
      LandingsAt(adapter, infos, n - 1, remote, j);
    }
  }

  /** Every entry of the table, whatever its path. */
  function Entries(table: map<string, seq<BreakpointInfo>>): set<BreakpointInfo> {
    set p, x | p in table && x in table[p] :: x
  }

  /** An entry after landing anew at `loc`, from the location and verified flag it had before. */
  ghost predicate LandedFrom(x: BreakpointInfo, loc: Option<MappedLocation>, prior: (Option<MappedLocation>, bool))
    reads x
  {
    x.actualLocation == (if loc.Some? then loc else prior.0) && x.verified == (prior.1 || loc.Some?)
  }

  /** The entries before `i` have landed anew at `adapter`, the others are as recorded in `before`. */
  ghost predicate ReplayedUpTo(infos: seq<BreakpointInfo>, i: nat, adapter: SourceAdapter, remote: SourceAdapter -> Breakables,
                               before: map<BreakpointInfo, (Option<MappedLocation>, bool)>)
    requires i <= |infos| && forall x :: x in infos ==> x in before
    reads infos
  {
    && (forall x :: x in infos[..i] ==> LandedFrom(x, Landing(Some(adapter), x.requested, remote), before[x]))
    && (forall x :: x in infos && x !in infos[..i] ==> (x.actualLocation, x.verified) == before[x])
  }

  /** Every entry of `infos` has landed anew at `adapter`, from its state in `before`. */
  ghost predicate PathLanded(infos: seq<BreakpointInfo>, adapter: Option<SourceAdapter>, remote: SourceAdapter -> Breakables,
                             before: map<BreakpointInfo, (Option<MappedLocation>, bool)>)
    reads infos
  {
    forall x :: x in infos ==> x in before && LandedFrom(x, Landing(adapter, x.requested, remote), before[x])
  }

  /** Every entry of `infos` is as recorded in `before`. */
  ghost predicate PathAsBefore(infos: seq<BreakpointInfo>, before: map<BreakpointInfo, (Option<MappedLocation>, bool)>)
    reads infos
  {
    forall x :: x in infos ==> x in before && (x.actualLocation, x.verified) == before[x]
  }

  /** The entries of each path are entries of the table. */
  lemma EntriesOfPaths(table: map<string, seq<BreakpointInfo>>)
    ensures forall p, x :: p in table && x in table[p] ==> x in Entries(table)
  {
  }

  /** The listed paths are keys of the table, and no two of them share an entry. */
  ghost predicate PathsApart(table: map<string, seq<BreakpointInfo>>, paths: seq<string>) {
    && (forall k :: 0 <= k < |paths| ==> paths[k] in table)
    && (forall i, k, x :: 0 <= i < |paths| && 0 <= k < |paths| && i != k && x in table[paths[k]] ==> x !in table[paths[i]])
  }

  /** In a consistent table, distinct listed paths share no entry. */
  lemma ConsistentPathsApart(table: map<string, seq<BreakpointInfo>>, nextId: nat, paths: seq<string>)
    requires TableConsistent(table, nextId)
    requires forall k :: 0 <= k < |paths| ==> paths[k] in table
    requires forall j, k :: 0 <= j < k < |paths| ==> paths[j] != paths[k]
    ensures PathsApart(table, paths)
  {
    forall i, k, x | 0 <= i < |paths| && 0 <= k < |paths| && i != k && x in table[paths[k]]
      ensures x !in table[paths[i]]
    {
      assert paths[i] != paths[k] by {
        if i < k {
          assert paths[i] != paths[k];
        } else {
          assert paths[k] != paths[i];
        }
      }
      OnePath(table, nextId, paths[i], paths[k], x);
    }
  }

  /** In a consistent table an entry belongs to one path only. */
  lemma OnePath(table: map<string, seq<BreakpointInfo>>, nextId: nat, p: string, q: string, x: BreakpointInfo)
    requires TableConsistent(table, nextId) && p in table && q in table
    ensures x in table[p] && x in table[q] ==> p == q
  {
  }

  /** What replaying the first `n` entries of one path tells the new breakpoint list `list`. */
  function ReplayCommands(infos: seq<BreakpointInfo>, n: nat, adapter: SourceAdapter, remote: SourceAdapter -> Breakables,
                          list: nat): seq<ListCommand>
    requires n <= |infos|
  {
    if n == 0 then []
    else ReplayCommands(infos, n - 1, adapter, remote, list) + PlaceCommands(infos[n - 1].requested, Some(adapter), remote, [list])
  }

  /**
   * The events of replaying the first `n` entries of one path: an entry that
   * lands is reported unless it was verified before (it is in `verified0`)
   * or it already came up earlier in the list, which happens when two
   * equivalent requests reused the same entry.
   */
  function ReplayEvents(infos: seq<BreakpointInfo>, n: nat, adapter: SourceAdapter, remote: SourceAdapter -> Breakables,
                        verified0: set<BreakpointInfo>): seq<SessionEvent>
    requires n <= |infos|
  {
    if n == 0 then []
    else
      var x := infos[n - 1];
      ReplayEvents(infos, n - 1, adapter, remote, verified0)
      + (if x in verified0 || x in infos[..n - 1] then [] else VerifyEvents(x.id, Landing(Some(adapter), x.requested, remote), false))
  }

  /** The adapter the replay of a path works with: only one that has resolved and has a URL. */
  predicate Replays(adapter: Option<SourceAdapter>) {
    adapter.Some? && Truthy(adapter.value.url)
  }

  /** What replaying the first `n` paths tells the new breakpoint list `list`. */
  function ReplayAllCommands(paths: seq<string>, n: nat, table: map<string, seq<BreakpointInfo>>,
                             adapterFor: string -> Option<SourceAdapter>, remote: SourceAdapter -> Breakables, list: nat)
    : seq<ListCommand>
    requires n <= |paths|
  {
    if n == 0 then []
    else
      var p := paths[n - 1];
      ReplayAllCommands(paths, n - 1, table, adapterFor, remote, list)
      + (if p in table && Replays(adapterFor(p)) then ReplayCommands(table[p], |table[p]|, adapterFor(p).value, remote, list) else [])
  }

  /** The events of replaying the first `n` paths. */
  function ReplayAllEvents(paths: seq<string>, n: nat, table: map<string, seq<BreakpointInfo>>,
                           adapterFor: string -> Option<SourceAdapter>, remote: SourceAdapter -> Breakables,
                           verified0: set<BreakpointInfo>): seq<SessionEvent>
    requires n <= |paths|
  {
    if n == 0 then []
    else
      var p := paths[n - 1];
      ReplayAllEvents(paths, n - 1, table, adapterFor, remote, verified0)
      + (if p in table && Replays(adapterFor(p)) then ReplayEvents(table[p], |table[p]|, adapterFor(p).value, remote, verified0) else [])
  }

  class BreakpointsManager {
    /** whether paths are normalised as on Windows */
    const isWindows: bool
    var nextBreakpointId: nat
    /** the entries of each normalised path or URL */
    var breakpointsByPath: map<string, seq<BreakpointInfo>>
    /** the keys of `breakpointsByPath` in insertion order */
    var pathOrder: seq<string>
    var events: seq<SessionEvent>
    var commands: seq<ListCommand>

    ghost predicate Valid()
      reads this`nextBreakpointId, this`breakpointsByPath, this`pathOrder
    {
      TableConsistent(breakpointsByPath, nextBreakpointId) && PathsListed()
    }

    /** `pathOrder` enumerates the keys of the table once each. */
    ghost predicate PathsListed()
      reads this`breakpointsByPath, this`pathOrder
    {
      && (forall i :: 0 <= i < |pathOrder| ==> pathOrder[i] in breakpointsByPath)
      && (forall p :: p in breakpointsByPath ==> p in pathOrder)
      && (forall i, j :: 0 <= i < j < |pathOrder| ==> pathOrder[i] != pathOrder[j])
    }

    constructor (isWindows: bool)
      ensures Valid() && this.isWindows == isWindows
      ensures nextBreakpointId == 1 && breakpointsByPath == map[] && pathOrder == [] && events == [] && commands == []
    {
      this.isWindows := isWindows;
      nextBreakpointId := 1;
      breakpointsByPath := map[];
      pathOrder := [];
      events := [];
      commands := [];
    }

    /** `getBreakpoints`: the entries stored for the path once normalised. */
    function GetBreakpoints(sourcePathOrUrl: string): (r: Option<seq<BreakpointInfo>>)
      reads this
      ensures r == Previous(breakpointsByPath, NormalizePath(isWindows, sourcePathOrUrl))
    {
      var key := NormalizePath(isWindows, sourcePathOrUrl);
      if key in breakpointsByPath then Some(breakpointsByPath[key]) else None
    }

    /** `verifyBreakpoint`: reports a breakpoint that has landed, with a 1-based column, and marks it verified. */
    method VerifyBreakpoint(info: BreakpointInfo)
      modifies info`verified, this`events
      ensures info.actualLocation.None? ==> events == old(events) && info.verified == old(info.verified)
      ensures info.actualLocation.Some? ==>
        && events == old(events) + [BreakpointChanged(info.id, info.actualLocation.value.line, info.actualLocation.value.column + 1)]
        && info.verified
    {
      if info.actualLocation.None? {
        return;
      }
      events := events + [BreakpointChanged(info.id, info.actualLocation.value.line, info.actualLocation.value.column + 1)];
      info.verified := true;
    }

    /** `getOrCreateBreakpointInfo`: the first equivalent previous entry, else a new entry with the next id. */
    method GetOrCreateBreakpointInfo(requested: SourceBreakpoint, olds: Option<seq<BreakpointInfo>>)
      returns (info: BreakpointInfo)
      modifies this`nextBreakpointId
      ensures Reused(olds, requested).Some? ==>
        info == Reused(olds, requested).value && nextBreakpointId == old(nextBreakpointId)
      ensures Reused(olds, requested).None? ==>
        && fresh(info) && info.id == old(nextBreakpointId) && nextBreakpointId == old(nextBreakpointId) + 1
        && info.requested == requested && info.hitLimit == HitLimitOf(requested.hitCondition)
        && info.actualLocation == None && !info.verified && info.hitCount == 0
    {
      if olds.Some? {
        var i := FirstEquivalentFrom(olds.value, requested, 0);
        if i >= 0 {
          return olds.value[i];
        }
      }
      info := new BreakpointInfo(nextBreakpointId, requested);
      nextBreakpointId := nextBreakpointId + 1;
    }

    /** `breakpoints.map(getOrCreateBreakpointInfo)`: one entry per request, in request order. */
    method ObtainInfos(breakpoints: seq<SourceBreakpoint>, olds: Option<seq<BreakpointInfo>>)
      returns (infos: seq<BreakpointInfo>)
      modifies this`nextBreakpointId
      ensures |infos| == |breakpoints|
      ensures ObtainedPrefix(infos, olds, breakpoints, old(nextBreakpointId), nextBreakpointId)
      ensures forall i {:trigger infos[i]} :: 0 <= i < |infos| ==> (IsNew(olds, infos[i]) <==> Reused(olds, breakpoints[i]).None?)
      ensures forall i {:trigger infos[i]} :: 0 <= i < |infos| && IsNew(olds, infos[i]) ==>
        fresh(infos[i]) && Unplaced(infos[i]) && infos[i].hitCount == 0
    {
      infos := [];
      for i := 0 to |breakpoints|
        invariant |infos| == i
        invariant ObtainedPrefix(infos, olds, breakpoints, old(nextBreakpointId), nextBreakpointId)
        invariant forall j {:trigger infos[j]} :: 0 <= j < i ==> (IsNew(olds, infos[j]) <==> Reused(olds, breakpoints[j]).None?)
        invariant forall j {:trigger infos[j]} :: 0 <= j < i && IsNew(olds, infos[j]) ==>
          fresh(infos[j]) && Unplaced(infos[j]) && infos[j].hitCount == 0
      {
        ghost var nextId := nextBreakpointId;
        var info := GetOrCreateBreakpointInfo(breakpoints[i], olds);
        ObtainedStep(infos, olds, breakpoints, old(nextBreakpointId), nextId, info);
        infos := infos + [info];
      }
    }

    /**
     * The part of a placement that follows the adapter lookup: in a source
     * with a URL, find where the breakpoint lands; if it lands, record the
     * location, tell each of `lists` (if the landing has a URL) and verify
     * the breakpoint unless it already is.
     */
    method Land(info: BreakpointInfo, adapter: SourceAdapter, remote: SourceAdapter -> Breakables, lists: seq<nat>)
      modifies info`actualLocation, info`verified, this`events, this`commands
      ensures var loc := Landing(Some(adapter), info.requested, remote);
        && info.actualLocation == (if loc.Some? then loc else old(info.actualLocation))
        && info.verified == (old(info.verified) || loc.Some?)
        && events == old(events) + VerifyEvents(info.id, loc, old(info.verified))
        && commands == old(commands) + PlaceCommands(info.requested, Some(adapter), remote, lists)
    {
      if !Truthy(adapter.url) {
        return;
      }
      var bp := info.requested;
      var answers := remote(adapter);
      var actualLocation := FindNextBreakableLocation(bp.line, QueryColumn(bp), answers.locationsOn, answers.lines);
      if actualLocation.None? {
        return;
      }
      info.actualLocation := actualLocation;
      var logValue: Option<string> := None;
      if Truthy(bp.logMessage) {
        var converted := ConvertLogpointMessage(bp.logMessage.value);
        logValue := Some("..." + converted);
      }
      var (url, location) := Target(adapter, actualLocation.value);
      if Truthy(url) {
        Tell(lists, SetBreakpoint(0, url.value, location.line, location.column, bp.condition, logValue));
      }
      if !info.verified {
        VerifyBreakpoint(info);
      }
    }

    /** Sends `c` to every breakpoint list, in registry order. */
    method Tell(lists: seq<nat>, c: ListCommand)
      modifies this`commands
      ensures commands == old(commands) + ToEach(lists, c)
    {
      for i := 0 to |lists|
        invariant commands == old(commands) + ToEach(lists[..i], c)
      {
        assert lists[..i + 1][..i] == lists[..i];
        commands := commands + [c.(list := lists[i])];
      }
      assert lists[..|lists|] == lists;
    }

    /**
     * The placement of a new entry: with no known adapter, report the path
     * as unknown and wait for the adapter; then land the breakpoint and set
     * it in every breakpoint list.
     */
    method Place(info: BreakpointInfo, sourcePathOrUrl: string, lookup: Lookup,
                 remote: SourceAdapter -> Breakables, lists: seq<nat>)
      requires Unplaced(info)
      modifies info`actualLocation, info`verified, this`events, this`commands
      ensures Placed(info, Landing(lookup.Placing(), info.requested, remote))
        && events == old(events) + PlaceEvents(info.id, info.requested, sourcePathOrUrl, lookup, remote)
        && commands == old(commands) + PlaceCommands(info.requested, lookup.Placing(), remote, lists)
    {
      var adapter := lookup.existing;
      if adapter.None? {
        events := events + [UnknownSource(sourcePathOrUrl)];
        adapter := lookup.awaited;
        if adapter.None? {
          return;
        }
      }
      Land(info, adapter.value, remote, lists);
    }

    /** Removes a breakpoint from every breakpoint list, where its request lands now. */
    method Unplace(bp: SourceBreakpoint, adapter: Option<SourceAdapter>, remote: SourceAdapter -> Breakables, lists: seq<nat>)
      modifies this`commands
      ensures commands == old(commands) + RemoveCommands(bp, adapter, remote, lists)
    {
      if adapter.None? || !Truthy(adapter.value.url) {
        return;
      }
      var answers := remote(adapter.value);
      var actualLocation := FindNextBreakableLocation(bp.line, QueryColumn(bp), answers.locationsOn, answers.lines);
      if actualLocation.None? {
        return;
      }
      var (url, location) := Target(adapter.value, actualLocation.value);
      if Truthy(url) {
        Tell(lists, RemoveBreakpoint(0, url.value, location.line, location.column));
      }
    }
  
    /**
     * The placements of `setBreakpoints`: each entry that is not in the
     * previous list (by identity) is placed, in request order.
     */
    method PlaceNew(infos: seq<BreakpointInfo>, olds: Option<seq<BreakpointInfo>>, sourcePathOrUrl: string, lookup: Lookup,
                    remote: SourceAdapter -> Breakables, lists: seq<nat>)
      requires forall j, k {:trigger infos[j], infos[k]} :: 0 <= j < k < |infos| && IsNew(olds, infos[j]) ==> infos[j] != infos[k]
      requires forall j {:trigger infos[j]} :: 0 <= j < |infos| && IsNew(olds, infos[j]) ==> Unplaced(infos[j])
      modifies this`events, this`commands, NewEntries(infos, olds)
      ensures events == old(events) + PlacementEvents(olds, infos, |infos|, sourcePathOrUrl, lookup, remote)
      ensures commands == old(commands) + PlacementCommands(olds, infos, |infos|, lookup.Placing(), remote, lists)
      ensures forall j {:trigger infos[j]} :: 0 <= j < |infos| && IsNew(olds, infos[j]) ==>
        Placed(infos[j], Landing(lookup.Placing(), infos[j].requested, remote))
    {
      for i := 0 to |infos|
        invariant events == old(events) + PlacementEvents(olds, infos, i, sourcePathOrUrl, lookup, remote)
        invariant commands == old(commands) + PlacementCommands(olds, infos, i, lookup.Placing(), remote, lists)
        invariant PlacedUpTo(infos, olds, i, lookup.Placing(), remote)
      {
        PlaceOne(infos, olds, i, sourcePathOrUrl, lookup, remote, lists, old(events), old(commands));
      }
    }

    /** One round of the placements: entry `i` is placed when it is new, the other entries are left alone. */
    method PlaceOne(infos: seq<BreakpointInfo>, olds: Option<seq<BreakpointInfo>>, i: nat, sourcePathOrUrl: string,
                    lookup: Lookup, remote: SourceAdapter -> Breakables, lists: seq<nat>,
                    ghost events0: seq<SessionEvent>, ghost commands0: seq<ListCommand>)
      requires i < |infos|
      requires forall j, k {:trigger infos[j], infos[k]} :: 0 <= j < k < |infos| && IsNew(olds, infos[j]) ==> infos[j] != infos[k]
      requires events == events0 + PlacementEvents(olds, infos, i, sourcePathOrUrl, lookup, remote)
      requires commands == commands0 + PlacementCommands(olds, infos, i, lookup.Placing(), remote, lists)
      requires PlacedUpTo(infos, olds, i, lookup.Placing(), remote)
      modifies this`events, this`commands, if IsNew(olds, infos[i]) then {infos[i]} else {}
      ensures events == events0 + PlacementEvents(olds, infos, i + 1, sourcePathOrUrl, lookup, remote)
      ensures commands == commands0 + PlacementCommands(olds, infos, i + 1, lookup.Placing(), remote, lists)
      ensures PlacedUpTo(infos, olds, i + 1, lookup.Placing(), remote)
    {
      ghost var doneEvents := PlacementEvents(olds, infos, i, sourcePathOrUrl, lookup, remote);
      ghost var doneCommands := PlacementCommands(olds, infos, i, lookup.Placing(), remote, lists);
      ghost var newEvents: seq<SessionEvent> := [];
      ghost var newCommands: seq<ListCommand> := [];
      if olds.None? || infos[i] !in olds.value {
        newEvents := PlaceEvents(infos[i].id, infos[i].requested, sourcePathOrUrl, lookup, remote);
        newCommands := PlaceCommands(infos[i].requested, lookup.Placing(), remote, lists);
        Place(infos[i], sourcePathOrUrl, lookup, remote, lists);
      }
      Associative(events0, doneEvents, newEvents);
      Associative(commands0, doneCommands, newCommands);
    }

    /**
     * The removals of `setBreakpoints`: each previous entry whose line and
     * column no new entry has is removed from every breakpoint list, where
     * its request lands in the awaited adapter.
     */
    method RemoveStale(olds: seq<BreakpointInfo>, infos: seq<BreakpointInfo>,
                       adapter: Option<SourceAdapter>, remote: SourceAdapter -> Breakables, lists: seq<nat>)
      modifies this`commands
      ensures commands == old(commands) + RemovalCommands(olds, |olds|, infos, adapter, remote, lists)
    {
      for i := 0 to |olds|
        invariant commands == old(commands) + RemovalCommands(olds, i, infos, adapter, remote, lists)
      {
        RemoveOne(olds, i, infos, adapter, remote, lists, old(commands));
      }
    }

    /** One round of the removals: previous entry `i` is removed unless its line and column are still requested. */
    method RemoveOne(olds: seq<BreakpointInfo>, i: nat, infos: seq<BreakpointInfo>,
                     adapter: Option<SourceAdapter>, remote: SourceAdapter -> Breakables, lists: seq<nat>,
                     ghost commands0: seq<ListCommand>)
      requires i < |olds|
      requires commands == commands0 + RemovalCommands(olds, i, infos, adapter, remote, lists)
      modifies this`commands
      ensures commands == commands0 + RemovalCommands(olds, i + 1, infos, adapter, remote, lists)
    {
      var o := olds[i];
      ghost var done := RemovalCommands(olds, i, infos, adapter, remote, lists);
      ghost var removal: seq<ListCommand> := [];
      var kept := exists j :: (0 <= j < |infos| &&
        infos[j].requested.line == o.requested.line && infos[j].requested.column == o.requested.column);
      if !kept {
        removal := RemoveCommands(o.requested, adapter, remote, lists);
        Unplace(o.requested, adapter, remote, lists);
      }
      Associative(commands0, done, removal);
    }

    /**
     * `setBreakpoints`: replaces the entries of the normalised path by one
     * entry per request (reusing equivalent previous entries), places the
     * new entries and removes the previous entries whose spot is no longer
     * requested.
     */
    method SetBreakpoints(breakpoints: seq<SourceBreakpoint>, sourcePathOrUrl: string, lookup: Lookup,
                          remote: SourceAdapter -> Breakables, lists: seq<nat>)
      returns (infos: seq<BreakpointInfo>)
      requires Valid()
      modifies this
      ensures Valid()
      ensures GetBreakpoints(sourcePathOrUrl) == Some(infos)
      ensures breakpointsByPath == old(breakpointsByPath)[NormalizePath(isWindows, sourcePathOrUrl) := infos]
      ensures Renewed(infos, old(GetBreakpoints(sourcePathOrUrl)), breakpoints, old(nextBreakpointId), nextBreakpointId)
      ensures forall i {:trigger infos[i]} :: 0 <= i < |infos| && IsNew(old(GetBreakpoints(sourcePathOrUrl)), infos[i]) ==>
        fresh(infos[i]) && Placed(infos[i], Landing(lookup.Placing(), infos[i].requested, remote))
      ensures events == old(events) + PlacementEvents(old(GetBreakpoints(sourcePathOrUrl)), infos, |infos|, sourcePathOrUrl, lookup, remote)
      ensures var olds := old(GetBreakpoints(sourcePathOrUrl));
        commands == old(commands) + PlacementCommands(olds, infos, |infos|, lookup.Placing(), remote, lists)
                    + (if olds.Some? then RemovalCommands(olds.value, |olds.value|, infos, lookup.awaited, remote, lists) else [])
    {
      var key := NormalizePath(isWindows, sourcePathOrUrl);
      var olds := Previous(breakpointsByPath, key);
      infos := Renew(key, breakpoints);
      PlaceNew(infos, olds, sourcePathOrUrl, lookup, remote, lists);
      if olds.Some? {
        RemoveStale(olds.value, infos, lookup.awaited, remote, lists);
      }
    }

    /** The table half of `setBreakpoints`: the entries for the requests replace those of `key`. */
    method Renew(key: string, breakpoints: seq<SourceBreakpoint>) returns (infos: seq<BreakpointInfo>)
      requires Valid()
      modifies this`nextBreakpointId, this`breakpointsByPath, this`pathOrder
      ensures Valid()
      ensures var olds := Previous(old(breakpointsByPath), key);
        && breakpointsByPath == old(breakpointsByPath)[key := infos]
        && Renewed(infos, olds, breakpoints, old(nextBreakpointId), nextBreakpointId)
        && (forall i {:trigger infos[i]} :: 0 <= i < |infos| && IsNew(olds, infos[i]) ==>
              fresh(infos[i]) && Unplaced(infos[i]) && infos[i].hitCount == 0)
        && (forall j, k {:trigger infos[j], infos[k]} :: 0 <= j < k < |infos| && IsNew(olds, infos[j]) ==> infos[j] != infos[k])
    {
      var olds := Previous(breakpointsByPath, key);
      var firstId := nextBreakpointId;
      infos := ObtainInfos(breakpoints, olds);
      ObtainedDistinct(breakpointsByPath, key, infos, breakpoints, firstId, nextBreakpointId);
      NewEntriesApart(infos, olds, breakpoints, firstId, nextBreakpointId);
      StoreConsistent(breakpointsByPath, firstId, key, infos, nextBreakpointId);
      Store(key, infos);
    }

    /** `breakpointsBySourcePathOrUrl.set(key, infos)`: a new key goes last in iteration order. */
    method Store(key: string, infos: seq<BreakpointInfo>)
      requires PathsListed() && TableConsistent(breakpointsByPath[key := infos], nextBreakpointId)
      modifies this`breakpointsByPath, this`pathOrder
      ensures Valid()
      ensures breakpointsByPath == old(breakpointsByPath)[key := infos]
      ensures pathOrder == if key in old(breakpointsByPath) then old(pathOrder) else old(pathOrder) + [key]
    {
      if key !in breakpointsByPath {
        pathOrder := pathOrder + [key];
      }
      breakpointsByPath := breakpointsByPath[key := infos];
    }

    /** The entries that are verified now. */
    ghost function VerifiedEntries(): set<BreakpointInfo>
      reads this, Entries(breakpointsByPath)
    {
      set x | x in Entries(breakpointsByPath) && x.verified
    }

    /** Each entry's location and verified flag. */
    ghost function Snapshot(): map<BreakpointInfo, (Option<MappedLocation>, bool)>
      reads this, Entries(breakpointsByPath)
    {
      map x | x in Entries(breakpointsByPath) :: (x.actualLocation, x.verified)
    }

    /**
     * The handler for a newly registered breakpoint list `list`: for every
     * path (in insertion order) whose adapter has resolved (`adapterFor`)
     * and has a URL, each entry is landed anew and set in the new list only,
     * and reported if it was not verified yet.
     */
    method OnBreakpointListRegistered(list: nat, adapterFor: string -> Option<SourceAdapter>, remote: SourceAdapter -> Breakables)
      requires Valid()
      modifies this`events, this`commands, Entries(breakpointsByPath)`actualLocation, Entries(breakpointsByPath)`verified
      ensures commands == old(commands) + ReplayAllCommands(pathOrder, |pathOrder|, breakpointsByPath, adapterFor, remote, list)
      ensures events == old(events) + ReplayAllEvents(pathOrder, |pathOrder|, breakpointsByPath, adapterFor, remote, old(VerifiedEntries()))
      ensures forall p, x :: p in breakpointsByPath && x in breakpointsByPath[p] ==>
        var loc := Landing(adapterFor(p), x.requested, remote);
        x.actualLocation == (if loc.Some? then loc else old(x.actualLocation)) && x.verified == (old(x.verified) || loc.Some?)
    {
      ghost var verified0 := VerifiedEntries();
      ghost var before := Snapshot();
      EntriesOfPaths(breakpointsByPath);
      ConsistentPathsApart(breakpointsByPath, nextBreakpointId, pathOrder);
      ReplayPaths(list, adapterFor, remote, verified0, before);
      forall p, x | p in breakpointsByPath && x in breakpointsByPath[p]
        ensures var loc := Landing(adapterFor(p), x.requested, remote);
          x.actualLocation == (if loc.Some? then loc else old(x.actualLocation)) && x.verified == (old(x.verified) || loc.Some?)
      {
        var k :| 0 <= k < |pathOrder| && pathOrder[k] == p;
        assert PathLanded(breakpointsByPath[pathOrder[k]], adapterFor(pathOrder[k]), remote, before);
      }
    }

    /** The loop of the replay, over the paths in insertion order. */
    method ReplayPaths(list: nat, adapterFor: string -> Option<SourceAdapter>, remote: SourceAdapter -> Breakables,
                       ghost verified0: set<BreakpointInfo>, ghost before: map<BreakpointInfo, (Option<MappedLocation>, bool)>)
      requires PathsApart(breakpointsByPath, pathOrder)
      requires forall x :: x in before ==> (before[x].1 <==> x in verified0)
      requires forall k :: 0 <= k < |pathOrder| ==> PathAsBefore(breakpointsByPath[pathOrder[k]], before)
      modifies this`events, this`commands, Entries(breakpointsByPath)`actualLocation, Entries(breakpointsByPath)`verified
      ensures commands == old(commands) + ReplayAllCommands(pathOrder, |pathOrder|, breakpointsByPath, adapterFor, remote, list)
      ensures events == old(events) + ReplayAllEvents(pathOrder, |pathOrder|, breakpointsByPath, adapterFor, remote, verified0)
      ensures forall k :: 0 <= k < |pathOrder| ==>
        PathLanded(breakpointsByPath[pathOrder[k]], adapterFor(pathOrder[k]), remote, before)
    {
      EntriesOfPaths(breakpointsByPath);
      for i := 0 to |pathOrder|
        invariant commands == old(commands) + ReplayAllCommands(pathOrder, i, breakpointsByPath, adapterFor, remote, list)
        invariant events == old(events) + ReplayAllEvents(pathOrder, i, breakpointsByPath, adapterFor, remote, verified0)
        invariant forall k :: 0 <= k < i ==>
          PathLanded(breakpointsByPath[pathOrder[k]], adapterFor(pathOrder[k]), remote, before)
        invariant forall k :: i <= k < |pathOrder| ==> PathAsBefore(breakpointsByPath[pathOrder[k]], before)
      {
        ReplayStep(i, list, adapterFor, remote, verified0, before, old(events), old(commands));
      }
    }

    /** One path of the replay: the entries of path `i` land anew, those of the other paths are left alone. */
    method ReplayStep(i: nat, list: nat, adapterFor: string -> Option<SourceAdapter>, remote: SourceAdapter -> Breakables,
                      ghost verified0: set<BreakpointInfo>, ghost before: map<BreakpointInfo, (Option<MappedLocation>, bool)>,
                      ghost events0: seq<SessionEvent>, ghost commands0: seq<ListCommand>)
      requires i < |pathOrder| && forall k :: 0 <= k < |pathOrder| ==> pathOrder[k] in breakpointsByPath
      requires forall k, x :: 0 <= k < |pathOrder| && k != i && x in breakpointsByPath[pathOrder[k]] ==>
        x !in breakpointsByPath[pathOrder[i]]
      requires forall x :: x in before ==> (before[x].1 <==> x in verified0)
      requires commands == commands0 + ReplayAllCommands(pathOrder, i, breakpointsByPath, adapterFor, remote, list)
      requires events == events0 + ReplayAllEvents(pathOrder, i, breakpointsByPath, adapterFor, remote, verified0)
      requires forall k :: 0 <= k < i ==> PathLanded(breakpointsByPath[pathOrder[k]], adapterFor(pathOrder[k]), remote, before)
      requires forall k :: i <= k < |pathOrder| ==> PathAsBefore(breakpointsByPath[pathOrder[k]], before)
      modifies this`events, this`commands, breakpointsByPath[pathOrder[i]]`actualLocation, breakpointsByPath[pathOrder[i]]`verified
      ensures commands == commands0 + ReplayAllCommands(pathOrder, i + 1, breakpointsByPath, adapterFor, remote, list)
      ensures events == events0 + ReplayAllEvents(pathOrder, i + 1, breakpointsByPath, adapterFor, remote, verified0)
      ensures forall k :: 0 <= k < i + 1 ==> PathLanded(breakpointsByPath[pathOrder[k]], adapterFor(pathOrder[k]), remote, before)
      ensures forall k :: i + 1 <= k < |pathOrder| ==> PathAsBefore(breakpointsByPath[pathOrder[k]], before)
    {
      var path := pathOrder[i];
      var infos := breakpointsByPath[path];
      var adapter := adapterFor(path);
      assert PathAsBefore(infos, before);
      ghost var doneEvents := ReplayAllEvents(pathOrder, i, breakpointsByPath, adapterFor, remote, verified0);
      ghost var doneCommands := ReplayAllCommands(pathOrder, i, breakpointsByPath, adapterFor, remote, list);
      label Before:
      if adapter.Some? && Truthy(adapter.value.url) {
        ghost var newEvents := ReplayEvents(infos, |infos|, adapter.value, remote, verified0);
        ghost var newCommands := ReplayCommands(infos, |infos|, adapter.value, remote, list);
        ReplayPath(infos, adapter.value, remote, list, verified0, before);
        Associative(events0, doneEvents, newEvents);
        Associative(commands0, doneCommands, newCommands);
      }
      forall k | 0 <= k < |pathOrder| && k != i
        ensures k < i ==> PathLanded(breakpointsByPath[pathOrder[k]], adapterFor(pathOrder[k]), remote, before)
        ensures i < k ==> PathAsBefore(breakpointsByPath[pathOrder[k]], before)
      {
        var others := breakpointsByPath[pathOrder[k]];
        forall x | x in others
          ensures x.actualLocation == old@Before(x.actualLocation) && x.verified == old@Before(x.verified)
        {
          assert x !in infos;
        }
      }
    }

    /** The replay of one path's entries, whose adapter has a URL, to the new list `list`. */
    method ReplayPath(infos: seq<BreakpointInfo>, adapter: SourceAdapter, remote: SourceAdapter -> Breakables, list: nat,
                      ghost verified0: set<BreakpointInfo>, ghost before: map<BreakpointInfo, (Option<MappedLocation>, bool)>)
      requires Truthy(adapter.url)
      requires PathAsBefore(infos, before)
      requires forall x :: x in infos ==> (before[x].1 <==> x in verified0)
      modifies this`events, this`commands, infos`actualLocation, infos`verified
      ensures commands == old(commands) + ReplayCommands(infos, |infos|, adapter, remote, list)
      ensures events == old(events) + ReplayEvents(infos, |infos|, adapter, remote, verified0)
      ensures PathLanded(infos, Some(adapter), remote, before)
    {
      for i := 0 to |infos|
        invariant commands == old(commands) + ReplayCommands(infos, i, adapter, remote, list)
        invariant events == old(events) + ReplayEvents(infos, i, adapter, remote, verified0)
        invariant ReplayedUpTo(infos, i, adapter, remote, before)
      {
        ReplayOne(infos, i, infos[i], adapter, remote, list, verified0, before, old(events), old(commands));
      }
      assert infos[..|infos|] == infos;
    }

    /** One entry of the replay of a path: entry `i` lands anew. */
    method ReplayOne(infos: seq<BreakpointInfo>, i: nat, info: BreakpointInfo, adapter: SourceAdapter, remote: SourceAdapter -> Breakables, list: nat,
                     ghost verified0: set<BreakpointInfo>, ghost before: map<BreakpointInfo, (Option<MappedLocation>, bool)>,
                     ghost events0: seq<SessionEvent>, ghost commands0: seq<ListCommand>)
      requires Truthy(adapter.url) && i < |infos| && info == infos[i]
      requires forall x :: x in infos ==> x in before && (before[x].1 <==> x in verified0)
      requires commands == commands0 + ReplayCommands(infos, i, adapter, remote, list)
      requires events == events0 + ReplayEvents(infos, i, adapter, remote, verified0)
      requires ReplayedUpTo(infos, i, adapter, remote, before)
      modifies this`events, this`commands, info`actualLocation, info`verified
      ensures commands == commands0 + ReplayCommands(infos, i + 1, adapter, remote, list)
      ensures events == events0 + ReplayEvents(infos, i + 1, adapter, remote, verified0)
      ensures ReplayedUpTo(infos, i + 1, adapter, remote, before)
    {
      ghost var doneEvents := ReplayEvents(infos, i, adapter, remote, verified0);
      ghost var doneCommands := ReplayCommands(infos, i, adapter, remote, list);
      ghost var loc := Landing(Some(adapter), info.requested, remote);
      ghost var newEvents := if info in verified0 || info in infos[..i] then [] else VerifyEvents(info.id, loc, false);
      PrefixExtend(infos, i);
      assert VerifyEvents(info.id, loc, info.verified) == newEvents by {
        if info in infos[..i] {
          assert LandedFrom(info, loc, before[info]);
        } else {
          assert (info.actualLocation, info.verified) == before[info];
        }
      }
      label Landed:
      Land(info, adapter, remote, [list]);
      Associative(events0, doneEvents, newEvents);
      Associative(commands0, doneCommands, PlaceCommands(info.requested, Some(adapter), remote, [list]));
      forall x | x in infos[..i + 1]
        ensures LandedFrom(x, Landing(Some(adapter), x.requested, remote), before[x])
      {
        if x == info {
          assert info in infos[..i] ==> old@Landed(LandedFrom(info, loc, before[info]));
        } else {
          assert x in infos[..i];
        }
      }
      forall x | x in infos && x !in infos[..i + 1]
        ensures (x.actualLocation, x.verified) == before[x]
      {
        assert x != info && x !in infos[..i];
      }
    }
  }
}
