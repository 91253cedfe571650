/**
 * Consequences of the way `setBreakpoints` renews the list of a path:
 * repeating a request changes nothing, a change that keeps every line and
 * column removes nothing, and new entries are numbered in request order.
 */
module BreakpointsProperties {
  import opened Wrappers
  import opened Protocol
  import opened Breakpoints
  import opened Sources
  import opened BreakpointsManagers

  /** When no request of the first `n` gets a new entry, none is counted. */
  lemma {:induction false} NoneNew(olds: Option<seq<BreakpointInfo>>, bps: seq<SourceBreakpoint>, n: nat)
    requires n <= |bps|
    requires forall i :: 0 <= i < n ==> Reused(olds, bps[i]).Some?
    ensures NewCount(olds, bps, n) == 0
  {
    if n > 0 {
      NoneNew(olds, bps, n - 1);
    }
  }

  /** Each obtained entry is equivalent to the request it was obtained for. */
  lemma ObtainedEquivalent(infos: seq<BreakpointInfo>, olds: Option<seq<BreakpointInfo>>, bps: seq<SourceBreakpoint>,
                           firstId: nat, nextId: nat, i: nat)
    requires ObtainedPrefix(infos, olds, bps, firstId, nextId) && i < |infos|
    ensures IsEquivalent(infos[i].requested, bps[i])
  {
    assert Obtained(infos[i], olds, bps, i, firstId);
  }

  /**
   * Sending the same requests again reuses an entry of the stored list for
   * every request: no entry is new and the id counter does not move.
   */
  lemma RepeatCreatesNothing(infos: seq<BreakpointInfo>, olds: Option<seq<BreakpointInfo>>, bps: seq<SourceBreakpoint>,
                             firstId: nat, nextId: nat, again: seq<BreakpointInfo>, nextId': nat)
    requires Renewed(infos, olds, bps, firstId, nextId)
    requires Renewed(again, Some(infos), bps, nextId, nextId')
    ensures nextId' == nextId
    ensures forall i :: 0 <= i < |again| ==> again[i] in infos && !IsNew(Some(infos), again[i])
  {
    forall i | 0 <= i < |bps|
      ensures Reused(Some(infos), bps[i]).Some?
    {
      ObtainedEquivalent(infos, olds, bps, firstId, nextId, i);
      ReusedNone(Some(infos), bps[i]);
    }
    NoneNew(Some(infos), bps, |bps|);
  }

  /** Entries that are all reused are placed nowhere and reported to no one. */
  lemma {:induction false} NothingNewNothingPlaced(olds: Option<seq<BreakpointInfo>>, infos: seq<BreakpointInfo>, n: nat,
                                                   pathOrUrl: string, lookup: Lookup, remote: SourceAdapter -> Breakables,
                                                   lists: seq<nat>)
    requires n <= |infos|
    requires forall i :: 0 <= i < n ==> !IsNew(olds, infos[i])
    ensures PlacementEvents(olds, infos, n, pathOrUrl, lookup, remote) == []
    ensures PlacementCommands(olds, infos, n, lookup.Placing(), remote, lists) == []
  {
    if n > 0 {
      NothingNewNothingPlaced(olds, infos, n - 1, pathOrUrl, lookup, remote, lists);
    }
  }

  /** Previous entries whose line and column are all still requested cause no removal. */
  lemma {:induction false} AllSpotsKept(olds: seq<BreakpointInfo>, n: nat, infos: seq<BreakpointInfo>,
                                        adapter: Option<SourceAdapter>, remote: SourceAdapter -> Breakables, lists: seq<nat>)
    requires n <= |olds|
    requires forall k :: 0 <= k < n ==> SpotRequested(infos, olds[k].requested)
    ensures RemovalCommands(olds, n, infos, adapter, remote, lists) == []
  {
    if n > 0 {
      AllSpotsKept(olds, n - 1, infos, adapter, remote, lists);
    }
  }

  /**
   * Changing only conditions, hit conditions or log messages of the stored
   * breakpoints (same lines and columns, in the same order) removes nothing.
   */
  lemma ConditionChangeRemovesNothing(olds: seq<BreakpointInfo>, infos: seq<BreakpointInfo>, bps: seq<SourceBreakpoint>,
                                      firstId: nat, nextId: nat,
                                      adapter: Option<SourceAdapter>, remote: SourceAdapter -> Breakables, lists: seq<nat>)
    requires Renewed(infos, Some(olds), bps, firstId, nextId)
    requires |bps| == |olds|
    requires forall k :: 0 <= k < |olds| ==> bps[k].line == olds[k].requested.line && bps[k].column == olds[k].requested.column
    ensures RemovalCommands(olds, |olds|, infos, adapter, remote, lists) == []
  {
    ObtainedSpots(infos, Some(olds), bps, firstId, nextId);
    forall k | 0 <= k < |olds|
      ensures SpotRequested(infos, olds[k].requested)
    {
      assert infos[k].requested.line == olds[k].requested.line && infos[k].requested.column == olds[k].requested.column;
    }
    AllSpotsKept(olds, |olds|, infos, adapter, remote, lists);
  }

  /**
   * The new entries of one call carry the ids from `firstId` up to
   * `nextId`, increasing in request order.
   */
  lemma NewIdsIncrease(infos: seq<BreakpointInfo>, olds: Option<seq<BreakpointInfo>>, bps: seq<SourceBreakpoint>,
                       firstId: nat, nextId: nat)
    requires Renewed(infos, olds, bps, firstId, nextId)
    ensures forall i :: 0 <= i < |infos| && IsNew(olds, infos[i]) ==> firstId <= infos[i].id < nextId
    ensures forall i, j :: 0 <= i < j < |infos| && IsNew(olds, infos[i]) && IsNew(olds, infos[j]) ==>
      infos[i].id < infos[j].id
  {
    forall i, j | 0 <= i < j < |infos| && IsNew(olds, infos[i]) && IsNew(olds, infos[j])
      ensures infos[i].id < infos[j].id
    {
      assert Obtained(infos[i], olds, bps, i, firstId) && Obtained(infos[j], olds, bps, j, firstId);
      NewCountGrows(olds, bps, i, j);
    }
  }
}
