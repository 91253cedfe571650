/**
 * The source-map layer: for every generated source, one "source mapping
 * info" naming the sources the editor sees for it (the original sources of
 * its map, or the source itself when there is no usable map), memoised per
 * actor, with placeholders for lookups that come before the source is
 * known. Fetching and parsing maps, and the lookups inside a parsed map, are
 * not part of this model: their results are parameters.
 */
module SourceMaps {
  import opened Wrappers
  import opened Text
  import opened Protocol

  /** What the editor sees of one generated source. */
  datatype SourceMappingInfo = SourceMappingInfo(
    sources: seq<SourceActor>,
    underlying: SourceActor,
    sourceMapUrl: Option<string>,
    hasSourceMap: bool)

  /** The info of a source without a usable map: the source stands for itself. */
  function IdentityInfo(actor: SourceActor): SourceMappingInfo {
    SourceMappingInfo([actor], actor, None, false)
  }

  /** What reading, fetching and parsing the map came to: failure, or the resolved URLs of its original sources. */
  datatype MapFetch = FetchFailed | Fetched(originalUrls: seq<string>)

  /** A position a parsed map gives for a generated one; any part may be missing. */
  datatype OriginalPosition = OriginalPosition(url: Option<string>, line: Option<int>, column: Option<int>)

  /** `originalLocationFor` of a parsed map, which is not part of this model. */
  type OriginalLookup = (SourceMappingInfo, int, int) -> Option<OriginalPosition>

  /** A location in an original source, as `findOriginalLocation` reports it. */
  datatype UrlLocation = UrlLocation(url: string, line: int, column: int)

  /** `x || 0` for an optional number. */
  function OrZero(x: Option<int>): int {
    if x.Some? then x.value else 0
  }

  /** `x || undefined` for an optional number: zero counts as missing. */
  function NonZero(x: Option<int>): Option<int> {
    if x.Some? && x.value != 0 then x else None
  }

  /** The actor name of the original source `originalUrl` of the generated source `generatedActor`. */
  function OriginalActorName(generatedActor: string, originalUrl: string): string {
    generatedActor + "!" + originalUrl
  }

  /** `createOriginalSource`: the descriptor of one original source of a generated one. */
  function CreateOriginalSource(generated: Source, originalUrl: string, sourceMapUrl: string): (r: Source)
    ensures r.actor == OriginalActorName(generated.actor, originalUrl) && r.url == Some(originalUrl)
    ensures r.isSourceMapped && !r.isBlackBoxed && !r.isPrettyPrinted
    ensures r.generatedUrl == generated.url && r.sourceMapUrl == Some(sourceMapUrl)
    ensures r.introductionUrl == generated.introductionUrl && r.introductionType == generated.introductionType
  {
    Source(OriginalActorName(generated.actor, originalUrl), Some(originalUrl), generated.introductionType,
           generated.introductionUrl, false, false, true, generated.url, Some(sourceMapUrl))
  }

  /** Original actor names are unambiguous: one generated actor never gives two URLs the same name. */
  lemma OriginalActorNamesDistinct(generatedActor: string, u: string, v: string)
    requires u != v
    ensures OriginalActorName(generatedActor, u) != OriginalActorName(generatedActor, v)
  {
    var p := generatedActor + "!";
    assert OriginalActorName(generatedActor, u)[|p|..] == u;
    assert OriginalActorName(generatedActor, v)[|p|..] == v;
  }

  /** The actors of the original sources, in the map's order. */
  function OriginalActors(generated: Source, originalUrls: seq<string>, sourceMapUrl: string): (r: seq<SourceActor>)
    ensures |r| == |originalUrls|
    ensures forall i :: 0 <= i < |r| ==>
      r[i] == SourceActor(CreateOriginalSource(generated, originalUrls[i], sourceMapUrl), SourceMapping(generated.url))
  {
    if originalUrls == [] then []
    else
      var first := SourceActor(CreateOriginalSource(generated, originalUrls[0], sourceMapUrl), SourceMapping(generated.url));
      [first] + OriginalActors(generated, originalUrls[1..], sourceMapUrl)
  }

  /**
   * `createSourceMappingInfo`: without a map URL, with a relative map URL
   * and no source URL to resolve it against, or when the map cannot be
   * read, the source stands for itself; otherwise its original sources
   * stand for it. `isAbsoluteUrl` and the resolved map URL are inputs.
   */
  function CreateSourceMappingInfo(source: Source, isAbsoluteUrl: string -> bool, resolvedMapUrl: string,
                                   fetch: MapFetch): SourceMappingInfo
  {
    var actor := SourceActor(source, Remote);
    if !Truthy(source.sourceMapUrl) then IdentityInfo(actor)
    else if !isAbsoluteUrl(source.sourceMapUrl.value) && !Truthy(source.url) then IdentityInfo(actor)
    else if fetch.FetchFailed? then IdentityInfo(actor)
    else
      var mapUrl := if isAbsoluteUrl(source.sourceMapUrl.value) then source.sourceMapUrl.value else resolvedMapUrl;
      SourceMappingInfo(OriginalActors(source, fetch.originalUrls, mapUrl), actor, Some(mapUrl), true)
  }

  /**
   * The info has a map exactly when the source names a map that can be
   * located and read; otherwise it is the identity info. Either way it
   * wraps the source's own actor, and a mapped info lists one original
   * source per URL of the map.
   */
  lemma CreateSourceMappingInfoCases(source: Source, isAbsoluteUrl: string -> bool, resolvedMapUrl: string, fetch: MapFetch)
    ensures var r := CreateSourceMappingInfo(source, isAbsoluteUrl, resolvedMapUrl, fetch);
      && r.underlying == SourceActor(source, Remote)
      && (r.hasSourceMap <==>
            (Truthy(source.sourceMapUrl) && (isAbsoluteUrl(source.sourceMapUrl.value) || Truthy(source.url)) && fetch.Fetched?))
      && (!r.hasSourceMap ==> r == IdentityInfo(SourceActor(source, Remote)))
      && (r.hasSourceMap ==>
            (|r.sources| == |fetch.originalUrls|
             && forall i :: 0 <= i < |r.sources| ==>
                  r.sources[i].source.isSourceMapped && r.sources[i].source.generatedUrl == source.url
                  && r.sources[i].Name() == OriginalActorName(source.actor, fetch.originalUrls[i])))
  {
  }

  /** The outcome of an operation that awaits a source mapping info. */
  datatype Awaited<T> = Ready(value: T) | Blocked

  /** What `findOriginalLocation` makes of one info, or `None` to go on with the next one. */
  function OriginalLocationIn(info: SourceMappingInfo, generatedUrl: string, line: int, column: Option<int>,
                              lookup: OriginalLookup): Option<UrlLocation>
  {
    if info.underlying.Url() != Some(generatedUrl) then None
    else
      var p := lookup(info, line, OrZero(column));
      if p.Some? && Truthy(p.value.url) && p.value.line.Some? && p.value.line.value != 0 then
        Some(UrlLocation(p.value.url.value, p.value.line.value, OrZero(p.value.column)))
      else None
  }

  /** The search of `findOriginalLocation` over the infos in order; an unsettled info makes it wait. */
  function FindOriginal(infos: seq<Option<SourceMappingInfo>>, generatedUrl: string, line: int, column: Option<int>,
                        lookup: OriginalLookup): Awaited<Option<UrlLocation>>
  {
    if infos == [] then Ready(None)
    else if infos[0].None? then Blocked
    else
      var found := OriginalLocationIn(infos[0].value, generatedUrl, line, column, lookup);
      if found.Some? then Ready(found) else FindOriginal(infos[1..], generatedUrl, line, column, lookup)
  }

  /**
   * A location is found only in an info of the generated URL, with an
   * original URL and a non-zero line; it is the first such, and nothing is
   * found when every info is settled and none qualifies.
   */
  lemma {:induction false} FindOriginalFirst(infos: seq<Option<SourceMappingInfo>>, generatedUrl: string, line: int,
                                             column: Option<int>, lookup: OriginalLookup)
    ensures var r := FindOriginal(infos, generatedUrl, line, column, lookup);
      && (r.Ready? && r.value.Some? ==>
            exists k :: 0 <= k < |infos| && infos[k].Some?
              && infos[k].value.underlying.Url() == Some(generatedUrl)
              && OriginalLocationIn(infos[k].value, generatedUrl, line, column, lookup) == r.value
              && r.value.value.url != [] && r.value.value.line != 0
              && forall j :: 0 <= j < k ==> infos[j].Some? && OriginalLocationIn(infos[j].value, generatedUrl, line, column, lookup).None?)
      && ((forall j :: 0 <= j < |infos| ==> infos[j].Some? && OriginalLocationIn(infos[j].value, generatedUrl, line, column, lookup).None?)
            ==> r == Ready(None))
  {
    if infos != [] {
      FindOriginalFirst(infos[1..], generatedUrl, line, column, lookup);
      var r := FindOriginal(infos, generatedUrl, line, column, lookup);
      if infos[0].Some? && OriginalLocationIn(infos[0].value, generatedUrl, line, column, lookup).None? {
        if r.Ready? && r.value.Some? {
          var k :| 0 <= k < |infos[1..]| && infos[1..][k].Some?
            && infos[1..][k].value.underlying.Url() == Some(generatedUrl)
            && OriginalLocationIn(infos[1..][k].value, generatedUrl, line, column, lookup) == r.value
            && r.value.value.url != [] && r.value.value.line != 0
            && forall j :: 0 <= j < k ==> infos[1..][j].Some? && OriginalLocationIn(infos[1..][j].value, generatedUrl, line, column, lookup).None?;
          assert infos[k + 1] == infos[1..][k];
          forall j | 0 <= j < k + 1
            ensures infos[j].Some? && OriginalLocationIn(infos[j].value, generatedUrl, line, column, lookup).None?
          {
            if j > 0 {
              assert infos[j] == infos[1..][j - 1];
            }
          }
        }
        if forall j :: 0 <= j < |infos| ==> infos[j].Some? && OriginalLocationIn(infos[j].value, generatedUrl, line, column, lookup).None? {
          forall j | 0 <= j < |infos[1..]|
            ensures infos[1..][j].Some? && OriginalLocationIn(infos[1..][j].value, generatedUrl, line, column, lookup).None?
          {
            assert infos[1..][j] == infos[j + 1];
          }
        }
      }
    }
  }

  /** The frame location a parsed map gives, or `None` when the frame keeps its own. */
  function MappedWhere(info: SourceMappingInfo, where: SourceLocation, lookup: OriginalLookup): Option<SourceLocation> {
    if !info.hasSourceMap || NonZero(where.line).None? then None
    else
      var p := lookup(info, where.line.value, OrZero(where.column));
      if p.Some? && Truthy(p.value.url) then
        Some(SourceLocation(OriginalActorName(info.underlying.Name(), p.value.url.value), NonZero(p.value.line), NonZero(p.value.column)))
      else None
  }

  /**
   * A frame is moved only with a map, a non-zero line and a lookup that
   * gives a URL; it then names the original source's actor and drops a
   * zero line or column.
   */
  lemma MappedWhereCases(info: SourceMappingInfo, where: SourceLocation, lookup: OriginalLookup)
    ensures var r := MappedWhere(info, where, lookup);
      && (r.Some? <==>
            (info.hasSourceMap && where.line.Some? && where.line.value != 0
             && var p := lookup(info, where.line.value, OrZero(where.column)); p.Some? && Truthy(p.value.url)))
      && (r.Some? ==> var p := lookup(info, where.line.value, OrZero(where.column)).value;
            && r.value.actor == OriginalActorName(info.underlying.Name(), p.url.value)
            && r.value.line != Some(0) && r.value.column != Some(0)
            && (p.line.Some? && p.line.value != 0 ==> r.value.line == p.line))
  {
  }

  /** The invariant of the source-map manager's tables. */
  ghost predicate Tables(infos: map<string, nat>, order: seq<string>, pending: map<string, nat>,
                         resolution: map<nat, SourceMappingInfo>, nextHandle: nat)
  {
    && (forall a :: a in pending ==> a in infos && pending[a] == infos[a])
    && (forall a :: a in infos ==> infos[a] < nextHandle && (infos[a] in resolution <==> a !in pending))
    && (forall a, b :: a in infos && b in infos && a != b ==> infos[a] != infos[b])
    && (forall h :: h in resolution ==> h < nextHandle)
    && ListsOnce(order, infos.Keys)
  }

  /** The info `a`'s promise has resolved to in the given tables, if any. */
  function SettledIn(infos: map<string, nat>, resolution: map<nat, SourceMappingInfo>, a: string): Option<SourceMappingInfo> {
    if a in infos && infos[a] in resolution then Some(resolution[infos[a]]) else None
  }

  /** Settling a new promise under a fresh handle leaves what every other actor's promise resolved to alone. */
  lemma FreshHandleKeepsOthers(infos: map<string, nat>, order: seq<string>, pending: map<string, nat>,
                               resolution: map<nat, SourceMappingInfo>, nextHandle: nat, a: string, created: SourceMappingInfo)
    requires Tables(infos, order, pending, resolution, nextHandle) && a !in infos
    ensures forall b :: b != a ==> SettledIn(infos[a := nextHandle], resolution[nextHandle := created], b) == SettledIn(infos, resolution, b)
  {
  }

  /** A new actor whose promise is settled at once keeps the tables consistent. */
  lemma AddSettledTables(infos: map<string, nat>, order: seq<string>, pending: map<string, nat>,
                         resolution: map<nat, SourceMappingInfo>, nextHandle: nat, a: string, created: SourceMappingInfo)
    requires Tables(infos, order, pending, resolution, nextHandle) && a !in infos
    ensures Tables(infos[a := nextHandle], order + [a], pending, resolution[nextHandle := created], nextHandle + 1)
  {
    ListsOnceAppend(order, infos.Keys, a);
    assert (infos[a := nextHandle]).Keys == infos.Keys + {a};
  }

  /** A new actor with a pending placeholder keeps the tables consistent. */
  lemma AddPendingTables(infos: map<string, nat>, order: seq<string>, pending: map<string, nat>,
                         resolution: map<nat, SourceMappingInfo>, nextHandle: nat, a: string)
    requires Tables(infos, order, pending, resolution, nextHandle) && a !in infos
    ensures Tables(infos[a := nextHandle], order + [a], pending[a := nextHandle], resolution, nextHandle + 1)
  {
    ListsOnceAppend(order, infos.Keys, a);
    assert (infos[a := nextHandle]).Keys == infos.Keys + {a};
  }

  /**
   * The per-actor memo of infos. Each actor has at most one promise; the
   * promise of a placeholder created by a lookup before the source was
   * known stays pending until the source arrives.
   */
  class SourceMapsManager {
    /** the promise of each actor's info (`sourceMappingInfos`) */
    var infos: map<string, nat>
    /** the actors of `infos` in insertion order */
    var order: seq<string>
    /** the placeholders still waiting for their source (`pendingSources`) */
    var pending: map<string, nat>
    /** the values the settled promises resolved to */
    var resolution: map<nat, SourceMappingInfo>
    var nextHandle: nat

    /**
     * The order lists each actor once; each actor's promise is its own; a
     * promise is unsettled exactly while its actor waits in `pending`.
     */
    ghost predicate Valid()
      reads this
    {
      Tables(infos, order, pending, resolution, nextHandle)
    }

    /** The info `a`'s promise has resolved to, if any. */
    function Settled(a: string): Option<SourceMappingInfo>
      reads this
    {
      SettledIn(infos, resolution, a)
    }

    constructor ()
      ensures Valid() && infos == map[] && order == [] && pending == map[] && resolution == map[]
    {
      infos, order, pending, resolution, nextHandle := map[], [], map[], map[], 0;
    }

    /**
     * `getOrCreateSourceMappingInfo`, with `created` the info that
     * `createSourceMappingInfo` yields for the source: a known actor keeps
     * its promise, and a placeholder is filled with `created`; an unknown
     * actor gets a new promise of `created`.
     */
    method GetOrCreateSourceMappingInfo(source: Source, created: SourceMappingInfo) returns (h: nat)
      requires Valid()
      modifies this
      ensures Valid()
      ensures source.actor in infos && h == infos[source.actor] && source.actor !in pending
      ensures source.actor in old(infos) ==> h == old(infos[source.actor]) && infos == old(infos) && order == old(order)
      ensures source.actor !in old(infos) ==>
        infos == old(infos)[source.actor := h] && order == old(order) + [source.actor] && h !in old(resolution)
      ensures Settled(source.actor) == if old(Settled(source.actor)).Some? then old(Settled(source.actor)) else Some(created)
      ensures forall a :: a != source.actor ==> Settled(a) == old(Settled(a)) && (a in pending <==> a in old(pending))
    {
      if source.actor in infos {
        Fill(source.actor, created);
        h := infos[source.actor];
      } else {
        h := AddSettled(source.actor, created);
      }
    }

    /** Settles a known actor's placeholder with `created`; a settled promise stays as it is. */
    method Fill(a: string, created: SourceMappingInfo)
      requires Valid() && a in infos
      modifies this`resolution, this`pending
      ensures Valid() && a !in pending
      ensures Settled(a) == if old(Settled(a)).Some? then old(Settled(a)) else Some(created)
      ensures forall b :: b != a ==> Settled(b) == old(Settled(b)) && (b in pending <==> b in old(pending))
    {
      if a in pending {
        resolution := resolution[pending[a] := created];
        pending := pending - {a};
      }
    }

    /** Gives an unknown actor a new promise settled with `created`. */
    method AddSettled(a: string, created: SourceMappingInfo) returns (h: nat)
      requires Valid() && a !in infos
      modifies this
      ensures Valid()
      ensures infos == old(infos)[a := h] && order == old(order) + [a]
      ensures pending == old(pending) && resolution == old(resolution)[h := created] && h !in old(resolution)
      ensures Settled(a) == Some(created)
      ensures forall b :: b != a ==> Settled(b) == old(Settled(b))
    {
      h := nextHandle;
      AddSettledTables(infos, order, pending, resolution, nextHandle, a, created);
      FreshHandleKeepsOthers(infos, order, pending, resolution, nextHandle, a, created);
      nextHandle := nextHandle + 1;
      infos := infos[a := h];
      order := order + [a];
      resolution := resolution[h := created];
    }

    /** Gives an unknown actor a new pending placeholder. */
    method AddPending(a: string) returns (h: nat)
      requires Valid() && a !in infos
      modifies this
      ensures Valid()
      ensures infos == old(infos)[a := h] && order == old(order) + [a]
      ensures pending == old(pending)[a := h] && resolution == old(resolution)
      ensures Settled(a) == None
      ensures forall b :: b != a ==> Settled(b) == old(Settled(b))
    {
      h := nextHandle;
      AddPendingTables(infos, order, pending, resolution, nextHandle, a);
      nextHandle := nextHandle + 1;
      infos := infos[a := h];
      order := order + [a];
      pending := pending[a := h];
    }

    /**
     * `getSourceMappingInfo`: the actor's promise; an unknown actor gets a
     * pending placeholder, which the arrival of its source settles.
     */
    method GetSourceMappingInfo(actor: string) returns (h: nat)
      requires Valid()
      modifies this
      ensures Valid()
      ensures actor in infos && h == infos[actor]
      ensures actor in old(infos) ==>
        infos == old(infos) && order == old(order) && pending == old(pending) && resolution == old(resolution)
      ensures actor !in old(infos) ==>
        && infos == old(infos)[actor := h] && order == old(order) + [actor]
        && pending == old(pending)[actor := h] && resolution == old(resolution) && Settled(actor) == None
      ensures forall a :: a != actor ==> Settled(a) == old(Settled(a))
    {
      if actor in infos {
        h := infos[actor];
      } else {
        h := AddPending(actor);
      }
    }

    /** The settled infos in insertion order, `None` for a placeholder. */
    function InfosInOrder(): (r: seq<Option<SourceMappingInfo>>)
      reads this
      ensures |r| == |order|
      ensures forall i :: 0 <= i < |order| ==> r[i] == Settled(order[i])
    {
      seq(|order|, i requires 0 <= i < |order| reads this => Settled(order[i]))
    }

    /**
     * `findOriginalLocation`: awaits the infos in insertion order and
     * reports the first original location found in an info of the
     * generated URL; an unsettled placeholder makes it wait.
     */
    method FindOriginalLocation(generatedUrl: string, line: int, column: Option<int>, lookup: OriginalLookup)
      returns (r: Awaited<Option<UrlLocation>>)
      requires Valid()
      ensures r == FindOriginal(InfosInOrder(), generatedUrl, line, column, lookup)
    {
      ghost var all := InfosInOrder();
      for i := 0 to |order|
        invariant FindOriginal(all[i..], generatedUrl, line, column, lookup) == FindOriginal(all, generatedUrl, line, column, lookup)
      {
        assert all[i..][1..] == all[i + 1..];
        var settled := Settled(order[i]);
        if settled.None? {
          return Blocked;
        }
        var found := OriginalLocationIn(settled.value, generatedUrl, line, column, lookup);
        if found.Some? {
          return Ready(found);
        }
      }
      assert all[|order|..] == [];
      r := Ready(None);
    }

    /**
     * `applySourceMapToFrame`: awaits the info of the frame's actor (a
     * placeholder if the actor is not known yet) and moves the frame to
     * the original location the map gives, if any.
     */
    method ApplySourceMapToFrame(frame: Frame, lookup: OriginalLookup) returns (r: Awaited<()>)
      requires Valid()
      modifies this, frame
      ensures Valid()
      ensures old(frame.where.actor) in infos
      ensures old(frame.where.actor) !in old(infos) ==> r == Blocked && frame.where == old(frame.where)
      ensures r == Blocked <==> Settled(old(frame.where.actor)).None?
      ensures r.Ready? ==> var info := Settled(old(frame.where.actor)).value;
        frame.where == (var m := MappedWhere(info, old(frame.where), lookup); if m.Some? then m.value else old(frame.where))
      ensures r == Blocked ==> frame.where == old(frame.where)
    {
      var actor := frame.where.actor;
      var _ := GetSourceMappingInfo(actor);
      var info := Settled(actor);
      if info.None? {
        return Blocked;
      }
      var moved := MappedWhere(info.value, frame.where, lookup);
      if moved.Some? {
        frame.where := moved.value;
      }
      r := Ready(());
    }
  }
}
