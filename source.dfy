/**
 * The adapter's view of one JavaScript source: its display name, its
 * black-box flag, the pool of runtime actors that serve it, and the search
 * for the breakable position at or after a requested one.
 */
module Sources {
  import opened Wrappers
  import opened Text
  import opened Protocol
  import opened Registries

  // ---------------------------------------------------------------------
  // The actor pool
  // ---------------------------------------------------------------------

  /** The actor the pool hands out next, or `Waiting` while it has none and a waiter is parked. */
  datatype SomeActor<A> = Ready(actor: A) | Waiting

  /** What a remote call made through one actor came back with. */
  datatype Outcome<T> = Ok(value: T) | NoSuchActor | Failure(error: string)

  /** The result of `runWithSomeActor`; `Blocked` means it waits for an actor to be added. */
  datatype RunResult<T> = Done(value: T) | Rethrown(error: string) | Blocked

  /** The position of the first `x` in `s`, or -1 (`Array.prototype.indexOf`). */
  function IndexIn<A(==)>(s: seq<A>, x: A): (r: int)
    ensures r == -1 <==> x !in s
    ensures r >= 0 ==> r < |s| && s[r] == x && x !in s[..r]
  {
    if s == [] then -1
    else if s[0] == x then 0
    else
      var i := IndexIn(s[1..], x);
      assert s[1..][..Max0(i)] == s[1..Max0(i) + 1];
      if i < 0 then -1 else i + 1
  }

  /** `s` with its first `x` spliced out. */
  function RemoveFirst<A(==)>(s: seq<A>, x: A): seq<A> {
    var i := IndexIn(s, x);
    if i < 0 then s else s[..i] + s[i + 1..]
  }

  /**
   * The actors that serve one source. The pool's promise of "some actor"
   * is the first actor whenever there is one, and waits exactly when the
   * pool is empty.
   */
  class SourceActorCollection<A(==)> {
    var actors: seq<A>
    var someActor: SomeActor<A>

    ghost predicate Valid()
      reads this
    {
      && (someActor.Waiting? <==> actors == [])
      && (someActor.Ready? ==> someActor.actor == actors[0])
    }

    constructor (actor: A)
      ensures Valid() && actors == [actor] && someActor == Ready(actor)
    {
      actors := [actor];
      someActor := Ready(actor);
    }

    /** `add`: appends the actor and wakes a parked waiter with it. */
    method Add(actor: A)
      requires Valid()
      modifies this
      ensures Valid()
      ensures actors == old(actors) + [actor]
      ensures someActor == if old(someActor).Waiting? then Ready(actor) else old(someActor)
    {
      actors := actors + [actor];
      if someActor.Waiting? {
        someActor := Ready(actor);
      }
    }

    /** `remove`: splices out the first occurrence; the pool then offers its first actor or waits. */
    method Remove(actor: A)
      requires Valid()
      modifies this
      ensures Valid()
      ensures actors == RemoveFirst(old(actors), actor)
      ensures actor !in old(actors) ==> someActor == old(someActor)
      ensures actor in old(actors) ==> |actors| == |old(actors)| - 1
    {
      var index := IndexIn(actors, actor);
      if index >= 0 {
        actors := actors[..index] + actors[index + 1..];
        if |actors| > 0 {
          someActor := Ready(actors[0]);
        } else {
          someActor := Waiting;
        }
      }
    }

    /**
     * `runWithSomeActor`: calls `fn` on the pool's actor; an actor that has
     * gone away (`noSuchActor`) is removed and the next one is tried, any
     * other failure is passed on unchanged.
     */
    method RunWithSomeActor<T>(fn: A -> Outcome<T>) returns (r: RunResult<T>)
      requires Valid()
      modifies this
      ensures Valid()
      ensures (r, actors) == Run(old(actors), fn)
    {
      while true
        invariant Valid()
        invariant Run(actors, fn) == Run(old(actors), fn)
        decreases |actors|
      {
        if someActor.Waiting? {
          return Blocked;
        }
        var actor := someActor.actor;
        var outcome := fn(actor);
        if outcome.Ok? {
          return Done(outcome.value);
        } else if outcome.Failure? {
          return Rethrown(outcome.error);
        }
        assert RemoveFirst(actors, actor) == actors[1..];
        Remove(actor);
      }
    }
  }

  /** The result of running `fn` through a pool holding `actors`, and the actors left in it. */
  function Run<A, T>(actors: seq<A>, fn: A -> Outcome<T>): (RunResult<T>, seq<A>) {
    if actors == [] then (Blocked, [])
    else match fn(actors[0])
      case Ok(v) => (Done(v), actors)
      case Failure(e) => (Rethrown(e), actors)
      case NoSuchActor => Run(actors[1..], fn)
  }

  /** The first actor whose call does not report `noSuchActor` (or `|actors|`). */
  function FirstLive<A, T>(actors: seq<A>, fn: A -> Outcome<T>): (i: nat)
    ensures i <= |actors|
    ensures forall j :: 0 <= j < i ==> fn(actors[j]).NoSuchActor?
    ensures i < |actors| ==> !fn(actors[i]).NoSuchActor?
  {
    if actors == [] || !fn(actors[0]).NoSuchActor? then 0 else 1 + FirstLive(actors[1..], fn)
  }

  /**
   * The retry loop in closed form: every actor before the first live one is
   * dropped; the first live one's answer or failure is the result, and with
   * no live actor the call waits on an empty pool.
   */
  lemma {:induction false} RunCharacterised<A, T>(actors: seq<A>, fn: A -> Outcome<T>)
    ensures var i := FirstLive(actors, fn);
      var (r, left) := Run(actors, fn);
      && left == actors[i..]
      && (i == |actors| ==> r == Blocked)
      && (i < |actors| && fn(actors[i]).Ok? ==> r == Done(fn(actors[i]).value))
      && (i < |actors| && fn(actors[i]).Failure? ==> r == Rethrown(fn(actors[i]).error))
  {
    if actors != [] && fn(actors[0]).NoSuchActor? {
      RunCharacterised(actors[1..], fn);
      assert actors[1..][FirstLive(actors[1..], fn)..] == actors[FirstLive(actors, fn)..];
    }
  }

  /**
   * A pool created with `first`, to which `second` was added, where `first`
   * has been destroyed: the call is answered through `second`.
   */
  method DestroyedAfterAdd(first: int, second: int) returns (r: RunResult<int>)
    requires first != second
    ensures r == Done(second)
  {
    var pool := new SourceActorCollection(first);
    pool.Add(second);
    r := pool.RunWithSomeActor((a: int) => if a == first then NoSuchActor else Ok(a));
  }

  /** Removing the only actor and adding another one serves calls through the new one. */
  method ReplacedActor(first: int, second: int) returns (r: RunResult<int>)
    ensures r == Done(second)
  {
    var pool := new SourceActorCollection(first);
    pool.Remove(first);
    assert pool.someActor == Waiting;
    pool.Add(second);
    r := pool.RunWithSomeActor((a: int) => Ok(a));
  }

  /** Removing a later actor keeps serving calls through the first. */
  method SecondRemoved(first: int, second: int) returns (r: RunResult<int>)
    requires first != second
    ensures r == Done(first)
  {
    var pool := new SourceActorCollection(first);
    pool.Add(second);
    pool.Remove(second);
    r := pool.RunWithSomeActor((a: int) => Ok(a));
  }

  // ---------------------------------------------------------------------
  // Snap-forward location search
  // ---------------------------------------------------------------------

  /** The first location whose column is at or after `column`. */
  function FirstAtOrAfter(locations: seq<MappedLocation>, column: int): (r: Option<MappedLocation>)
    ensures r.Some? ==> r.value in locations && r.value.column >= column
  {
    if locations == [] then None
    else if locations[0].column >= column then Some(locations[0])
    else FirstAtOrAfter(locations[1..], column)
  }

  /** No location qualifies exactly when every column is before `column`. */
  lemma {:induction false} FirstAtOrAfterNone(locations: seq<MappedLocation>, column: int)
    ensures FirstAtOrAfter(locations, column).None? <==> forall i :: 0 <= i < |locations| ==> locations[i].column < column
  {
    if locations != [] {
      FirstAtOrAfterNone(locations[1..], column);
      assert forall i :: 1 <= i < |locations| ==> locations[i] == locations[1..][i - 1];
    }
  }

  /** The first position of the first listed line after `line` that has breakable positions. */
  function FirstOnLaterLine(lines: seq<int>, line: int, locationsOn: int -> seq<MappedLocation>): (r: Option<MappedLocation>)
  {
    if lines == [] then None
    else if lines[0] > line && |locationsOn(lines[0])| > 0 then Some(locationsOn(lines[0])[0])
    else FirstOnLaterLine(lines[1..], line, locationsOn)
  }

  /**
   * `k` is the position the line search settles on: at or after `column`,
   * with every earlier position before it.
   */
  ghost predicate FirstAtOrAfterAt(locations: seq<MappedLocation>, column: int, k: int) {
    && 0 <= k < |locations|
    && locations[k].column >= column
    && forall j :: 0 <= j < k ==> locations[j].column < column
  }

  /** What is found is the first location at or after the column. */
  lemma {:induction false} FirstAtOrAfterIsFirst(locations: seq<MappedLocation>, column: int)
    ensures var r := FirstAtOrAfter(locations, column);
      r.Some? ==> exists k :: FirstAtOrAfterAt(locations, column, k) && r.value == locations[k]
  {
    if locations != [] && locations[0].column < column {
      FirstAtOrAfterIsFirst(locations[1..], column);
      var r := FirstAtOrAfter(locations[1..], column);
      if r.Some? {
        var k :| FirstAtOrAfterAt(locations[1..], column, k) && r.value == locations[1..][k];
        assert FirstAtOrAfterAt(locations, column, k + 1) by {
          forall j | 0 <= j < k + 1
            ensures locations[j].column < column
          {
            if j > 0 { assert locations[j] == locations[1..][j - 1]; }
          }
        }
      }
    } else if locations != [] {
      assert FirstAtOrAfterAt(locations, column, 0);
    }
  }

  /**
   * `i` is the listed line the later-line search settles on: after `line`,
   * with positions, and every earlier listed line after `line` without any.
   */
  ghost predicate FirstLaterLineAt(lines: seq<int>, line: int, locationsOn: int -> seq<MappedLocation>, i: int) {
    && 0 <= i < |lines|
    && lines[i] > line
    && locationsOn(lines[i]) != []
    && forall j :: 0 <= j < i && lines[j] > line ==> locationsOn(lines[j]) == []
  }

  /**
   * Nothing is found exactly when no later listed line has positions; what is
   * found is the first position of the first such line, in the listed order.
   */
  lemma {:induction false} FirstOnLaterLineSpec(lines: seq<int>, line: int, locationsOn: int -> seq<MappedLocation>)
    ensures var r := FirstOnLaterLine(lines, line, locationsOn);
      && (r.None? <==> forall i :: 0 <= i < |lines| && lines[i] > line ==> locationsOn(lines[i]) == [])
      && (r.Some? ==> exists i :: FirstLaterLineAt(lines, line, locationsOn, i) && r.value == locationsOn(lines[i])[0])
  {
    if lines != [] {
      FirstOnLaterLineSpec(lines[1..], line, locationsOn);
      assert forall i :: 1 <= i < |lines| ==> lines[i] == lines[1..][i - 1];
      var r := FirstOnLaterLine(lines[1..], line, locationsOn);
      if lines[0] > line && |locationsOn(lines[0])| > 0 {
        assert FirstLaterLineAt(lines, line, locationsOn, 0);
      } else if r.Some? {
        var i :| FirstLaterLineAt(lines[1..], line, locationsOn, i) && r.value == locationsOn(lines[1..][i])[0];
        assert FirstLaterLineAt(lines, line, locationsOn, i + 1);
      }
    }
  }

  /**
   * Where a breakpoint requested at (`line`, `column`) lands: the first
   * breakable position on that line at or after the column, else the first
   * position of the first later breakable line. `locationsOn` and `lines`
   * are the runtime's answers for this source.
   */
  function NextBreakable(line: int, column: int, locationsOn: int -> seq<MappedLocation>, lines: seq<int>): Option<MappedLocation> {
    var here := FirstAtOrAfter(locationsOn(line), column);
    if here.Some? then here else FirstOnLaterLine(lines, line, locationsOn)
  }

  /** The runtime lists, for each line, positions on that line. */
  ghost predicate LocationsOnTheirLine(locationsOn: int -> seq<MappedLocation>) {
    forall l: int, i :: 0 <= i < |locationsOn(l)| ==> locationsOn(l)[i].line == l
  }

  /** A breakpoint never moves backwards, and is not placed when no position qualifies. */
  lemma NextBreakableNeverBackwards(line: int, column: int, locationsOn: int -> seq<MappedLocation>, lines: seq<int>)
    requires LocationsOnTheirLine(locationsOn)
    ensures var r := NextBreakable(line, column, locationsOn, lines);
      && (r.Some? ==> r.value.line > line || (r.value.line == line && r.value.column >= column))
      && (r.None? <==> (forall i :: 0 <= i < |locationsOn(line)| ==> locationsOn(line)[i].column < column)
                       && (forall i :: 0 <= i < |lines| && lines[i] > line ==> locationsOn(lines[i]) == []))
  {
    FirstAtOrAfterNone(locationsOn(line), column);
    FirstOnLaterLineSpec(lines, line, locationsOn);
    var here := FirstAtOrAfter(locationsOn(line), column);
    if here.Some? {
      var k :| 0 <= k < |locationsOn(line)| && locationsOn(line)[k] == here.value;
      assert here.value.line == line;
    } else {
      var r := FirstOnLaterLine(lines, line, locationsOn);
      if r.Some? {
        var i :| FirstLaterLineAt(lines, line, locationsOn, i) && r.value == locationsOn(lines[i])[0];
        assert r.value.line == lines[i];
      }
    }
  }

  /**
   * Which position is chosen: the first one on the requested line at or after
   * the column; failing that, the first position of the first listed later
   * line that has any.
   */
  lemma NextBreakableIsFirst(line: int, column: int, locationsOn: int -> seq<MappedLocation>, lines: seq<int>)
    ensures var r := NextBreakable(line, column, locationsOn, lines);
      var on := locationsOn(line);
      r.Some? ==>
        || (exists k :: FirstAtOrAfterAt(on, column, k) && r.value == on[k])
        || ((forall k :: 0 <= k < |on| ==> on[k].column < column)
            && exists i :: FirstLaterLineAt(lines, line, locationsOn, i) && r.value == locationsOn(lines[i])[0])
  {
    FirstAtOrAfterIsFirst(locationsOn(line), column);
    FirstAtOrAfterNone(locationsOn(line), column);
    FirstOnLaterLineSpec(lines, line, locationsOn);
  }

  /** `findNextBreakableLocation`, with the runtime's answers as parameters. */
  method FindNextBreakableLocation(requestedLine: int, requestedColumn: int,
                                   locationsOn: int -> seq<MappedLocation>, breakableLines: seq<int>)
    returns (r: Option<MappedLocation>)
    ensures r == NextBreakable(requestedLine, requestedColumn, locationsOn, breakableLines)
  {
    var breakableLocations := locationsOn(requestedLine);
    for i := 0 to |breakableLocations|
      invariant FirstAtOrAfter(breakableLocations[i..], requestedColumn) == FirstAtOrAfter(breakableLocations, requestedColumn)
    {
      assert breakableLocations[i..][1..] == breakableLocations[i + 1..];
      if breakableLocations[i].column >= requestedColumn {
        return Some(breakableLocations[i]);
      }
    }
    for i := 0 to |breakableLines|
      invariant FirstOnLaterLine(breakableLines[i..], requestedLine, locationsOn)
             == FirstOnLaterLine(breakableLines, requestedLine, locationsOn)
    {
      assert breakableLines[i..][1..] == breakableLines[i + 1..];
      var line := breakableLines[i];
      if line > requestedLine {
        var locations := locationsOn(line);
        if |locations| > 0 {
          return Some(locations[0]);
        }
      }
    }
    return None;
  }

  // ---------------------------------------------------------------------
  // The source adapter
  // ---------------------------------------------------------------------

  /** The debug-protocol source shown in the editor; `sourceReference` 0 means none. */
  datatype DapSource = DapSource(name: string, path: Option<string>, sourceReference: nat)

  lemma {:induction false} AfterLastSeparator(p: string, d: string, c: char)
    requires c !in d
    ensures AfterLast(p + [c] + d, c) == d
    decreases |d|
  {
    var s := p + [c] + d;
    if d != [] {
      assert s[..|s| - 1] == p + [c] + d[..|d| - 1];
      AfterLastSeparator(p, d[..|d| - 1], c);
      assert d == d[..|d| - 1] + [d[|d| - 1]];
    }
  }

  /**
   * The display name: for a source with a URL, its last `/` segment cut at
   * `#`; otherwise the introduction type (or "Script") and the adapter id.
   */
  function SourceName(url: Option<string>, introductionType: Option<string>, id: nat): (r: string)
    ensures Truthy(url) ==> '/' !in r && '#' !in r && r <= AfterLast(url.value, '/')
    ensures !Truthy(url) ==> AfterLast(r, ' ') == NatToString(id) && NumericValue(AfterLast(r, ' ')) == id
  {
    if Truthy(url) then
      var segment := AfterLast(url.value, '/');
      var name := BeforeFirst(segment, '#');
      name
    else
      var prefix := if Truthy(introductionType) then introductionType.value else "Script";
      NatToStringRoundTrip(id);
      AfterLastSeparator(prefix, NatToString(id), ' ');
      prefix + " " + NatToString(id)
  }

  /**
   * The editor's view of a source: a source with a path is referred to by
   * that path (reference 0); otherwise by its id, with the URL as path if there is one.
   */
  function SourceFor(url: Option<string>, introductionType: Option<string>, path: Option<string>, id: nat): (r: DapSource)
    ensures r.name == SourceName(url, introductionType, id)
    ensures path.Some? ==> r.path == path && r.sourceReference == 0
    ensures path.None? ==> r.path == (if Truthy(url) then url else None) && r.sourceReference == id
  {
    var name := SourceName(url, introductionType, id);
    if path.Some? then DapSource(name, path, 0)
    else DapSource(name, if Truthy(url) then url else None, id)
  }

  /** The requests that apply one black-box flag to every actor, in pool order. */
  function BlackboxRequests(actors: seq<SourceActor>, blackboxed: bool): (r: seq<(SourceActor, bool)>)
    ensures |r| == |actors|
    ensures forall i :: 0 <= i < |r| ==> r[i] == (actors[i], blackboxed)
  {
    if actors == [] then [] else [(actors[0], blackboxed)] + BlackboxRequests(actors[1..], blackboxed)
  }

  class SourceAdapter {
    const url: Option<string>
    /** for an original (source-mapped) source, the URL of its generated source */
    const generatedUrl: Option<string>
    const introductionType: Option<string>
    const id: nat
    /** the path or URL as the editor sees it */
    const path: Option<string>
    const source: DapSource
    const actors: SourceActorCollection<SourceActor>
    var blackboxed: bool
    /** the editor hint set by `setBlackBoxed` */
    var presentationHint: Option<string>
    /** the `setBlackbox` requests sent to actors, in order */
    var blackboxRequests: seq<(SourceActor, bool)>

    /** Creates the adapter for `actor` and registers it in `registry`, which hands out its id. */
    constructor (actor: SourceActor, path: Option<string>, registry: Registry<SourceAdapter>)
      requires registry.Valid()
      modifies registry
      ensures registry.Valid()
      ensures id == old(registry.nextId) && registry.nextId == id + 1 && id !in old(registry.objectsById)
      ensures registry.objectsById == old(registry.objectsById)[id := this]
      ensures registry.order == old(registry.order) + [id]
      ensures registry.announced == old(registry.announced) + [this]
      ensures url == actor.Url() && introductionType == actor.source.introductionType && this.path == path
      ensures generatedUrl == if actor.kind.SourceMapping? then actor.kind.underlyingUrl else None
      ensures source == SourceFor(actor.Url(), actor.source.introductionType, path, id)
      ensures fresh(actors) && actors.Valid() && actors.actors == [actor]
      ensures !blackboxed && presentationHint == None && blackboxRequests == []
    {
      url := actor.Url();
      generatedUrl := if actor.kind.SourceMapping? then actor.kind.underlyingUrl else None;
      introductionType := actor.source.introductionType;
      id := registry.nextId;
      this.path := path;
      source := SourceFor(actor.Url(), actor.source.introductionType, path, registry.nextId);
      actors := new SourceActorCollection(actor);
      blackboxed := false;
      presentationHint := None;
      blackboxRequests := [];
      new;
      var registered := registry.Register(this);
    }

    /** `setBlackBoxed`: nothing happens when the flag is unchanged; otherwise every actor is told. */
    method SetBlackBoxed(b: bool)
      modifies this`blackboxed, this`presentationHint, this`blackboxRequests
      ensures old(blackboxed) == b ==>
        blackboxed == b && presentationHint == old(presentationHint) && blackboxRequests == old(blackboxRequests)
      ensures old(blackboxed) != b ==>
        && blackboxed == b
        && presentationHint == Some(if b then "deemphasize" else "normal")
        && blackboxRequests == old(blackboxRequests) + BlackboxRequests(actors.actors, b)
    {
      if blackboxed == b {
        return;
      }
      blackboxed := b;
      presentationHint := Some(if b then "deemphasize" else "normal");
      blackboxRequests := blackboxRequests + BlackboxRequests(actors.actors, b);
    }
  }
}
