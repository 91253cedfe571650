/**
 * The decision rules of the debug session: which thread is active, when a
 * pause is resumed without the editor seeing it (black-boxed sources, hit
 * counts, exceptions raised by debugger evaluations), whether a new source
 * is skipped, how console calls become output, the text of a stop and
 * which sources are announced.
 */
module Session {
  import opened Wrappers
  import opened Text
  import opened Protocol
  import opened Registries
  import opened Sources
  import opened Breakpoints
  import BreakpointsManagers
  import opened Threads

  /** What a console call is shown as. */
  datatype ConsoleOutput =
    | ClearScreen
    | TimerAlreadyExists(name: string)
    | TimerDoesNotExist(name: string)
    /** the timer's name and elapsed time in place of the first argument, then the others */
    | TimerLogged(timer: Timer, arguments: seq<Grip>)
    | TimerEnded(name: string, duration: real)
    | TextLine(text: string)
    | Arguments(arguments: seq<Grip>)

  /** The events the session sends to the editor. */
  datatype SessionEvent =
    | StoppedEvent(reason: string, threadId: nat, text: Option<string>)
    | OutputEvent(output: ConsoleOutput, category: string)
    | NewSourceEvent(threadId: nat, sourceId: nat, url: string, path: Option<string>)

  /**
   * What happens to a pause. `AwaitSource`: the handler waits for the
   * adapter of a source that is not announced yet, and goes on once
   * `addActor` records it.
   */
  datatype PauseOutcome = ResumeBlackBoxed | ResumeBelowHitLimit | ResumeDebuggerEval | AwaitSource | Stop

  /**
   * The outermost frame as the exception check finds it: there are no
   * frames, its source is not announced yet, or the adapter of its source.
   */
  datatype StartFrame = NoFrame | Unannounced | Announced(source: SourceAdapter)

  // ---------------------------------------------------------------------
  // Console messages

  /** The output category of a console call that is not about a timer. */
  function ConsoleCategory(level: string): (c: string)
    ensures c == "stderr" || c == "console" || c == "stdout"
    ensures c == "stderr" <==> level == "error"
    ensures c == "console" <==> level == "warn"
  {
    if level == "error" then "stderr" else if level == "warn" then "console" else "stdout"
  }

  /** `message.timer?.error === e` */
  predicate TimerError(m: ConsoleMessage, e: string) {
    m.timer.Some? && m.timer.value.error == Some(e)
  }

  /** `message.timer?.duration !== undefined` */
  predicate TimerDuration(m: ConsoleMessage) {
    m.timer.Some? && m.timer.value.duration.Some?
  }

  /** Arguments that are not objects are shown by their string form. */
  predicate Primitive(g: Grip) {
    g.StringGrip? || g.PrimitiveGrip?
  }

  function Display(g: Grip): string
    requires Primitive(g)
  {
    if g.StringGrip? then g.text else g.display
  }

  /** A logpoint's arguments without the empty literal that closes its message. */
  function LogpointArguments(level: string, args: seq<Grip>): (r: seq<Grip>)
    ensures level != "logPoint" ==> r == args
    ensures r == args || (|args| > 0 && args[|args| - 1] == StringGrip("") && r == args[..|args| - 1])
  {
    if level == "logPoint" && |args| > 0 && args[|args| - 1] == StringGrip("") then args[..|args| - 1] else args
  }

  /**
   * `sendConsoleMessage`: the output a console call produces and its
   * category, or nothing for a `time` call that starts its timer.
   */
  function ConsoleOutputFor(m: ConsoleMessage): (r: Option<(ConsoleOutput, string)>)
    ensures m.level == "clear" ==> r == Some((ClearScreen, "console"))
    ensures r.None? <==> m.level == "time" && (m.timer.None? || !Truthy(m.timer.value.error))
    ensures m.level == "error" || m.level == "warn" ==> r.Some? && r.value.1 == (if m.level == "error" then "stderr" else "console")
    ensures r.Some? && (r.value.0.TextLine? || r.value.0.Arguments?) ==> r.value.1 == ConsoleCategory(m.level)
    ensures r.Some? && (r.value.0.TimerAlreadyExists? || r.value.0.TimerDoesNotExist?) ==> r.value.1 == "console"
    ensures r.Some? && (r.value.0.TimerLogged? || r.value.0.TimerEnded?) ==> r.value.1 == "stdout"
    ensures r.Some? && r.value.0.TextLine? ==>
      |m.arguments| == 1 && Primitive(m.arguments[0]) && r.value.0.text == Display(m.arguments[0]) + "\n"
    ensures r.Some? && r.value.0.Arguments? ==> r.value.0.arguments == LogpointArguments(m.level, m.arguments)
  {
    if m.level == "clear" then Some((ClearScreen, "console"))
    else if m.level == "time" && !Truthy(if m.timer.Some? then m.timer.value.error else None) then None
    else
      var category := ConsoleCategory(m.level);
      if m.level == "time" && TimerError(m, "timerAlreadyExists") then
        Some((TimerAlreadyExists(m.timer.value.name), "console"))
      else if (m.level == "timeLog" || m.level == "timeEnd") && TimerError(m, "timerDoesntExist") then
        Some((TimerDoesNotExist(m.timer.value.name), "console"))
      else if m.level == "timeLog" && TimerDuration(m) then
        Some((TimerLogged(m.timer.value, m.arguments), "stdout"))
      else if m.level == "timeEnd" && TimerDuration(m) then
        Some((TimerEnded(m.timer.value.name, m.timer.value.duration.value), "stdout"))
      else if |m.arguments| == 1 && Primitive(m.arguments[0]) then
        Some((TextLine(Display(m.arguments[0]) + "\n"), category))
      else
        Some((Arguments(LogpointArguments(m.level, m.arguments)), category))
  }

  // ---------------------------------------------------------------------
  // Stopped events

  /** The text shown for a thrown value: a non-empty string itself; an object its class, and its message for errors. */
  function ExceptionText(g: Grip): (t: Option<string>)
    ensures t.Some? <==> (g.StringGrip? && g.text != "") || g.ObjectGrip?
    ensures g.StringGrip? && t.Some? ==> t.value == g.text
    ensures g.ObjectGrip? ==> StartsWith(t.value, g.className)
    ensures g.ObjectGrip? && g.preview.Some? && g.preview.value.kind == Some("Error") ==>
      t.value == g.className + ": " + g.preview.value.message
    ensures g.ObjectGrip? && !(g.preview.Some? && g.preview.value.kind == Some("Error")) ==> t.value == g.className
  {
    match g
    case StringGrip(s) => if s != "" then Some(s) else None
    case ObjectGrip(_, className, preview) =>
      Some(if preview.Some? && preview.value.kind == Some("Error") then className + ": " + preview.value.message else className)
    case _ => None
  }

  /** `sendStoppedEvent`: the reason is the pause's type, `interrupt` without one. */
  function StoppedEventFor(reason: Option<PausedReason>, threadId: nat): (e: SessionEvent)
    ensures e.StoppedEvent? && e.threadId == threadId
    ensures reason.None? ==> e.reason == "interrupt" && e.text.None?
    ensures reason.Some? ==> e.reason == reason.value.kind
    ensures e.text.Some? <==> reason.Some? && reason.value.exception.Some? && ExceptionText(reason.value.exception.value).Some?
    ensures e.text.Some? ==> e.text == ExceptionText(reason.value.exception.value)
  {
    StoppedEvent(
      if reason.Some? then reason.value.kind else "interrupt",
      threadId,
      if reason.Some? && reason.value.exception.Some? then ExceptionText(reason.value.exception.value) else None)
  }

  // ---------------------------------------------------------------------
  // New sources

  /** `sendNewSourceEvent`: sources with a URL are announced, except `javascript:` ones. */
  function NewSourceEventFor(threadId: nat, sourceId: nat, url: Option<string>, path: Option<string>): (r: Option<SessionEvent>)
    ensures r.Some? <==> Truthy(url) && !StartsWith(url.value, "javascript:")
    ensures r.Some? ==> r.value == NewSourceEvent(threadId, sourceId, url.value, path)
  {
    if Truthy(url) && !StartsWith(url.value, "javascript:") then Some(NewSourceEvent(threadId, sourceId, url.value, path)) else None
  }

  // ---------------------------------------------------------------------
  // Skipping sources

  /**
   * The skip decision of `attachSource`: by the source's path when it has
   * one; else by its generated URL when its own URL is missing or relative;
   * else by its URL; with no URL at all there is no decision. URLs are
   * compared without their query string.
   */
  function SkipDecision(path: Option<string>, source: Source, shouldSkip: string -> bool,
                        isAbsoluteUrl: string -> bool, removeQueryString: string -> string): (r: Option<bool>)
    ensures path.Some? ==> r == Some(shouldSkip(path.value))
    ensures r.None? <==> path.None? && !Truthy(source.generatedUrl) && !Truthy(source.url)
    ensures path.None? && Truthy(source.generatedUrl) && !(Truthy(source.url) && isAbsoluteUrl(source.url.value)) ==>
      r == Some(shouldSkip(removeQueryString(source.generatedUrl.value)))
    ensures path.None? && Truthy(source.url) && (isAbsoluteUrl(source.url.value) || !Truthy(source.generatedUrl)) ==>
      r == Some(shouldSkip(removeQueryString(source.url.value)))
  {
    if path.Some? then Some(shouldSkip(path.value))
    else if Truthy(source.generatedUrl) && (!Truthy(source.url) || !isAbsoluteUrl(source.url.value)) then
      Some(shouldSkip(removeQueryString(source.generatedUrl.value)))
    else if Truthy(source.url) then Some(shouldSkip(removeQueryString(source.url.value)))
    else None
  }

  /**
   * The flag update of `attachSource`: a decision that differs from the
   * adapter's flag goes through `setBlackBoxed` (which tells every actor of
   * the source); a decision to skip that the flag already records is sent
   * to the new actor alone.
   */
  method ApplySkip(adapter: SourceAdapter, actor: SourceActor, skip: Option<bool>)
    modifies adapter`blackboxed, adapter`presentationHint, adapter`blackboxRequests
    ensures skip.Some? ==> adapter.blackboxed == skip.value
    ensures skip.None? || (skip == Some(false) && !old(adapter.blackboxed)) ==>
      adapter.blackboxed == old(adapter.blackboxed) && adapter.blackboxRequests == old(adapter.blackboxRequests)
    ensures skip == Some(true) && old(adapter.blackboxed) ==>
      adapter.blackboxRequests == old(adapter.blackboxRequests) + [(actor, true)]
    ensures skip.Some? && skip.value != old(adapter.blackboxed) ==>
      adapter.blackboxRequests == old(adapter.blackboxRequests) + BlackboxRequests(adapter.actors.actors, skip.value)
  {
    if skip.Some? {
      if skip.value != adapter.blackboxed {
        adapter.SetBlackBoxed(skip.value);
      } else if skip.value {
        adapter.blackboxRequests := adapter.blackboxRequests + [(actor, true)];
      }
    }
  }

  // ---------------------------------------------------------------------
  // Hit counts

  /** Whether a breakpoint was set exactly where the thread paused. */
  predicate AtLocation(actual: Option<MappedLocation>, where: SourceLocation) {
    actual.Some? && where.line == Some(actual.value.line) && where.column == Some(actual.value.column)
  }

  /** `find`: the first breakpoint set exactly where the thread paused. */
  function FindHit(bps: seq<BreakpointInfo>, where: SourceLocation): (r: Option<BreakpointInfo>)
    reads bps`actualLocation
    ensures r.None? <==> forall i :: 0 <= i < |bps| ==> !AtLocation(bps[i].actualLocation, where)
    ensures r.Some? ==> exists i :: (0 <= i < |bps| && bps[i] == r.value && AtLocation(bps[i].actualLocation, where)
      && forall j :: 0 <= j < i ==> !AtLocation(bps[j].actualLocation, where))
  {
    if bps == [] then None
    else if AtLocation(bps[0].actualLocation, where) then Some(bps[0])
    else
      var r := FindHit(bps[1..], where);
      if r.Some? then
        var i :| (0 <= i < |bps[1..]| && bps[1..][i] == r.value && AtLocation(bps[1..][i].actualLocation, where)
          && forall j :: 0 <= j < i ==> !AtLocation(bps[1..][j].actualLocation, where));
        assert bps[i + 1] == r.value && forall j :: 0 <= j < i + 1 ==> !AtLocation(bps[j].actualLocation, where);
        r
      else
        assert forall i :: 1 <= i < |bps| ==> bps[i] == bps[1..][i - 1];
        r
  }

  /** A pause at a breakpoint with a hit limit resumes while the count, raised by this hit, is below the limit. */
  predicate HitResumes(hitCount: nat, hitLimit: nat) {
    hitLimit != 0 && hitCount + 1 < hitLimit
  }

  /** How many of the first `n` hits of a breakpoint are resumed. */
  function ResumedHits(hitLimit: nat, n: nat): (r: nat)
    ensures r <= n
  {
    if n == 0 then 0 else ResumedHits(hitLimit, n - 1) + (if HitResumes(n - 1, hitLimit) then 1 else 0)
  }

  /**
   * Hit-count emulation: of the first `n` hits, the first `hitLimit - 1`
   * resume and the rest stop; without a limit every hit stops.
   */
  lemma {:induction false} ResumedHitsCount(hitLimit: nat, n: nat)
    ensures ResumedHits(hitLimit, n) == if hitLimit == 0 then 0 else if n < hitLimit - 1 then n else hitLimit - 1
  {
    if n > 0 {
      ResumedHitsCount(hitLimit, n - 1);
    }
  }

  // ---------------------------------------------------------------------
  // The session

  class FirefoxDebugSession {
    const threads: Registry<ThreadAdapter>
    const breakpointsManager: BreakpointsManagers.BreakpointsManager
    var lastActiveThreadId: nat
    /** the events sent to the editor, in order */
    var events: seq<SessionEvent>

    constructor (threads: Registry<ThreadAdapter>, breakpointsManager: BreakpointsManagers.BreakpointsManager)
      ensures this.threads == threads && this.breakpointsManager == breakpointsManager
      ensures lastActiveThreadId == 0 && events == []
    {
      this.threads := threads;
      this.breakpointsManager := breakpointsManager;
      lastActiveThreadId, events := 0, [];
    }

    /**
     * `getActiveThread`: the last active thread while it is registered;
     * otherwise the first registered thread, which becomes the active one;
     * nothing only when no thread is registered.
     */
    method GetActiveThread() returns (r: Option<ThreadAdapter>)
      requires threads.Valid()
      modifies this`lastActiveThreadId
      ensures r.None? <==> threads.objectsById == map[]
      ensures r.Some? ==> r.value in threads.objectsById.Values
      ensures old(lastActiveThreadId) in threads.objectsById ==>
        r == Some(threads.objectsById[old(lastActiveThreadId)]) && lastActiveThreadId == old(lastActiveThreadId)
      ensures old(lastActiveThreadId) !in threads.objectsById && r.Some? ==>
        r == Some(threads.objectsById[threads.order[0]]) && lastActiveThreadId == r.value.id
    {
      r := threads.Find(lastActiveThreadId);
      if r.Some? {
        return;
      }
      if |threads.order| > 0 {
        var first := threads.objectsById[threads.order[0]];
        lastActiveThreadId := first.id;
        return Some(first);
      }
    }

    /** Every breakpoint the manager holds. */
    function Breakpoints(): set<BreakpointInfo>
      reads this, breakpointsManager
    {
      BreakpointsManagers.Entries(breakpointsManager.breakpointsByPath)
    }

    /**
     * The breakpoint whose hit count a pause may raise: the first one set
     * where a breakpoint pause stopped, among those of the frame's source,
     * when that source has a path.
     */
    function HitTarget(why: Option<PausedReason>, where: SourceLocation, frameSource: Option<SourceAdapter>): (r: Option<BreakpointInfo>)
      reads this, breakpointsManager, Breakpoints()`actualLocation
      ensures r.Some? ==> r.value in Breakpoints() && AtLocation(r.value.actualLocation, where)
      ensures r.Some? ==> frameSource.Some? && BreakpointPause(why) && Truthy(frameSource.value.path)
    {
      if frameSource.Some? && BreakpointPause(why) && Truthy(frameSource.value.path) then
        var bps := breakpointsManager.GetBreakpoints(frameSource.value.path.value);
        if bps.Some? then
          assert forall x :: x in bps.value ==> x in Breakpoints();
          FindHit(bps.value, where)
        else None
      else None
    }

    /**
     * The pause handling of `onThreadState`, with `where` the location of
     * the top frame once source maps are applied, `frameSource` the adapter
     * of its source (`None` while that source is not announced, so the
     * lookup waits) and `startFrame` the outermost frame.
     */
    method OnPaused(thread: ThreadAdapter, why: Option<PausedReason>, where: SourceLocation,
                    frameSource: Option<SourceAdapter>, startFrame: StartFrame)
      returns (outcome: PauseOutcome)
      modifies Breakpoints()`hitCount, this`events, thread`threadPausedReason
      ensures var hit := old(HitTarget(why, where, frameSource));
        var blackboxed := frameSource.Some? && frameSource.value.blackboxed;
        var raised := !blackboxed && hit.Some? && hit.value.hitLimit != 0;
        var onward := frameSource.Some? && !blackboxed && !(raised && HitResumes(old(hit.value.hitCount), hit.value.hitLimit));
        && (raised ==> hit.value.hitCount == old(hit.value.hitCount) + 1)
        && (forall b :: b in old(Breakpoints()) && !(raised && b == hit.value) ==> b.hitCount == old(b.hitCount))
        && (outcome == ResumeBlackBoxed <==> blackboxed)
        && (outcome == ResumeBelowHitLimit <==> raised && HitResumes(old(hit.value.hitCount), hit.value.hitLimit))
        && (outcome == AwaitSource <==> frameSource.None? || (onward && AwaitsStartFrame(why, startFrame)))
        && (outcome == ResumeDebuggerEval <==> onward && DebuggerEvalException(why, startFrame))
      ensures outcome != Stop ==> events == old(events) && thread.threadPausedReason == old(thread.threadPausedReason)
      ensures outcome == Stop ==> events == old(events) + [StoppedEventFor(why, thread.id)] && thread.threadPausedReason == why
    {
      if frameSource.None? {
        return AwaitSource;
      }
      if frameSource.value.blackboxed {
        return ResumeBlackBoxed;
      }
      if BreakpointPause(why) && Truthy(frameSource.value.path) {
        var bps := breakpointsManager.GetBreakpoints(frameSource.value.path.value);
        var hit := if bps.Some? then FindHit(bps.value, where) else None;
        assert hit == HitTarget(why, where, frameSource);
        if hit.Some? && hit.value.hitLimit != 0 {
          hit.value.hitCount := hit.value.hitCount + 1;
          if hit.value.hitCount < hit.value.hitLimit {
            return ResumeBelowHitLimit;
          }
        }
      }
      if AwaitsStartFrame(why, startFrame) {
        return AwaitSource;
      }
      if DebuggerEvalException(why, startFrame) {
        return ResumeDebuggerEval;
      }
      thread.threadPausedReason := why;
      events := events + [StoppedEventFor(why, thread.id)];
      outcome := Stop;
    }
  }

  /** A pause at breakpoints, as the runtime reports it: the reason names at least one breakpoint actor. */
  predicate BreakpointPause(why: Option<PausedReason>) {
    why.Some? && why.value.kind == "breakpoint" && why.value.actors.Some? && |why.value.actors.value| > 0
  }

  /** An exception pause whose outermost frame runs code evaluated by the debugger. */
  predicate DebuggerEvalException(why: Option<PausedReason>, startFrame: StartFrame) {
    why.Some? && why.value.kind == "exception" && startFrame.Announced?
    && startFrame.source.introductionType == Some("debugger eval")
  }

  /** An exception pause whose outermost frame's source is not announced yet: its lookup waits. */
  predicate AwaitsStartFrame(why: Option<PausedReason>, startFrame: StartFrame) {
    why.Some? && why.value.kind == "exception" && startFrame.Unannounced?
  }
}
