/**
 * Value shapes of the remote debugging protocol that the modelled
 * components exchange: source descriptors, locations and source actors.
 */
module Protocol {
  import opened Wrappers

  /** A position in generated or original coordinates; columns are 0-based. */
  datatype Location = Location(line: int, column: int)

  /** A breakable position; `generated` is present when it lies in an original (source-mapped) source. */
  datatype MappedLocation = MappedLocation(line: int, column: int, generated: Option<Location>)

  /** A source descriptor as the remote runtime (or the source-map layer) describes it. */
  datatype Source = Source(
    actor: string,
    url: Option<string>,
    introductionType: Option<string>,
    introductionUrl: Option<string>,
    isBlackBoxed: bool,
    isPrettyPrinted: bool,
    isSourceMapped: bool,
    generatedUrl: Option<string>,
    sourceMapUrl: Option<string>)

  /**
   * The two kinds of source actor proxy: one that talks to the runtime, and
   * one that stands for an original source produced by a source map and
   * wraps the generated source's actor, whose url it keeps.
   */
  datatype ActorKind = Remote | SourceMapping(underlyingUrl: Option<string>)

  /** A source actor proxy, identified by its value. */
  datatype SourceActor = SourceActor(source: Source, kind: ActorKind) {
    function Name(): string { source.actor }
    function Url(): Option<string> { source.url }
  }

  /** Where a frame stands: a source actor and, when known, a line and a column. */
  datatype SourceLocation = SourceLocation(actor: string, line: Option<int>, column: Option<int>)

  /** A stack frame as the runtime reports it; the source-map layer rewrites `where` in place. */
  class Frame {
    const actor: string
    var where: SourceLocation

    constructor (actor: string, where: SourceLocation)
      ensures this.actor == actor && this.where == where
    {
      this.actor := actor;
      this.where := where;
    }
  }

  /** The preview of an object grip; `kind` is "Error" for error objects. */
  datatype Preview = Preview(kind: Option<string>, message: string)

  /**
   * A value grip: a string, another primitive (a number or a boolean, with
   * its string form), an object (with its class and preview), or one of the
   * object-shaped grips that stand for `undefined`, `null` and the like.
   */
  datatype Grip =
    | StringGrip(text: string)
    | PrimitiveGrip(display: string)
    | ObjectGrip(actor: string, className: string, preview: Option<Preview>)
    | OtherGrip

  /** Why a thread paused: its `type`, the thrown value for exceptions and the breakpoint actors hit. */
  datatype PausedReason = PausedReason(kind: string, exception: Option<Grip>, actors: Option<seq<string>>)

  /** A `thread-state` resource: `paused` (with its reason and top frame's location) or `resumed`. */
  datatype ThreadState = ThreadState(state: string, why: Option<PausedReason>, where: Option<SourceLocation>)

  /** The timer of a console `time`/`timeLog`/`timeEnd` call, with the runtime's error or the elapsed time in (possibly fractional) milliseconds. */
  datatype Timer = Timer(name: string, error: Option<string>, duration: Option<real>)

  /** A console API call: its level, its timer (for the timer levels) and its arguments. */
  datatype ConsoleMessage = ConsoleMessage(level: string, timer: Option<Timer>, arguments: seq<Grip>)
}
