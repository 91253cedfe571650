/**
 * One breakpoint as the adapter tracks it: the editor's request, the id the
 * adapter gave it, where it actually landed and how often it has been hit.
 */
module Breakpoints {
  import opened Wrappers
  import opened Text
  import opened Protocol

  /** A breakpoint as the editor requests it; `line` and `column` are 1-based. */
  datatype SourceBreakpoint = SourceBreakpoint(
    line: int,
    column: Option<int>,
    condition: Option<string>,
    hitCondition: Option<string>,
    logMessage: Option<string>)

  /**
   * `+(hitCondition || '')`: the number of hits to skip, 0 (no limit) when
   * the hit condition is absent, empty or not a decimal number.
   */
  function HitLimitOf(hitCondition: Option<string>): (r: nat)
    ensures !Truthy(hitCondition) ==> r == 0
    ensures hitCondition.Some? && !AllDigits(hitCondition.value) ==> r == 0
  {
    if Truthy(hitCondition) then NumericValue(hitCondition.value) else 0
  }

  /** A hit condition that spells a number in decimal gives exactly that number. */
  lemma HitLimitOfDecimal(n: nat)
    ensures HitLimitOf(Some(NatToString(n))) == n
  {
    NatToStringRoundTrip(n);
  }

  /**
   * `isEquivalent`: two requests describe the same breakpoint when line,
   * column, condition and log message agree; the hit condition is not compared.
   */
  predicate IsEquivalent(bp1: SourceBreakpoint, bp2: SourceBreakpoint) {
    && bp1.line == bp2.line
    && bp1.column == bp2.column
    && bp1.condition == bp2.condition
    && bp1.logMessage == bp2.logMessage
  }

  /** Equivalence is an equivalence relation that ignores the hit condition. */
  lemma IsEquivalentProperties(a: SourceBreakpoint, b: SourceBreakpoint, c: SourceBreakpoint, h: Option<string>)
    ensures IsEquivalent(a, a)
    ensures IsEquivalent(a, b) ==> IsEquivalent(b, a)
    ensures IsEquivalent(a, b) && IsEquivalent(b, c) ==> IsEquivalent(a, c)
    ensures IsEquivalent(a, a.(hitCondition := h))
    ensures IsEquivalent(a, b) <==> a.(hitCondition := None) == b.(hitCondition := None)
  {
  }

  class BreakpointInfo {
    const id: nat
    const requested: SourceBreakpoint
    /** how many times the breakpoint is skipped initially */
    const hitLimit: nat
    /** where the breakpoint was actually set, which may differ from the request */
    var actualLocation: Option<MappedLocation>
    /** whether the breakpoint was set successfully */
    var verified: bool
    var hitCount: nat

    constructor (id: nat, requested: SourceBreakpoint)
      ensures this.id == id && this.requested == requested
      ensures hitLimit == HitLimitOf(requested.hitCondition)
      ensures actualLocation == None && !verified && hitCount == 0
    {
      this.id := id;
      this.requested := requested;
      hitLimit := HitLimitOf(requested.hitCondition);
      actualLocation := None;
      verified := false;
      hitCount := 0;
    }
  }
}
