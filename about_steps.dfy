/** The step reveal of the `#about` section. Every `.introLine` is numbered
    (`data-step` = index + 1) and observed; the first time a line intersects the
    viewport its step may raise the running maximum `maxStep`, every class
    `step-i` between the old and the new maximum is added to `#about`, and the
    line is unobserved.

    A class `step-n` is represented by the number n: `stepClasses` is the set of
    n for which `#about` carries `step-n`. */
module AboutSteps {
  import opened Wrappers

  /** One IntersectionObserver entry: whether its line intersects, the line's index
      among the `.introLine` elements, and the line's `data-step` attribute
      (None when the attribute is absent). */
  datatype Entry = Entry(isIntersecting: bool, target: nat, dataStep: Option<nat>)

  /** The driver's state: the running maximum, the step classes on `#about`, and the
      indices of the lines still observed. */
  datatype StepState = StepState(maxStep: nat, stepClasses: set<nat>, observed: set<nat>)

  /** `Number(dataset.step || "0")`: a missing attribute reads as step 0. */
  function StepOf(dataStep: Option<nat>): (step: nat)
    ensures dataStep.None? ==> step == 0
    ensures dataStep.Some? ==> step == dataStep.value
  {
    if dataStep.Some? then dataStep.value else 0
  }

  /** The line indices 0..count-1. */
  function Lines(count: nat): set<nat> {
    if count == 0 then {} else Lines(count - 1) + {count - 1}
  }

  /** The numbers lo+1, lo+2, ..., hi in increasing order (empty when hi <= lo). */
  function Between(lo: nat, hi: nat): (r: seq<nat>)
    ensures |r| == if hi <= lo then 0 else hi - lo
    ensures forall k :: 0 <= k < |r| ==> r[k] == lo + 1 + k
  {
    if hi <= lo then [] else Between(lo, hi - 1) + [hi]
  }

  /** The step numbers lo+1..hi as a set. */
  function Span(lo: nat, hi: nat): set<nat> {
    set x | x in Between(lo, hi)
  }

  /** The step numbers 1..n. */
  function StepsUpTo(n: nat): set<nat> {
    Span(0, n)
  }

  lemma InSpan(lo: nat, hi: nat, x: nat)
    ensures x in Span(lo, hi) <==> lo < x <= hi
  {
    if lo < x <= hi {
      assert Between(lo, hi)[x - lo - 1] == x;
    }
  }

  /** State before any entry arrives: no step, no class, every line observed. */
  function Initial(lineCount: nat): StepState {
    StepState(0, {}, Lines(lineCount))
  }

  /** The driver's invariant for a section with `lineCount` lines: the maximum is a
      step some line can have, and the step classes are exactly step-1..step-maxStep. */
  ghost predicate Inv(s: StepState, lineCount: nat) {
    s.maxStep <= lineCount &&
    s.stepClasses == StepsUpTo(s.maxStep) &&
    s.observed <= Lines(lineCount)
  }

  /** An entry the browser can deliver: it is about one of the lines, and that line's
      `data-step`, if present, is the one the page gave it (index + 1). */
  predicate WellFormed(e: Entry, lineCount: nat) {
    e.target < lineCount && (e.dataStep.None? || e.dataStep.value == e.target + 1)
  }

  /** The class numbers one entry adds, in the order the loop adds them. */
  function Added(s: StepState, e: Entry): (r: seq<nat>)
    ensures !e.isIntersecting || StepOf(e.dataStep) <= s.maxStep ==> r == []
    ensures forall k :: 0 <= k < |r| ==> s.maxStep < r[k] <= StepOf(e.dataStep)
  {
    if e.isIntersecting && StepOf(e.dataStep) > s.maxStep then Between(s.maxStep, StepOf(e.dataStep)) else []
  }

  /** The observer callback's effect of one entry. */
  function Next(s: StepState, e: Entry): (r: StepState)
    ensures !e.isIntersecting ==> r == s
    ensures e.isIntersecting ==> r.maxStep == Max(s.maxStep, StepOf(e.dataStep))
    ensures e.isIntersecting ==> r.observed == s.observed - {e.target}
    ensures s.stepClasses <= r.stepClasses
  {
    if !e.isIntersecting then s
    else
      var step := StepOf(e.dataStep);
      if step > s.maxStep then
        StepState(step, s.stepClasses + Span(s.maxStep, step), s.observed - {e.target})
      else
        s.(observed := s.observed - {e.target})
  }

  function Max(a: nat, b: nat): nat {
    if a < b then b else a
  }

  /** The effect of a sequence of entries, one after the other. */
  function Run(s: StepState, es: seq<Entry>): (r: StepState)
    ensures s.maxStep <= r.maxStep
    ensures s.stepClasses <= r.stepClasses
    ensures r.observed <= s.observed
    decreases |es|
  {
    if es == [] then s else Run(Next(s, es[0]), es[1..])
  }

  /** The `step-*` classes added by a sequence of entries, in order. */
  function Trace(s: StepState, es: seq<Entry>): seq<nat>
    decreases |es|
  {
    if es == [] then [] else Added(s, es[0]) + Trace(Next(s, es[0]), es[1..])
  }

  /** The largest step among the intersecting entries (0 if there is none). */
  function MaxIntersectingStep(es: seq<Entry>): nat
    decreases |es|
  {
    if es == [] then 0
    else if es[0].isIntersecting then Max(StepOf(es[0].dataStep), MaxIntersectingStep(es[1..]))
    else MaxIntersectingStep(es[1..])
  }

  /** The lines whose entries intersect, i.e. the lines the callback unobserves. */
  function IntersectingTargets(es: seq<Entry>): set<nat>
    decreases |es|
  {
    if es == [] then {}
    else (if es[0].isIntersecting then {es[0].target} else {}) + IntersectingTargets(es[1..])
  }

  /** One well-formed entry keeps the invariant: the maximum stays within the number of
      lines and the classes added fill exactly the gap up to the new maximum. */
  lemma NextKeepsInv(s: StepState, e: Entry, lineCount: nat)
    requires Inv(s, lineCount) && WellFormed(e, lineCount)
    ensures Inv(Next(s, e), lineCount)
  {
    if e.isIntersecting && StepOf(e.dataStep) > s.maxStep {
      BetweenSplit(0, s.maxStep, StepOf(e.dataStep));
    }
  }

  lemma {:induction false} RunKeepsInv(s: StepState, es: seq<Entry>, lineCount: nat)
    requires Inv(s, lineCount)
    requires forall k :: 0 <= k < |es| ==> WellFormed(es[k], lineCount)
    ensures Inv(Run(s, es), lineCount)
    decreases |es|
  {
    if es != [] {
      NextKeepsInv(s, es[0], lineCount);
      RunKeepsInv(Next(s, es[0]), es[1..], lineCount);
    }
  }

  /** After any sequence of entries the maximum is the larger of the old maximum and
      the largest intersecting step: it never decreases, non-intersecting entries and
      entries without `data-step` never raise it. */
  lemma {:induction false} RunMaxStep(s: StepState, es: seq<Entry>)
    ensures Run(s, es).maxStep == Max(s.maxStep, MaxIntersectingStep(es))
    decreases |es|
  {
    if es != [] {
      RunMaxStep(Next(s, es[0]), es[1..]);
    }
  }

  /** Every line whose entry intersected is unobserved, whether or not it raised the
      maximum, and no other line is. */
  lemma {:induction false} RunObserved(s: StepState, es: seq<Entry>)
    ensures Run(s, es).observed == s.observed - IntersectingTargets(es)
    decreases |es|
  {
    if es != [] {
      RunObserved(Next(s, es[0]), es[1..]);
    }
  }

  /** The classes are added in increasing order, each once, with no gap: the whole
      trace of `classList.add` calls is maxStep+1, ..., new maxStep. */
  lemma {:induction false} RunTrace(s: StepState, es: seq<Entry>)
    ensures Trace(s, es) == Between(s.maxStep, Run(s, es).maxStep)
    decreases |es|
  {
    if es != [] {
      var t := Next(s, es[0]);
      RunTrace(t, es[1..]);
      RunMaxStep(t, es[1..]);
      BetweenSplit(s.maxStep, t.maxStep, Run(t, es[1..]).maxStep);
    }
  }

  /** Running entries one more at a time: the last entry acts on the state the
      earlier ones left, and its classes are added after theirs. */
  lemma {:induction false} RunSnoc(s: StepState, es: seq<Entry>)
    requires es != []
    ensures Run(s, es) == Next(Run(s, es[..|es| - 1]), es[|es| - 1])
    ensures Trace(s, es) == Trace(s, es[..|es| - 1]) + Added(Run(s, es[..|es| - 1]), es[|es| - 1])
    decreases |es|
  {
    if |es| > 1 {
      var t := Next(s, es[0]);
      RunSnoc(t, es[1..]);
      assert es[1..][..|es| - 2] == es[..|es| - 1][1..];
    }
  }

  lemma BetweenSplit(a: nat, b: nat, c: nat)
    requires a <= b <= c
    ensures Between(a, b) + Between(b, c) == Between(a, c)
  {
  }

  lemma SpanSplit(a: nat, b: nat, c: nat)
    requires a <= b <= c
    ensures Span(a, b) + Span(b, c) == Span(a, c)
  {
    BetweenSplit(a, b, c);
  }

  /** From the page's initial state, after any sequence of entries the browser can
      deliver, the step classes are exactly step-1..step-maxStep with maxStep no
      larger than the number of lines, and the trace of added classes is 1, 2, ..., maxStep. */
  lemma FromInitial(lineCount: nat, es: seq<Entry>)
    requires forall k :: 0 <= k < |es| ==> WellFormed(es[k], lineCount)
    ensures Run(Initial(lineCount), es).maxStep <= lineCount
    ensures Run(Initial(lineCount), es).stepClasses == StepsUpTo(Run(Initial(lineCount), es).maxStep)
    ensures Trace(Initial(lineCount), es) == Between(0, Run(Initial(lineCount), es).maxStep)
    ensures forall x: nat :: x in Run(Initial(lineCount), es).stepClasses <==> 1 <= x <= Run(Initial(lineCount), es).maxStep
  {
    RunKeepsInv(Initial(lineCount), es, lineCount);
    RunTrace(Initial(lineCount), es);
    var s := Run(Initial(lineCount), es);
    forall x: nat
      ensures x in s.stepClasses <==> 1 <= x <= s.maxStep
    {
      InSpan(0, s.maxStep, x);
    }
  }

  /** Four lines entering the viewport one by one add step-1, step-2, step-3, step-4 in
      that order; a later entry for the first line again adds nothing. */
  lemma FourLinesInOrder()
    ensures Trace(Initial(4), [Entry(true, 0, Some(1)), Entry(true, 1, Some(2)), Entry(true, 2, Some(3)),
                               Entry(true, 3, Some(4)), Entry(true, 0, Some(1))]) == [1, 2, 3, 4]
  {
  }

  /** A line seen out of order reveals every earlier step at once. */
  lemma SkippedLinesRevealedTogether()
    ensures Trace(Initial(3), [Entry(true, 2, Some(3)), Entry(true, 0, Some(1))]) == [1, 2, 3]
  {
  }

  /** The `#about` section with its lines: the observer callback's closure state. */
  class AboutStepDriver {
    const lineCount: nat
    var maxStep: nat
    var stepClasses: set<nat>
    var observed: set<nat>
    /** Every `classList.add("step-i")` call made so far, in order. */
    ghost var classAdds: seq<nat>

    function State(): StepState
      reads this
    {
      StepState(maxStep, stepClasses, observed)
    }

    ghost predicate Valid()
      reads this
    {
      Inv(State(), lineCount) && classAdds == Between(0, maxStep)
    }

    /** Numbers the lines and observes each of them; `#about` starts with no step class. */
    constructor (lineCount: nat)
      ensures Valid()
      ensures this.lineCount == lineCount && State() == Initial(lineCount)
    {
      this.lineCount := lineCount;
      maxStep := 0;
      stepClasses := {};
      observed := Lines(lineCount);
      classAdds := [];
    }

    /** The callback's body for one entry. */
    method OnEntry(e: Entry)
      requires Valid() && WellFormed(e, lineCount)
      modifies this
      ensures Valid()
      ensures State() == Next(old(State()), e)
      ensures classAdds == old(classAdds) + Added(old(State()), e)
    {
      if !e.isIntersecting {
        return;
      }
      var step := StepOf(e.dataStep);
      if step > maxStep {
        var i := maxStep + 1;
        while i <= step
          invariant maxStep == old(maxStep) && observed == old(observed)
          invariant maxStep + 1 <= i <= step + 1
          invariant stepClasses == old(stepClasses) + Span(maxStep, i - 1)
          invariant classAdds == old(classAdds) + Between(maxStep, i - 1)
        {
          stepClasses := stepClasses + {i};
          classAdds := classAdds + [i];
          i := i + 1;
        }
        BetweenSplit(0, maxStep, step);
        SpanSplit(0, maxStep, step);
        maxStep := step;
      }
      observed := observed - {e.target};
    }

    /** The observer callback: the entries of one delivery, in order. */
    method OnEntries(es: seq<Entry>)
      requires Valid()
      requires forall k :: 0 <= k < |es| ==> WellFormed(es[k], lineCount)
      modifies this
      ensures Valid()
      ensures State() == Run(old(State()), es)
      ensures classAdds == old(classAdds) + Trace(old(State()), es)
    {
      ghost var start, startAdds := State(), classAdds;
      var k := 0;
      while k < |es|
        invariant 0 <= k <= |es|
        invariant Valid()
        invariant State() == Run(start, es[..k])
        invariant classAdds == startAdds + Trace(start, es[..k])
      {
        ghost var before, prefix := State(), es[..k + 1];
        assert prefix[..k] == es[..k] && prefix[k] == es[k];
        RunSnoc(start, prefix);
        OnEntry(es[k]);
        assert State() == Next(before, es[k]) == Run(start, prefix);
        k := k + 1;
      }
      assert es[..k] == es;
    }
  }
}
