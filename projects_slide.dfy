/** The `#projects` horizontal slide. While the page scrolls through the section,
    `.projectsInner` is pinned (`is-fixed`) and translated left in proportion to the
    scroll progress; before the section it is at rest, after it it is parked at the
    end (`is-bottom`). Scroll events are coalesced into at most one pending animation
    frame, and the scroll and resize listeners are attached only while the section
    is near the viewport.

    Pixel values are reals: floating-point rounding is not modelled, and the one
    `NaN` the source can produce (0/0 in the pinned branch) is the `NotANumber` offset. */
module ProjectsSlide {
  import opened Wrappers

  /** How much more scrolling than the section's pinned range a full slide takes. */
  const SPEED_FACTOR: real := 1.5

  const IS_FIXED := "is-fixed"
  const IS_BOTTOM := "is-bottom"

  /** `calcMaxTranslateX`: how far the inner strip can slide, never negative. */
  function MaxTranslateX(scrollWidth: real, viewportWidth: real): (m: real)
    ensures m >= 0.0 && m >= scrollWidth - viewportWidth
    ensures m == 0.0 || m == scrollWidth - viewportWidth
  {
    if scrollWidth - viewportWidth > 0.0 then scrollWidth - viewportWidth else 0.0
  }

  datatype Phase = Before | Pinned | After

  /** A horizontal translation in pixels, or the `NaN` JavaScript yields for 0/0. */
  datatype Offset = Px(x: real) | NotANumber

  /** What one frame writes: the phase (which decides the classes) and the translation. */
  datatype Frame = Frame(phase: Phase, translateX: Offset)

  /** The scroll position at which the pinned range ends. */
  function SlideEnd(sectionTop: real, sectionHeight: real, viewportHeight: real): (end: real)
    ensures end - sectionTop == sectionHeight - viewportHeight
    ensures sectionHeight <= viewportHeight ==> end <= sectionTop
  {
    sectionTop + sectionHeight - viewportHeight
  }

  /** The source's two clamping statements: below 0 becomes 0, above 1 becomes 1. */
  function Clamp01(p: real): (r: real)
    ensures 0.0 <= r <= 1.0
    ensures 0.0 <= p <= 1.0 ==> r == p
  {
    if p < 0.0 then 0.0 else if p > 1.0 then 1.0 else p
  }

  /** The raw progress of the pinned branch, before clamping. */
  function PinnedProgress(scrollY: real, start: real, end: real): real
    requires end != start
  {
    (scrollY - start) / ((end - start) * SPEED_FACTOR)
  }

  /** The arithmetic of `applyProjectsTransform` for the scroll range [start, end]. */
  function SlideFrame(scrollY: real, start: real, end: real, maxTranslateX: real): (f: Frame)
    ensures f.phase == Before <==> scrollY < start
    ensures f.phase == After <==> start <= scrollY && end < scrollY
    ensures f.phase == Pinned <==> start <= scrollY <= end
    ensures f.phase == Before ==> f.translateX == Px(0.0)
    ensures f.phase == After ==> f.translateX == Px(-maxTranslateX)
    ensures f.translateX == NotANumber <==> scrollY == start && end == start
  {
    if scrollY < start then Frame(Before, Px(0.0))
    else if scrollY > end then Frame(After, Px(-maxTranslateX))
    else
      var scrollRange := (end - start) * SPEED_FACTOR;
      if scrollRange == 0.0 then Frame(Pinned, NotANumber)
      else Frame(Pinned, Px(-maxTranslateX * Clamp01((scrollY - start) / scrollRange)))
  }

  lemma DivMonotone(a: real, b: real, r: real)
    requires r > 0.0 && a <= b
    ensures a / r <= b / r
  {
  }

  /** A non-empty range of length d takes d * SPEED_FACTOR of scrolling to cross fully. */
  lemma RangeShare(d: real)
    requires d > 0.0
    ensures d / (d * SPEED_FACTOR) == 2.0 / 3.0
  {
  }

  /** In the pinned branch of a non-empty range the progress never exceeds 2/3, so the
      clamps never act and the strip is translated by -maxTranslateX * progress,
      which lies between -(2/3)maxTranslateX and 0. */
  lemma PinnedTranslation(scrollY: real, start: real, end: real, maxTranslateX: real)
    requires start < end && start <= scrollY <= end && maxTranslateX >= 0.0
    ensures 0.0 <= PinnedProgress(scrollY, start, end) <= 2.0 / 3.0
    ensures SlideFrame(scrollY, start, end, maxTranslateX)
         == Frame(Pinned, Px(-maxTranslateX * PinnedProgress(scrollY, start, end)))
    ensures -maxTranslateX <= -(2.0 / 3.0) * maxTranslateX <= SlideFrame(scrollY, start, end, maxTranslateX).translateX.x <= 0.0
  {
    var d := end - start;
    var r := d * SPEED_FACTOR;
    var p := PinnedProgress(scrollY, start, end);
    DivMonotone(0.0, scrollY - start, r);
    DivMonotone(scrollY - start, d, r);
    RangeShare(d);
    assert 0.0 <= p <= 2.0 / 3.0;
    assert maxTranslateX * p <= maxTranslateX * (2.0 / 3.0);
  }

  /** Through the pinned range the translation never moves back to the right. */
  lemma PinnedMonotone(y1: real, y2: real, start: real, end: real, maxTranslateX: real)
    requires start < end && start <= y1 <= y2 <= end && maxTranslateX >= 0.0
    ensures SlideFrame(y2, start, end, maxTranslateX).translateX.x <= SlideFrame(y1, start, end, maxTranslateX).translateX.x
  {
    PinnedTranslation(y1, start, end, maxTranslateX);
    PinnedTranslation(y2, start, end, maxTranslateX);
    DivMonotone(y1 - start, y2 - start, (end - start) * SPEED_FACTOR);
    var p1, p2 := PinnedProgress(y1, start, end), PinnedProgress(y2, start, end);
    assert maxTranslateX * p1 <= maxTranslateX * p2;
  }

  /** At the last pinned position the strip has slid only two thirds of the way. */
  lemma AtRangeEnd(start: real, end: real, maxTranslateX: real)
    requires start < end
    ensures SlideFrame(end, start, end, maxTranslateX) == Frame(Pinned, Px(-(2.0 / 3.0) * maxTranslateX))
  {
  }

  /** Just past the range the strip is at the full slide, so whenever there is
      something to slide the translation jumps by at least a third of it when
      scrolling crosses `end`. */
  lemma JumpPastRangeEnd(y1: real, y2: real, start: real, end: real, maxTranslateX: real)
    requires start < end && start <= y1 <= end < y2 && maxTranslateX > 0.0
    ensures SlideFrame(y2, start, end, maxTranslateX).translateX.x
         <= SlideFrame(y1, start, end, maxTranslateX).translateX.x - maxTranslateX / 3.0
  {
  }

  /** `projectsInner.classList` after a frame of the given phase. */
  function PhaseClasses(classes: set<string>, phase: Phase): (r: set<string>)
    ensures IS_FIXED in r <==> phase == Pinned
    ensures IS_BOTTOM in r <==> phase == After
    ensures forall c :: c != IS_FIXED && c != IS_BOTTOM ==> (c in r <==> c in classes)
  {
    match phase
    case Before => classes - {IS_FIXED, IS_BOTTOM}
    case After => classes - {IS_FIXED} + {IS_BOTTOM}
    case Pinned => classes + {IS_FIXED} - {IS_BOTTOM}
  }

  /** `window.pageYOffset || document.documentElement.scrollTop`: a zero offset falls
      back to the root element's scrollTop. */
  function ScrollYOf(pageYOffset: real, scrollTop: real): (y: real)
    ensures pageYOffset != 0.0 ==> y == pageYOffset
    ensures pageYOffset == 0.0 ==> y == scrollTop
  {
    if pageYOffset != 0.0 then pageYOffset else scrollTop
  }

  // ---------------------------------------------------------------------------
  // Frame coalescing

  /** The coalescer's variables and the number of animation-frame callbacks queued
      with the browser and not yet run. */
  datatype Ticker = Ticker(latestScrollY: real, ticking: bool, pendingFrames: nat)

  /** `ticking` is set exactly while one frame is pending, and never more than one is. */
  ghost predicate TickerInv(t: Ticker) {
    t.pendingFrames == if t.ticking then 1 else 0
  }

  /** `requestTick`: queue a frame unless one is already pending. */
  function Tick(t: Ticker): (r: Ticker)
    ensures r.ticking && r.latestScrollY == t.latestScrollY
    ensures r.pendingFrames == if t.ticking then t.pendingFrames else t.pendingFrames + 1
    ensures TickerInv(t) ==> TickerInv(r)
  {
    if t.ticking then t else t.(ticking := true, pendingFrames := t.pendingFrames + 1)
  }

  /** `onScrollProjects`: remember the position and request a frame. */
  function RequestScroll(t: Ticker, scrollY: real): (r: Ticker)
    ensures r.ticking && r.latestScrollY == scrollY
    ensures TickerInv(t) ==> TickerInv(r) && r.pendingFrames == 1
  {
    Tick(t.(latestScrollY := scrollY))
  }

  /** The browser runs the pending frame (if any): `ticking` is cleared and the
      latest stored position is the one applied. */
  function FireFrame(t: Ticker): (r: (Ticker, Option<real>))
    ensures r.1.Some? <==> t.pendingFrames > 0
    ensures r.1.Some? ==> r.1.value == t.latestScrollY && !r.0.ticking
    ensures r.1.None? ==> r.0 == t
    ensures r.0.latestScrollY == t.latestScrollY
    ensures TickerInv(t) ==> TickerInv(r.0) && r.0.pendingFrames == 0
  {
    if t.pendingFrames == 0 then (t, None)
    else (t.(ticking := false, pendingFrames := t.pendingFrames - 1), Some(t.latestScrollY))
  }

  datatype TickEvent = Scrolled(scrollY: real) | FrameDue

  function TickNext(t: Ticker, ev: TickEvent): Ticker {
    match ev
    case Scrolled(y) => RequestScroll(t, y)
    case FrameDue => FireFrame(t).0
  }

  function TickRun(t: Ticker, evs: seq<TickEvent>): Ticker
    decreases |evs|
  {
    if evs == [] then t else TickRun(TickNext(t, evs[0]), evs[1..])
  }

  /** The positions the frames apply, in order. */
  function AppliedPositions(t: Ticker, evs: seq<TickEvent>): seq<real>
    decreases |evs|
  {
    if evs == [] then []
    else
      var applied := if evs[0].FrameDue? && FireFrame(t).1.Some? then [FireFrame(t).1.value] else [];
      applied + AppliedPositions(TickNext(t, evs[0]), evs[1..])
  }

  function Scrolls(ys: seq<real>): (evs: seq<TickEvent>)
    ensures |evs| == |ys|
    ensures forall k :: 0 <= k < |ys| ==> evs[k] == Scrolled(ys[k])
  {
    if ys == [] then [] else [Scrolled(ys[0])] + Scrolls(ys[1..])
  }

  /** Whatever the interleaving of scrolls and frames, at most one frame is pending. */
  lemma {:induction false} AtMostOneFramePending(t: Ticker, evs: seq<TickEvent>)
    requires TickerInv(t)
    ensures TickerInv(TickRun(t, evs)) && TickRun(t, evs).pendingFrames <= 1
    decreases |evs|
  {
    if evs != [] {
      AtMostOneFramePending(TickNext(t, evs[0]), evs[1..]);
    }
  }

  /** A burst of scrolls queues exactly one frame, and that frame applies the last
      position of the burst: earlier positions are dropped, not queued. */
  lemma {:induction false} LastScrollWins(t: Ticker, ys: seq<real>)
    requires TickerInv(t) && ys != []
    ensures TickRun(t, Scrolls(ys)).pendingFrames == 1
    ensures AppliedPositions(t, Scrolls(ys)) == []
    ensures FireFrame(TickRun(t, Scrolls(ys))).1 == Some(ys[|ys| - 1])
    decreases |ys|
  {
    var evs := Scrolls(ys);
    assert evs[1..] == Scrolls(ys[1..]);
    if |ys| > 1 {
      LastScrollWins(RequestScroll(t, ys[0]), ys[1..]);
    }
  }

  // ---------------------------------------------------------------------------
  // Activation gate

  /** Attach adds the scroll and resize listeners (and applies the current
      position); Detach removes both. */
  datatype GateOp = Attach | Detach

  /** The projects observer's callback for one entry: the new `active` flag and the
      listener operations performed. */
  function GateStep(active: bool, isIntersecting: bool): (r: (bool, seq<GateOp>))
    ensures r.0 == isIntersecting
    ensures r.1 == [Attach] <==> isIntersecting && !active
    ensures r.1 == [Detach] <==> !isIntersecting && active
    ensures r.1 == [] <==> active == isIntersecting
  {
    if isIntersecting && !active then (true, [Attach])
    else if !isIntersecting && active then (false, [Detach])
    else (active, [])
  }

  function GateOps(active: bool, xs: seq<bool>): seq<GateOp>
    decreases |xs|
  {
    if xs == [] then [] else GateStep(active, xs[0]).1 + GateOps(GateStep(active, xs[0]).0, xs[1..])
  }

  /** Over any sequence of intersection reports the listener operations alternate,
      starting with the one that flips the initial flag: listeners are never attached
      twice or detached while detached, and they are attached exactly when the
      final flag is set. */
  lemma {:induction false} GateAlternates(active: bool, xs: seq<bool>)
    ensures var ops := GateOps(active, xs);
      (forall k :: 0 <= k < |ops| - 1 ==> ops[k] != ops[k + 1]) &&
      (ops != [] ==> ops[0] == (if active then Detach else Attach)) &&
      (ops != [] ==> ops[|ops| - 1] == (if xs[|xs| - 1] then Attach else Detach)) &&
      (ops == [] ==> xs == [] || xs[|xs| - 1] == active)
    decreases |xs|
  {
    if xs != [] {
      var (a, op) := GateStep(active, xs[0]);
      GateAlternates(a, xs[1..]);
    }
  }

  datatype Listener = ScrollListener | ResizeListener

  /** The closure state of the projects block together with what it writes to the page. */
  class ProjectsSlider {
    var maxTranslateX: real
    var latestScrollY: real
    var ticking: bool
    var active: bool
    /** Animation-frame callbacks queued with the browser and not yet run. */
    var pendingFrames: nat
    /** The handlers currently attached to `window`. */
    var listeners: set<Listener>
    /** The class list of `.projectsInner`. */
    var innerClasses: set<string>
    /** The `style.transform` last written to `.projectsInner` (None before the first
        frame). `NotANumber` stands for the `translateX(NaNpx)` string, which the
        browser refuses, so the transform shown stays the one written before it. */
    var transform: Option<Offset>
    /** Every listener operation performed so far, in order. */
    ghost var gateLog: seq<GateOp>

    function TickState(): Ticker
      reads this
    {
      Ticker(latestScrollY, ticking, pendingFrames)
    }

    ghost predicate Valid()
      reads this
    {
      maxTranslateX >= 0.0 &&
      TickerInv(TickState()) &&
      listeners == (if active then {ScrollListener, ResizeListener} else {}) &&
      (forall k :: 0 <= k < |gateLog| - 1 ==> gateLog[k] != gateLog[k + 1]) &&
      (gateLog != [] ==> gateLog[0] == Attach) &&
      active == (gateLog != [] && gateLog[|gateLog| - 1] == Attach)
    }

    /** The set-up: measure the strip once; nothing is attached or pending yet. */
    constructor (scrollWidth: real, viewportWidth: real, innerClasses: set<string>)
      ensures Valid()
      ensures maxTranslateX == MaxTranslateX(scrollWidth, viewportWidth)
      ensures TickState() == Ticker(0.0, false, 0) && !active && listeners == {}
      ensures this.innerClasses == innerClasses && transform == None && gateLog == []
    {
      maxTranslateX := MaxTranslateX(scrollWidth, viewportWidth);
      latestScrollY := 0.0;
      ticking := false;
      active := false;
      pendingFrames := 0;
      listeners := {};
      this.innerClasses := innerClasses;
      transform := None;
      gateLog := [];
    }

    /** `calcMaxTranslateX`. */
    method CalcMaxTranslateX(scrollWidth: real, viewportWidth: real)
      requires Valid()
      modifies this`maxTranslateX
      ensures Valid()
      ensures maxTranslateX == MaxTranslateX(scrollWidth, viewportWidth)
    {
      var totalWidth := scrollWidth;
      maxTranslateX := MaxTranslateX(totalWidth, viewportWidth);
    }

    /** `requestTick`. */
    method RequestTick()
      requires Valid()
      modifies this`ticking, this`pendingFrames
      ensures Valid()
      ensures TickState() == Tick(old(TickState()))
    {
      if !ticking {
        ticking := true;
        pendingFrames := pendingFrames + 1;
      }
    }

    /** `onScrollProjects`. */
    method OnScrollProjects(pageYOffset: real, scrollTop: real)
      requires Valid()
      modifies this`latestScrollY, this`ticking, this`pendingFrames
      ensures Valid()
      ensures TickState() == RequestScroll(old(TickState()), ScrollYOf(pageYOffset, scrollTop))
    {
      latestScrollY := ScrollYOf(pageYOffset, scrollTop);
      RequestTick();
    }

    /** `onResizeProjects`: re-measure, then schedule a frame for the current position. */
    method OnResizeProjects(scrollWidth: real, viewportWidth: real, pageYOffset: real, scrollTop: real)
      requires Valid()
      modifies this`maxTranslateX, this`latestScrollY, this`ticking, this`pendingFrames
      ensures Valid()
      ensures maxTranslateX == MaxTranslateX(scrollWidth, viewportWidth)
      ensures TickState() == RequestScroll(old(TickState()), ScrollYOf(pageYOffset, scrollTop))
    {
      CalcMaxTranslateX(scrollWidth, viewportWidth);
      OnScrollProjects(pageYOffset, scrollTop);
    }

    /** `applyProjectsTransform`, with the layout it reads passed in. It is only ever run
        as the body of a pending animation frame, through `RunFrame`, which is where the
        frame counter drops and `Valid` is re-established. */
    method ApplyProjectsTransform(sectionTop: real, sectionHeight: real, viewportHeight: real)
      modifies this`ticking, this`innerClasses, this`transform
      ensures !ticking
      ensures var f := SlideFrame(latestScrollY, sectionTop, SlideEnd(sectionTop, sectionHeight, viewportHeight), maxTranslateX);
        innerClasses == PhaseClasses(old(innerClasses), f.phase) && transform == Some(f.translateX)
    {
      ticking := false;
      var scrollY := latestScrollY;
      var start := sectionTop;
      var end := SlideEnd(sectionTop, sectionHeight, viewportHeight);
      var scrollRange := (end - start) * SPEED_FACTOR;
      ghost var f := SlideFrame(scrollY, start, end, maxTranslateX);
      if scrollY < start {
        innerClasses := innerClasses - {IS_FIXED, IS_BOTTOM};
        transform := Some(Px(0.0));
        assert innerClasses == PhaseClasses(old(innerClasses), f.phase);
        assert transform == Some(f.translateX);
        return;
      }
      if scrollY > end {
        innerClasses := innerClasses - {IS_FIXED};
        innerClasses := innerClasses + {IS_BOTTOM};
        transform := Some(Px(-maxTranslateX));
        assert innerClasses == PhaseClasses(old(innerClasses), f.phase);
        assert transform == Some(f.translateX);
        return;
      }
      innerClasses := innerClasses + {IS_FIXED};
      innerClasses := innerClasses - {IS_BOTTOM};
      assert innerClasses == PhaseClasses(old(innerClasses), f.phase);
      if scrollRange == 0.0 {
        transform := Some(NotANumber);
        assert transform == Some(f.translateX);
        return;
      }
      var progress := (scrollY - start) / scrollRange;
      ghost var raw := progress;
      assert f == Frame(Pinned, Px(-maxTranslateX * Clamp01(raw)));
      if progress < 0.0 {
        progress := 0.0;
      }
      if progress > 1.0 {
        progress := 1.0;
      }
      assert progress == Clamp01(raw);
      assert Px(-maxTranslateX * progress) == f.translateX;
      transform := Some(Px(-maxTranslateX * progress));
    }

    /** The browser runs the pending animation frame, if there is one. */
    method RunFrame(sectionTop: real, sectionHeight: real, viewportHeight: real)
      requires Valid()
      modifies this`ticking, this`pendingFrames, this`innerClasses, this`transform
      ensures Valid()
      ensures TickState() == FireFrame(old(TickState())).0
      ensures var applied := FireFrame(old(TickState())).1;
        if applied.None? then innerClasses == old(innerClasses) && transform == old(transform)
        else
          var f := SlideFrame(applied.value, sectionTop, SlideEnd(sectionTop, sectionHeight, viewportHeight), maxTranslateX);
          innerClasses == PhaseClasses(old(innerClasses), f.phase) && transform == Some(f.translateX)
    {
      if pendingFrames > 0 {
        pendingFrames := pendingFrames - 1;
        ApplyProjectsTransform(sectionTop, sectionHeight, viewportHeight);
      }
    }

    /** The projects observer's callback. The browser hands it a batch of entries, never
        an empty one; the callback reads only the first (the `[entry]` destructuring) and
        ignores the rest, so a batch is the `isIntersecting` flags of its entries. */
    method OnIntersection(entries: seq<bool>, pageYOffset: real, scrollTop: real)
      requires Valid() && entries != []
      modifies this
      ensures Valid()
      ensures active == GateStep(old(active), entries[0]).0
      ensures gateLog == old(gateLog) + GateStep(old(active), entries[0]).1
      ensures maxTranslateX == old(maxTranslateX)
      ensures innerClasses == old(innerClasses) && transform == old(transform)
      ensures TickState() == if entries[0] && !old(active)
                          then RequestScroll(old(TickState()), ScrollYOf(pageYOffset, scrollTop))
                          else old(TickState())
    {
      var isIntersecting := entries[0];
      if isIntersecting && !active {
        active := true;
        listeners := listeners + {ScrollListener};
        listeners := listeners + {ResizeListener};
        gateLog := gateLog + [Attach];
        OnScrollProjects(pageYOffset, scrollTop);
      }
      if !isIntersecting && active {
        active := false;
        listeners := listeners - {ScrollListener};
        listeners := listeners - {ResizeListener};
        gateLog := gateLog + [Detach];
      }
    }

    /** A `scroll` event on `window`: reaches the handler only while it is attached. */
    method WindowScroll(pageYOffset: real, scrollTop: real)
      requires Valid()
      modifies this`latestScrollY, this`ticking, this`pendingFrames
      ensures Valid()
      ensures TickState() == if active then RequestScroll(old(TickState()), ScrollYOf(pageYOffset, scrollTop)) else old(TickState())
    {
      if ScrollListener in listeners {
        OnScrollProjects(pageYOffset, scrollTop);
      }
    }

    /** A `resize` event on `window`: reaches the handler only while it is attached. */
    method WindowResize(scrollWidth: real, viewportWidth: real, pageYOffset: real, scrollTop: real)
      requires Valid()
      modifies this`maxTranslateX, this`latestScrollY, this`ticking, this`pendingFrames
      ensures Valid()
      ensures maxTranslateX == if active then MaxTranslateX(scrollWidth, viewportWidth) else old(maxTranslateX)
      ensures TickState() == if active then RequestScroll(old(TickState()), ScrollYOf(pageYOffset, scrollTop)) else old(TickState())
    {
      if ResizeListener in listeners {
        OnResizeProjects(scrollWidth, viewportWidth, pageYOffset, scrollTop);
      }
    }
  }

  /** A resize while the section is active re-measures the strip, and the frame it
      schedules parks a scroll position past the range at the new full slide. */
  method ResizeThenFrame(slider: ProjectsSlider, scrollWidth: real, viewportWidth: real, scrollY: real,
                         sectionTop: real, sectionHeight: real, viewportHeight: real)
    requires slider.Valid() && slider.active
    requires sectionTop <= scrollY && SlideEnd(sectionTop, sectionHeight, viewportHeight) < scrollY
    modifies slider
    ensures slider.Valid()
    ensures IS_BOTTOM in slider.innerClasses && IS_FIXED !in slider.innerClasses
    ensures slider.transform == Some(Px(-MaxTranslateX(scrollWidth, viewportWidth)))
    ensures slider.pendingFrames == 0
  {
    slider.WindowResize(scrollWidth, viewportWidth, scrollY, scrollY);
    slider.RunFrame(sectionTop, sectionHeight, viewportHeight);
  }
}
