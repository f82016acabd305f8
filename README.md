# Portfolio page interactions, modelled in Dafny

This project models the page-interaction layer of a portfolio site (`src/main.js`):
the overlay menu, the step reveal of the `#about` section, the anchor navigation
with its fixed-header compensation, and the `#projects` section that turns vertical
scrolling into a horizontal slide. DOM reads (element lookups, `offsetTop`,
`offsetHeight`, `getBoundingClientRect`, `scrollWidth`, `innerWidth`,
`innerHeight`, `pageYOffset`) are parameters; the state the code keeps in its
closures and writes to the page (class lists, the inline transform, listeners,
queued animation frames) is the state of the model.

Modules:

- `Wrappers` — the `Option` type.
- `Menu` — `openMenu` / `hideMenu` as functions on the two class lists, and the
  `MenuController` class whose methods apply them in place.
- `AboutSteps` — the IntersectionObserver callback of `#about`: the pure step
  function `Next` on a `StepState`, its iteration `Run` over a sequence of entries,
  the trace of `classList.add` calls, and the `AboutStepDriver` class whose loop
  adds the classes one by one. A class `step-n` is represented by the number `n`.
- `ProjectsSlide` — `calcMaxTranslateX`, the phase and translation arithmetic of
  `applyProjectsTransform` over reals, the frame coalescer (`ticking`,
  `latestScrollY`, the queued frame), the activation gate (`active`, the attached
  listeners), and the `ProjectsSlider` class holding all of that state.
- `Navigation` — `getHeaderHeight`, `scrollToSection`, the href resolution of
  `handleNavClick`, the logo handler, and the handlers as methods that hide the menu.

Behaviour worth knowing (proved unless marked otherwise):

- With `speedFactor = 1.5`, progress in the pinned branch never exceeds 2/3, so at
  `scrollY == end` the strip is translated by `-(2/3)·maxTranslateX`; the full
  slide `-maxTranslateX` is written only once `scrollY > end`, so the translation
  jumps by at least a third of `maxTranslateX` there (`AtRangeEnd`,
  `JumpPastRangeEnd`).
- When `end == start == scrollY` the pinned branch divides 0 by 0; the model writes
  the `NotANumber` offset there instead of excluding the input. (Browser behaviour
  outside the model: the browser refuses the resulting `translateX(NaNpx)`, so the
  strip keeps its previous transform on screen.)
- Activation calls `onScrollProjects`, not `onResizeProjects`: a resize while the
  section is inactive reaches no handler, so after re-activation the strip still
  uses the old `maxTranslateX` until a resize happens while it is active
  (`OnIntersection` keeps `maxTranslateX`; `WindowResize` changes it only while active).
- A bare `#` link scrolls nowhere, since no element has the empty id, yet still hides
  the menu (`BareHashHidesOnly`).
- `handleNavClick` hides the menu whenever the href is a `#` link, even when no
  element has the id and `scrollToSection` returns without scrolling.
- The logo handler does not call `preventDefault`.

## Model

| member | source | states |
|---|---|---|
| `Menu.Open` | src/main.js:11-15 | with a `.fullMenu`, `show` is on it and `menuOpen` on the body afterwards, and no other class changes; without one nothing changes |
| `Menu.Hide` | src/main.js:17-21 | with a `.fullMenu`, neither `show` nor `menuOpen` is present afterwards, and no other class changes; without one nothing changes |
| `Menu.OpenIdempotent` | src/main.js:11-15 | opening twice is the same as opening once |
| `Menu.HideIdempotent` | src/main.js:17-21 | hiding twice is the same as hiding once |
| `Menu.LastOperationWins` | src/main.js:11-21 | open-then-hide equals hide, hide-then-open equals open |
| `Menu.NoChangeWhenAlreadyInState` | src/main.js:11-21 | opening an open menu and hiding a closed one change no class list |
| `Menu.MenuController.constructor` | src/main.js:7-9 | the controller holds the presence of `.fullMenu` and the two class lists as given |
| `Menu.MenuController.OpenMenu` | src/main.js:11-15 | the in-place update leaves the class lists as `Open` of the old ones |
| `Menu.MenuController.HideMenu` | src/main.js:17-21 | the in-place update leaves the class lists as `Hide` of the old ones |
| `AboutSteps.StepOf` | src/main.js:45 | a missing `data-step` reads as step 0; a present one is its number |
| `AboutSteps.Run` | src/main.js:42-55 | the `forEach` over a batch never lowers `maxStep`, never removes a step class, and never re-observes a line |
| `AboutSteps.Added` | src/main.js:47-50 | an entry adds classes only when it intersects and its step exceeds `maxStep`, and every class it adds lies between `maxStep` and the step |
| `AboutSteps.Next` | src/main.js:43-56 | a non-intersecting entry changes nothing; an intersecting one sets `maxStep` to the larger of `maxStep` and its step, unobserves its line, and removes no class |
| `AboutSteps.NextKeepsInv` | src/main.js:36-56 | one entry the browser can deliver keeps `maxStep` at most the number of lines and the classes exactly `step-1..step-maxStep` |
| `AboutSteps.RunKeepsInv` | src/main.js:42-57 | the same invariant holds after any sequence of such entries |
| `AboutSteps.RunMaxStep` | src/main.js:44-52 | after any entries `maxStep` is the larger of its old value and the largest intersecting step, so it never decreases and missing `data-step` (0) never raises it |
| `AboutSteps.RunObserved` | src/main.js:44-55 | exactly the lines of intersecting entries are unobserved, whether or not they raised `maxStep` |
| `AboutSteps.RunSnoc` | src/main.js:42-57 | processing one more entry acts on the state the earlier entries left, and its classes are added after theirs |
| `AboutSteps.RunTrace` | src/main.js:47-51 | the `classList.add` calls over any entries are `maxStep+1, …, new maxStep` in increasing order, none skipped or repeated |
| `AboutSteps.FromInitial` | src/main.js:33-65 | from the page's start, a step class `step-x` is set exactly when `1 <= x <= maxStep`, `maxStep` is at most the number of lines, and the adds so far were `1, 2, …, maxStep` |
| `AboutSteps.FourLinesInOrder` | src/main.js:37-55 | four lines seen in order add `step-1`..`step-4` in order, and seeing the first line again adds nothing |
| `AboutSteps.SkippedLinesRevealedTogether` | src/main.js:47-51 | the third line seen first adds `step-1`, `step-2`, `step-3` at once; the first line afterwards adds nothing |
| `AboutSteps.AboutStepDriver.constructor` | src/main.js:33-39 | every line observed, `maxStep` 0, no step class |
| `AboutSteps.AboutStepDriver.OnEntry` | src/main.js:44-55 | the loop's in-place updates give `Next` of the old state, keep the invariant, and log the adds `Added` in order |
| `AboutSteps.AboutStepDriver.OnEntries` | src/main.js:42-57 | the callback over a batch gives `Run` of the old state and logs `Trace` |
| `ProjectsSlide.MaxTranslateX` | src/main.js:134-138 | the result is never negative, at least `scrollWidth - innerWidth`, and equal to 0 or to that difference |
| `ProjectsSlide.SlideEnd` | src/main.js:149 | the pinned range is the section height minus the viewport height long, and empty or inverted when the section is no taller than the viewport |
| `ProjectsSlide.ScrollYOf` | src/main.js:190 | the position is `pageYOffset` unless it is 0, and then the root element's `scrollTop` |
| `ProjectsSlide.Tick` | src/main.js:182-187 | after `requestTick` `ticking` is set and one more frame is queued only if it was clear, so the one-pending-frame invariant is kept |
| `ProjectsSlide.RequestScroll` | src/main.js:189-192 | `onScrollProjects` stores the given position and leaves exactly one frame pending, with `ticking` set |
| `ProjectsSlide.FireFrame` | src/main.js:140-143 | a frame runs iff one is pending; it clears `ticking` and applies the latest stored position, leaving none pending; with none pending nothing changes |
| `ProjectsSlide.Clamp01` | src/main.js:174-176 | the clamped progress lies in [0, 1] and a value already in [0, 1] is kept |
| `ProjectsSlide.SlideFrame` | src/main.js:148-179 | phase Before iff `scrollY < start` (translation 0), After iff `start <= scrollY > end` (translation `-maxTranslateX`), Pinned iff `start <= scrollY <= end`; the 0/0 case occurs iff `scrollY == start == end` |
| `ProjectsSlide.PinnedTranslation` | src/main.js:169-179 | for `end > start` in the pinned branch the progress lies in [0, 2/3], the clamps do nothing, and the translation lies in `[-(2/3)·maxTranslateX, 0]` ⊆ `[-maxTranslateX, 0]` |
| `ProjectsSlide.PinnedMonotone` | src/main.js:173-179 | in the pinned branch the translation is non-increasing as `scrollY` grows |
| `ProjectsSlide.AtRangeEnd` | src/main.js:149-152 | at `scrollY == end` the translation is `-(2/3)·maxTranslateX` |
| `ProjectsSlide.JumpPastRangeEnd` | src/main.js:161-179 | past `end` the translation is at least `maxTranslateX/3` further left than at any pinned position |
| `ProjectsSlide.PhaseClasses` | src/main.js:155-171 | after a frame `is-fixed` is present iff pinned, `is-bottom` iff after, other classes unchanged |
| `ProjectsSlide.AtMostOneFramePending` | src/main.js:182-187 | under any interleaving of scrolls and frames, at most one frame is pending and `ticking` is set exactly while one is |
| `ProjectsSlide.LastScrollWins` | src/main.js:189-192 | a burst of scrolls queues exactly one frame, applies nothing meanwhile, and that frame applies the last position |
| `ProjectsSlide.GateStep` | src/main.js:204-216 | for the first entry of a batch: the flag follows its `isIntersecting`; listeners are attached iff it goes false→true, detached iff true→false, otherwise untouched |
| `ProjectsSlide.GateAlternates` | src/main.js:204-216 | over any reports, attaches and detaches alternate, starting with the one that flips the initial flag and ending with the final flag |
| `ProjectsSlide.ProjectsSlider.constructor` | src/main.js:128-132 | initial flags are cleared, no frame is pending, no listener attached, and `maxTranslateX` is measured once |
| `ProjectsSlide.ProjectsSlider.CalcMaxTranslateX` | src/main.js:134-138 | stores `MaxTranslateX` of the measured widths |
| `ProjectsSlide.ProjectsSlider.RequestTick` | src/main.js:182-187 | the new ticker state is `Tick` of the old: a frame is queued only when `ticking` is false, which it then sets |
| `ProjectsSlide.ProjectsSlider.OnScrollProjects` | src/main.js:189-192 | the new ticker state is `RequestScroll` of the old: stores the scroll position (`pageYOffset`, or `scrollTop` when it is 0) and requests a tick |
| `ProjectsSlide.ProjectsSlider.OnResizeProjects` | src/main.js:194-197 | re-measures `maxTranslateX`, then stores the position and requests a tick |
| `ProjectsSlide.ProjectsSlider.ApplyProjectsTransform` | src/main.js:140-180 | clears `ticking` and writes the classes and transform `SlideFrame` gives for the stored position |
| `ProjectsSlide.ProjectsSlider.RunFrame` | src/main.js:141-185 | running the pending frame clears `ticking` and applies the latest stored position; with none pending nothing changes |
| `ProjectsSlide.ProjectsSlider.OnIntersection` | src/main.js:204-216 | acts on the first entry of the (non-empty) batch only: attaches both listeners and schedules a frame only on false→true, detaches only on true→false, and keeps the alternation invariant |
| `ProjectsSlide.ProjectsSlider.WindowScroll` | src/main.js:207-214 | a scroll reaches `onScrollProjects` only while the section is active |
| `ProjectsSlide.ProjectsSlider.WindowResize` | src/main.js:208-215 | a resize reaches `onResizeProjects` only while the section is active |
| `ProjectsSlide.ResizeThenFrame` | src/main.js:161-197 | after an active resize and its frame, a position past `end` is parked at `-maxTranslateX` of the new widths with `is-bottom` set |
| `Navigation.ToLower` | src/main.js:103 | lower-casing keeps the length and lowers each ASCII capital, leaving other characters |
| `Navigation.ToLowerIdempotent` | src/main.js:103 | the result has no capital, and lower-casing it again changes nothing |
| `Navigation.ResolveHref` | src/main.js:99-106 | a missing href or one not starting with `#` leads nowhere; otherwise the id is the rest lower-cased, with `auto` behaviour iff it is `contact` |
| `Navigation.ResolveIgnoresCase` | src/main.js:99-104 | hrefs equal up to letter case resolve to the same target |
| `Navigation.HeaderHeight` | src/main.js:77 | the header's height, or 0 when the page has no header |
| `Navigation.ScrollToSection` | src/main.js:79-94 | no scroll iff the id is empty or no element has it; otherwise the requested top is the element's document top plus the header height for `contact`, minus it otherwise, with the given behaviour |
| `Navigation.NavClick` | src/main.js:96-108 | `preventDefault` always; the menu is hidden iff the href is a `#` link; a scroll only ever comes with hiding |
| `Navigation.LogoClick` | src/main.js:112-117 | no `preventDefault`, a smooth scroll to `home`, the menu hidden |
| `Navigation.NavClickScrolls` | src/main.js:96-108 | a scroll is requested iff the href is a `#` link whose non-empty id names an existing element, landing at that element's top ± header height, `auto` for `contact` and `smooth` otherwise |
| `Navigation.BareHashHidesOnly` | src/main.js:80-81 | a bare `#` link prevents the default jump and hides the menu but requests no scroll |
| `Navigation.ContactAndAbout` | src/main.js:77-108 | `#CONTACT` jumps instantly to contact's top + header height; `#ABOUT` glides to about's top − header height |
| `Navigation.HandleNavClick` | src/main.js:96-108 | the handler's effects are `NavClick`'s and the menu ends as `Hide` of its old state exactly when they say so |
| `Navigation.HandleLogoClick` | src/main.js:112-117 | the logo handler's effects are `LogoClick`'s and the menu ends hidden |

## Left out

- DOM queries and layout reads are parameters of the operations, not state: `querySelector`, `getElementById` (a map from id to viewport-relative top), `offsetTop`, `offsetHeight`, `getBoundingClientRect`, `scrollWidth`, `innerWidth`, `innerHeight`, `pageYOffset`, `scrollTop`.
- IntersectionObserver geometry (threshold 0.5 and 0, the root margins) and how the browser chooses when to deliver entries: entries are inputs.
- `requestAnimationFrame` timing and `window.scrollTo`'s smooth animation: the model keeps only the count of queued frames, the frame running, and the requested `(top, behavior)`.
- IEEE floating point: pixels are reals; only the 0/0 of the pinned branch is kept, as `NotANumber`; the `-0` that `-0 * progress` gives is not distinguished from 0.
- The `translateX(...px)` string and the `step-n` class names: the model keeps the number in each.
- `toLowerCase` beyond ASCII letters.
- The SCSS import and the listener registration plumbing (lines 23-24, 65, 110, 112-113, 225), including the null checks on `.btnMenu`, `.closeMenu` and the logo; a logo that is also a `.navWrap` link, which would run both handlers, is not modelled.
- `data-step` parsing: the attribute is `Option<nat>` (absent reads as 0); strings that `Number` would turn into `NaN` cannot occur since the page writes `idx + 1` into every line.
- AboutSteps.AboutStepDriver.OnEntry: requires the entry to be about one of the lines with `data-step` equal to its index + 1 (or absent); the browser only delivers entries for observed lines, all of which the page numbered that way.
- The `#about` element is taken to start without any `step-*` class.
- The `passive` listener option has no observable effect in the model.
