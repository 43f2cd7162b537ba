/** The testimonial carousel: an interval advances the active testimonial every
    5000 ms, and clicking a navigation dot or side card jumps to it. Both go
    through a 300 ms animation: `isAnimating` is raised at once and the index
    changes when the 300 ms timer fires. Timers of equal length fire in the
    order they were armed, so pending timers form a queue. */
module Testimonials {

  /** A testimonial card (the quoted text only feeds the view). */
  datatype Testimonial = Testimonial(id: nat, name: string, role: string, company: string, avatar: string)

  const All: seq<Testimonial> := [
    Testimonial(1, "Alex Chen", "CTO", "TechCorp", "AC"),
    Testimonial(2, "Sarah Miller", "Product Manager", "StartupXYZ", "SM"),
    Testimonial(3, "David Park", "CEO", "InnovateLab", "DP"),
    Testimonial(4, "Emily Johnson", "Lead Designer", "DesignHub", "EJ")
  ]

  const Count: nat := |All|

  /** A pending 300 ms timer: what it will do to the index when it fires. */
  datatype Timer =
    | AdvanceNext          // armed by the interval: `(prev + 1) % length`
    | ShowIndex(index: nat) // armed by a dot click: jump to `index`

  datatype State = State(activeIndex: nat, isAnimating: bool, pending: seq<Timer>)

  datatype Event =
    | IntervalElapsed          // the 5000 ms interval ticks
    | DotClicked(index: nat)   // `handleDotClick(index)`
    | TimerFired               // the oldest pending 300 ms timer fires

  function Init(): State {
    State(0, false, [])
  }

  /** A dot or side card exists for each testimonial, so clicks carry an index below `Count`. */
  predicate ValidEvent(e: Event) {
    e.DotClicked? ==> e.index < Count
  }

  /** No animation running and no timer pending. */
  predicate Quiet(s: State) {
    !s.isAnimating && s.pending == []
  }

  /** The effect of one 300 ms timer firing. */
  function Apply(s: State, t: Timer): (r: State)
    ensures !r.isAnimating && r.pending == s.pending
    ensures t.AdvanceNext? && s.activeIndex < Count ==> r.activeIndex == (s.activeIndex + 1) % Count
    ensures t.ShowIndex? ==> r.activeIndex == t.index
  {
    match t
    case AdvanceNext => s.(activeIndex := (s.activeIndex + 1) % Count, isAnimating := false)
    case ShowIndex(i) => s.(activeIndex := i, isAnimating := false)
  }

  function Step(s: State, e: Event): (r: State)
    requires ValidEvent(e)
    // the interval and a click on another dot start an animation and arm one timer,
    // without touching the index yet
    ensures e.IntervalElapsed? ==>
      r.isAnimating && r.activeIndex == s.activeIndex && r.pending == s.pending + [AdvanceNext]
    ensures e.DotClicked? && e.index != s.activeIndex ==>
      r.isAnimating && r.activeIndex == s.activeIndex && r.pending == s.pending + [ShowIndex(e.index)]
    // clicking the active dot changes nothing
    ensures e.DotClicked? && e.index == s.activeIndex ==> r == s
    // a timer fires only if one is pending; the oldest goes first
    ensures e.TimerFired? && s.pending == [] ==> r == s
    ensures e.TimerFired? && s.pending != [] ==>
      !r.isAnimating && r.pending == s.pending[1..]
    ensures e.TimerFired? && s.pending != [] && s.pending[0].AdvanceNext? && s.activeIndex < Count ==>
      r.activeIndex == (s.activeIndex + 1) % Count
    ensures e.TimerFired? && s.pending != [] && s.pending[0].ShowIndex? ==>
      r.activeIndex == s.pending[0].index
  {
    match e
    case IntervalElapsed => s.(isAnimating := true, pending := s.pending + [AdvanceNext])
    case DotClicked(i) =>
      if i != s.activeIndex then s.(isAnimating := true, pending := s.pending + [ShowIndex(i)])
      else s
    case TimerFired =>
      if s.pending == [] then s
      else Apply(s.(pending := s.pending[1..]), s.pending[0])
  }

  predicate ValidEvents(es: seq<Event>) {
    forall i :: 0 <= i < |es| ==> ValidEvent(es[i])
  }

  function Run(s: State, es: seq<Event>): State
    requires ValidEvents(es)
    decreases |es|
  {
    if es == [] then s else Run(Step(s, es[0]), es[1..])
  }

  /** The active index and every index a pending timer will jump to name a testimonial. */
  ghost predicate Inv(s: State) {
    && s.activeIndex < Count
    && forall i :: 0 <= i < |s.pending| && s.pending[i].ShowIndex? ==> s.pending[i].index < Count
  }

  lemma StepPreservesInv(s: State, e: Event)
    requires Inv(s) && ValidEvent(e)
    ensures Inv(Step(s, e))
  {
    if e.TimerFired? && s.pending != [] {
      assert s.pending[0].ShowIndex? ==> s.pending[0].index < Count;
    }
  }

  /** Starting from mount, `activeIndex` always lies in `0..Count-1`, so the
      displayed testimonial always exists. */
  lemma {:induction false} RunPreservesInv(s: State, es: seq<Event>)
    requires Inv(s) && ValidEvents(es)
    ensures Inv(Run(s, es))
    ensures Run(s, es).activeIndex < Count
    decreases |es|
  {
    if es != [] {
      StepPreservesInv(s, es[0]);
      RunPreservesInv(Step(s, es[0]), es[1..]);
    }
  }

  /** One uninterrupted auto-advance: the interval ticks and its timer fires. */
  function AutoAdvance(s: State): (r: State)
    requires Quiet(s) && s.activeIndex < Count
    ensures Quiet(r)
    ensures r.activeIndex == (s.activeIndex + 1) % Count
  {
    Step(Step(s, IntervalElapsed), TimerFired)
  }

  /** Four auto-advances bring the carousel back to where it started. */
  lemma FourAdvancesReturn(s: State)
    requires Quiet(s) && s.activeIndex < Count
    ensures AutoAdvance(AutoAdvance(AutoAdvance(AutoAdvance(s)))) == s
  {
  }

  /** Clicking another dot: the animation starts at once, and when its timer
      fires the clicked testimonial is active and the animation is over. */
  lemma DotClickJumps(s: State, i: nat)
    requires Quiet(s) && s.activeIndex < Count && i < Count && i != s.activeIndex
    ensures Step(s, DotClicked(i)).isAnimating
    ensures Step(s, DotClicked(i)).activeIndex == s.activeIndex
    ensures Step(Step(s, DotClicked(i)), TimerFired) == State(i, false, [])
  {
  }

  /** The card currently shown. */
  function Current(s: State): (t: Testimonial)
    requires Inv(s)
    ensures t in All
    ensures t.id == s.activeIndex + 1
  {
    All[s.activeIndex]
  }

  /** The position labels `testimonial_<n>.json` and `// <n>/<length>`. */
  function PositionLabel(s: State): (r: (nat, nat))
    requires Inv(s)
    ensures 1 <= r.0 <= r.1 == 4
    ensures r.0 - 1 == s.activeIndex
  {
    (s.activeIndex + 1, Count)
  }

  /** Which dots (equally, which side cards) are highlighted. */
  function ActiveMarkers(s: State): (r: seq<bool>)
    requires Inv(s)
    ensures |r| == Count
    ensures r[s.activeIndex]
    ensures forall i :: 0 <= i < |r| && r[i] ==> i == s.activeIndex
  {
    seq(Count, i => i == s.activeIndex)
  }
}
