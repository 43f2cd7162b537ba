/** The theme transition overlay. It remembers `transitioningToDark` (null
    until the first transition) and sets it to the opposite of the current
    theme whenever its effect runs during a transition. The effect depends on
    both `isTransitioning` and `isDark`; it runs again whenever either
    changes, and running it again with unchanged inputs stores the same value,
    so the overlay is modelled as re-running the effect after every change of
    the theme provider. Each provider change commits two renders: one with
    the new provider flags and the old direction, then, once the effect has
    stored the new direction, one with both. */
module ThemeOverlay {
  import opened Wrappers
  import Theme

  /** What the overlay renders. */
  datatype Effect = Nothing | Moon | Sun

  /** The effect body: during a transition, remember the theme opposite to the current one. */
  function Sync(toDark: Option<bool>, isTransitioning: bool, isDark: bool): (r: Option<bool>)
    ensures isTransitioning ==> r == Some(!isDark)
    ensures !isTransitioning ==> r == toDark
  {
    if isTransitioning then Some(!isDark) else toDark
  }

  /** The render decision: nothing unless transitioning with a known direction,
      otherwise the moon when heading to dark and the sun otherwise. */
  function Render(isTransitioning: bool, toDark: Option<bool>): (v: Effect)
    ensures v != Nothing <==> isTransitioning && toDark.Some?
    ensures v == Moon <==> isTransitioning && toDark == Some(true)
    ensures v == Sun <==> isTransitioning && toDark == Some(false)
  {
    if !isTransitioning || toDark.None? then Nothing
    else if toDark.value then Moon
    else Sun
  }

  /** The provider together with the overlay's remembered direction. */
  datatype State = State(theme: Theme.State, toDark: Option<bool>)

  /** The overlay after its mount effect, under a provider in state `t`. */
  function Init(t: Theme.State): (s: State)
    ensures s.theme == t
    ensures s.toDark == (if t.isTransitioning then Some(!t.isDark) else None)
  {
    State(t, Sync(None, t.isTransitioning, t.isDark))
  }

  /** A provider event, followed by the overlay's effect. */
  function Step(s: State, e: Theme.Event): (r: State)
    ensures r.theme == Theme.Step(s.theme, e)
    ensures r.theme.isTransitioning ==> r.toDark == Some(!r.theme.isDark)
    ensures !r.theme.isTransitioning ==> r.toDark == s.toDark
  {
    var t := Theme.Step(s.theme, e);
    State(t, Sync(s.toDark, t.isTransitioning, t.isDark))
  }

  function Shown(s: State): Effect {
    Render(s.theme.isTransitioning, s.toDark)
  }

  /** During a transition the remembered direction is always the opposite of the current theme. */
  ghost predicate Inv(s: State) {
    s.theme.isTransitioning ==> s.toDark == Some(!s.theme.isDark)
  }

  /** While a transition is on, exactly one of moon and sun shows, and which one
      is decided by the theme of that moment. */
  lemma {:induction false} RunShowsOppositeTheme(s: State, es: seq<Theme.Event>)
    requires Inv(s)
    ensures Inv(Run(s, es))
    ensures Run(s, es).theme.isTransitioning ==>
      (Shown(Run(s, es)) == Moon <==> !Run(s, es).theme.isDark) && Shown(Run(s, es)) != Nothing
    decreases |es|
  {
    if es != [] {
      RunShowsOppositeTheme(Step(s, es[0]), es[1..]);
    }
  }

  function Run(s: State, es: seq<Theme.Event>): State
    decreases |es|
  {
    if es == [] then s else Run(Step(s, es[0]), es[1..])
  }

  /** From rest in theme `d`: a toggle shows the effect of the theme it heads
      to; at 750 ms, when the theme flips while the flag is still up, the
      effect reverses to the theme it came from; at 1500 ms nothing is shown,
      but the remembered direction is kept rather than reset. */
  lemma DirectionReversesAtFlip(s: State)
    requires !s.theme.isTransitioning && s.theme.pendingFlips == 0 && s.theme.pendingEnds == 0
    ensures var a := Step(s, Theme.Toggle);
      Shown(a) == (if s.theme.isDark then Sun else Moon)
    ensures var b := Step(Step(s, Theme.Toggle), Theme.FlipFired);
      Shown(b) == (if s.theme.isDark then Moon else Sun)
    ensures var c := Step(Step(Step(s, Theme.Toggle), Theme.FlipFired), Theme.EndFired);
      Shown(c) == Nothing && c.toDark == Some(s.theme.isDark)
  {
    var d := s.theme.isDark;
    var a := Step(s, Theme.Toggle);
    assert a.theme.isTransitioning && a.theme.isDark == d && a.theme.pendingFlips == 1;
    assert a.toDark == Some(!d);
    var b := Step(a, Theme.FlipFired);
    assert b.theme.isTransitioning && b.theme.isDark == !d && b.theme.pendingEnds == 1;
    assert b.toDark == Some(d);
    var c := Step(b, Theme.EndFired);
    assert !c.theme.isTransitioning && c.toDark == Some(d);
  }

  /** The two renders a provider event commits: before the effect runs (new
      flags, old direction), and after it. */
  function Renders(s: State, e: Theme.Event): (r: seq<Effect>)
    ensures |r| == 2
    // before the effect: an effect shows only with a direction remembered from earlier
    ensures var t := Theme.Step(s.theme, e);
      r[0] != Nothing <==> t.isTransitioning && s.toDark.Some?
    ensures var t := Theme.Step(s.theme, e);
      r[0] == Moon <==> t.isTransitioning && s.toDark == Some(true)
    // after the effect: an effect shows exactly during a transition, opposite to the theme of that moment
    ensures r[1] != Nothing <==> Theme.Step(s.theme, e).isTransitioning
    ensures var t := Theme.Step(s.theme, e);
      t.isTransitioning ==> (r[1] == Moon <==> !t.isDark)
  {
    [Render(Theme.Step(s.theme, e).isTransitioning, s.toDark), Shown(Step(s, e))]
  }

  /** The first toggle ever: the render before the effect finds no direction
      yet and shows nothing; the effect then brings up the target theme's effect. */
  lemma FirstToggleRendersNothingFirst(s: State)
    requires !s.theme.isTransitioning && s.toDark.None?
    ensures Renders(s, Theme.Toggle)[0] == Nothing
    ensures Renders(s, Theme.Toggle)[1] == (if s.theme.isDark then Sun else Moon)
  {
  }

  /** At the 750 ms flip from dark to light, the render before the effect
      still shows the sun although the theme is already light; the effect then
      switches to the moon. */
  lemma FlipFromDarkShowsSunFirst(s: State)
    requires Inv(s) && s.theme.isTransitioning && s.theme.isDark && s.theme.pendingFlips > 0
    ensures !Step(s, Theme.FlipFired).theme.isDark
    ensures Renders(s, Theme.FlipFired)[0] == Sun
    ensures Renders(s, Theme.FlipFired)[1] == Moon
  {
  }
}
