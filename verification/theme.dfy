/** The theme provider: a dark/light flag initialised from the persisted choice
    or the system preference, and a toggle that raises a transition flag at
    once, flips the theme 750 ms later and lowers the flag 1500 ms later.

    The toggle's two timers are never cancelled. All flip timers share one
    delay and all end timers share another, so each kind fires in the order it
    was armed; a toggle's end can only fire after its own flip. A state
    therefore records how many timers of each kind are pending, and an end
    timer is due only while more ends than flips are pending. These counts
    admit every order the delays allow, and some that exact timing would
    rule out. */
module Theme {
  import opened Wrappers

  /** The value persisted for a theme. */
  function ThemeName(isDark: bool): string {
    if isDark then "dark" else "light"
  }

  datatype State = State(
    isDark: bool,
    isTransitioning: bool,
    stored: Option<string>,   // the value under the "theme" storage key
    rootClassDark: bool,      // whether the document root carries the "dark" class
    pendingFlips: nat,        // armed 750 ms timers
    pendingEnds: nat          // armed 1500 ms timers
  )

  datatype Event =
    | Toggle      // `toggleTheme()`
    | FlipFired   // a 750 ms timer fires
    | EndFired    // a 1500 ms timer fires

  /** The provider's state on first render, before its mount effect: dark and
      not transitioning, whatever is stored. */
  function Default(stored: Option<string>, rootClassDark: bool): (s: State)
    ensures s.isDark && !s.isTransitioning
    ensures s.pendingFlips == 0 && s.pendingEnds == 0
  {
    State(true, false, stored, rootClassDark, 0, 0)
  }

  /** The initial theme: a non-empty saved value decides (dark iff it is
      "dark"); a missing or empty one defers to the system preference. */
  function InitialDark(saved: Option<string>, prefersDark: bool): (d: bool)
    ensures saved.Some? && saved.value != "" ==> (d <==> saved.value == "dark")
    ensures saved.None? || saved.value == "" ==> d == prefersDark
  {
    match saved
    case Some(v) => if v != "" then v == "dark" else prefersDark
    case None => prefersDark
  }

  /** The mount effect: resolve the initial theme and mirror it on the document root. */
  function Mount(s: State, prefersDark: bool): (r: State)
    ensures r.isDark == InitialDark(s.stored, prefersDark)
    ensures r.rootClassDark == r.isDark
    ensures r.stored == s.stored && r.isTransitioning == s.isTransitioning
    ensures r.pendingFlips == s.pendingFlips && r.pendingEnds == s.pendingEnds
  {
    var d := InitialDark(s.stored, prefersDark);
    s.(isDark := d, rootClassDark := d)
  }

  /** Whether a timer of the event's kind is due. */
  predicate Due(s: State, e: Event) {
    match e
    case Toggle => true
    case FlipFired => s.pendingFlips > 0
    case EndFired => s.pendingEnds > s.pendingFlips
  }

  function Step(s: State, e: Event): (r: State)
    // toggling raises the flag at once, arms both timers, and leaves the theme alone
    ensures e.Toggle? ==>
      && r.isTransitioning && r.isDark == s.isDark && r.stored == s.stored
      && r.rootClassDark == s.rootClassDark
      && r.pendingFlips == s.pendingFlips + 1 && r.pendingEnds == s.pendingEnds + 1
    // a flip negates the then-current theme and persists and mirrors the new one
    ensures e.FlipFired? && Due(s, e) ==>
      && r.isDark == !s.isDark
      && r.stored == Some(ThemeName(r.isDark))
      && r.rootClassDark == r.isDark
      && r.isTransitioning == s.isTransitioning
      && r.pendingFlips == s.pendingFlips - 1 && r.pendingEnds == s.pendingEnds
    // an end lowers the flag, even if another toggle is still under way
    ensures e.EndFired? && Due(s, e) ==>
      && !r.isTransitioning
      && r.isDark == s.isDark && r.stored == s.stored && r.rootClassDark == s.rootClassDark
      && r.pendingEnds == s.pendingEnds - 1 && r.pendingFlips == s.pendingFlips
    // no timer of that kind is due: nothing fires
    ensures !Due(s, e) ==> r == s
  {
    match e
    case Toggle =>
      s.(isTransitioning := true, pendingFlips := s.pendingFlips + 1, pendingEnds := s.pendingEnds + 1)
    case FlipFired =>
      if s.pendingFlips == 0 then s
      else
        var d := !s.isDark;
        s.(isDark := d, stored := Some(ThemeName(d)), rootClassDark := d, pendingFlips := s.pendingFlips - 1)
    case EndFired =>
      if s.pendingEnds <= s.pendingFlips then s
      else s.(isTransitioning := false, pendingEnds := s.pendingEnds - 1)
  }

  function Run(s: State, es: seq<Event>): State
    decreases |es|
  {
    if es == [] then s else Run(Step(s, es[0]), es[1..])
  }

  /** How many flips actually fire along `es`. */
  function FlipsApplied(s: State, es: seq<Event>): nat
    decreases |es|
  {
    if es == [] then 0
    else (if es[0].FlipFired? && Due(s, es[0]) then 1 else 0) + FlipsApplied(Step(s, es[0]), es[1..])
  }

  /** How many toggles `es` contains. */
  function Toggles(es: seq<Event>): nat
    decreases |es|
  {
    if es == [] then 0 else (if es[0].Toggle? then 1 else 0) + Toggles(es[1..])
  }

  predicate Odd(n: nat) {
    n % 2 == 1
  }

  /** Every flip negates the value it finds, so after `n` flips the theme is
      the starting theme exactly when `n` is even, however the toggles overlap. */
  lemma {:induction false} ThemeParity(s: State, es: seq<Event>)
    ensures Run(s, es).isDark == (s.isDark != Odd(FlipsApplied(s, es)))
    decreases |es|
  {
    if es != [] {
      ThemeParity(Step(s, es[0]), es[1..]);
    }
  }

  /** Every toggle arms exactly one flip, and every applied flip consumes one. */
  lemma {:induction false} FlipBookkeeping(s: State, es: seq<Event>)
    ensures Run(s, es).pendingFlips + FlipsApplied(s, es) == s.pendingFlips + Toggles(es)
    decreases |es|
  {
    if es != [] {
      FlipBookkeeping(Step(s, es[0]), es[1..]);
    }
  }

  /** Once every armed flip has fired, the theme reflects the parity of the
      number of toggles, not how they were interleaved. */
  lemma ParityOfToggles(s: State, es: seq<Event>)
    requires s.pendingFlips == 0 && Run(s, es).pendingFlips == 0
    ensures Run(s, es).isDark == (s.isDark != Odd(Toggles(es)))
  {
    ThemeParity(s, es);
    FlipBookkeeping(s, es);
  }

  /** The persisted value and the root class agree with the theme. */
  predicate Persisted(s: State) {
    s.stored == Some(ThemeName(s.isDark)) && s.rootClassDark == s.isDark
  }

  /** No step breaks the agreement between theme, storage and root class once it holds. */
  lemma {:induction false} RunKeepsPersisted(s: State, es: seq<Event>)
    requires Persisted(s)
    ensures Persisted(Run(s, es))
    decreases |es|
  {
    if es != [] {
      RunKeepsPersisted(Step(s, es[0]), es[1..]);
    }
  }

  /** Each toggle's end fires after its own flip: pending flips never outnumber pending ends. */
  ghost predicate Inv(s: State) {
    s.pendingFlips <= s.pendingEnds
  }

  lemma {:induction false} RunPreservesInv(s: State, es: seq<Event>)
    requires Inv(s)
    ensures Inv(Run(s, es))
    decreases |es|
  {
    if es != [] {
      RunPreservesInv(Step(s, es[0]), es[1..]);
    }
  }

  /** Toggling from rest: the flag goes up, the theme flips at 750 ms, the flag
      comes down at 1500 ms, and the new theme is persisted. */
  lemma SingleToggle(s: State)
    requires !s.isTransitioning && s.pendingFlips == 0 && s.pendingEnds == 0
    ensures var r := Step(Step(Step(s, Toggle), FlipFired), EndFired);
      && r.isDark == !s.isDark && !r.isTransitioning
      && r.pendingFlips == 0 && r.pendingEnds == 0
      && r.stored == Some(ThemeName(!s.isDark))
  {
    var a := Step(s, Toggle);
    assert a.isTransitioning && a.isDark == s.isDark && a.pendingFlips == 1 && a.pendingEnds == 1;
    var b := Step(a, FlipFired);
    assert b.isDark == !s.isDark && b.stored == Some(ThemeName(!s.isDark));
    assert b.pendingFlips == 0 && b.pendingEnds == 1;
  }

  /** Two toggles 750 to 1500 ms apart: the first toggle's end lowers the flag
      while the second flip is still pending, and after both complete the
      theme is back where it started. */
  lemma OverlappingToggles(s: State)
    requires !s.isTransitioning && s.pendingFlips == 0 && s.pendingEnds == 0
    ensures var mid := Step(Step(Step(Step(s, Toggle), FlipFired), Toggle), EndFired);
      !mid.isTransitioning && mid.pendingFlips == 1
    ensures var r := Step(Step(Step(Step(Step(Step(s, Toggle), FlipFired), Toggle), EndFired), FlipFired), EndFired);
      r.isDark == s.isDark && !r.isTransitioning
  {
    var a := Step(s, Toggle);
    assert a == s.(isTransitioning := true, pendingFlips := 1, pendingEnds := 1);
    var b := Step(a, FlipFired);
    assert b.pendingFlips == 0 && b.pendingEnds == 1 && b.isDark == !s.isDark && b.isTransitioning;
    var c := Step(b, Toggle);
    assert c == b.(pendingFlips := 1, pendingEnds := 2);
    var d := Step(c, EndFired);
    assert d == c.(isTransitioning := false, pendingEnds := 1);
    var e := Step(d, FlipFired);
    assert e.pendingFlips == 0 && e.pendingEnds == 1 && e.isDark == s.isDark && !e.isTransitioning;
    var f := Step(e, EndFired);
    assert f.isDark == s.isDark && !f.isTransitioning;
  }

  /** Two toggles less than 750 ms apart: both flips fire before the first
      end, the first end lowers the flag while one end is still pending, and
      the theme ends where it started. */
  lemma QuickToggles(s: State)
    requires !s.isTransitioning && s.pendingFlips == 0 && s.pendingEnds == 0
    ensures var b := Step(Step(Step(Step(s, Toggle), Toggle), FlipFired), FlipFired);
      b.isDark == s.isDark && b.isTransitioning && b.pendingEnds == 2
    ensures var c := Step(Step(Step(Step(Step(s, Toggle), Toggle), FlipFired), FlipFired), EndFired);
      !c.isTransitioning && c.pendingEnds == 1
    ensures var r := Step(Step(Step(Step(Step(Step(s, Toggle), Toggle), FlipFired), FlipFired), EndFired), EndFired);
      r.isDark == s.isDark && !r.isTransitioning && r.pendingFlips == 0 && r.pendingEnds == 0
  {
    var a := Step(Step(s, Toggle), Toggle);
    assert a.pendingFlips == 2 && a.pendingEnds == 2 && a.isDark == s.isDark && a.isTransitioning;
    var b := Step(Step(a, FlipFired), FlipFired);
    assert b.pendingFlips == 0 && b.pendingEnds == 2 && b.isDark == s.isDark;
  }

  /** A reload after a flip restores the theme: the persisted name resolves
      back to the same flag, whatever the system preference. */
  lemma ReloadRestoresTheme(d: bool, prefersDark: bool)
    ensures InitialDark(Some(ThemeName(d)), prefersDark) == d
  {
  }

  /** A provider mounted over the storage of a provider whose theme has been
      persisted starts in that same theme. */
  lemma {:induction false} RemountKeepsTheme(s: State, rootClassDark: bool, prefersDark: bool)
    requires Persisted(s)
    ensures Mount(Default(s.stored, rootClassDark), prefersDark).isDark == s.isDark
  {
    ReloadRestoresTheme(s.isDark, prefersDark);
  }

  /** What the provider hands to its consumers. */
  datatype ContextValue = ContextValue(isDark: bool, isTransitioning: bool)

  const OutsideProviderMessage: string := "useTheme must be used within a ThemeProvider"

  /** `useTheme`: outside a provider it throws rather than returning a default. */
  function UseTheme(context: Option<ContextValue>): (r: Result<ContextValue, string>)
    ensures r.Failure? <==> context.None?
    ensures r.Failure? ==> r.error == OutsideProviderMessage
    ensures r.Success? ==> r.value == context.value
  {
    match context
    case None => Failure(OutsideProviderMessage)
    case Some(c) => Success(c)
  }
}
