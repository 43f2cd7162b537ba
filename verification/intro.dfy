/** The intro splash screen. On mount it arms four timers at once: the glitch
    phase at 2000 ms, the blade phase at 3500 ms (which also tries to play a
    sound), the fade phase at 5000 ms and the completion callback at 5500 ms.
    Their delays are distinct, so they fire in that order; the state records
    how many have fired. Unmounting clears every timer still pending. The
    effect depends on the `onComplete` callback: when the parent passes a new
    one, the cleanup clears the pending timers and all four are armed again
    from zero, while the phase keeps its value. */
module Intro {

  datatype Phase = Text | Glitch | Blades | Fade

  /** The order phases come in. */
  function Rank(p: Phase): nat {
    match p
    case Text => 0
    case Glitch => 1
    case Blades => 2
    case Fade => 3
  }

  /** What the audio element does when the blade timer fires: it may be missing,
      or its `play()` may start or be refused by the browser. */
  datatype Audio = NoElement | Started | Refused

  datatype Action = ToGlitch | ToBlades | ToFade | Complete
  datatype Timer = Timer(due: nat, action: Action)

  const Schedule: seq<Timer> := [
    Timer(2000, ToGlitch),
    Timer(3500, ToBlades),
    Timer(5000, ToFade),
    Timer(5500, Complete)
  ]

  datatype State = State(
    phase: Phase,
    fired: nat,          // how many of the four timers have fired
    mounted: bool,
    completions: nat,    // how many times `onComplete` was called
    playAttempts: nat    // how many times `play()` was called
  )

  datatype Event =
    | TimerFired(audio: Audio)  // the next pending timer fires
    | Unmount                   // the cleanup clears every pending timer
    | CallbackChanged           // a new `onComplete`: cleanup, then all four timers re-armed

  /** The state on mount: the text phase, with all four timers pending. */
  function Init(): (s: State)
    ensures s.phase == Text && s.mounted && s.completions == 0
    ensures s.fired == 0 && s.playAttempts == 0 && HasPending(s)
  {
    State(Text, 0, true, 0, 0)
  }

  /** Whether a timer is still pending. */
  predicate HasPending(s: State) {
    s.mounted && s.fired < |Schedule|
  }

  /** One timer's effect. A refused playback is swallowed by the source's
      `catch`, so the audio outcome decides nothing but the play count. */
  function Perform(s: State, a: Action, audio: Audio): State {
    match a
    case ToGlitch => s.(phase := Glitch)
    case ToBlades => s.(phase := Blades, playAttempts := s.playAttempts + (if audio == NoElement then 0 else 1))
    case ToFade => s.(phase := Fade)
    case Complete => s.(completions := s.completions + 1)
  }

  function Step(s: State, e: Event): (r: State)
    // the cleanup clears the timers and changes nothing else
    ensures e.Unmount? ==> r == s.(mounted := false)
    ensures e.TimerFired? && !HasPending(s) ==> r == s
    ensures e.TimerFired? && HasPending(s) ==> r.fired == s.fired + 1 && r.mounted
    ensures e.TimerFired? && HasPending(s) ==> r.phase == (match Schedule[s.fired].action
      case ToGlitch => Glitch
      case ToBlades => Blades
      case ToFade => Fade
      case Complete => s.phase)
    ensures e.TimerFired? && HasPending(s) ==>
      r.completions == s.completions + (if Schedule[s.fired].action == Complete then 1 else 0)
    // `play()` is called only by the blade timer, and only when the audio element exists
    ensures e.TimerFired? && HasPending(s) ==>
      r.playAttempts == s.playAttempts + (if Schedule[s.fired].action == ToBlades && e.audio != NoElement then 1 else 0)
    ensures e.CallbackChanged? && s.mounted ==> r == s.(fired := 0)
    ensures e.CallbackChanged? && !s.mounted ==> r == s
  {
    match e
    case Unmount => s.(mounted := false)
    case CallbackChanged => if s.mounted then s.(fired := 0) else s
    case TimerFired(audio) =>
      if !HasPending(s) then s
      else Perform(s, Schedule[s.fired].action, audio).(fired := s.fired + 1)
  }

  function Run(s: State, es: seq<Event>): State
    decreases |es|
  {
    if es == [] then s else Run(Step(s, es[0]), es[1..])
  }

  /** The phase once `n` timers have fired. */
  function PhaseAfter(n: nat): Phase {
    if n == 0 then Text
    else if n == 1 then Glitch
    else if n == 2 then Blades
    else Fade
  }

  /** The phase follows the timers fired, `onComplete` has run once exactly
      when all four have fired, and `play()` was tried at most once. */
  ghost predicate Inv(s: State) {
    && s.fired <= |Schedule|
    && s.phase == PhaseAfter(s.fired)
    && s.completions == (if s.fired == |Schedule| then 1 else 0)
    && s.playAttempts <= (if s.fired >= 2 then 1 else 0)
  }

  /** The parent keeps passing the same `onComplete`. */
  predicate SameCallback(es: seq<Event>) {
    forall i :: 0 <= i < |es| ==> !es[i].CallbackChanged?
  }

  lemma StepPreservesInv(s: State, e: Event)
    requires Inv(s) && !e.CallbackChanged?
    ensures Inv(Step(s, e))
    // the completion callback runs only once the fade phase has begun
    ensures Step(s, e).completions > s.completions ==> s.phase == Fade
    // playback is attempted only on entering the blade phase
    ensures Step(s, e).playAttempts > s.playAttempts ==> s.phase == Glitch && Step(s, e).phase == Blades
  {
  }

  /** Along any run from mount in which the callback keeps its identity:
      phases only move forward, `onComplete` is never called more than once,
      and only after the fade phase began. */
  lemma {:induction false} RunPreservesInv(s: State, es: seq<Event>)
    requires Inv(s) && SameCallback(es)
    ensures Inv(Run(s, es))
    ensures Rank(s.phase) <= Rank(Run(s, es).phase)
    ensures Run(s, es).completions <= 1
    ensures Run(s, es).completions == 1 ==> Run(s, es).phase == Fade
    decreases |es|
  {
    if es != [] {
      StepPreservesInv(s, es[0]);
      RunPreservesInv(Step(s, es[0]), es[1..]);
    }
  }

  /** After unmount nothing changes the phase or calls `onComplete` again. */
  lemma {:induction false} NothingAfterUnmount(s: State, es: seq<Event>)
    requires !s.mounted
    ensures Run(s, es).phase == s.phase
    ensures Run(s, es).completions == s.completions
    decreases |es|
  {
    if es != [] {
      NothingAfterUnmount(Step(s, es[0]), es[1..]);
    }
  }

  /** The audio outcome never affects the phase, the timers or the callback. */
  lemma AudioDoesNotMatter(s: State, a1: Audio, a2: Audio)
    ensures Step(s, TimerFired(a1)).phase == Step(s, TimerFired(a2)).phase
    ensures Step(s, TimerFired(a1)).fired == Step(s, TimerFired(a2)).fired
    ensures Step(s, TimerFired(a1)).completions == Step(s, TimerFired(a2)).completions
  {
  }

  /** The phase the timeline prescribes `t` ms after mount. */
  function PhaseAt(t: nat): Phase {
    if t < 2000 then Text
    else if t < 3500 then Glitch
    else if t < 5000 then Blades
    else Fade
  }

  /** How many timers are due `t` ms after mount. */
  function DueCount(t: nat): (n: nat)
    ensures n <= |Schedule|
    ensures forall k :: 0 <= k < |Schedule| ==> (k < n <==> Schedule[k].due <= t)
  {
    if t < 2000 then 0
    else if t < 3500 then 1
    else if t < 5000 then 2
    else if t < 5500 then 3
    else 4
  }

  /** `n` timers firing with the same audio outcome. */
  function Fires(n: nat, audio: Audio): (es: seq<Event>)
    ensures |es| == n
  {
    seq(n, _ => TimerFired(audio))
  }

  /** The state `t` ms after mount, still mounted. */
  function AtTime(t: nat, audio: Audio): State {
    Run(Init(), Fires(DueCount(t), audio))
  }

  lemma {:induction false} RunFires(s: State, n: nat, audio: Audio)
    requires Inv(s) && s.mounted && s.fired + n <= |Schedule|
    ensures Run(s, Fires(n, audio)).fired == s.fired + n
    ensures Run(s, Fires(n, audio)).mounted
    ensures Inv(Run(s, Fires(n, audio)))
    decreases n
  {
    if n > 0 {
      var es := Fires(n, audio);
      assert es[1..] == Fires(n - 1, audio);
      RunFires(Step(s, es[0]), n - 1, audio);
    }
  }

  /** The timeline: `text` until 2000 ms, `glitch` from 2000, `blades` from
      3500, `fade` from 5000, and `onComplete` called once from 5500 on. */
  lemma Timeline(t: nat, audio: Audio)
    ensures AtTime(t, audio).phase == PhaseAt(t)
    ensures AtTime(t, audio).completions == (if t >= 5500 then 1 else 0)
  {
    RunFires(Init(), DueCount(t), audio);
  }

  /** The container fades out (opacity 0) only in the fade phase. */
  predicate Transparent(p: Phase) { p == Fade }

  /** The blade overlay shows in the blade and fade phases. */
  predicate BladesShown(p: Phase) { p == Blades || p == Fade }

  /** The heading carries the glitch-out class in every phase but the first. */
  predicate GlitchOut(p: Phase) { p == Glitch || p == Blades || p == Fade }

  /** The two glitch layers show only in the glitch phase. */
  predicate GlitchLayers(p: Phase) { p == Glitch }

  /** The view over time: glitching from 2000 ms, glitch layers only until
      3500 ms, blades from 3500 ms, transparent from 5000 ms. */
  lemma ViewOverTime(t: nat, audio: Audio)
    ensures GlitchOut(AtTime(t, audio).phase) <==> t >= 2000
    ensures GlitchLayers(AtTime(t, audio).phase) <==> 2000 <= t < 3500
    ensures BladesShown(AtTime(t, audio).phase) <==> t >= 3500
    ensures Transparent(AtTime(t, audio).phase) <==> t >= 5000
  {
    Timeline(t, audio);
  }

  /** A new callback re-arms the timers without resetting the phase. Passed at
      4000 ms, during the blade phase, it sends the phase back to glitch when
      the re-armed 2000 ms timer fires, and the blade timer then tries `play()`
      again. Passed after completion at 6000 ms, it calls `onComplete` a second
      time once the re-armed timers have all fired. */
  lemma NewCallbackRestartsTimers(audio: Audio)
    ensures AtTime(4000, audio).phase == Blades
    ensures var g := Step(Step(AtTime(4000, audio), CallbackChanged), TimerFired(audio));
      && g.phase == Glitch
      && Step(g, TimerFired(Started)).playAttempts == g.playAttempts + 1
    ensures AtTime(6000, audio).completions == 1
    ensures var c := Step(AtTime(6000, audio), CallbackChanged);
      Step(Step(Step(Step(c, TimerFired(audio)), TimerFired(audio)), TimerFired(audio)), TimerFired(audio))
        .completions == 2
  {
    Timeline(4000, audio);
    RunFires(Init(), DueCount(4000), audio);
    Timeline(6000, audio);
    RunFires(Init(), DueCount(6000), audio);
    var c := Step(AtTime(6000, audio), CallbackChanged);
    assert c.fired == 0 && c.mounted && c.completions == 1;
    var c1 := Step(c, TimerFired(audio));
    assert c1.fired == 1 && c1.completions == 1;
    var c2 := Step(c1, TimerFired(audio));
    assert c2.fired == 2 && c2.completions == 1;
    var c3 := Step(c2, TimerFired(audio));
    assert c3.fired == 3 && c3.completions == 1;
  }
}
