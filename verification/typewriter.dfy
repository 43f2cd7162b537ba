/** The hero section's typewriter: it types a role one character at a time,
    pauses, deletes it one character at a time and moves on to the next role.

    The effect of the component re-arms one step timer every time the visible
    state changes (50 ms while deleting, 100 ms while typing). When a role is
    fully typed the step leaves the visible state alone and arms a separate
    2000 ms pause instead, after which deletion starts. Exactly one timer is
    therefore pending at any moment, and a run of the component is the
    sequence of those timers firing. */
module Typewriter {

  const Roles: seq<string> := [
    "Full-Stack Developer",
    "UI/UX Designer",
    "Problem Solver",
    "Creative Coder"
  ]

  const TypingDelay: nat := 100
  const DeletingDelay: nat := 50
  const PauseDelay: nat := 2000

  /** The one timer the component has pending. */
  datatype Pending =
    | StepTimer(delay: nat)   // the effect's own timeout
    | PauseTimer(delay: nat)  // the pause before deletion starts

  datatype State = State(
    currentRole: nat,
    displayedText: string,
    isDeleting: bool,
    pending: Pending
  )

  /** The delay the effect arms its step timer with. */
  function StepDelay(isDeleting: bool): (d: nat)
    ensures d == DeletingDelay <==> isDeleting
    ensures d == TypingDelay <==> !isDeleting
  {
    if isDeleting then DeletingDelay else TypingDelay
  }

  /** The state right after mount: first role, nothing typed, typing. */
  function Init(): State {
    State(0, "", false, StepTimer(TypingDelay))
  }

  /** The state at the start of role `r`, before its first character is typed. */
  function StartOf(r: nat): State {
    State(r, "", false, StepTimer(TypingDelay))
  }

  /** The step timer fires. */
  function Step(s: State): (t: State)
    requires s.currentRole < |Roles|
    ensures t.currentRole < |Roles|
    // typing and not yet complete: one more character of the role
    ensures !s.isDeleting && |s.displayedText| < |Roles[s.currentRole]| ==>
      && t.displayedText == Roles[s.currentRole][..|s.displayedText| + 1]
      && |t.displayedText| == |s.displayedText| + 1
      && t.currentRole == s.currentRole && !t.isDeleting
    // fully typed: nothing visible changes; only the pause is pending
    ensures !s.isDeleting && |s.displayedText| >= |Roles[s.currentRole]| ==>
      && t.displayedText == s.displayedText
      && t.currentRole == s.currentRole && !t.isDeleting
      && t.pending == PauseTimer(PauseDelay)
    // deleting and something left: the last character goes
    ensures s.isDeleting && |s.displayedText| > 0 ==>
      && s.displayedText == t.displayedText + [s.displayedText[|s.displayedText| - 1]]
      && t.currentRole == s.currentRole && t.isDeleting
    // deleting and nothing left: typing of the next role begins
    ensures s.isDeleting && s.displayedText == "" ==>
      && t.displayedText == ""
      && !t.isDeleting
      && t.currentRole == (s.currentRole + 1) % |Roles|
    // the pause is armed exactly when a fully typed role is found; every other
    // step changes the visible state, and the effect re-arms its step timer
    ensures t.pending.PauseTimer? <==> !s.isDeleting && |s.displayedText| >= |Roles[s.currentRole]|
    ensures t.pending.StepTimer? ==> t.pending.delay == StepDelay(t.isDeleting)
  {
    var role := Roles[s.currentRole];
    var text := s.displayedText;
    if !s.isDeleting then
      if |text| < |role| then
        State(s.currentRole, role[..|text| + 1], false, StepTimer(TypingDelay))
      else
        s.(pending := PauseTimer(PauseDelay))
    else
      if |text| > 0 then
        State(s.currentRole, text[..|text| - 1], true, StepTimer(DeletingDelay))
      else
        State((s.currentRole + 1) % |Roles|, text, false, StepTimer(TypingDelay))
  }

  /** The pause timer fires: deletion starts and the effect arms a deleting step. */
  function EndPause(s: State): (t: State)
    ensures t.isDeleting
    ensures t.displayedText == s.displayedText && t.currentRole == s.currentRole
    ensures t.pending == StepTimer(StepDelay(true))
  {
    State(s.currentRole, s.displayedText, true, StepTimer(DeletingDelay))
  }

  /** Whichever timer is pending fires. */
  function Fire(s: State): State
    requires s.currentRole < |Roles|
  {
    match s.pending
    case StepTimer(_) => Step(s)
    case PauseTimer(_) => EndPause(s)
  }

  /** `n` timers fire in a row. */
  function Run(s: State, n: nat): State
    requires s.currentRole < |Roles|
    ensures Run(s, n).currentRole < |Roles|
    decreases n
  {
    if n == 0 then s else Run(Fire(s), n - 1)
  }

  ghost predicate IsPrefix(a: string, b: string) {
    |a| <= |b| && b[..|a|] == a
  }

  /** What every reachable state satisfies. */
  ghost predicate Inv(s: State) {
    && s.currentRole < |Roles|
    && IsPrefix(s.displayedText, Roles[s.currentRole])
    && (s.pending.StepTimer? ==> s.pending.delay == StepDelay(s.isDeleting))
    && (s.pending.PauseTimer? ==>
          && s.pending.delay == PauseDelay
          && !s.isDeleting
          && s.displayedText == Roles[s.currentRole])
  }

  /** Every timer firing keeps the displayed text a prefix of the current role. */
  lemma FirePreservesInv(s: State)
    requires Inv(s)
    ensures Inv(Fire(s))
  {
    var role := Roles[s.currentRole];
    var text := s.displayedText;
    if s.pending.StepTimer? && s.isDeleting && |text| > 0 {
      assert role[..|text| - 1] == text[..|text| - 1];
    }
  }

  /** Invariant for every run from mount: the text is always a prefix of the
      current role, its length never exceeds the role's, the role index stays in
      range, and the pending delay is 50 ms while deleting and 100 ms while typing. */
  lemma {:induction false} RunPreservesInv(s: State, n: nat)
    requires Inv(s)
    ensures Inv(Run(s, n))
    ensures |Run(s, n).displayedText| <= |Roles[Run(s, n).currentRole]|
    decreases n
  {
    if n > 0 {
      FirePreservesInv(s);
      RunPreservesInv(Fire(s), n - 1);
    }
  }

  lemma InitInv()
    ensures Inv(Init())
  {
  }

  /** Typing from `k` characters finishes the role after `|role| - k` steps. */
  lemma {:induction false} TypingCompletes(r: nat, k: nat)
    requires r < |Roles| && k <= |Roles[r]|
    ensures Run(State(r, Roles[r][..k], false, StepTimer(TypingDelay)), |Roles[r]| - k)
         == State(r, Roles[r], false, StepTimer(TypingDelay))
    decreases |Roles[r]| - k
  {
    var role := Roles[r];
    if k < |role| {
      var s := State(r, role[..k], false, StepTimer(TypingDelay));
      assert Fire(s) == State(r, role[..k + 1], false, StepTimer(TypingDelay));
      TypingCompletes(r, k + 1);
    } else {
      assert role[..k] == role;
    }
  }

  /** Deleting from `k` characters empties the text after `k` steps. */
  lemma {:induction false} DeletingCompletes(r: nat, k: nat)
    requires r < |Roles| && k <= |Roles[r]|
    ensures Run(State(r, Roles[r][..k], true, StepTimer(DeletingDelay)), k)
         == State(r, "", true, StepTimer(DeletingDelay))
    decreases k
  {
    var role := Roles[r];
    if k > 0 {
      var s := State(r, role[..k], true, StepTimer(DeletingDelay));
      assert role[..k][..k - 1] == role[..k - 1];
      assert Fire(s) == State(r, role[..k - 1], true, StepTimer(DeletingDelay));
      DeletingCompletes(r, k - 1);
    }
  }

  lemma {:induction false} RunAdditive(s: State, m: nat, n: nat)
    requires s.currentRole < |Roles|
    ensures Run(s, m + n) == Run(Run(s, m), n)
    decreases m
  {
    if m > 0 {
      RunAdditive(Fire(s), m - 1, n);
    }
  }

  /** One full cycle: typing `|role|` characters, the step that arms the pause,
      the pause, `|role|` deletions and the step that finds the text empty bring
      the component to the start of the next role, modulo the number of roles. */
  lemma FullCycle(r: nat)
    requires r < |Roles|
    ensures Run(StartOf(r), 2 * |Roles[r]| + 3) == StartOf((r + 1) % |Roles|)
  {
    var role := Roles[r];
    var n := |role|;
    assert role[..0] == "";
    TypingCompletes(r, 0);
    var typed := State(r, role, false, StepTimer(TypingDelay));
    assert Run(StartOf(r), n) == typed;
    var paused := State(r, role, false, PauseTimer(PauseDelay));
    assert Fire(typed) == paused;
    var deleting := State(r, role, true, StepTimer(DeletingDelay));
    assert Fire(paused) == deleting;
    assert Run(typed, 2) == deleting;
    assert role[..n] == role;
    DeletingCompletes(r, n);
    var empty := State(r, "", true, StepTimer(DeletingDelay));
    assert Run(deleting, n) == empty;
    assert Run(empty, 1) == StartOf((r + 1) % |Roles|);
    RunAdditive(StartOf(r), n, 2);
    RunAdditive(StartOf(r), n + 2, n);
    RunAdditive(StartOf(r), n + 2 + n, 1);
  }
}
