/** The contact form's submit button. Submitting prevents the browser's own
    form submission, shows "Sending..." during a simulated 1500 ms wait, then
    "Sent!" for 3000 ms, then returns to "Send Message". The handler reads no
    field and sends nothing anywhere; the fields' `required` and `type="email"`
    constraints are checked by the browser before it dispatches a submit. The
    button is disabled while sending and
    while the success label shows; a disabled submit button keeps the browser
    from dispatching the form's submit event at all. */
module Contact {

  datatype State = State(
    isSubmitting: bool,
    isSuccess: bool,
    pendingWaits: nat,     // armed 1500 ms waits
    pendingResets: nat,    // armed 3000 ms timers
    toasts: nat            // "Message sent!" toasts shown
  )

  datatype Label = Sending | Sent | SendMessage

  /** The text each label renders. */
  function LabelText(l: Label): string {
    match l
    case Sending => "Sending..."
    case Sent => "Sent!"
    case SendMessage => "Send Message"
  }

  function Init(): State {
    State(false, false, 0, 0, 0)
  }

  /** `disabled={isSubmitting || isSuccess}`. */
  predicate Disabled(s: State) {
    s.isSubmitting || s.isSuccess
  }

  /** The button label: sending takes precedence over sent. */
  function ButtonLabel(s: State): (l: Label)
    ensures l == Sending <==> s.isSubmitting
    ensures l == Sent <==> !s.isSubmitting && s.isSuccess
    ensures l == SendMessage <==> !Disabled(s)
    ensures LabelText(l) == "Sending..." <==> s.isSubmitting
    ensures LabelText(l) == "Send Message" <==> !Disabled(s)
  {
    if s.isSubmitting then Sending
    else if s.isSuccess then Sent
    else SendMessage
  }

  /** The result of `handleSubmit` starting: whether the default was prevented, and the new state. */
  datatype Submission = Submission(defaultPrevented: bool, state: State)

  /** The synchronous part of `handleSubmit`: prevent the default, show the
      spinner and start the simulated wait. */
  function HandleSubmit(s: State): (r: Submission)
    ensures r.defaultPrevented
    ensures r.state.isSubmitting
    ensures r.state.pendingWaits == s.pendingWaits + 1
    ensures r.state.isSuccess == s.isSuccess && r.state.pendingResets == s.pendingResets
    ensures r.state.toasts == s.toasts
  {
    Submission(true, s.(isSubmitting := true, pendingWaits := s.pendingWaits + 1))
  }

  datatype Event =
    | Submitted    // the browser dispatches a submit that passed its field constraints
    | WaitOver     // a 1500 ms wait resolves
    | ResetFired   // a 3000 ms timer fires

  function Step(s: State, e: Event): (r: State)
    ensures e.Submitted? && Disabled(s) ==> r == s
    ensures e.Submitted? && !Disabled(s) ==> r == HandleSubmit(s).state
    ensures e.WaitOver? && s.pendingWaits > 0 ==>
      && !r.isSubmitting && r.isSuccess
      && r.toasts == s.toasts + 1
      && r.pendingWaits == s.pendingWaits - 1 && r.pendingResets == s.pendingResets + 1
    ensures e.ResetFired? && s.pendingResets > 0 ==>
      && !r.isSuccess && r.isSubmitting == s.isSubmitting && r.pendingResets == s.pendingResets - 1
      && r.toasts == s.toasts && r.pendingWaits == s.pendingWaits
    ensures e.WaitOver? && s.pendingWaits == 0 ==> r == s
    ensures e.ResetFired? && s.pendingResets == 0 ==> r == s
  {
    match e
    case Submitted => if Disabled(s) then s else HandleSubmit(s).state
    case WaitOver =>
      if s.pendingWaits == 0 then s
      else s.(isSubmitting := false, isSuccess := true, toasts := s.toasts + 1,
              pendingWaits := s.pendingWaits - 1, pendingResets := s.pendingResets + 1)
    case ResetFired =>
      if s.pendingResets == 0 then s
      else s.(isSuccess := false, pendingResets := s.pendingResets - 1)
  }

  function Run(s: State, es: seq<Event>): State
    decreases |es|
  {
    if es == [] then s else Run(Step(s, es[0]), es[1..])
  }

  /** The button is in exactly one of three situations: idle with nothing
      pending, sending with one wait pending, or showing success with one reset
      pending. */
  ghost predicate Inv(s: State) {
    || (!s.isSubmitting && !s.isSuccess && s.pendingWaits == 0 && s.pendingResets == 0)
    || (s.isSubmitting && !s.isSuccess && s.pendingWaits == 1 && s.pendingResets == 0)
    || (!s.isSubmitting && s.isSuccess && s.pendingWaits == 0 && s.pendingResets == 1)
  }

  /** Along any run from the idle state, at most one submission is under way:
      the flags are never both set, and a new submission starts only from idle. */
  lemma {:induction false} RunPreservesInv(s: State, es: seq<Event>)
    requires Inv(s)
    ensures Inv(Run(s, es))
    ensures !(Run(s, es).isSubmitting && Run(s, es).isSuccess)
    decreases |es|
  {
    if es != [] {
      RunPreservesInv(Step(s, es[0]), es[1..]);
    }
  }

  /** A submission from idle goes idle -> sending -> sent -> idle, showing one toast. */
  lemma SubmitCycle(s: State)
    requires !Disabled(s) && Inv(s)
    ensures ButtonLabel(Step(s, Submitted)) == Sending
    ensures ButtonLabel(Step(Step(s, Submitted), WaitOver)) == Sent
    ensures Run(s, [Submitted, WaitOver, ResetFired]) == s.(toasts := s.toasts + 1)
  {
    var a := Step(s, Submitted);
    var b := Step(a, WaitOver);
    assert Run(s, [Submitted, WaitOver, ResetFired]) == Run(a, [WaitOver, ResetFired]);
    assert Run(a, [WaitOver, ResetFired]) == Run(b, [ResetFired]);
  }

  /** Submitting again while sending or showing success changes nothing. */
  lemma NoResubmitWhileDisabled(s: State, es: seq<Event>)
    requires Disabled(s)
    ensures Run(s, [Submitted] + es) == Run(s, es)
  {
    assert ([Submitted] + es)[1..] == es;
  }
}
