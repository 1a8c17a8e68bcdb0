/** The rules of the intake form's four-step wizard, as functions: where
    the Next and Back buttons lead, and what the submit handler decides. */
module Steps {
  import opened Text
  import opened Forms

  /** The number of fieldsets, `steps.length`. The page's markup, which is
      not part of this model, holds four: About You, Background, Concerns and
      Consent, the four steps `validateStep` knows. */
  const StepCount: int := 4

  // ---------------------------------------------------------------------
  // Moving between steps

  /** The step after `nextStep`: one further when the current step passes
      and is not the last, otherwise where it was. */
  function Advance(current: int, valid: bool): (next: int)
    requires 1 <= current <= StepCount
    ensures 1 <= next <= StepCount
    ensures next != current <==> valid && current < StepCount
    ensures next == current || next == current + 1
  {
    if valid && current < StepCount then current + 1 else current
  }

  /** The step after `prevStep`: one back unless already on the first. */
  function Retreat(current: int): (prev: int)
    requires 1 <= current <= StepCount
    ensures 1 <= prev <= StepCount
    ensures prev != current <==> current > 1
    ensures prev == current || prev == current - 1
  {
    if current > 1 then current - 1 else current
  }

  /** Whether a step's checks pass for a form, as a function of the step. */
  function StepCheck(x: IntakeForm, clock: Clock): int -> bool {
    k => StepValid(k, x, clock)
  }

  /** The messages each step shows for a form, as a function of the step. */
  function StepMessages(x: IntakeForm, clock: Clock): int -> Errors {
    k => StepErrors(k, x, clock)
  }

  /** Steps 1 up to, but not including, `k` all pass. */
  predicate PassBefore(valid: int -> bool, k: int) {
    forall j :: 1 <= j < k && j <= StepCount ==> valid(j)
  }

  datatype Action = Next | Prev

  /** The step shown after pressing the buttons in order, the form's fields
      (and so the verdicts `valid`) staying as they are. */
  function Navigate(valid: int -> bool, current: int, actions: seq<Action>): (r: int)
    requires 1 <= current <= StepCount
    ensures 1 <= r <= StepCount
    decreases |actions|
  {
    if actions == [] then current
    else
      var step := if actions[0] == Next then Advance(current, valid(current)) else Retreat(current);
      Navigate(valid, step, actions[1..])
  }

  /** The buttons never move past a step whose checks fail: on whatever
      step the wizard stands, every earlier step passes. */
  lemma {:induction false} NavigateKeepsEarlierStepsValid(valid: int -> bool, current: int, actions: seq<Action>)
    requires 1 <= current <= StepCount
    requires PassBefore(valid, current)
    ensures PassBefore(valid, Navigate(valid, current, actions))
    decreases |actions|
  {
    if actions != [] {
      var step := if actions[0] == Next then Advance(current, valid(current)) else Retreat(current);
      NavigateKeepsEarlierStepsValid(valid, step, actions[1..]);
    }
  }

  /** With every step passing, three presses of Next reach the last step. */
  lemma ValidFormReachesLastStep(valid: int -> bool)
    requires PassBefore(valid, StepCount + 1)
    ensures Navigate(valid, 1, [Next, Next, Next]) == StepCount
  {
    assert valid(1) && valid(2) && valid(3);
    assert [Next, Next, Next][1..] == [Next, Next];
    assert [Next, Next][1..] == [Next];
  }

  /** With a failing step, Next never gets past it. */
  lemma {:induction false} StuckBeforeFailingStep(valid: int -> bool, current: int, actions: seq<Action>, bad: int)
    requires 1 <= current <= bad <= StepCount && !valid(bad)
    ensures Navigate(valid, current, actions) <= bad
    decreases |actions|
  {
    if actions != [] {
      var step := if actions[0] == Next then Advance(current, valid(current)) else Retreat(current);
      StuckBeforeFailingStep(valid, step, actions[1..], bad);
    }
  }

  // ---------------------------------------------------------------------
  // Submitting

  /** The first step from `k` on whose checks fail, None when they all pass. */
  function FirstInvalid(valid: int -> bool, k: int): (r: Option<int>)
    requires 1 <= k <= StepCount + 1
    ensures r.Some? ==> k <= r.value <= StepCount
    decreases StepCount + 1 - k
  {
    if k > StepCount then None
    else if !valid(k) then Some(k)
    else FirstInvalid(valid, k + 1)
  }

  /** FirstInvalid finds the first failing step: None exactly when every step
      from `k` on passes, and otherwise a failing step with every step
      between `k` and it passing. */
  lemma {:induction false} FirstInvalidIsFirst(valid: int -> bool, k: int)
    requires 1 <= k <= StepCount + 1
    ensures FirstInvalid(valid, k).None? <==> forall j :: k <= j <= StepCount ==> valid(j)
    ensures FirstInvalid(valid, k).Some? ==>
      var i := FirstInvalid(valid, k).value;
      !valid(i) && forall j :: k <= j < i ==> valid(j)
    decreases StepCount + 1 - k
  {
    if k <= StepCount && valid(k) {
      FirstInvalidIsFirst(valid, k + 1);
    }
  }

  /** How a submission ends: ignored while another is in flight, stopped
      at a failing step, stopped by the contact-method rule, silently dropped
      because the hidden field is filled in, or sent. */
  datatype SubmitOutcome =
    | Ignored
    | InvalidStep(step: int)
    | ContactRejected(message: Message)
    | Honeypot
    | Sending

  /** What the submit handler decides when nothing is in flight, from the
      steps' verdicts, the contact-method rule's message and the hidden
      field. */
  function SubmitDecision(valid: int -> bool, contact: Option<Message>, website: string): SubmitOutcome {
    match FirstInvalid(valid, 1)
    case Some(i) => InvalidStep(i)
    case None => AfterSteps(contact, website)
  }

  /** The decision once every step passes: the contact-method rule, then
      the hidden field. */
  function AfterSteps(contact: Option<Message>, website: string): SubmitOutcome {
    match contact
    case Some(m) => ContactRejected(m)
    case None => if website != "" then Honeypot else Sending
  }

  /** A form is sent exactly when every step passes, the contact-method rule
      passes and the hidden field is empty. */
  lemma SentIff(valid: int -> bool, contact: Option<Message>, website: string)
    ensures SubmitDecision(valid, contact, website) == Sending <==>
      PassBefore(valid, StepCount + 1) && contact.None? && website == ""
  {
    FirstInvalidIsFirst(valid, 1);
  }

  /** A submission stopped at a step is stopped at the first step that
      fails, and every step before it passes. */
  lemma StopsAtFirstFailingStep(valid: int -> bool, contact: Option<Message>, website: string)
    ensures SubmitDecision(valid, contact, website).InvalidStep? <==>
      exists j :: 1 <= j <= StepCount && !valid(j)
    ensures SubmitDecision(valid, contact, website).InvalidStep? ==>
      var i := SubmitDecision(valid, contact, website).step;
      1 <= i <= StepCount && !valid(i) && PassBefore(valid, i)
  {
    FirstInvalidIsFirst(valid, 1);
  }

  /** The contact-method rule is only consulted once all four steps pass,
      and then its message is the one shown. */
  lemma ContactRuleAfterSteps(valid: int -> bool, contact: Option<Message>, website: string)
    ensures SubmitDecision(valid, contact, website).ContactRejected? <==>
      PassBefore(valid, StepCount + 1) && contact.Some?
    ensures SubmitDecision(valid, contact, website).ContactRejected? ==>
      SubmitDecision(valid, contact, website).message == contact.value
  {
    FirstInvalidIsFirst(valid, 1);
  }

  // ---------------------------------------------------------------------
  // The controller

  /** The messages on the page after a submission's step checks when all
      steps pass are those of the last step, and so there are none. */
  lemma NoMessagesWhenAllPass(x: IntakeForm, clock: Clock)
    requires PassBefore(StepCheck(x, clock), StepCount + 1)
    ensures StepErrors(StepCount, x, clock) == map[]
  {
    assert StepCheck(x, clock)(StepCount);
    StepValidIff(StepCount, x, clock);
  }
}
