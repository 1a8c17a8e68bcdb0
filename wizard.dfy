/** The intake form's four-step wizard as the page runs it: the step on
    show, the status line and whether a submission is in flight, with the
    buttons that move between steps and the submit handler. */
module Wizard {
  import opened Text
  import opened Forms
  import opened Steps

  class IntakeWizard {
    /** The step on show, `current`. */
    var current: int
    /** The message on the status line, None when it is blank. */
    var status: Option<Message>
    /** The submit button is disabled while a submission is in flight. */
    var sending: bool

    ghost predicate Valid()
      reads this
    {
      1 <= current <= StepCount
    }

    /** The page after it loads: the first step, an empty status line,
        nothing in flight. */
    constructor ()
      ensures Valid()
      ensures current == 1 && status.None? && !sending
    {
      current := 1;
      status := None;
      sending := false;
    }

    /** `showStep(n)`: shows step n and clears the status line. */
    method ShowStep(n: int)
      requires 1 <= n <= StepCount
      modifies this
      ensures Valid()
      ensures current == n && status.None?
      ensures sending == old(sending)
    {
      current := n;
      status := None;
    }

    /** `nextStep`: checks the step on show, putting its messages on the
        page; when it passes and is not the last, shows the next one. */
    method NextStep(x: IntakeForm, clock: Clock) returns (valid: bool, shown: Errors)
      requires Valid()
      modifies this
      ensures Valid()
      ensures valid <==> StepValid(old(current), x, clock)
      ensures shown == StepErrors(old(current), x, clock)
      ensures current == Advance(old(current), valid)
      ensures status == if current != old(current) then None else old(status)
      ensures sending == old(sending)
    {
      valid, shown := ValidateStep(current, x, clock);
      if valid {
        if current < StepCount {
          ShowStep(current + 1);
        }
      }
    }

    /** `prevStep`: shows the previous step unless on the first. */
    method PrevStep()
      requires Valid()
      modifies this
      ensures Valid()
      ensures current == Retreat(old(current))
      ensures status == if current != old(current) then None else old(status)
      ensures sending == old(sending)
    {
      if current > 1 {
        ShowStep(current - 1);
      }
    }

    /** The first part of the submit handler: checks the steps in order,
        each check replacing the messages on the page, and stops at the
        first that fails, showing it with a status message. `verdict(i)` and
        `messages(i)` are what `validateStep(i)` returns and shows; Submit
        passes StepCheck and StepMessages, the functions ValidateStep is
        proved to compute. */
    method CheckAllSteps(verdict: int -> bool, messages: int -> Errors)
      returns (failed: Option<int>, shown: Errors)
      requires Valid()
      modifies this
      ensures Valid()
      ensures failed == FirstInvalid(verdict, 1)
      ensures failed.Some? ==>
        current == failed.value && status == Some(FixErrors) && shown == messages(failed.value)
      ensures failed.None? ==> current == old(current) && status == old(status)
      ensures failed.None? ==> shown == messages(StepCount)
      ensures sending == old(sending)
    {
      shown := map[];
      var allValid := true;
      var i := 1;
      while i <= StepCount
        invariant 1 <= i <= StepCount + 1
        invariant allValid
        invariant FirstInvalid(verdict, 1) == FirstInvalid(verdict, i)
        invariant i > 1 ==> shown == messages(i - 1)
        invariant current == old(current) && status == old(status) && sending == old(sending)
      {
        shown := messages(i);
        if !verdict(i) {
          allValid := false;
          ShowStep(i);
          break;
        }
        i := i + 1;
      }
      if !allValid {
        status := Some(FixErrors);
        return Some(i), shown;
      }
      return None, shown;
    }

    /** The submit handler up to the request: the steps, then the
        contact-method rule, then the hidden field; finally the button is
        disabled. While a submission is in flight the button is disabled and
        nothing happens. As written, a failed contact-method rule sends the
        user back to step 1 with the status line blank. */
    method Submit(x: IntakeForm, clock: Clock) returns (outcome: SubmitOutcome)
      requires Valid()
      modifies this
      ensures Valid()
      ensures old(sending) ==> outcome == Ignored && unchanged(this)
      ensures !old(sending) ==> outcome == SubmitDecision(StepCheck(x, clock), ContactPrefsError(x), x.website)
      ensures outcome.InvalidStep? ==> current == outcome.step && status == Some(FixErrors) && !sending
      ensures outcome.ContactRejected? ==> current == 1 && status.None? && !sending
      ensures outcome.Honeypot? ==> current == old(current) && status == old(status) && !sending
      ensures outcome == Sending ==> current == old(current) && status == old(status) && sending
    {
      if sending {
        return Ignored;
      }
      outcome := CheckAndSend(x, StepCheck(x, clock), StepMessages(x, clock));
    }

    /** The submit handler when nothing is in flight, with the steps'
        verdicts and messages given by `verdict` and `messages` as in
        CheckAllSteps. */
    method CheckAndSend(x: IntakeForm, verdict: int -> bool, messages: int -> Errors)
      returns (outcome: SubmitOutcome)
      requires Valid() && !sending
      modifies this
      ensures Valid()
      ensures outcome == SubmitDecision(verdict, ContactPrefsError(x), x.website)
      ensures outcome.InvalidStep? ==> current == outcome.step && status == Some(FixErrors) && !sending
      ensures outcome.ContactRejected? ==> current == 1 && status.None? && !sending
      ensures outcome.Honeypot? ==> current == old(current) && status == old(status) && !sending
      ensures outcome == Sending ==> current == old(current) && status == old(status) && sending
    {
      var failed, _ := CheckAllSteps(verdict, messages);
      if failed.Some? {
        return InvalidStep(failed.value);
      }
      outcome := FinishSubmit(x);
    }

    /** The rest of the submit handler once every step passes: the
        contact-method rule, the hidden field, then the button is disabled. */
    method FinishSubmit(x: IntakeForm) returns (outcome: SubmitOutcome)
      requires Valid() && !sending
      modifies this
      ensures Valid()
      ensures outcome == AfterSteps(ContactPrefsError(x), x.website)
      ensures outcome.ContactRejected? ==> current == 1 && status.None? && !sending
      ensures outcome.Honeypot? ==> current == old(current) && status == old(status) && !sending
      ensures outcome == Sending ==> current == old(current) && status == old(status) && sending
    {
      var rejection := ContactPrefsError(x);
      if rejection.Some? {
        RejectContactAsWritten(rejection.value);
        return ContactRejected(rejection.value);
      }
      if x.website != "" {
        return Honeypot;
      }
      sending := true;
      return Sending;
    }

    /** The submit handler as intended: the same decisions as `Submit`, but
        a failed contact-method rule leaves its message on the status line
        after going back to step 1. */
    method SubmitIntended(x: IntakeForm, clock: Clock) returns (outcome: SubmitOutcome)
      requires Valid()
      modifies this
      ensures Valid()
      ensures old(sending) ==> outcome == Ignored && unchanged(this)
      ensures !old(sending) ==> outcome == SubmitDecision(StepCheck(x, clock), ContactPrefsError(x), x.website)
      ensures outcome.InvalidStep? ==> current == outcome.step && status == Some(FixErrors) && !sending
      ensures outcome.ContactRejected? ==> current == 1 && status == Some(outcome.message) && !sending
      ensures outcome.Honeypot? ==> current == old(current) && status == old(status) && !sending
      ensures outcome == Sending ==> current == old(current) && status == old(status) && sending
    {
      if sending {
        return Ignored;
      }
      outcome := CheckAndSendIntended(x, StepCheck(x, clock), StepMessages(x, clock));
    }

    /** `CheckAndSend` as intended. */
    method CheckAndSendIntended(x: IntakeForm, verdict: int -> bool, messages: int -> Errors)
      returns (outcome: SubmitOutcome)
      requires Valid() && !sending
      modifies this
      ensures Valid()
      ensures outcome == SubmitDecision(verdict, ContactPrefsError(x), x.website)
      ensures outcome.InvalidStep? ==> current == outcome.step && status == Some(FixErrors) && !sending
      ensures outcome.ContactRejected? ==> current == 1 && status == Some(outcome.message) && !sending
      ensures outcome.Honeypot? ==> current == old(current) && status == old(status) && !sending
      ensures outcome == Sending ==> current == old(current) && status == old(status) && sending
    {
      var failed, _ := CheckAllSteps(verdict, messages);
      if failed.Some? {
        return InvalidStep(failed.value);
      }
      outcome := FinishSubmitIntended(x);
    }

    /** `FinishSubmit` as intended: a failed contact-method rule keeps its
        message on the status line. */
    method FinishSubmitIntended(x: IntakeForm) returns (outcome: SubmitOutcome)
      requires Valid() && !sending
      modifies this
      ensures Valid()
      ensures outcome == AfterSteps(ContactPrefsError(x), x.website)
      ensures outcome.ContactRejected? ==> current == 1 && status == Some(outcome.message) && !sending
      ensures outcome.Honeypot? ==> current == old(current) && status == old(status) && !sending
      ensures outcome == Sending ==> current == old(current) && status == old(status) && sending
    {
      var rejection := ContactPrefsError(x);
      if rejection.Some? {
        RejectContact(rejection.value);
        return ContactRejected(rejection.value);
      }
      if x.website != "" {
        return Honeypot;
      }
      sending := true;
      return Sending;
    }

    /** A failed contact-method rule as intended: back to the first step
        with the rule's message on the status line. */
    method RejectContact(message: Message)
      modifies this
      ensures Valid()
      ensures current == 1 && status == Some(message)
      ensures sending == old(sending)
    {
      ShowStep(1);
      status := Some(message);
    }

    /** The same as written in the handler: the message is written first and
        `showStep(1)` then clears the status line, so it is never seen. */
    method RejectContactAsWritten(message: Message)
      modifies this
      ensures Valid()
      ensures current == 1 && status.None?
      ensures sending == old(sending)
    {
      status := Some(message);
      ShowStep(1);
    }

    /** The end of a submission (`finally`): the button is enabled again;
        after a successful one the wizard is back on the first step. */
    method Settle(success: bool)
      requires Valid()
      modifies this
      ensures Valid() && !sending
      ensures success ==> current == 1 && status.None?
      ensures !success ==> current == old(current) && status == old(status)
    {
      if success {
        ShowStep(1);
      }
      sending := false;
    }
  }
}
