/** The second newsletter box (`Newsletter.tsx`): the same two submit checks as the
    sign-up box, a simulated subscription whose outcome arrives as an event, and a
    thank-you view with a way back to the form. */
module Newsletter {
  import opened Js
  import opened NewsletterSignup

  const FailureMessage := "Failed to subscribe. Please try again."

  datatype NewsletterState = NewsletterState(email: string, isSubscribing: bool, isSubscribed: bool,
                                             error: string)

  /** The submit button's `disabled` condition: it does not look at the address's shape. */
  predicate SubmitDisabled(s: NewsletterState) {
    s.isSubscribing || Trim(s.email) == ""
  }

  /** The button is enabled for any non-blank address while no subscription runs, so a
      malformed address can still be submitted and is then refused by the check. */
  lemma SubmitDisabledIff(s: NewsletterState)
    ensures !SubmitDisabled(s) <==> !s.isSubscribing && !IsBlank(s.email)
    ensures !s.isSubscribing && Review(s.email) == Malformed ==> !SubmitDisabled(s)
  {
    TrimEmptyIffBlank(s.email);
    ReviewMeaning(s.email);
  }

  class Box {
    var email: string
    var isSubscribing: bool
    var isSubscribed: bool
    var error: string

    function Snapshot(): NewsletterState
      reads this
    {
      NewsletterState(email, isSubscribing, isSubscribed, error)
    }

    constructor()
      ensures Snapshot() == NewsletterState("", false, false, "")
    {
      email := "";
      isSubscribing := false;
      isSubscribed := false;
      error := "";
    }

    /** `handleEmailChange`: stores the value and clears any error. */
    method HandleEmailChange(value: string)
      modifies this
      ensures Snapshot() == old(Snapshot()).(email := value, error := "")
    {
      email := value;
      if error != "" {
        error := "";
      }
    }

    /** `handleSubmit` up to the `await`: a blank or malformed address sets its message
        and nothing else; an accepted one clears the error and starts subscribing. */
    method HandleSubmit() returns (started: bool)
      modifies this
      ensures started <==> Review(old(email)) == Accepted
      ensures !started ==> Snapshot() == old(Snapshot()).(error := VerdictError(Review(old(email))))
      ensures started ==> Snapshot() == old(Snapshot()).(isSubscribing := true, error := "")
    {
      var v := Review(email);
      if v != Accepted {
        error := VerdictError(v);
        return false;
      }
      isSubscribing := true;
      error := "";
      started := true;
    }

    /** `handleSubmit` after the `await`: success shows the thank-you view and empties
        the field; a failure shows the fixed message; either way subscribing ends. */
    method Settle(succeeded: bool)
      requires isSubscribing
      modifies this
      ensures succeeded ==> Snapshot() == old(Snapshot()).(isSubscribed := true, email := "", isSubscribing := false)
      ensures !succeeded ==> Snapshot() == old(Snapshot()).(error := FailureMessage, isSubscribing := false)
    {
      if succeeded {
        isSubscribed := true;
        email := "";
      } else {
        error := FailureMessage;
      }
      isSubscribing := false;
    }

    /** "Subscribe another email": back to the form. */
    method SubscribeAnother()
      modifies this
      ensures Snapshot() == old(Snapshot()).(isSubscribed := false)
    {
      isSubscribed := false;
    }
  }
}
