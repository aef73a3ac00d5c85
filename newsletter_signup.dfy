/** The newsletter sign-up box (`NewsletterSignup.tsx`): the e-mail field with its live
    validity flag, the checks run on submit, and the states around the awaited
    subscription, whose outcome arrives as an event. */
module NewsletterSignup {
  import opened Js
  import Utils

  /** What the submit checks make of the typed e-mail, in the order they run. */
  datatype Verdict = Blank | Malformed | Accepted

  function Review(email: string): Verdict {
    if Trim(email) == "" then Blank
    else if !Utils.IsValidEmail(email) then Malformed
    else Accepted
  }

  /** The verdict is blank exactly for a blank address and accepted exactly for an
      address of the e-mail shape. */
  lemma ReviewMeaning(email: string)
    ensures Review(email) == Blank <==> IsBlank(email)
    ensures Review(email) == Accepted <==> Utils.EmailShape(email)
  {
    TrimEmptyIffBlank(email);
    Utils.IsValidEmailIff(email);
    ShapeNotBlank(email);
  }

  /** An address of the accepted shape is never blank. */
  lemma ShapeNotBlank(email: string)
    ensures Utils.EmailShape(email) ==> !IsBlank(email)
  {
    if Utils.EmailShape(email) {
      var i := IndexOf(email, '@');
      assert !IsSpace(email[i]);
    }
  }

  /** The check sees the untrimmed value: an address typed after a space is malformed,
      not blank. */
  lemma LeadingSpaceMalformed(email: string)
    requires |email| > 0 && IsSpace(email[0]) && !IsBlank(email)
    ensures Review(email) == Malformed
  {
    ReviewMeaning(email);
  }

  const BlankError := "Please enter your email address"
  const MalformedError := "Please enter a valid email address"
  const DefaultFailure := "Failed to subscribe. Please try again."

  /** The message a rejected submit shows. */
  function VerdictError(v: Verdict): (e: string)
    requires v != Accepted
    ensures e != ""
  {
    if v == Blank then BlankError else MalformedError
  }

  /** The live flag `handleEmailChange` sets: an empty field counts as valid. */
  function LiveValidity(value: string): (ok: bool)
    ensures !ok <==> value != "" && !Utils.EmailShape(value)
  {
    Utils.IsValidEmailIff(value);
    !(value != "" && !Utils.IsValidEmail(value))
  }

  /** The error text a failed subscription shows. */
  function FailureText(o: Outcome): string
    requires o.Threw?
  {
    o.message.GetOr(DefaultFailure)
  }

  datatype SignupState = SignupState(email: string, isSubmitting: bool, isSuccess: bool,
                                     error: string, isValidEmail: bool)

  /** The submit button's `disabled` condition, the same in all three variants. */
  predicate SubmitDisabled(s: SignupState) {
    s.isSubmitting || s.isSuccess || Trim(s.email) == "" || !s.isValidEmail
  }

  /** The button is enabled only for a non-blank e-mail held as valid, with no
      submission running or just succeeded. */
  lemma SubmitDisabledIff(s: SignupState)
    ensures !SubmitDisabled(s) <==> !s.isSubmitting && !s.isSuccess && !IsBlank(s.email) && s.isValidEmail
  {
    TrimEmptyIffBlank(s.email);
  }

  /** After typing, the live flag is false exactly for a non-empty address of the wrong
      shape, so a button enabled after typing holds an address the submit accepts. */
  lemma TypedThenEnabled(s: SignupState, value: string)
    requires !SubmitDisabled(s.(email := value, isValidEmail := LiveValidity(value)))
    ensures Review(value) == Accepted
  {
    TrimEmptyIffBlank(value);
    ReviewMeaning(value);
  }

  class Signup {
    var email: string
    var isSubmitting: bool
    var isSuccess: bool
    var error: string
    var isValidEmail: bool

    function Snapshot(): SignupState
      reads this
    {
      SignupState(email, isSubmitting, isSuccess, error, isValidEmail)
    }

    constructor()
      ensures Snapshot() == SignupState("", false, false, "", true)
    {
      email := "";
      isSubmitting := false;
      isSuccess := false;
      error := "";
      isValidEmail := true;
    }

    /** `handleEmailChange`: stores the value, clears the error, refreshes the flag. */
    method HandleEmailChange(value: string)
      modifies this
      ensures Snapshot() == old(Snapshot()).(email := value, error := "", isValidEmail := LiveValidity(value))
    {
      email := value;
      error := "";
      if value != "" && !Utils.IsValidEmail(value) {
        isValidEmail := false;
      } else {
        isValidEmail := true;
      }
    }

    /** `handleSubmit` up to the `await`: a rejected address sets its message and
        starts nothing; an accepted one clears the error, marks the form submitting and
        returns the address handed to the subscription. */
    method HandleSubmit() returns (request: Option<string>)
      modifies this
      ensures Review(old(email)) == Blank ==>
        request.None? && Snapshot() == old(Snapshot()).(error := BlankError)
      ensures Review(old(email)) == Malformed ==>
        request.None? && Snapshot() == old(Snapshot()).(error := MalformedError, isValidEmail := false)
      ensures Review(old(email)) == Accepted ==>
        request == Some(old(email)) && Snapshot() == old(Snapshot()).(isSubmitting := true, error := "")
    {
      var v := Review(email);
      if v == Blank {
        error := BlankError;
        request := None;
      } else if v == Malformed {
        error := MalformedError;
        isValidEmail := false;
        request := None;
      } else {
        isSubmitting := true;
        error := "";
        request := Some(email);
      }
    }

    /** `handleKeyPress`: Enter submits, any other key does nothing. */
    method HandleKeyPress(key: string) returns (request: Option<string>)
      modifies this
      ensures key != "Enter" ==> request.None? && Snapshot() == old(Snapshot())
      ensures key == "Enter" && Review(old(email)) == Accepted ==>
        request == Some(old(email)) && Snapshot() == old(Snapshot()).(isSubmitting := true, error := "")
      ensures key == "Enter" && Review(old(email)) != Accepted ==>
        request.None? && Snapshot() == old(Snapshot()).(error := VerdictError(Review(old(email))),
                                                        isValidEmail := old(isValidEmail) && Review(old(email)) != Malformed)
    {
      if key == "Enter" {
        request := HandleSubmit();
      } else {
        request := None;
      }
    }

    /** `handleSubmit` after the `await`: success marks the form subscribed and empties
        the field; a failure shows its message; either way submitting ends. */
    method Settle(o: Outcome)
      requires isSubmitting
      modifies this
      ensures o.Resolved? ==> Snapshot() == old(Snapshot()).(isSuccess := true, email := "", isSubmitting := false)
      ensures o.Threw? ==> Snapshot() == old(Snapshot()).(error := FailureText(o), isSubmitting := false)
    {
      if o.Resolved? {
        isSuccess := true;
        email := "";
      } else {
        error := FailureText(o);
      }
      isSubmitting := false;
    }

    /** The timer set on success hides the success state again. */
    method SuccessElapsed()
      modifies this
      ensures Snapshot() == old(Snapshot()).(isSuccess := false)
    {
      isSuccess := false;
    }
  }
}
