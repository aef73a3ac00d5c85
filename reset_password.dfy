/** The page that sets a new password from an e-mailed link (`ResetPasswordPage.tsx`):
    the two tokens read from the link, the two password fields, and the checks run in
    order before the password update, whose outcome arrives as an event. */
module ResetPassword {
  import opened Js

  const InvalidLinkOnLoad := "Invalid reset link. Please request a new password reset."
  const MismatchError := "Passwords do not match"
  const TooShortError := "Password must be at least 6 characters long"
  const InvalidLink := "Invalid reset link"
  const DefaultFailure := "An error occurred while updating password"
  const Updated := "Password updated successfully! Redirecting to sign in..."
  const MinLength := 6

  /** Both tokens of the link are there and non-empty. */
  predicate HasTokens(accessToken: Option<string>, refreshToken: Option<string>) {
    TruthyText(accessToken) && TruthyText(refreshToken)
  }

  /** What the submit checks decide, in the order they run. */
  datatype Verdict = Mismatch | TooShort | BadLink | Send

  function Check(password: string, confirm: string, accessToken: Option<string>,
                 refreshToken: Option<string>): (v: Verdict)
    ensures v == Send <==> password == confirm && |password| >= MinLength && HasTokens(accessToken, refreshToken)
    ensures v == Mismatch <==> password != confirm
  {
    if password != confirm then Mismatch
    else if |password| < MinLength then TooShort
    else if !HasTokens(accessToken, refreshToken) then BadLink
    else Send
  }

  /** The match is checked first: two different short passwords report the mismatch,
      and a bad link is only reported for matching passwords long enough to send. */
  lemma CheckOrder(password: string, confirm: string, accessToken: Option<string>,
                   refreshToken: Option<string>)
    ensures |password| < MinLength && password != confirm ==>
      Check(password, confirm, accessToken, refreshToken) == Mismatch
    ensures Check(password, confirm, accessToken, refreshToken) == TooShort <==>
      password == confirm && |password| < MinLength
    ensures Check(password, confirm, accessToken, refreshToken) == BadLink <==>
      password == confirm && |password| >= MinLength && !HasTokens(accessToken, refreshToken)
  {
  }

  datatype Field = Password | ConfirmPassword

  datatype ResetState = ResetState(password: string, confirmPassword: string, isLoading: bool,
                                   error: string, message: string)

  /** What the page hands to the password update. */
  datatype UpdateRequest = UpdateRequest(password: string, accessToken: string, refreshToken: string)

  class Page {
    const accessToken: Option<string>
    const refreshToken: Option<string>
    var password: string
    var confirmPassword: string
    var isLoading: bool
    var error: string
    var message: string

    function Snapshot(): ResetState
      reads this
    {
      ResetState(password, confirmPassword, isLoading, error, message)
    }

    /** The page with the load effect run: a link missing a token shows an error at once. */
    constructor(accessToken: Option<string>, refreshToken: Option<string>)
      ensures this.accessToken == accessToken && this.refreshToken == refreshToken
      ensures Snapshot() == ResetState("", "", false,
                                       if HasTokens(accessToken, refreshToken) then "" else InvalidLinkOnLoad, "")
    {
      this.accessToken := accessToken;
      this.refreshToken := refreshToken;
      password := "";
      confirmPassword := "";
      isLoading := false;
      error := "";
      message := "";
      if !TruthyText(accessToken) || !TruthyText(refreshToken) {
        error := InvalidLinkOnLoad;
      }
    }

    /** `handleInputChange`: only the named field changes. */
    method HandleInputChange(name: Field, value: string)
      modifies this
      ensures name == Password ==> Snapshot() == old(Snapshot()).(password := value)
      ensures name == ConfirmPassword ==> Snapshot() == old(Snapshot()).(confirmPassword := value)
    {
      if name == Password {
        password := value;
      } else {
        confirmPassword := value;
      }
    }

    /** `handleSubmit` up to the `await`. A mismatch or a short password sets its
        message and sends nothing. Otherwise loading starts and the error clears; a
        missing token then throws at once, which ends loading with the link error; with
        both tokens the update request is returned and loading goes on. */
    method HandleSubmit() returns (request: Option<UpdateRequest>)
      modifies this
      ensures var v := Check(old(password), old(confirmPassword), accessToken, refreshToken);
        (v == Mismatch ==> request.None? && Snapshot() == old(Snapshot()).(error := MismatchError))
        && (v == TooShort ==> request.None? && Snapshot() == old(Snapshot()).(error := TooShortError))
        && (v == BadLink ==> request.None? && Snapshot() == old(Snapshot()).(error := InvalidLink, isLoading := false))
        && (v == Send ==> request == Some(UpdateRequest(password, accessToken.value, refreshToken.value))
                          && Snapshot() == old(Snapshot()).(error := "", isLoading := true))
    {
      var v := Check(password, confirmPassword, accessToken, refreshToken);
      if v == Mismatch {
        error := MismatchError;
        return None;
      }
      if v == TooShort {
        error := TooShortError;
        return None;
      }
      isLoading := true;
      error := "";
      if v == BadLink {
        error := InvalidLink;
        isLoading := false;
        return None;
      }
      request := Some(UpdateRequest(password, accessToken.value, refreshToken.value));
    }

    /** `handleSubmit` after the `await`: success shows the confirmation, a failure its
        message; either way loading ends. */
    method Settle(o: Outcome)
      requires isLoading
      modifies this
      ensures o.Resolved? ==> Snapshot() == old(Snapshot()).(message := Updated, isLoading := false)
      ensures o.Threw? ==> Snapshot() == old(Snapshot()).(error := o.message.GetOr(DefaultFailure), isLoading := false)
    {
      if o.Resolved? {
        message := Updated;
      } else {
        error := o.message.GetOr(DefaultFailure);
      }
      isLoading := false;
    }
  }
}
