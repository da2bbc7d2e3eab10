/** The feedback form of public/js/feedback.js: opening and closing the
    modal, the checks `submitFeedback` runs before it sends anything, and what
    it does with the reply.  The form is a value; the page's state changes
    are returned as its new value. */
module Feedback {
  import opened Values
  import opened Tables
  import opened JsText

  const LoginToLeaveFeedback := "Please login to leave feedback."
  const NotLoggedInError := "Error: You are not logged in."
  const SelectRatingError := "Please select a rating."
  const InvalidRatingError := "Invalid rating selected."
  const SubmitFailedError := "Failed to submit feedback. Please try again."

  /** The modal: whether it is shown, the rating `<select>` value, the
      comment text and the error line (None when hidden). */
  datatype FeedbackForm = FeedbackForm(visible: bool, rating: string, comment: string, error: Option<string>)

  /** The form after a call, and the `alert` shown, if any. */
  datatype ModalOutcome = ModalOutcome(form: FeedbackForm, alert: Option<string>)

  /** `showFeedbackModal()` (public/js/feedback.js:6-22). */
  function ShowFeedbackModal(user: Option<UserRow>, form: FeedbackForm): (r: ModalOutcome)
    ensures user.None? ==> r == ModalOutcome(form, Some(LoginToLeaveFeedback))
    ensures user.Some? ==> r.alert.None? && r.form.visible && r.form.rating == "" && r.form.comment == "" && r.form.error.None?
  {
    if user.None? then ModalOutcome(form, Some(LoginToLeaveFeedback))
    else ModalOutcome(FeedbackForm(true, "", "", None), None)
  }

  /** `closeFeedback()` (public/js/feedback.js:24-26): hides the modal and
      keeps what was typed. */
  function CloseFeedback(form: FeedbackForm): (r: FeedbackForm)
    ensures !r.visible && r.(visible := form.visible) == form
  {
    form.(visible := false)
  }

  /** The JSON body of POST /api/feedback. */
  datatype FeedbackBody = FeedbackBody(userId: nat, rating: int, comment: string)

  /** Either an error shown in the form and no request, or the request. */
  datatype SubmitStep = Rejected(form: FeedbackForm) | Send(form: FeedbackForm, body: FeedbackBody)

  /** The rating that `parseInt(ratingValue, 10)` yields when it is a whole
      number from 1 to 5. */
  predicate RatingAccepted(ratingValue: string) {
    var n := ParseIntBase10(ratingValue);
    n.Some? && 1 <= n.value <= 5
  }

  /** `submitFeedback()` up to the `fetch` (public/js/feedback.js:28-66). */
  function SubmitFeedback(user: Option<UserRow>, form: FeedbackForm): (r: SubmitStep)
    ensures user.None? ==> r == Rejected(form.(error := Some(NotLoggedInError)))
    ensures user.Some? && form.rating == "" ==> r == Rejected(form.(error := Some(SelectRatingError)))
    ensures user.Some? && form.rating != "" && !RatingAccepted(form.rating) ==>
      r == Rejected(form.(error := Some(InvalidRatingError)))
    ensures r.Send? <==> user.Some? && form.rating != "" && RatingAccepted(form.rating)
    ensures r.Send? ==>
      && r.form == form.(error := None)
      && r.body.userId == user.value.id
      && 1 <= r.body.rating <= 5 && Some(r.body.rating) == ParseIntBase10(form.rating)
      && r.body.comment == Trim(form.comment)
  {
    var cleared := form.(error := None);
    if user.None? then
      Rejected(cleared.(error := Some(NotLoggedInError)))
    else if form.rating == "" then
      Rejected(cleared.(error := Some(SelectRatingError)))
    else
      var rating := ParseIntBase10(form.rating);
      if rating.None? || rating.value < 1 || rating.value > 5 then
        Rejected(cleared.(error := Some(InvalidRatingError)))
      else
        Send(cleared, FeedbackBody(user.value.id, rating.value, Trim(form.comment)))
  }

  /** Each option of the rating `<select>`, "1" to "5", is sent as that
      number; the comment is sent trimmed. */
  lemma SelectedRatingIsSent(user: UserRow, form: FeedbackForm, n: int)
    requires 1 <= n <= 5
    ensures var r := SubmitFeedback(Some(user), form.(rating := IntToDecimal(n)));
      r.Send? && r.body == FeedbackBody(user.id, n, Trim(form.comment))
  {
    var value := IntToDecimal(n);
    ParseIntRoundTrip(n);
    assert value != "" && RatingAccepted(value);
    var r := SubmitFeedback(Some(user), form.(rating := value));
    assert r.Send? && Some(r.body.rating) == Some(n);
  }

  /** What came back for the POST: a network failure (`fetch` rejected with
      `message`), a non-OK status with the `error` of its JSON body when it
      parsed, or an OK status with the body's `success` and `error`. */
  datatype FeedbackReply =
    | NetworkFailure(message: string)
    | HttpError(status: nat, bodyError: Option<string>)
    | Delivered(success: bool, error: Option<string>)

  /** The text of the error thrown for a non-OK status. */
  function HttpErrorMessage(status: nat, bodyError: Option<string>): string {
    OrElse(bodyError, "HTTP error! status: " + NatToDecimal(status))
  }

  /** The form after the reply, and whether the thank-you toast is shown
      (public/js/feedback.js:68-91). */
  datatype ReplyOutcome = ReplyOutcome(form: FeedbackForm, thanked: bool)

  function ReceiveFeedbackReply(form: FeedbackForm, reply: FeedbackReply): (r: ReplyOutcome)
    ensures r.thanked <==> reply.Delivered? && reply.success
    ensures r.thanked ==> r.form == CloseFeedback(form)
    ensures !r.thanked ==>
      && r.form.visible == form.visible && r.form.error.Some?
      && r.form.rating == form.rating && r.form.comment == form.comment
    ensures reply.Delivered? && !reply.success ==> r.form.error == Some(OrElse(reply.error, SubmitFailedError))
    ensures reply.NetworkFailure? ==>
      r.form.error == Some("Error: " + reply.message + ". Please try again later.")
    ensures reply.HttpError? ==>
      r.form.error == Some("Error: " + HttpErrorMessage(reply.status, reply.bodyError) + ". Please try again later.")
  {
    match reply
    case Delivered(success, error) =>
      if success then ReplyOutcome(CloseFeedback(form), true)
      else ReplyOutcome(form.(error := Some(OrElse(error, SubmitFailedError))), false)
    case HttpError(status, bodyError) =>
      ReplyOutcome(form.(error := Some("Error: " + HttpErrorMessage(status, bodyError) + ". Please try again later.")), false)
    case NetworkFailure(message) =>
      ReplyOutcome(form.(error := Some("Error: " + message + ". Please try again later.")), false)
  }

  /** A non-OK status without an error text in its body reports the status
      code, and so replies with different codes read differently. */
  lemma HttpStatusReported(s1: nat, s2: nat)
    requires s1 != s2
    ensures HttpErrorMessage(s1, None) != HttpErrorMessage(s2, None)
  {
    var p := "HTTP error! status: ";
    var d1, d2 := NatToDecimal(s1), NatToDecimal(s2);
    assert (p + d1)[|p|..] == d1 && (p + d2)[|p|..] == d2;
  }
}
