/**
 * The slogan workflow's feedback step (`FeedbackExecutor`): it reports the
 * critic's feedback, then accepts a slogan rated high enough, rejects it
 * once the attempts are used up, or sends the feedback back for another
 * attempt and counts it.
 */
module Feedback {
  import opened Text

  /** The critic's verdict, as deserialized from the model's JSON reply. */
  datatype FeedbackResult = FeedbackResult(comments: string, rating: int, actions: string)

  /** `SloganResult`: the task and the proposed slogan. */
  datatype SloganResult = SloganResult(task: string, slogan: string)

  /** The executor's settings and its attempt counter. */
  datatype Executor = Executor(minimumRating: int, maxAttempts: int, attempts: int)

  /** The defaults: a rating of 8 passes, and three attempts are allowed. */
  function NewExecutor(): (r: Executor)
    ensures r.minimumRating == 8 && r.maxAttempts == 3 && r.attempts == 0
  {
    Executor(8, 3, 0)
  }

  /** What a review produces, in order. */
  datatype Effect =
    | FeedbackEvent(feedback: FeedbackResult)
    | Output(text: string)
    | SendFeedback(feedback: FeedbackResult)

  function AcceptedText(slogan: string): string {
    "这条广告语被接受:\n\n" + slogan
  }

  function RejectedText(maxAttempts: int, slogan: string): string {
    "这条广告语在 " + IntToString(maxAttempts) + " 次尝试后被拒绝。最终广告语:\n\n" + slogan
  }

  /** How a review ended. */
  datatype Decision = Accepted | Rejected | Retry

  function DecisionOf(r: Executor, rating: int): Decision {
    if rating >= r.minimumRating then Accepted
    else if r.attempts >= r.maxAttempts then Rejected
    else Retry
  }

  /**
   * `HandleAsync`, after the critic has answered: the feedback event always
   * comes first and is followed by exactly one decision effect; only a
   * retry counts an attempt.
   */
  function Review(r: Executor, message: SloganResult, feedback: FeedbackResult): (res: (Executor, seq<Effect>))
    ensures |res.1| == 2 && res.1[0] == FeedbackEvent(feedback)
    ensures res.0.minimumRating == r.minimumRating && res.0.maxAttempts == r.maxAttempts
    ensures feedback.rating >= r.minimumRating ==>
      res.1[1] == Output(AcceptedText(message.slogan)) && res.0.attempts == r.attempts
    ensures feedback.rating < r.minimumRating && r.attempts >= r.maxAttempts ==>
      res.1[1] == Output(RejectedText(r.maxAttempts, message.slogan)) && res.0.attempts == r.attempts
    ensures feedback.rating < r.minimumRating && r.attempts < r.maxAttempts ==>
      res.1[1] == SendFeedback(feedback) && res.0.attempts == r.attempts + 1
  {
    var first := FeedbackEvent(feedback);
    match DecisionOf(r, feedback.rating)
    case Accepted => (r, [first, Output(AcceptedText(message.slogan))])
    case Rejected => (r, [first, Output(RejectedText(r.maxAttempts, message.slogan))])
    case Retry => (r.(attempts := r.attempts + 1), [first, SendFeedback(feedback)])
  }

  /** The attempt counter never passes the limit once it starts within it. */
  lemma ReviewKeepsAttemptsBounded(r: Executor, message: SloganResult, feedback: FeedbackResult)
    requires 0 <= r.attempts <= r.maxAttempts
    ensures 0 <= Review(r, message, feedback).0.attempts <= r.maxAttempts
  {
  }

  /** A review sends feedback back exactly when it neither accepts nor rejects. */
  lemma SendsFeedbackIffRetry(r: Executor, message: SloganResult, feedback: FeedbackResult)
    ensures Review(r, message, feedback).1[1].SendFeedback? <==> DecisionOf(r, feedback.rating) == Retry
    ensures Review(r, message, feedback).1[1].Output? <==> DecisionOf(r, feedback.rating) != Retry
  {
  }

  /** A run of reviews, one per critic verdict, of the same slogan. */
  function Reviews(r: Executor, message: SloganResult, verdicts: seq<FeedbackResult>): (res: (Executor, seq<Effect>))
    ensures |res.1| == 2 * |verdicts|
    decreases |verdicts|
  {
    if verdicts == [] then (r, [])
    else
      var (r1, es) := Review(r, message, verdicts[0]);
      var (r2, rest) := Reviews(r1, message, verdicts[1..]);
      (r2, es + rest)
  }

  /** Every verdict below the bar. */
  predicate AllFail(r: Executor, verdicts: seq<FeedbackResult>) {
    forall i :: 0 <= i < |verdicts| ==> verdicts[i].rating < r.minimumRating
  }

  /**
   * With a critic that never passes the slogan, an executor that has made
   * `attempts` of its allowed attempts sends back exactly the remaining
   * ones, and the review after that rejects.
   */
  lemma {:induction false} FailingCriticRetriesThenRejects(r: Executor, message: SloganResult, verdicts: seq<FeedbackResult>)
    requires 0 <= r.attempts <= r.maxAttempts
    requires |verdicts| == r.maxAttempts - r.attempts + 1 && AllFail(r, verdicts)
    ensures var (r', es) := Reviews(r, message, verdicts);
      && r'.attempts == r.maxAttempts
      && (forall i :: 0 <= i < |verdicts| - 1 ==> es[2 * i + 1] == SendFeedback(verdicts[i]))
      && es[|es| - 1] == Output(RejectedText(r.maxAttempts, message.slogan))
    decreases |verdicts|
  {
    var (r1, first) := Review(r, message, verdicts[0]);
    if r.attempts == r.maxAttempts {
      assert verdicts[1..] == [];
    } else {
      assert AllFail(r1, verdicts[1..]) by {
        assert forall i :: 0 <= i < |verdicts| - 1 ==> verdicts[1..][i] == verdicts[i + 1];
      }
      FailingCriticRetriesThenRejects(r1, message, verdicts[1..]);
      var (r2, rest) := Reviews(r1, message, verdicts[1..]);
      var es := first + rest;
      assert Reviews(r, message, verdicts).1 == es;
      forall i | 0 <= i < |verdicts| - 1
        ensures es[2 * i + 1] == SendFeedback(verdicts[i])
      {
        if i > 0 {
          assert es[2 * i + 1] == rest[2 * (i - 1) + 1];
          assert verdicts[1..][i - 1] == verdicts[i];
        }
      }
    }
  }

  /** With the default settings, a critic that never passes sends feedback three times, then rejects. */
  lemma DefaultCriticRejectsOnFourthReview(message: SloganResult, verdicts: seq<FeedbackResult>)
    requires |verdicts| == 4 && AllFail(NewExecutor(), verdicts)
    ensures var es := Reviews(NewExecutor(), message, verdicts).1;
      && es[1] == SendFeedback(verdicts[0])
      && es[3] == SendFeedback(verdicts[1])
      && es[5] == SendFeedback(verdicts[2])
      && es[7] == Output("这条广告语在 3 次尝试后被拒绝。最终广告语:\n\n" + message.slogan)
  {
    FailingCriticRetriesThenRejects(NewExecutor(), message, verdicts);
    assert IntToString(3) == "3";
  }
}
