/** The step-quiz interactor (`domain/step_quiz/interactor/StepQuizInteractor.kt`): which
    attempt a quiz resumes, which submission it shows, how a new submission is polled until
    it is evaluated, and the submission limits of a step. */
module StepQuiz {
  import opened Common

  /** `Attempt`; only its status is inspected. */
  datatype Attempt = Attempt(id: int, step: int, status: string)

  /** `Submission.Status`; the interactor only tells evaluation apart from the rest. */
  datatype SubmissionStatus = Evaluation | Correct | Wrong | Local

  /** `Submission`; `reply` is the learner's answer, kept opaque. */
  datatype Submission = Submission(id: int, attempt: int, reply: string, status: SubmissionStatus)

  /** The status an attempt must have to be resumed. */
  const ActiveStatus: string := "active"

  /** `maybeFirst`: the first element of a list, if any. */
  function MaybeFirst<T>(xs: seq<T>): (r: Option<T>)
    ensures r.None? <==> xs == []
    ensures r.Some? ==> r.value == xs[0]
  {
    if |xs| == 0 then None else Some(xs[0])
  }

  /** `getAttempt`: resume the first stored attempt when it is active, otherwise create one.
      Only the first attempt is looked at. */
  function GetAttempt(existing: Result<seq<Attempt>>, create: Result<Attempt>): (r: Result<Attempt>)
    ensures existing.Err? ==> r == Err(existing.error)
    ensures existing.Ok? && |existing.value| > 0 && existing.value[0].status == ActiveStatus ==>
              r == Ok(existing.value[0])
    ensures existing.Ok? && (|existing.value| == 0 || existing.value[0].status != ActiveStatus) ==>
              r == create
  {
    match existing
    case Err(e) => Err(e)
    case Ok(attempts) =>
      match MaybeFirst(attempts)
      case Some(a) => if a.status == ActiveStatus then Ok(a) else create
      case None => create
  }

  /** A resumed attempt is always active; a non-active one is never resumed. */
  lemma ResumedAttemptIsActive(existing: seq<Attempt>, create: Result<Attempt>)
    requires create.Ok? ==> create.value.status != ActiveStatus
    ensures GetAttempt(Ok(existing), create).Ok? && GetAttempt(Ok(existing), create).value.status == ActiveStatus
            <==> |existing| > 0 && existing[0].status == ActiveStatus
  {
  }

  /** `getSubmission`: the first submission of the attempt, if any. */
  function GetSubmission(submissions: Result<seq<Submission>>): (r: Result<Option<Submission>>)
    ensures submissions.Err? ==> r == Err(submissions.error)
    ensures submissions.Ok? ==> r.Ok? && (r.value.None? <==> submissions.value == [])
    ensures submissions.Ok? && r.value.Some? ==> r.value.value == submissions.value[0]
  {
    match submissions
    case Err(e) => Err(e)
    case Ok(xs) => Ok(MaybeFirst(xs))
  }

  /** Where polling for an evaluated submission ended. */
  datatype PollResult = Evaluated(submission: Submission) | PollFailed(error: Error) | StillEvaluating

  /** A poll that does not end the wait: it found no submission, or one still in evaluation. */
  predicate KeepsWaiting(poll: Result<seq<Submission>>)
  {
    poll.Ok? && (poll.value == [] || poll.value[0].status == Evaluation)
  }

  /** The reference reading of the polling stream: skip polls that keep waiting, stop at the
      first that fails or shows a settled submission. */
  function FirstSettled(polls: seq<Result<seq<Submission>>>): (r: PollResult)
    ensures r.StillEvaluating? <==> forall i :: 0 <= i < |polls| ==> KeepsWaiting(polls[i])
    ensures r.Evaluated? ==>
              exists i :: 0 <= i < |polls| && (forall j :: 0 <= j < i ==> KeepsWaiting(polls[j]))
                          && polls[i].Ok? && polls[i].value != [] && polls[i].value[0] == r.submission
    ensures r.Evaluated? ==> r.submission.status != Evaluation
    ensures r.PollFailed? ==>
              exists i :: 0 <= i < |polls| && (forall j :: 0 <= j < i ==> KeepsWaiting(polls[j]))
                          && polls[i] == Err(r.error)
    decreases |polls|
  {
    if |polls| == 0 then StillEvaluating
    else if KeepsWaiting(polls[0]) then
      var r := FirstSettled(polls[1..]);
      assert forall j :: 1 <= j < |polls| ==> polls[j] == polls[1..][j - 1];
      r
    else match polls[0]
      case Err(e) => PollFailed(e)
      case Ok(xs) => Evaluated(xs[0])
  }

  /** `createSubmission`: send the reply for the attempt, then poll the attempt's submissions
      (one poll per second in the app; here the polls made so far) until the first of them is
      no longer being evaluated. */
  method CreateSubmission(attemptId: int, reply: string, created: Result<Submission>,
                          polls: seq<Result<seq<Submission>>>)
    returns (sent: Submission, r: PollResult)
    ensures sent.attempt == attemptId && sent.reply == reply
    ensures created.Err? ==> r == PollFailed(created.error)
    ensures created.Ok? ==> r == FirstSettled(polls)
  {
    // the id 0 and the status `Local` are placeholders: the submission the app sends carries
    // only the attempt and the reply, and the server assigns the rest
    sent := Submission(0, attemptId, reply, Local);
    if created.Err? {
      return sent, PollFailed(created.error);
    }
    var i := 0;
    while i < |polls| && KeepsWaiting(polls[i])
      invariant 0 <= i <= |polls|
      invariant FirstSettled(polls) == FirstSettled(polls[i..])
    {
      assert polls[i..][1..] == polls[i + 1..];
      i := i + 1;
    }
    if i == |polls| {
      r := StillEvaluating;
    } else {
      match polls[i]
      case Err(e) => r := PollFailed(e);
      case Ok(xs) => r := Evaluated(xs[0]);
    }
  }

  /** The first poll that does not keep waiting decides the result: its error, or its first
      submission. Later polls are never looked at. */
  lemma PollingStopsAtFirstSettled(polls: seq<Result<seq<Submission>>>, k: int)
    requires 0 <= k < |polls|
    requires forall j :: 0 <= j < k ==> KeepsWaiting(polls[j])
    requires !KeepsWaiting(polls[k])
    ensures FirstSettled(polls) == (if polls[k].Err? then PollFailed(polls[k].error)
                                    else Evaluated(polls[k].value[0]))
    decreases k
  {
  }

  // ---------------------------------------------------------------------------
  // Restrictions
  // ---------------------------------------------------------------------------

  datatype DiscountingPolicyType = NoDiscount | Inverse | FirstOne | FirstThree

  datatype Step = Step(id: int, maxSubmissionCount: int, hasSubmissionRestriction: bool)

  datatype Section = Section(discountingPolicy: Option<DiscountingPolicyType>)

  datatype StepQuizRestrictions = StepQuizRestrictions(
    submissionCount: int,
    maxSubmissionCount: int,
    discountingPolicyType: DiscountingPolicyType)

  /** The "no limit" value of `maxSubmissionCount`. */
  const Unlimited: int := -1

  /** `getStepRestrictions`: how many submissions the step has, its limit (or -1 when it has
      none), and the section's discounting policy (or none). */
  function GetStepRestrictions(step: Step, section: Option<Section>,
                               stepSubmissions: Result<seq<Submission>>): (r: Result<StepQuizRestrictions>)
    ensures stepSubmissions.Err? <==> r.Err?
    ensures r.Err? ==> r.error == stepSubmissions.error
    ensures r.Ok? ==> r.value.submissionCount == |stepSubmissions.value|
    ensures r.Ok? && step.hasSubmissionRestriction ==> r.value.maxSubmissionCount == step.maxSubmissionCount
    ensures r.Ok? && !step.hasSubmissionRestriction ==> r.value.maxSubmissionCount == Unlimited
    ensures r.Ok? && (section.None? || section.value.discountingPolicy.None?) ==>
              r.value.discountingPolicyType == NoDiscount
    ensures r.Ok? && section.Some? && section.value.discountingPolicy.Some? ==>
              r.value.discountingPolicyType == section.value.discountingPolicy.value
  {
    match stepSubmissions
    case Err(e) => Err(e)
    case Ok(submissions) =>
      var maxCount := if step.hasSubmissionRestriction then step.maxSubmissionCount else Unlimited;
      var policy :=
        if section.Some? && section.value.discountingPolicy.Some?
        then section.value.discountingPolicy.value else NoDiscount;
      Ok(StepQuizRestrictions(|submissions|, maxCount, policy))
  }
}
