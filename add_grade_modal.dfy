/** The add-grade dialog: choosing an assignment fills in its course and
    points, the live percentage preview, and the submit handler with its
    validation chain, letter-grade choice and form reset. Form fields are
    the strings the inputs hold. */
module AddGradeModal {
  import opened Common
  import opened Entities
  import opened NumberText
  import GradesPage

  const InvalidNumbersMessage := "Please enter valid score and points"
  const ScoreTooHighMessage := "Score cannot be greater than total points"
  const SubmitFailedMessage := "Failed to add grade"

  /** A parsed number is truthy: not `NaN` and not zero. */
  predicate Truthy(x: Option<real>) {
    x.Some? && x.value != 0.0
  }

  /** `calculatePercentage`: the preview next to the inputs, the rounded
      percentage when both numbers are truthy and the points positive, and
      0 otherwise (so also for a score of 0). */
  function CalculatePercentage(scoreText: string, pointsText: string): (pct: int)
    ensures var score, points := ParseFloat(scoreText), ParseFloat(pointsText);
      if Truthy(score) && Truthy(points) && points.value > 0.0
      then pct as real - 0.5 <= score.value / points.value * 100.0 < pct as real + 0.5
      else pct == 0
  {
    var score, points := ParseFloat(scoreText), ParseFloat(pointsText);
    if Truthy(score) && Truthy(points) && points.value > 0.0 then
      Round(score.value / points.value * 100.0)
    else 0
  }

  /** The modal's own `getLetterGrade`. */
  function GetLetterGrade(percentage: real): string {
    if percentage >= 90.0 then "A"
    else if percentage >= 80.0 then "B"
    else if percentage >= 70.0 then "C"
    else if percentage >= 60.0 then "D"
    else "F"
  }

  /** The modal's letter table is the grades page's table. */
  lemma GetLetterGradeAgrees(percentage: real)
    ensures GetLetterGrade(percentage) == GradesPage.LetterName(GradesPage.LetterGrade(percentage))
  {
  }

  /** The first two checks of `handleSubmit`, on the parsed score and
      points: numbers that are missing, zero, a negative score or
      non-positive points are invalid; a score above the points is too
      high. What passes is a positive score no higher than the points. */
  function CheckScoreAndPoints(score: Option<real>, points: Option<real>): (r: Result<(real, real)>)
    ensures r.Success? <==> score.Some? && points.Some? && 0.0 < score.value <= points.value
    ensures r.Success? ==> r.value == (score.value, points.value)
    ensures r.Failure? ==> r.error == InvalidNumbersMessage || r.error == ScoreTooHighMessage
    ensures r == Failure(InvalidNumbersMessage) <==>
      !Truthy(score) || !Truthy(points) || score.value < 0.0 || points.value <= 0.0
    ensures r == Failure(ScoreTooHighMessage) <==>
      score.Some? && points.Some? && 0.0 < score.value && 0.0 < points.value && score.value > points.value
  {
    if !Truthy(score) || !Truthy(points) || score.value < 0.0 || points.value <= 0.0 then
      Failure(InvalidNumbersMessage)
    else if score.value > points.value then
      Failure(ScoreTooHighMessage)
    else
      Success((score.value, points.value))
  }

  /** The JSON body posted to the grades endpoint. */
  datatype GradeSubmission = GradeSubmission(
    assignmentId: Id,
    courseId: Id,
    score: real,
    points: real,
    letterGrade: string,
    feedback: Option<string>)

  /** The letter sent: the user's choice when one was picked
      (`formData.letterGrade || ...`), otherwise the table's letter for the
      unrounded percentage. */
  function ChooseLetter(chosen: string, percentage: real): (l: string)
    ensures chosen != "" ==> l == chosen
    ensures chosen == "" ==> l == GradesPage.LetterName(GradesPage.LetterGrade(percentage))
  {
    GetLetterGradeAgrees(percentage);
    if chosen != "" then chosen else GetLetterGrade(percentage)
  }

  /** What `handleSubmit` sends for the given field values (score and
      points already parsed), or the message it shows instead. */
  function PrepareSubmission(assignmentId: string, courseId: string, score: Option<real>, points: Option<real>,
                             letterGrade: string, feedback: string): (r: Result<GradeSubmission>)
    ensures r.Failure? <==> CheckScoreAndPoints(score, points).Failure?
    ensures r.Failure? ==> r.error == CheckScoreAndPoints(score, points).error
    ensures r.Success? ==>
      Some(r.value.score) == score && Some(r.value.points) == points
      && 0.0 < r.value.score <= r.value.points
      && r.value.assignmentId == assignmentId && r.value.courseId == courseId
      && r.value.letterGrade == ChooseLetter(letterGrade, r.value.score / r.value.points * 100.0)
      && r.value.feedback == (if feedback == "" then None else Some(feedback))
  {
    match CheckScoreAndPoints(score, points)
    case Failure(e) => Failure(e)
    case Success((s, p)) =>
      var percentage := s / p * 100.0;
      Success(GradeSubmission(assignmentId, courseId, s, p,
        ChooseLetter(letterGrade, percentage), if feedback == "" then None else Some(feedback)))
  }

  lemma AcceptedPercentage(score: real, points: real)
    requires 0.0 < score <= points
    ensures 0.0 < score / points * 100.0 <= 100.0
  {
    var q := score / points;
    assert score == q * points;
  }

  /** A score of 0 is never submitted: the preview shows 0 and submitting
      reports invalid numbers, though the grades endpoint would accept it. */
  lemma ZeroScoreRejected(pointsText: string)
    ensures CalculatePercentage("0", pointsText) == 0
    ensures CheckScoreAndPoints(ParseFloat("0"), ParseFloat(pointsText)) == Failure(InvalidNumbersMessage)
  {
    assert IntToString(0) == "0";
    ParseFloatIntToString(0);
  }

  /** The endpoint's answer to the POST: `ok`, or the `error` field of its
      JSON body ("" when absent). A request that fails before an answer
      comes is `Thrown` with the exception's message. */
  datatype ServerAnswer = Accepted | Rejected(error: string) | Thrown(message: string)

  /** The message shown for a failed answer:
      `errorData.error || "Failed to add grade"`. */
  function FailureMessage(answer: ServerAnswer): (m: string)
    requires !answer.Accepted?
    ensures m != ""
    ensures var e := if answer.Rejected? then answer.error else answer.message;
      m == (if e != "" then e else SubmitFailedMessage)
  {
    var e := if answer.Rejected? then answer.error else answer.message;
    if e != "" then e else SubmitFailedMessage
  }

  /** `formData`: the six inputs of the dialog, as text. */
  datatype FormData = FormData(
    assignmentId: string,
    courseId: string,
    score: string,
    points: string,
    letterGrade: string,
    feedback: string)

  /** The initial and the reset value of `formData`: every field "". */
  const EmptyForm := FormData("", "", "", "", "", "")

  /** What `handleSubmit` posts for the form, or the message it shows. */
  function Prepare(form: FormData): Result<GradeSubmission> {
    PrepareSubmission(form.assignmentId, form.courseId, ParseFloat(form.score), ParseFloat(form.points),
      form.letterGrade, form.feedback)
  }

  /** Whatever is submitted has a percentage in (0, 100], and the preview
      shown beside the inputs is that percentage rounded. */
  lemma SubmissionMatchesPreview(form: FormData)
    requires Prepare(form).Success?
    ensures var g := Prepare(form).value;
      0.0 < g.score / g.points * 100.0 <= 100.0
      && CalculatePercentage(form.score, form.points) == Round(g.score / g.points * 100.0)
  {
    var g := Prepare(form).value;
    AcceptedPercentage(g.score, g.points);
  }

  /** The state of the dialog: the form fields, the error line and whether
      it is open. */
  class GradeForm {
    var formData: FormData
    var error: string
    var open: bool

    /** A fresh dialog: every field empty, no error, closed. */
    constructor ()
      ensures formData == EmptyForm && error == "" && !open
    {
      formData := EmptyForm;
      error := "";
      open := false;
    }

    /** `handleAssignmentChange`: for a known assignment, record its id and
        copy its course and its points (as text); an unknown id changes
        nothing. */
    method HandleAssignmentChange(assignments: seq<Assignment>, id: Id)
      modifies this
      ensures match FindFirst(assignments, (a: Assignment) => a.id == id)
        case None => formData == old(formData)
        case Some(i) =>
          formData == old(formData).(assignmentId := id, courseId := assignments[i].courseId,
                                     points := IntToString(assignments[i].points))
          && ParseFloat(formData.points) == Some(assignments[i].points as real)
      ensures error == old(error) && open == old(open)
    {
      var found := FindFirst(assignments, (a: Assignment) => a.id == id);
      if found.Some? {
        var a := assignments[found.value];
        formData := formData.(assignmentId := id, courseId := a.courseId, points := IntToString(a.points));
        ParseFloatIntToString(a.points);
      }
    }

    /** `handleSubmit`. The checks run first; only a submission that passes
        them is posted (`sent`), and `answer` is the endpoint's reply to it.
        On success the form is reset to "" in every field and the dialog
        closes; on any failure the message is shown and the form is kept. */
    method HandleSubmit(answer: ServerAnswer) returns (sent: Option<GradeSubmission>)
      modifies this
      ensures var prepared := Prepare(old(formData));
        (prepared.Success? ==> sent == Some(prepared.value))
        && (prepared.Failure? ==> sent == None && error == prepared.error)
      ensures sent.Some? && answer.Accepted? ==> formData == EmptyForm && error == "" && !open
      ensures sent.Some? && !answer.Accepted? ==> error == FailureMessage(answer)
      ensures !(sent.Some? && answer.Accepted?) ==> formData == old(formData) && open == old(open)
    {
      var prepared := Prepare(formData);
      error := "";
      if prepared.Failure? {
        error := prepared.error;
        sent := None;
      } else if !answer.Accepted? {
        sent := Some(prepared.value);
        error := FailureMessage(answer);
      } else {
        sent := Some(prepared.value);
        formData := EmptyForm;
        open := false;
      }
    }
  }
}
