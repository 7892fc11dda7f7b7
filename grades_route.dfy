/** The grades endpoint: `gradeSchema`, the server-side percentage, the
    listing with its optional course filter (GET) and the ownership-checked
    creation (POST). */
module GradesRoute {
  import opened Common
  import opened Entities
  import opened Store
  import opened Validation
  import GradesPage

  const AssignmentIdRequired := "Assignment ID is required"
  const CourseIdRequired := "Course ID is required"
  const AssignmentNotFound := "Assignment not found or unauthorized"

  /** The JSON body of a POST, field by field. */
  datatype GradeBody = GradeBody(
    score: Option<real>,
    points: Option<real>,
    letterGrade: Option<string>,
    feedback: Option<string>,
    assignmentId: Option<string>,
    courseId: Option<string>)

  /** What `gradeSchema.parse` returns. */
  datatype GradeData = GradeData(
    score: real,
    points: real,
    letterGrade: Option<string>,
    feedback: Option<string>,
    assignmentId: Id,
    courseId: Id)

  /** `gradeSchema.parse`: score at least 0, points at least 1 (default
      100), both ids non-empty; otherwise the first failing field's
      message, the fields taken in the order score, points, assignmentId,
      courseId. */
  function ParseGrade(b: GradeBody): (r: Result<GradeData>)
    ensures r.Success? <==>
      b.score.Some? && b.score.value >= 0.0 && (b.points.None? || b.points.value >= 1.0)
      && Given(b.assignmentId) && Given(b.courseId)
    ensures r.Success? ==>
      r.value.score == b.score.value
      && r.value.points == (if b.points.Some? then b.points.value else 100.0)
      && r.value.points >= 1.0
      && r.value.assignmentId == b.assignmentId.value && r.value.courseId == b.courseId.value
      && r.value.letterGrade == b.letterGrade && r.value.feedback == b.feedback
    ensures b.score.None? ==> r == Failure(RequiredMessage)
    ensures b.score.Some? && b.score.value < 0.0 ==> r == Failure(MinMessage(0))
    ensures b.score.Some? && b.score.value >= 0.0 && b.points.Some? && b.points.value < 1.0 ==> r == Failure(MinMessage(1))
    ensures b.score.Some? && b.score.value >= 0.0 && (b.points.None? || b.points.value >= 1.0) ==>
      (b.assignmentId.None? ==> r == Failure(RequiredMessage))
      && (b.assignmentId == Some("") ==> r == Failure(AssignmentIdRequired))
    ensures b.score.Some? && b.score.value >= 0.0 && (b.points.None? || b.points.value >= 1.0) && Given(b.assignmentId) ==>
      (b.courseId.None? ==> r == Failure(RequiredMessage))
      && (b.courseId == Some("") ==> r == Failure(CourseIdRequired))
  {
    var score := RealField(b.score, 0, None);
    var points := RealField(b.points, 1, Some(100.0));
    var assignmentId := StringField(b.assignmentId, 1, AssignmentIdRequired);
    var courseId := StringField(b.courseId, 1, CourseIdRequired);
    var first := First(ErrorOf(score), First(ErrorOf(points), First(ErrorOf(assignmentId), ErrorOf(courseId))));
    if first.Some? then Failure(first.value)
    else Success(GradeData(score.value, points.value, b.letterGrade, b.feedback, assignmentId.value, courseId.value))
  }

  /** `(score / points) * 100`, computed by the server and never clamped. */
  function Percentage(score: real, points: real): (p: real)
    requires points > 0.0
    ensures p * points == score * 100.0
  {
    var q := score / points;
    assert q * points == score;
    q * 100.0
  }

  /** A score above the points (extra credit) gives more than 100 percent;
      a score within the points gives at most 100. */
  lemma PercentageBounds(score: real, points: real)
    requires points > 0.0 && score >= 0.0
    ensures score > points ==> Percentage(score, points) > 100.0
    ensures score <= points ==> 0.0 <= Percentage(score, points) <= 100.0
  {
    var p := Percentage(score, points);
    if score > points {
      assert p * points > 100.0 * points;
    } else {
      assert p * points <= 100.0 * points;
    }
  }

  /** 85 out of 100 is stored as 85 percent, letter B. */
  lemma EightyFiveOutOfHundred()
    ensures Percentage(85.0, 100.0) == 85.0
    ensures GradesPage.LetterGrade(Percentage(85.0, 100.0)) == GradesPage.B
  {
  }

  /** The grades a GET returns: the user's, and only the given course's
      when `courseId` is a non-empty query parameter. */
  predicate Listed(userId: Id, courseId: Option<string>, g: Grade) {
    g.userId == userId && (Given(courseId) ==> g.courseId == courseId.value)
  }

  /** `orderBy: { createdAt: 'desc' }` as an ascending key. */
  function NewestFirst(g: Grade): int {
    -g.createdAt
  }

  /** The where-clause of the GET: the owner, and the course when given. */
  datatype GradeWhere = GradeWhere(userId: Id, courseId: Option<Id>)

  predicate MatchesWhere(w: GradeWhere, g: Grade) {
    g.userId == w.userId && (w.courseId.Some? ==> g.courseId == w.courseId.value)
  }

  /** `let whereClause = { userId }; if (courseId) whereClause.courseId = courseId;` */
  method BuildWhere(userId: Id, courseId: Option<string>) returns (w: GradeWhere)
    ensures w.userId == userId
    ensures w.courseId.Some? <==> Given(courseId)
    ensures forall g: Grade :: MatchesWhere(w, g) <==> Listed(userId, courseId, g)
  {
    w := GradeWhere(userId, None);
    if Given(courseId) {
      w := w.(courseId := Some(courseId.value));
    }
  }

  /** GET: 401 without a session user; otherwise every grade of the user
      (of the course, when one is given), newest first. */
  method GetGrades(db: Database, session: Option<Id>, courseId: Option<string>) returns (reply: Reply<seq<Grade>>)
    ensures !Authenticated(session) ==> reply == Fail(StatusUnauthorized, UnauthorizedMessage)
    ensures Authenticated(session) ==> reply.Ok? && reply.status == StatusOk
    ensures reply.Ok? ==>
      (forall i :: 0 <= i < |reply.value| ==> reply.value[i] in db.grades && Listed(session.value, courseId, reply.value[i]))
      && (forall i :: 0 <= i < |db.grades| && Listed(session.value, courseId, db.grades[i]) ==> db.grades[i] in reply.value)
      && SortedBy(reply.value, NewestFirst)
      && multiset(reply.value) == multiset(Filter(db.grades, (g: Grade) => Listed(session.value, courseId, g)))
  {
    if !Authenticated(session) {
      return Fail(StatusUnauthorized, UnauthorizedMessage);
    }
    var w := BuildWhere(session.value, courseId);
    var selected := Filter(db.grades, (g: Grade) => MatchesWhere(w, g));
    FilterCongruent(db.grades, (g: Grade) => MatchesWhere(w, g), (g: Grade) => Listed(session.value, courseId, g));
    var sorted := SortBy(selected, NewestFirst);
    forall i | 0 <= i < |sorted|
      ensures sorted[i] in db.grades && Listed(session.value, courseId, sorted[i])
    {
      assert sorted[i] in multiset(sorted);
    }
    forall i | 0 <= i < |db.grades| && Listed(session.value, courseId, db.grades[i])
      ensures db.grades[i] in sorted
    {
      assert db.grades[i] in multiset(selected);
    }
    return Ok(StatusOk, sorted);
  }

  /** The assignment a new grade must refer to: the given id, owned by the
      user, in the given course. */
  predicate GradableBy(userId: Id, data: GradeData, a: Assignment) {
    a.id == data.assignmentId && a.userId == userId && a.courseId == data.courseId
  }

  /** POST: 401 without a session user; 400 with the first schema message;
      404 unless an assignment with that id, owner and course exists; else
      the grade, with its percentage computed here and the session user as
      owner, is appended and returned with 201. Nothing is stored on any
      failure. `newId` and `now` are the id and the creation time the
      database assigns. */
  method PostGrade(db: Database, session: Option<Id>, body: GradeBody, newId: Id, now: Timestamp)
    returns (reply: Reply<Grade>)
    requires db.Valid()
    requires !HasKey(db.grades, (g: Grade) => g.id, newId)
    modifies db`grades
    ensures db.Valid()
    ensures !Authenticated(session) ==> reply == Fail(StatusUnauthorized, UnauthorizedMessage)
    ensures Authenticated(session) && ParseGrade(body).Failure? ==>
      reply == Fail(StatusBadRequest, ParseGrade(body).error)
    ensures Authenticated(session) && ParseGrade(body).Success?
      && FindFirst(db.assignments, (a: Assignment) => GradableBy(session.value, ParseGrade(body).value, a)).None?
      ==> reply == Fail(StatusNotFound, AssignmentNotFound)
    ensures Authenticated(session) && ParseGrade(body).Success?
      && FindFirst(db.assignments, (a: Assignment) => GradableBy(session.value, ParseGrade(body).value, a)).Some?
      ==> reply.Ok?
    ensures reply.Fail? ==> db.grades == old(db.grades)
    ensures reply.Ok? ==>
      Authenticated(session) && ParseGrade(body).Success?
      && (exists i :: 0 <= i < |db.assignments| && GradableBy(session.value, ParseGrade(body).value, db.assignments[i]))
      && reply.status == StatusCreated
      && db.grades == old(db.grades) + [reply.value]
      && var data := ParseGrade(body).value;
      reply.value == Grade(newId, session.value, data.assignmentId, data.courseId, data.score, data.points,
                           Percentage(data.score, data.points), data.letterGrade, data.feedback, now)
  {
    if !Authenticated(session) {
      return Fail(StatusUnauthorized, UnauthorizedMessage);
    }
    var parsed := ParseGrade(body);
    if parsed.Failure? {
      return Fail(StatusBadRequest, parsed.error);
    }
    var data := parsed.value;
    var percentage := Percentage(data.score, data.points);
    var found := FindFirst(db.assignments, (a: Assignment) => GradableBy(session.value, data, a));
    if found.None? {
      return Fail(StatusNotFound, AssignmentNotFound);
    }
    var grade := Grade(newId, session.value, data.assignmentId, data.courseId, data.score, data.points,
                       percentage, data.letterGrade, data.feedback, now);
    UniqueKeysAppend(db.grades, (g: Grade) => g.id, grade);
    db.grades := db.grades + [grade];
    return Ok(StatusCreated, grade);
  }
}
