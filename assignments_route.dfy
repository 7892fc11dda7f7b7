/** The assignments endpoint: the create and update schemas, the listing
    with its status and course filters (GET), creation in a course of the
    user's (POST) and the ownership-checked partial update (PATCH). */
module AssignmentsRoute {
  import opened Common
  import opened Entities
  import opened Store
  import opened Validation
  import AssignmentsPage

  const TitleRequired := "Assignment title is required"
  const CourseIdRequired := "Course ID is required"
  const IdRequired := "Assignment ID is required"
  const CourseNotFound := "Course not found or unauthorized"
  const AssignmentNotFound := "Assignment not found or unauthorized"

  const Kinds := ["assignment", "quiz", "exam", "project"]
  const Priorities := ["low", "medium", "high"]

  /** The where-clause of the GET. */
  datatype AssignmentWhere = AssignmentWhere(userId: Id, completed: Option<bool>, courseId: Option<Id>)

  predicate MatchesWhere(w: AssignmentWhere, a: Assignment) {
    a.userId == w.userId
    && (w.completed.Some? ==> a.completed == w.completed.value)
    && (w.courseId.Some? ==> a.courseId == w.courseId.value)
  }

  /** What the listing promises: the user's assignments, with the status
      the filter names ("pending" open, "completed" done, anything else
      either), in the given course when one is given. */
  predicate Listed(userId: Id, filter: Option<string>, courseId: Option<string>, a: Assignment) {
    a.userId == userId
    && (filter == Some("pending") ==> !a.completed)
    && (filter == Some("completed") ==> a.completed)
    && (Given(courseId) ==> a.courseId == courseId.value)
  }

  /** Lines 38-48: start from the owner, then add the completion flag for
      the two known filters and the course when it is given. */
  method BuildWhere(userId: Id, filter: Option<string>, courseId: Option<string>) returns (w: AssignmentWhere)
    ensures w.userId == userId
    ensures w.completed == (if filter == Some("pending") then Some(false)
                            else if filter == Some("completed") then Some(true) else None)
    ensures w.courseId.Some? <==> Given(courseId)
    ensures forall a: Assignment :: MatchesWhere(w, a) <==> Listed(userId, filter, courseId, a)
  {
    w := AssignmentWhere(userId, None, None);
    if filter == Some("pending") {
      w := w.(completed := Some(false));
    } else if filter == Some("completed") {
      w := w.(completed := Some(true));
    }
    if Given(courseId) {
      w := w.(courseId := Some(courseId.value));
    }
  }

  function DueKey(a: Assignment): int {
    a.dueDate
  }

  /** GET: 401 without a session user; otherwise the listed assignments,
      earliest due first. */
  method GetAssignments(db: Database, session: Option<Id>, filter: Option<string>, courseId: Option<string>)
    returns (reply: Reply<seq<Assignment>>)
    ensures !Authenticated(session) ==> reply == Fail(StatusUnauthorized, UnauthorizedMessage)
    ensures Authenticated(session) ==> reply.Ok? && reply.status == StatusOk
    ensures reply.Ok? ==>
      (forall i :: 0 <= i < |reply.value| ==>
         reply.value[i] in db.assignments && Listed(session.value, filter, courseId, reply.value[i]))
      && (forall i :: 0 <= i < |db.assignments| && Listed(session.value, filter, courseId, db.assignments[i]) ==>
            db.assignments[i] in reply.value)
      && SortedBy(reply.value, DueKey)
      && multiset(reply.value) == multiset(Filter(db.assignments, (a: Assignment) => Listed(session.value, filter, courseId, a)))
  {
    if !Authenticated(session) {
      return Fail(StatusUnauthorized, UnauthorizedMessage);
    }
    var w := BuildWhere(session.value, filter, courseId);
    var selected := Filter(db.assignments, (a: Assignment) => MatchesWhere(w, a));
    FilterCongruent(db.assignments, (a: Assignment) => MatchesWhere(w, a),
      (a: Assignment) => Listed(session.value, filter, courseId, a));
    var sorted := SortBy(selected, DueKey);
    forall i | 0 <= i < |sorted|
      ensures sorted[i] in db.assignments && Listed(session.value, filter, courseId, sorted[i])
    {
      assert sorted[i] in multiset(sorted);
    }
    forall i | 0 <= i < |db.assignments| && Listed(session.value, filter, courseId, db.assignments[i])
      ensures db.assignments[i] in sorted
    {
      assert db.assignments[i] in multiset(selected);
    }
    return Ok(StatusOk, sorted);
  }

  /** Without a course parameter the server's selection is the page's
      filter applied to the user's assignments. */
  lemma ServerFilterMatchesPage(all: seq<Assignment>, userId: Id, filter: string)
    ensures Filter(all, (a: Assignment) => Listed(userId, Some(filter), None, a))
      == AssignmentsPage.FilterAssignments(Filter(all, (a: Assignment) => a.userId == userId), filter)
  {
    var own := (a: Assignment) => a.userId == userId;
    var shown := (a: Assignment) => AssignmentsPage.ShownUnder(filter, a);
    FilterFilter(all, own, shown, (a: Assignment) => Listed(userId, Some(filter), None, a));
  }

  /** The JSON body of a POST. `dueDate` is the instant the date string
      denotes. */
  datatype AssignmentBody = AssignmentBody(
    title: Option<string>,
    description: Option<string>,
    kind: Option<string>,
    dueDate: Option<Timestamp>,
    points: Option<int>,
    priority: Option<string>,
    courseId: Option<string>)

  datatype AssignmentData = AssignmentData(
    title: string,
    description: Option<string>,
    kind: string,
    dueDate: Timestamp,
    points: int,
    priority: string,
    courseId: Id)

  /** `assignmentSchema.parse`: a non-empty title, a known type, a due
      date, points at least 1 (default 100), a known priority (default
      "medium") and a non-empty course id. */
  function ParseAssignment(b: AssignmentBody): (r: Result<AssignmentData>)
    ensures r.Success? <==>
      Given(b.title) && b.kind.Some? && b.kind.value in Kinds && b.dueDate.Some?
      && (b.points.None? || b.points.value >= 1)
      && (b.priority.None? || b.priority.value in Priorities)
      && Given(b.courseId)
    ensures r.Success? ==>
      r.value.title == b.title.value && r.value.description == b.description
      && r.value.kind == b.kind.value && r.value.dueDate == b.dueDate.value
      && r.value.points == (if b.points.Some? then b.points.value else 100) && r.value.points >= 1
      && r.value.priority == (if b.priority.Some? then b.priority.value else "medium")
      && r.value.courseId == b.courseId.value
    ensures b.title.None? ==> r == Failure(RequiredMessage)
    ensures b.title == Some("") ==> r == Failure(TitleRequired)
    ensures Given(b.title) ==>
      (b.kind.None? ==> r == Failure(RequiredMessage))
      && (b.kind.Some? && b.kind.value !in Kinds ==> r == Failure(EnumMessage(Kinds, b.kind.value)))
    ensures Given(b.title) && b.kind.Some? && b.kind.value in Kinds && b.dueDate.None? ==> r == Failure(RequiredMessage)
    ensures Given(b.title) && b.kind.Some? && b.kind.value in Kinds && b.dueDate.Some?
      && b.points.Some? && b.points.value < 1
      ==> r == Failure(MinMessage(1))
    ensures Given(b.title) && b.kind.Some? && b.kind.value in Kinds && b.dueDate.Some?
      && (b.points.None? || b.points.value >= 1) && b.priority.Some? && b.priority.value !in Priorities
      ==> r == Failure(EnumMessage(Priorities, b.priority.value))
    ensures Given(b.title) && b.kind.Some? && b.kind.value in Kinds && b.dueDate.Some?
      && (b.points.None? || b.points.value >= 1) && (b.priority.None? || b.priority.value in Priorities)
      ==> (b.courseId.None? ==> r == Failure(RequiredMessage))
          && (b.courseId == Some("") ==> r == Failure(CourseIdRequired))
  {
    var title := StringField(b.title, 1, TitleRequired);
    var kind := EnumField(b.kind, Kinds, None);
    var dueDate := if b.dueDate.Some? then Success(b.dueDate.value) else Failure(RequiredMessage);
    var points := NumberField(b.points, 1, None, Some(100));
    var priority := EnumField(b.priority, Priorities, Some("medium"));
    var courseId := StringField(b.courseId, 1, CourseIdRequired);
    var first := First(ErrorOf(title), First(ErrorOf(kind), First(ErrorOf(dueDate),
                   First(ErrorOf(points), First(ErrorOf(priority), ErrorOf(courseId))))));
    if first.Some? then Failure(first.value)
    else Success(AssignmentData(title.value, b.description, kind.value, dueDate.value, points.value,
                                priority.value, courseId.value))
  }

  /** A course the user may add assignments to. */
  predicate OwnedCourse(userId: Id, courseId: Id, c: Course) {
    c.id == courseId && c.userId == userId
  }

  /** POST: 401 without a session user; 400 with the first schema message;
      404 unless the course exists and is the user's; else the new, not yet
      completed assignment is appended and returned with 201. Nothing is
      stored on any failure. */
  method PostAssignment(db: Database, session: Option<Id>, body: AssignmentBody, newId: Id, now: Timestamp)
    returns (reply: Reply<Assignment>)
    requires db.Valid()
    requires !HasKey(db.assignments, (a: Assignment) => a.id, newId)
    modifies db`assignments
    ensures db.Valid()
    ensures !Authenticated(session) ==> reply == Fail(StatusUnauthorized, UnauthorizedMessage)
    ensures Authenticated(session) && ParseAssignment(body).Failure? ==>
      reply == Fail(StatusBadRequest, ParseAssignment(body).error)
    ensures Authenticated(session) && ParseAssignment(body).Success?
      && FindFirst(db.courses, (c: Course) => OwnedCourse(session.value, ParseAssignment(body).value.courseId, c)).None?
      ==> reply == Fail(StatusNotFound, CourseNotFound)
    ensures Authenticated(session) && ParseAssignment(body).Success?
      && FindFirst(db.courses, (c: Course) => OwnedCourse(session.value, ParseAssignment(body).value.courseId, c)).Some?
      ==> reply.Ok?
    ensures reply.Fail? ==> db.assignments == old(db.assignments)
    ensures reply.Ok? ==>
      Authenticated(session) && ParseAssignment(body).Success?
      && (exists i :: 0 <= i < |db.courses| && OwnedCourse(session.value, ParseAssignment(body).value.courseId, db.courses[i]))
      && reply.status == StatusCreated
      && db.assignments == old(db.assignments) + [reply.value]
      && var data := ParseAssignment(body).value;
      reply.value == Assignment(newId, session.value, data.courseId, data.title, data.description, data.kind,
                                data.dueDate, data.points, false, data.priority, now)
  {
    if !Authenticated(session) {
      return Fail(StatusUnauthorized, UnauthorizedMessage);
    }
    var parsed := ParseAssignment(body);
    if parsed.Failure? {
      return Fail(StatusBadRequest, parsed.error);
    }
    var data := parsed.value;
    var found := FindFirst(db.courses, (c: Course) => OwnedCourse(session.value, data.courseId, c));
    if found.None? {
      return Fail(StatusNotFound, CourseNotFound);
    }
    var assignment := Assignment(newId, session.value, data.courseId, data.title, data.description, data.kind,
                                 data.dueDate, data.points, false, data.priority, now);
    UniqueKeysAppend(db.assignments, (a: Assignment) => a.id, assignment);
    db.assignments := db.assignments + [assignment];
    return Ok(StatusCreated, assignment);
  }

  /** The JSON body of a PATCH: every field optional. */
  datatype AssignmentPatch = AssignmentPatch(
    completed: Option<bool>,
    title: Option<string>,
    description: Option<string>,
    dueDate: Option<Timestamp>,
    points: Option<int>,
    priority: Option<string>)

  /** `updateAssignmentSchema.parse`: only points (at least 1) and priority
      (a known one) can be rejected. */
  function ParsePatch(p: AssignmentPatch): (r: Result<AssignmentPatch>)
    ensures r.Success? <==> (p.points.None? || p.points.value >= 1) && (p.priority.None? || p.priority.value in Priorities)
    ensures r.Success? ==> r.value == p
    ensures p.points.Some? && p.points.value < 1 ==> r == Failure(MinMessage(1))
    ensures (p.points.None? || p.points.value >= 1) && p.priority.Some? && p.priority.value !in Priorities
      ==> r == Failure(EnumMessage(Priorities, p.priority.value))
  {
    var points := OptionalNumberField(p.points, 1, None);
    var priority := OptionalEnumField(p.priority, Priorities);
    var first := First(ErrorOf(points), ErrorOf(priority));
    if first.Some? then Failure(first.value) else Success(p)
  }

  /** `update({ data: validatedData })`: every supplied field is written,
      every absent one kept. */
  function ApplyPatch(a: Assignment, p: AssignmentPatch): (r: Assignment)
    ensures r.id == a.id && r.userId == a.userId && r.courseId == a.courseId
    ensures r.kind == a.kind && r.createdAt == a.createdAt
    ensures r.completed == (if p.completed.Some? then p.completed.value else a.completed)
    ensures r.title == (if p.title.Some? then p.title.value else a.title)
    ensures r.description == (if p.description.Some? then p.description else a.description)
    ensures r.dueDate == (if p.dueDate.Some? then p.dueDate.value else a.dueDate)
    ensures r.points == (if p.points.Some? then p.points.value else a.points)
    ensures r.priority == (if p.priority.Some? then p.priority.value else a.priority)
  {
    a.(completed := if p.completed.Some? then p.completed.value else a.completed,
       title := if p.title.Some? then p.title.value else a.title,
       description := if p.description.Some? then p.description else a.description,
       dueDate := if p.dueDate.Some? then p.dueDate.value else a.dueDate,
       points := if p.points.Some? then p.points.value else a.points,
       priority := if p.priority.Some? then p.priority.value else a.priority)
  }

  /** An empty patch changes nothing, and applying a patch twice is
      applying it once. */
  lemma ApplyPatchLaws(a: Assignment, p: AssignmentPatch)
    ensures ApplyPatch(a, AssignmentPatch(None, None, None, None, None, None)) == a
    ensures ApplyPatch(ApplyPatch(a, p), p) == ApplyPatch(a, p)
  {
  }

  /** The completion toggle of the assignments page sends exactly the
      flipped flag; on the server that flips the flag and nothing else. */
  lemma TogglePatchFlipsOnly(a: Assignment)
    ensures ApplyPatch(a, AssignmentPatch(Some(!a.completed), None, None, None, None, None))
      == a.(completed := !a.completed)
  {
  }

  /** An assignment the user may update. */
  predicate OwnedAssignment(userId: Id, id: Id, a: Assignment) {
    a.id == id && a.userId == userId
  }

  /** PATCH: 401 without a session user; 400 without an `id`; 400 with
      the first schema message; 404 unless the assignment exists and is the
      user's; else that record is replaced by the patched one and returned.
      Nothing changes on any failure. */
  method PatchAssignment(db: Database, session: Option<Id>, id: Option<string>, body: AssignmentPatch)
    returns (reply: Reply<Assignment>)
    requires db.Valid()
    modifies db`assignments
    ensures db.Valid()
    ensures !Authenticated(session) ==> reply == Fail(StatusUnauthorized, UnauthorizedMessage)
    ensures Authenticated(session) && !Given(id) ==> reply == Fail(StatusBadRequest, IdRequired)
    ensures Authenticated(session) && Given(id) && ParsePatch(body).Failure? ==>
      reply == Fail(StatusBadRequest, ParsePatch(body).error)
    ensures Authenticated(session) && Given(id) && ParsePatch(body).Success?
      && FindFirst(old(db.assignments), (a: Assignment) => OwnedAssignment(session.value, id.value, a)).None?
      ==> reply == Fail(StatusNotFound, AssignmentNotFound)
    ensures Authenticated(session) && Given(id) && ParsePatch(body).Success?
      && FindFirst(old(db.assignments), (a: Assignment) => OwnedAssignment(session.value, id.value, a)).Some?
      ==> reply.Ok?
    ensures reply.Fail? ==> db.assignments == old(db.assignments)
    ensures reply.Ok? ==>
      Authenticated(session) && Given(id) && ParsePatch(body).Success? && reply.status == StatusOk
      && exists i :: 0 <= i < |old(db.assignments)| && OwnedAssignment(session.value, id.value, old(db.assignments)[i])
           && reply.value == ApplyPatch(old(db.assignments)[i], body)
           && db.assignments == old(db.assignments)[i := reply.value]
  {
    if !Authenticated(session) {
      return Fail(StatusUnauthorized, UnauthorizedMessage);
    }
    if !Given(id) {
      return Fail(StatusBadRequest, IdRequired);
    }
    var parsed := ParsePatch(body);
    if parsed.Failure? {
      return Fail(StatusBadRequest, parsed.error);
    }
    var found := FindFirst(db.assignments, (a: Assignment) => OwnedAssignment(session.value, id.value, a));
    if found.None? {
      return Fail(StatusNotFound, AssignmentNotFound);
    }
    var i := found.value;
    var updated := ApplyPatch(db.assignments[i], parsed.value);
    UniqueKeysUpdate(db.assignments, (a: Assignment) => a.id, i, updated);
    db.assignments := db.assignments[i := updated];
    return Ok(StatusOk, updated);
  }
}
