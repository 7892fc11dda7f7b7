/** The goals endpoint: the create and update schemas, the listing with its
    status filter (GET), creation (POST) and the ownership-checked partial
    update (PATCH). */
module GoalsRoute {
  import opened Common
  import opened Entities
  import opened Store
  import opened Validation
  import GoalsPage

  const TitleRequired := "Goal title is required"
  const IdRequired := "Goal ID is required"
  const GoalNotFound := "Goal not found or unauthorized"

  const Categories := ["academic", "career", "personal"]
  const Priorities := ["low", "medium", "high"]

  /** What the listing promises: the user's goals, the open ones for
      "active", the finished ones for "completed", all for anything else. */
  predicate Listed(userId: Id, filter: Option<string>, g: Goal) {
    g.userId == userId
    && (filter == Some("active") ==> !g.completed)
    && (filter == Some("completed") ==> g.completed)
  }

  /** The where-clause of the GET. */
  datatype GoalWhere = GoalWhere(userId: Id, completed: Option<bool>)

  predicate MatchesWhere(w: GoalWhere, g: Goal) {
    g.userId == w.userId && (w.completed.Some? ==> g.completed == w.completed.value)
  }

  method BuildWhere(userId: Id, filter: Option<string>) returns (w: GoalWhere)
    ensures w.userId == userId
    ensures w.completed == (if filter == Some("active") then Some(false)
                            else if filter == Some("completed") then Some(true) else None)
    ensures forall g: Goal :: MatchesWhere(w, g) <==> Listed(userId, filter, g)
  {
    w := GoalWhere(userId, None);
    if filter == Some("active") {
      w := w.(completed := Some(false));
    } else if filter == Some("completed") {
      w := w.(completed := Some(true));
    }
  }

  /** `orderBy: { createdAt: 'desc' }` as an ascending key. */
  function NewestFirst(g: Goal): int {
    -g.createdAt
  }

  /** GET: 401 without a session user; otherwise the listed goals, newest
      first. */
  method GetGoals(db: Database, session: Option<Id>, filter: Option<string>) returns (reply: Reply<seq<Goal>>)
    ensures !Authenticated(session) ==> reply == Fail(StatusUnauthorized, UnauthorizedMessage)
    ensures Authenticated(session) ==> reply.Ok? && reply.status == StatusOk
    ensures reply.Ok? ==>
      (forall i :: 0 <= i < |reply.value| ==> reply.value[i] in db.goals && Listed(session.value, filter, reply.value[i]))
      && (forall i :: 0 <= i < |db.goals| && Listed(session.value, filter, db.goals[i]) ==> db.goals[i] in reply.value)
      && SortedBy(reply.value, NewestFirst)
      && multiset(reply.value) == multiset(Filter(db.goals, (g: Goal) => Listed(session.value, filter, g)))
  {
    if !Authenticated(session) {
      return Fail(StatusUnauthorized, UnauthorizedMessage);
    }
    var w := BuildWhere(session.value, filter);
    var selected := Filter(db.goals, (g: Goal) => MatchesWhere(w, g));
    FilterCongruent(db.goals, (g: Goal) => MatchesWhere(w, g), (g: Goal) => Listed(session.value, filter, g));
    var sorted := SortBy(selected, NewestFirst);
    forall i | 0 <= i < |sorted|
      ensures sorted[i] in db.goals && Listed(session.value, filter, sorted[i])
    {
      assert sorted[i] in multiset(sorted);
    }
    forall i | 0 <= i < |db.goals| && Listed(session.value, filter, db.goals[i])
      ensures db.goals[i] in sorted
    {
      assert db.goals[i] in multiset(selected);
    }
    return Ok(StatusOk, sorted);
  }

  /** The server's selection is the goals page's filter applied to the
      user's goals. */
  lemma ServerFilterMatchesPage(all: seq<Goal>, userId: Id, filter: string)
    ensures Filter(all, (g: Goal) => Listed(userId, Some(filter), g))
      == GoalsPage.FilterGoals(Filter(all, (g: Goal) => g.userId == userId), filter)
  {
    FilterFilter(all, (g: Goal) => g.userId == userId, (g: Goal) => GoalsPage.ShownUnder(filter, g),
      (g: Goal) => Listed(userId, Some(filter), g));
  }

  /** A target date as sent: the string and the instant `new Date` makes of
      it. */
  datatype DateText = DateText(text: string, instant: Timestamp)

  /** `.optional().transform((str) => str ? new Date(str) : undefined)`:
      an absent or empty string gives no date. */
  function TargetDate(t: Option<DateText>): (r: Option<Timestamp>)
    ensures r.Some? <==> t.Some? && t.value.text != ""
    ensures r.Some? ==> r.value == t.value.instant
  {
    if t.Some? && t.value.text != "" then Some(t.value.instant) else None
  }

  /** The JSON body of a POST. */
  datatype GoalBody = GoalBody(
    title: Option<string>,
    description: Option<string>,
    category: Option<string>,
    targetDate: Option<DateText>,
    priority: Option<string>,
    progress: Option<int>)

  datatype GoalData = GoalData(
    title: string,
    description: Option<string>,
    category: string,
    targetDate: Option<Timestamp>,
    priority: string,
    progress: int)

  /** `goalSchema.parse`: a non-empty title, a known category, a known
      priority (default "medium") and a progress in 0..100 (default 0). */
  function ParseGoal(b: GoalBody): (r: Result<GoalData>)
    ensures r.Success? <==>
      Given(b.title) && b.category.Some? && b.category.value in Categories
      && (b.priority.None? || b.priority.value in Priorities)
      && (b.progress.None? || 0 <= b.progress.value <= 100)
    ensures r.Success? ==>
      r.value.title == b.title.value && r.value.description == b.description
      && r.value.category == b.category.value && r.value.targetDate == TargetDate(b.targetDate)
      && r.value.priority == (if b.priority.Some? then b.priority.value else "medium")
      && r.value.progress == (if b.progress.Some? then b.progress.value else 0)
      && 0 <= r.value.progress <= 100
    ensures b.title.None? ==> r == Failure(RequiredMessage)
    ensures b.title == Some("") ==> r == Failure(TitleRequired)
    ensures Given(b.title) ==>
      (b.category.None? ==> r == Failure(RequiredMessage))
      && (b.category.Some? && b.category.value !in Categories
          ==> r == Failure(EnumMessage(Categories, b.category.value)))
    ensures Given(b.title) && b.category.Some? && b.category.value in Categories
      && b.priority.Some? && b.priority.value !in Priorities
      ==> r == Failure(EnumMessage(Priorities, b.priority.value))
    ensures Given(b.title) && b.category.Some? && b.category.value in Categories
      && (b.priority.None? || b.priority.value in Priorities) && b.progress.Some?
      ==> (b.progress.value < 0 ==> r == Failure(MinMessage(0)))
          && (b.progress.value > 100 ==> r == Failure(MaxMessage(100)))
  {
    var title := StringField(b.title, 1, TitleRequired);
    var category := EnumField(b.category, Categories, None);
    var priority := EnumField(b.priority, Priorities, Some("medium"));
    var progress := NumberField(b.progress, 0, Some(100), Some(0));
    var first := First(ErrorOf(title), First(ErrorOf(category), First(ErrorOf(priority), ErrorOf(progress))));
    if first.Some? then Failure(first.value)
    else Success(GoalData(title.value, b.description, category.value, TargetDate(b.targetDate),
                          priority.value, progress.value))
  }

  /** POST: 401 without a session user; 400 with the first schema message;
      else the new goal, not completed, owned by the session user, is
      appended and returned with 201. */
  method PostGoal(db: Database, session: Option<Id>, body: GoalBody, newId: Id, now: Timestamp)
    returns (reply: Reply<Goal>)
    requires db.Valid()
    requires !HasKey(db.goals, (g: Goal) => g.id, newId)
    modifies db`goals
    ensures db.Valid()
    ensures !Authenticated(session) ==> reply == Fail(StatusUnauthorized, UnauthorizedMessage)
    ensures Authenticated(session) && ParseGoal(body).Failure? ==>
      reply == Fail(StatusBadRequest, ParseGoal(body).error)
    ensures reply.Fail? ==> db.goals == old(db.goals)
    ensures Authenticated(session) && ParseGoal(body).Success? ==>
      reply.Ok? && reply.status == StatusCreated
      && db.goals == old(db.goals) + [reply.value]
      && var data := ParseGoal(body).value;
      reply.value == Goal(newId, session.value, data.title, data.description, data.category, data.targetDate,
                          data.priority, false, data.progress, now)
  {
    if !Authenticated(session) {
      return Fail(StatusUnauthorized, UnauthorizedMessage);
    }
    var parsed := ParseGoal(body);
    if parsed.Failure? {
      return Fail(StatusBadRequest, parsed.error);
    }
    var data := parsed.value;
    var goal := Goal(newId, session.value, data.title, data.description, data.category, data.targetDate,
                     data.priority, false, data.progress, now);
    UniqueKeysAppend(db.goals, (g: Goal) => g.id, goal);
    db.goals := db.goals + [goal];
    return Ok(StatusCreated, goal);
  }

  /** The JSON body of a PATCH: every field optional. */
  datatype GoalPatchBody = GoalPatchBody(
    completed: Option<bool>,
    title: Option<string>,
    description: Option<string>,
    targetDate: Option<DateText>,
    priority: Option<string>,
    progress: Option<int>)

  /** The validated update: `None` leaves a field as it is. */
  datatype GoalUpdate = GoalUpdate(
    completed: Option<bool>,
    title: Option<string>,
    description: Option<string>,
    targetDate: Option<Timestamp>,
    priority: Option<string>,
    progress: Option<int>)

  /** `updateGoalSchema.parse`: only priority (a known one) and progress
      (0..100) can be rejected. */
  function ParseGoalPatch(b: GoalPatchBody): (r: Result<GoalUpdate>)
    ensures r.Success? <==> (b.priority.None? || b.priority.value in Priorities)
                            && (b.progress.None? || 0 <= b.progress.value <= 100)
    ensures r.Success? ==>
      r.value == GoalUpdate(b.completed, b.title, b.description, TargetDate(b.targetDate), b.priority, b.progress)
    ensures b.priority.Some? && b.priority.value !in Priorities ==> r == Failure(EnumMessage(Priorities, b.priority.value))
    ensures (b.priority.None? || b.priority.value in Priorities) && b.progress.Some? ==>
      (b.progress.value < 0 ==> r == Failure(MinMessage(0)))
      && (b.progress.value > 100 ==> r == Failure(MaxMessage(100)))
  {
    var priority := OptionalEnumField(b.priority, Priorities);
    var progress := OptionalNumberField(b.progress, 0, Some(100));
    var first := First(ErrorOf(priority), ErrorOf(progress));
    if first.Some? then Failure(first.value)
    else Success(GoalUpdate(b.completed, b.title, b.description, TargetDate(b.targetDate), b.priority, b.progress))
  }

  /** `update({ data: validatedData })`. */
  function ApplyUpdate(g: Goal, u: GoalUpdate): (r: Goal)
    ensures r.id == g.id && r.userId == g.userId && r.category == g.category && r.createdAt == g.createdAt
    ensures r.completed == (if u.completed.Some? then u.completed.value else g.completed)
    ensures r.title == (if u.title.Some? then u.title.value else g.title)
    ensures r.description == (if u.description.Some? then u.description else g.description)
    ensures r.targetDate == (if u.targetDate.Some? then u.targetDate else g.targetDate)
    ensures r.priority == (if u.priority.Some? then u.priority.value else g.priority)
    ensures r.progress == (if u.progress.Some? then u.progress.value else g.progress)
  {
    g.(completed := if u.completed.Some? then u.completed.value else g.completed,
       title := if u.title.Some? then u.title.value else g.title,
       description := if u.description.Some? then u.description else g.description,
       targetDate := if u.targetDate.Some? then u.targetDate else g.targetDate,
       priority := if u.priority.Some? then u.priority.value else g.priority,
       progress := if u.progress.Some? then u.progress.value else g.progress)
  }

  /** A target date sent as "" does not clear the stored one: the
      transform turns it into `undefined`, which the update skips. */
  lemma EmptyTargetDateKept(g: Goal, instant: Timestamp)
    ensures var body := GoalPatchBody(None, None, None, Some(DateText("", instant)), None, None);
      ParseGoalPatch(body).Success? && ApplyUpdate(g, ParseGoalPatch(body).value) == g
  {
  }

  /** The PATCH body the goals page's toggle sends; for a stored goal with
      a progress in range the server accepts it and makes exactly the
      page's toggled goal. */
  function ToggleBody(p: GoalsPage.GoalPatch): GoalPatchBody {
    GoalPatchBody(Some(p.completed), None, None, None, None, Some(p.progress))
  }

  lemma ToggleMatchesPage(g: Goal)
    requires 0 <= g.progress <= 100
    ensures var body := ToggleBody(GoalsPage.GoalPatch(!g.completed, if g.completed then g.progress else 100));
      ParseGoalPatch(body).Success? && ApplyUpdate(g, ParseGoalPatch(body).value) == GoalsPage.Toggled(g)
  {
  }

  predicate OwnedGoal(userId: Id, id: Id, g: Goal) {
    g.id == id && g.userId == userId
  }

  /** PATCH: 401 without a session user; 400 without an `id`; 400 with
      the first schema message; 404 unless the goal exists and is the
      user's; else that record is replaced by the updated one and returned.
      Nothing changes on any failure. */
  method PatchGoal(db: Database, session: Option<Id>, id: Option<string>, body: GoalPatchBody)
    returns (reply: Reply<Goal>)
    requires db.Valid()
    modifies db`goals
    ensures db.Valid()
    ensures !Authenticated(session) ==> reply == Fail(StatusUnauthorized, UnauthorizedMessage)
    ensures Authenticated(session) && !Given(id) ==> reply == Fail(StatusBadRequest, IdRequired)
    ensures Authenticated(session) && Given(id) && ParseGoalPatch(body).Failure? ==>
      reply == Fail(StatusBadRequest, ParseGoalPatch(body).error)
    ensures Authenticated(session) && Given(id) && ParseGoalPatch(body).Success?
      && FindFirst(old(db.goals), (g: Goal) => OwnedGoal(session.value, id.value, g)).None?
      ==> reply == Fail(StatusNotFound, GoalNotFound)
    ensures Authenticated(session) && Given(id) && ParseGoalPatch(body).Success?
      && FindFirst(old(db.goals), (g: Goal) => OwnedGoal(session.value, id.value, g)).Some?
      ==> reply.Ok?
    ensures reply.Fail? ==> db.goals == old(db.goals)
    ensures reply.Ok? ==>
      Authenticated(session) && Given(id) && ParseGoalPatch(body).Success? && reply.status == StatusOk
      && exists i :: 0 <= i < |old(db.goals)| && OwnedGoal(session.value, id.value, old(db.goals)[i])
           && reply.value == ApplyUpdate(old(db.goals)[i], ParseGoalPatch(body).value)
           && db.goals == old(db.goals)[i := reply.value]
  {
    if !Authenticated(session) {
      return Fail(StatusUnauthorized, UnauthorizedMessage);
    }
    if !Given(id) {
      return Fail(StatusBadRequest, IdRequired);
    }
    var parsed := ParseGoalPatch(body);
    if parsed.Failure? {
      return Fail(StatusBadRequest, parsed.error);
    }
    var found := FindFirst(db.goals, (g: Goal) => OwnedGoal(session.value, id.value, g));
    if found.None? {
      return Fail(StatusNotFound, GoalNotFound);
    }
    var i := found.value;
    var updated := ApplyUpdate(db.goals[i], parsed.value);
    UniqueKeysUpdate(db.goals, (g: Goal) => g.id, i, updated);
    db.goals := db.goals[i := updated];
    return Ok(StatusOk, updated);
  }
}
