/** The dashboard statistics endpoint: for the session user, the number of
    courses, of assignments and of completed assignments, the average grade
    rounded to one decimal, and the number of open assignments due within
    the next seven days. The handler only reads, so it is a function of the
    tables and of the current instant `now`. */
module StatsRoute {
  import opened Common
  import opened Entities
  import opened Dates
  import GradesPage
  import AssignmentsRoute

  datatype Stats = Stats(
    totalCourses: nat,
    totalAssignments: nat,
    completedAssignments: nat,
    averageGrade: real,
    upcomingDeadlines: nat)

  /** The upcoming-deadline count's where-clause: the user's, not
      completed, due from `now` up to and including `now` plus seven days. */
  predicate DueWithinWeek(userId: Id, now: Timestamp, a: Assignment) {
    a.userId == userId && !a.completed && now <= a.dueDate <= now + MsPerWeek
  }

  /** The mean of the percentages rounded to one decimal, or 0 without
      grades. */
  function AverageGrade(grades: seq<Grade>): (avg: real)
    ensures |grades| == 0 ==> avg == 0.0
    ensures |grades| > 0 ==> Mean(GradesPage.Percentages(grades)) - 0.05 < avg <= Mean(GradesPage.Percentages(grades)) + 0.05
    ensures (avg * 10.0).Floor as real == avg * 10.0
  {
    if |grades| > 0 then RoundToTenth(Mean(GradesPage.Percentages(grades))) else 0.0
  }

  /** GET: 401 without a session user; otherwise the user's statistics. */
  function DashboardStats(session: Option<Id>, courses: seq<Course>, assignments: seq<Assignment>,
                          grades: seq<Grade>, now: Timestamp): (r: Reply<Stats>)
    ensures !Authenticated(session) ==> r == Fail(StatusUnauthorized, UnauthorizedMessage)
    ensures Authenticated(session) ==> r.Ok? && r.status == StatusOk
    ensures r.Ok? ==>
      r.value.totalCourses == |Filter(courses, (c: Course) => c.userId == session.value)|
      && r.value.totalAssignments == |Filter(assignments, (a: Assignment) => a.userId == session.value)|
      && r.value.completedAssignments
         == |Filter(assignments, (a: Assignment) => a.userId == session.value && a.completed)|
      && r.value.upcomingDeadlines == |Filter(assignments, (a: Assignment) => DueWithinWeek(session.value, now, a))|
      && r.value.averageGrade == AverageGrade(Filter(grades, (g: Grade) => g.userId == session.value))
    ensures r.Ok? ==>
      r.value.completedAssignments + r.value.upcomingDeadlines <= r.value.totalAssignments
      && r.value.totalCourses <= |courses| && r.value.totalAssignments <= |assignments|
    ensures r.Ok? ==>
      (forall i :: 0 <= i < |grades| ==> grades[i].userId != session.value) ==> r.value.averageGrade == 0.0
  {
    if !Authenticated(session) then Fail(StatusUnauthorized, UnauthorizedMessage)
    else
      var u := session.value;
      var own := (a: Assignment) => a.userId == u;
      var done := (a: Assignment) => a.userId == u && a.completed;
      var open := (a: Assignment) => a.userId == u && !a.completed;
      var upcoming := (a: Assignment) => DueWithinWeek(u, now, a);
      var userGrades := Filter(grades, (g: Grade) => g.userId == u);
      FilterPartitionWithin(assignments, own, done, open);
      FilterCountMonotone(assignments, upcoming, open);
      Ok(StatusOk, Stats(
        |Filter(courses, (c: Course) => c.userId == u)|,
        |Filter(assignments, own)|,
        |Filter(assignments, done)|,
        AverageGrade(userGrades),
        |Filter(assignments, upcoming)|))
  }

  /** Splitting the survivors of `p` by two complementary refinements. */
  lemma FilterPartitionWithin<T>(s: seq<T>, p: T -> bool, yes: T -> bool, no: T -> bool)
    requires forall x :: yes(x) == (p(x) && !no(x))
    requires forall x :: no(x) ==> p(x)
    ensures |Filter(s, yes)| + |Filter(s, no)| == |Filter(s, p)|
  {
    var t := Filter(s, p);
    FilterFilter(s, p, yes, yes);
    FilterFilter(s, p, no, no);
    FilterCongruent(t, yes, (x: T) => !no(x));
    FilterPartition(t, (x: T) => !no(x), no);
  }

  /** Only the session user's records count: removing everybody else's
      changes nothing. */
  lemma StatsOwnRecordsOnly(u: Id, courses: seq<Course>, assignments: seq<Assignment>,
                            grades: seq<Grade>, now: Timestamp)
    requires u != ""
    ensures DashboardStats(Some(u), courses, assignments, grades, now)
      == DashboardStats(Some(u), Filter(courses, (c: Course) => c.userId == u),
                        Filter(assignments, (a: Assignment) => a.userId == u),
                        Filter(grades, (g: Grade) => g.userId == u), now)
  {
    var ownC := (c: Course) => c.userId == u;
    var ownA := (a: Assignment) => a.userId == u;
    var ownG := (g: Grade) => g.userId == u;
    FilterFilter(courses, ownC, ownC, ownC);
    FilterFilter(assignments, ownA, ownA, ownA);
    FilterFilter(assignments, ownA, (a: Assignment) => a.userId == u && a.completed,
      (a: Assignment) => a.userId == u && a.completed);
    FilterFilter(assignments, ownA, (a: Assignment) => DueWithinWeek(u, now, a),
      (a: Assignment) => DueWithinWeek(u, now, a));
    FilterFilter(grades, ownG, ownG, ownG);
  }

  /** The endpoint's average is the grades page's average for the same
      grades. */
  lemma AverageMatchesGradesPage(u: Id, courses: seq<Course>, assignments: seq<Assignment>,
                                 grades: seq<Grade>, now: Timestamp)
    requires u != ""
    ensures DashboardStats(Some(u), courses, assignments, grades, now).value.averageGrade
      == GradesPage.CalculateStats(Filter(grades, (g: Grade) => g.userId == u)).averageGrade
  {
  }

  /** The seven-day window is closed at both ends: an open assignment due
      exactly now or exactly seven days from now is counted, one due a
      millisecond earlier or later is not. */
  lemma WeekWindowBoundaries(a: Assignment, now: Timestamp)
    requires a.userId != "" && !a.completed
    ensures a.dueDate == now ==> DashboardStats(Some(a.userId), [], [a], [], now).value.upcomingDeadlines == 1
    ensures a.dueDate == now + MsPerWeek ==> DashboardStats(Some(a.userId), [], [a], [], now).value.upcomingDeadlines == 1
    ensures a.dueDate == now - 1 ==> DashboardStats(Some(a.userId), [], [a], [], now).value.upcomingDeadlines == 0
    ensures a.dueDate == now + MsPerWeek + 1 ==> DashboardStats(Some(a.userId), [], [a], [], now).value.upcomingDeadlines == 0
  {
    var s := [a];
    assert s[1..] == [];
  }

  /** Completing one of the user's open assignments through the update
      endpoint raises the completed count by one, keeps the total, and
      removes it from the upcoming count if it was there. */
  lemma CompletingOneAssignment(u: Id, courses: seq<Course>, assignments: seq<Assignment>,
                                grades: seq<Grade>, now: Timestamp, i: nat)
    requires u != "" && i < |assignments|
    requires assignments[i].userId == u && !assignments[i].completed
    ensures var patch := AssignmentsRoute.AssignmentPatch(Some(true), None, None, None, None, None);
      var after := assignments[i := AssignmentsRoute.ApplyPatch(assignments[i], patch)];
      var before := DashboardStats(Some(u), courses, assignments, grades, now).value;
      var st := DashboardStats(Some(u), courses, after, grades, now).value;
      st.totalAssignments == before.totalAssignments
      && st.completedAssignments == before.completedAssignments + 1
      && st.upcomingDeadlines == before.upcomingDeadlines - (if DueWithinWeek(u, now, assignments[i]) then 1 else 0)
      && st.totalCourses == before.totalCourses && st.averageGrade == before.averageGrade
  {
    var patch := AssignmentsRoute.AssignmentPatch(Some(true), None, None, None, None, None);
    var x := AssignmentsRoute.ApplyPatch(assignments[i], patch);
    FilterUpdateCount(assignments, i, x, (a: Assignment) => a.userId == u);
    FilterUpdateCount(assignments, i, x, (a: Assignment) => a.userId == u && a.completed);
    FilterUpdateCount(assignments, i, x, (a: Assignment) => DueWithinWeek(u, now, a));
  }
}
