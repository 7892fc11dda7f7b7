/** The courses page: per-course progress and pending counts, and the three
    totals under the course cards. */
module CoursesPage {
  import opened Common
  import opened Entities

  /** The course's assignments, the empty list when the relation is absent. */
  function AssignmentsOf(c: Course): seq<Assignment> {
    if c.assignments.Some? then c.assignments.value else []
  }

  /** `course.assignments?.filter(a => a.completed).length || 0`. */
  function CompletedCount(c: Course): nat {
    |Filter(AssignmentsOf(c), (a: Assignment) => a.completed)|
  }

  /** `getUpcomingAssignments`: the course's incomplete assignments. */
  function UpcomingCount(c: Course): nat {
    |Filter(AssignmentsOf(c), (a: Assignment) => !a.completed)|
  }

  /** `calculateProgress`: the completed share in percent, 0 when the
      assignments are absent or none exist. The result is always finite, so
      the page's `Number.isFinite` guard never replaces it. */
  function CalculateProgress(c: Course): (p: real)
    ensures 0.0 <= p <= 100.0
    ensures |AssignmentsOf(c)| == 0 ==> p == 0.0
    ensures |AssignmentsOf(c)| > 0 ==> (p == 100.0 <==> CompletedCount(c) == |AssignmentsOf(c)|)
  {
    var n := |AssignmentsOf(c)|;
    if n > 0 then
      Percent(CompletedCount(c), n)
    else 0.0
  }

  /** `(k / n) * 100` for a part `k` of a whole `n`. */
  function Percent(k: nat, n: nat): (p: real)
    requires 0 < n && k <= n
    ensures 0.0 <= p <= 100.0
    ensures p == 100.0 <==> k == n
  {
    var q := k as real / n as real;
    assert k as real == q * n as real;
    assert q <= 1.0;
    q * 100.0
  }

  /** The progress is 100 exactly when the course has assignments and every
      one of them is completed. */
  lemma {:induction false} ProgressFullIff(c: Course)
    ensures CalculateProgress(c) == 100.0 <==>
      c.assignments.Some? && |c.assignments.value| > 0 &&
      forall i :: 0 <= i < |c.assignments.value| ==> c.assignments.value[i].completed
  {
    FilterKeepsAll(AssignmentsOf(c), (a: Assignment) => a.completed);
  }

  /** Completed and pending assignments make up all of the course's
      assignments. */
  lemma CompletedPlusUpcoming(c: Course)
    ensures CompletedCount(c) + UpcomingCount(c) == |AssignmentsOf(c)|
  {
    FilterPartition(AssignmentsOf(c), (a: Assignment) => a.completed, (a: Assignment) => !a.completed);
  }

  /** "Total Credits": `courses.reduce((sum, c) => sum + c.credits, 0)`. */
  function TotalCredits(courses: seq<Course>): (t: int)
    ensures (forall j :: 0 <= j < |courses| ==> courses[j].credits >= 0) ==> t >= 0
  {
    if courses == [] then 0 else courses[0].credits + TotalCredits(courses[1..])
  }

  /** The total of two lists of courses is the sum of their totals, so the
      order of the courses does not matter for the card. */
  lemma {:induction false} TotalCreditsAppend(a: seq<Course>, b: seq<Course>)
    ensures TotalCredits(a + b) == TotalCredits(a) + TotalCredits(b)
  {
    if a != [] {
      assert (a + b)[1..] == a[1..] + b;
      TotalCreditsAppend(a[1..], b);
    } else {
      assert a + b == b;
    }
  }

  /** Non-negative credits give a non-negative total, at least the credits
      of any one course. */
  lemma {:induction false} TotalCreditsBounds(courses: seq<Course>, i: nat)
    requires forall j :: 0 <= j < |courses| ==> courses[j].credits >= 0
    requires i < |courses|
    ensures courses[i].credits <= TotalCredits(courses)
  {
    if i > 0 {
      TotalCreditsBounds(courses[1..], i - 1);
    } else {
      TotalCreditsNonNegative(courses[1..]);
    }
  }

  lemma {:induction false} TotalCreditsNonNegative(courses: seq<Course>)
    requires forall j :: 0 <= j < |courses| ==> courses[j].credits >= 0
    ensures TotalCredits(courses) >= 0
  {
    if courses != [] {
      TotalCreditsNonNegative(courses[1..]);
    }
  }

  /** The progress of every course, in order. */
  function Progresses(courses: seq<Course>): (ps: seq<real>)
    ensures |ps| == |courses|
    ensures forall i :: 0 <= i < |courses| ==> ps[i] == CalculateProgress(courses[i])
  {
    seq(|courses|, i requires 0 <= i < |courses| => CalculateProgress(courses[i]))
  }

  /** "Average Progress": 0 with no courses, otherwise the mean of the
      per-course progress values (before `toFixed(1)`). */
  function AverageProgress(courses: seq<Course>): (avg: real)
    ensures |courses| == 0 ==> avg == 0.0
    ensures 0.0 <= avg <= 100.0
  {
    if |courses| == 0 then 0.0
    else
      MeanWithin(Progresses(courses), 0.0, 100.0);
      Mean(Progresses(courses))
  }

  /** With courses, the average is the mean of their progresses: the sum
      of the per-course progress values divided by the number of courses. */
  lemma AverageProgressIsMean(courses: seq<Course>)
    requires |courses| > 0
    ensures AverageProgress(courses) == SumReals(Progresses(courses)) / |courses| as real
  {
  }

  /** The average reaches 100 exactly when there are courses and every one
      of them is at 100. */
  lemma {:induction false} AverageFullIff(courses: seq<Course>)
    ensures AverageProgress(courses) == 100.0 <==>
      |courses| > 0 && forall i :: 0 <= i < |courses| ==> CalculateProgress(courses[i]) == 100.0
  {
    if |courses| > 0 {
      MeanAtUpperBound(Progresses(courses), 100.0);
    }
  }

  /** Every loaded assignment of every course, course by course. */
  function AllAssignments(courses: seq<Course>): seq<Assignment> {
    if courses == [] then [] else AssignmentsOf(courses[0]) + AllAssignments(courses[1..])
  }

  /** "Pending Assignments": the per-course pending counts summed, which is
      the number of incomplete assignments over all courses. */
  function TotalPending(courses: seq<Course>): (n: nat)
    ensures n == |Filter(AllAssignments(courses), (a: Assignment) => !a.completed)|
  {
    if courses == [] then 0
    else
      FilterAppend(AssignmentsOf(courses[0]), AllAssignments(courses[1..]), (a: Assignment) => !a.completed);
      UpcomingCount(courses[0]) + TotalPending(courses[1..])
  }

  /** The pending total is the number of incomplete assignments across all
      courses, so it never exceeds the number of assignments. */
  lemma {:induction false} TotalPendingCountsIncomplete(courses: seq<Course>)
    ensures TotalPending(courses) == |Filter(AllAssignments(courses), (a: Assignment) => !a.completed)|
    ensures TotalPending(courses) <= |AllAssignments(courses)|
  {
    if courses != [] {
      TotalPendingCountsIncomplete(courses[1..]);
      FilterAppend(AssignmentsOf(courses[0]), AllAssignments(courses[1..]), (a: Assignment) => !a.completed);
    }
  }
}
