/** The course-progress card of the dashboard: its own copy of the progress
    rule, and the "completed/total assignments" caption. */
module CourseProgress {
  import opened Common
  import opened Entities
  import CoursesPage

  /** `calculateProgress` of the card: 0 when the assignments are not
      loaded, 0 when there are none, otherwise the completed share in
      percent. */
  function CalculateProgress(c: Course): (p: real)
    ensures c.assignments.None? ==> p == 0.0
    ensures c.assignments.Some? && |c.assignments.value| == 0 ==> p == 0.0
    ensures 0.0 <= p <= 100.0
  {
    if c.assignments.None? then 0.0
    else
      var s := c.assignments.value;
      var completed := |Filter(s, (a: Assignment) => a.completed)|;
      if |s| > 0 then CoursesPage.Percent(completed, |s|) else 0.0
  }

  /** The card and the courses page compute the same progress for every
      course, so the two screens never disagree. */
  lemma AgreesWithCoursesPage(c: Course)
    ensures CalculateProgress(c) == CoursesPage.CalculateProgress(c)
  {
  }

  /** The caption's two numbers:
      `assignments?.filter(a => a.completed).length || 0` and
      `assignments?.length || 0`. */
  function Caption(c: Course): (counts: (nat, nat))
    ensures counts.0 <= counts.1
    ensures counts.1 == if c.assignments.Some? then |c.assignments.value| else 0
  {
    if c.assignments.None? then (0, 0)
    else (|Filter(c.assignments.value, (a: Assignment) => a.completed)|, |c.assignments.value|)
  }

  /** The caption's completed number is exactly the count the progress bar
      is computed from. */
  lemma CaptionMatchesProgress(c: Course)
    requires c.assignments.Some? && |c.assignments.value| > 0
    ensures var (done, total) := Caption(c);
      CalculateProgress(c) == done as real / total as real * 100.0
  {
  }
}
