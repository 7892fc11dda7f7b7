/** The calendar page: the assignments of a day, the selected day's list,
    the day cells with their "+n more" cap, the upcoming-deadline list and
    the month navigation. Calendar days are taken in UTC. */
module CalendarPage {
  import opened Common
  import opened Entities
  import opened Dates

  /** `isSameDay(new Date(a.dueDate), date)`. */
  predicate DueOn(a: Assignment, date: CalendarDate) {
    DayOf(a.dueDate) == DateDayNumber(date)
  }

  /** `getAssignmentsForDate`: the assignments due on that calendar day, in
      list order. */
  function AssignmentsForDate(assignments: seq<Assignment>, date: CalendarDate): (r: seq<Assignment>)
    ensures IsSubsequence(r, assignments)
    ensures forall i :: 0 <= i < |r| ==> r[i] in assignments && DueOn(r[i], date)
    ensures forall i :: 0 <= i < |assignments| && DueOn(assignments[i], date) ==> assignments[i] in r
  {
    Filter(assignments, (a: Assignment) => DueOn(a, date))
  }

  /** An assignment due at any instant of a day is listed under that day,
      and under no other day. */
  lemma DueOnInstant(a: Assignment, date: CalendarDate)
    requires DateDayNumber(date) * MsPerDay <= a.dueDate < (DateDayNumber(date) + 1) * MsPerDay
    ensures DueOn(a, date)
    ensures forall other: CalendarDate :: DueOn(a, other) ==> DateDayNumber(other) == DateDayNumber(date)
  {
  }

  /** `getSelectedDateAssignments`: nothing while no day is selected. */
  function SelectedDateAssignments(assignments: seq<Assignment>, selected: Option<CalendarDate>): (r: seq<Assignment>)
    ensures selected.None? ==> r == []
    ensures selected.Some? ==> r == AssignmentsForDate(assignments, selected.value)
  {
    match selected
    case None => []
    case Some(date) => AssignmentsForDate(assignments, date)
  }

  /** What a day cell shows: the first two of the day's assignments, and
      the "+n more" note (`None` when it is not rendered). */
  datatype DayCell = DayCell(shown: seq<Assignment>, more: Option<nat>)

  function DayCellFor(assignments: seq<Assignment>, day: CalendarDate): (cell: DayCell)
    ensures var due := AssignmentsForDate(assignments, day);
      |cell.shown| == Min(2, |due|)
      && cell.shown == due[..|cell.shown|]
      && (cell.more.Some? <==> |due| > 2)
      && (cell.more.Some? ==> cell.more.value == |due| - 2)
      && |cell.shown| + (if cell.more.Some? then cell.more.value else 0) == |due|
  {
    var due := AssignmentsForDate(assignments, day);
    DayCell(Take(due, 2), if |due| > 2 then Some(|due| - 2) else None)
  }

  /** The candidates of the upcoming list:
      `!a.completed && new Date(a.dueDate) >= new Date()`. */
  predicate Upcoming(a: Assignment, now: Timestamp) {
    !a.completed && a.dueDate >= now
  }

  function DueKey(a: Assignment): int {
    a.dueDate
  }

  /** The upcoming candidates sorted by due date, earliest first. */
  function SortedUpcoming(assignments: seq<Assignment>, now: Timestamp): (s: seq<Assignment>)
    ensures SortedBy(s, DueKey)
    ensures multiset(s) == multiset(Filter(assignments, (a: Assignment) => Upcoming(a, now)))
    ensures |s| == |Filter(assignments, (a: Assignment) => Upcoming(a, now))|
  {
    SortBy(Filter(assignments, (a: Assignment) => Upcoming(a, now)), DueKey)
  }

  /** "Upcoming Deadlines": the incomplete assignments not yet due, sorted by
      due date, at most five of them, and no candidate left out is due
      earlier than one that is shown. */
  function UpcomingDeadlines(assignments: seq<Assignment>, now: Timestamp): (r: seq<Assignment>)
    ensures |r| == Min(5, |Filter(assignments, (a: Assignment) => Upcoming(a, now))|)
    ensures forall i :: 0 <= i < |r| ==> r[i] in assignments && Upcoming(r[i], now)
    ensures SortedBy(r, DueKey)
    ensures var s := SortedUpcoming(assignments, now);
      r == s[..|r|] && forall i, j :: 0 <= i < |r| <= j < |s| ==> DueKey(r[i]) <= DueKey(s[j])
  {
    var upcoming := (a: Assignment) => Upcoming(a, now);
    var s := SortedUpcoming(assignments, now);
    var r := Take(s, 5);
    SortedPrefix(s, |r|, DueKey);
    forall i | 0 <= i < |r|
      ensures r[i] in assignments && Upcoming(r[i], now)
    {
      assert r[i] == s[i];
      assert s[i] in multiset(Filter(assignments, upcoming));
      FilterMember(assignments, upcoming, r[i]);
    }
    r
  }

  /** The "No upcoming deadlines" note is rendered when the candidate list is
      empty: exactly when every assignment is completed or already due, and
      exactly when the list above it is empty. */
  function ShowsNoUpcomingNote(assignments: seq<Assignment>, now: Timestamp): bool {
    |Filter(assignments, (a: Assignment) => Upcoming(a, now))| == 0
  }

  lemma {:induction false} NoUpcomingNoteIff(assignments: seq<Assignment>, now: Timestamp)
    ensures ShowsNoUpcomingNote(assignments, now) <==>
      forall i :: 0 <= i < |assignments| ==> assignments[i].completed || assignments[i].dueDate < now
    ensures ShowsNoUpcomingNote(assignments, now) <==> UpcomingDeadlines(assignments, now) == []
  {
    var candidates := Filter(assignments, (a: Assignment) => Upcoming(a, now));
    if !ShowsNoUpcomingNote(assignments, now) {
      assert candidates[0] in assignments && Upcoming(candidates[0], now);
    }
  }

  /** `navigateMonth` as written: `setMonth(getMonth() ± 1)` on a copy of the
      shown date, which keeps the day of the month and lets it spill into the
      month after when the target month is shorter. */
  function NavigateMonthAsWritten(d: CalendarDate, forward: bool): (r: CalendarDate)
    requires ValidDate(d)
    ensures ValidDate(r)
    ensures var target := MonthCount(d) + (if forward then 1 else -1);
      (MonthCount(r) == target && r.day == d.day) || (MonthCount(r) == target + 1 && r.day < d.day)
  {
    SetMonth(d, d.month + (if forward then 1 else -1))
  }

  /** On 31 January 2025 "next" shows March: 31 February is 3 March, two months
      on. Going back from 31 March lands on 3 March, the same month. */
  lemma NavigateMonthSkipsMonth()
    ensures NavigateMonthAsWritten(CalendarDate(2025, 0, 31), true) == CalendarDate(2025, 2, 3)
    ensures MonthCount(NavigateMonthAsWritten(CalendarDate(2025, 0, 31), true)) == MonthCount(CalendarDate(2025, 0, 31)) + 2
    ensures NavigateMonthAsWritten(CalendarDate(2025, 2, 31), false) == CalendarDate(2025, 2, 3)
  {
    assert !IsLeapYear(2025);
    assert DaysInMonth(2025, 1) == 28;
  }

  /** The written navigation moves by one month exactly when the day exists
      in the target month, and then it agrees with `ShiftMonth`. */
  lemma NavigateMonthAsWrittenIff(d: CalendarDate, forward: bool)
    requires ValidDate(d)
    ensures var delta := if forward then 1 else -1;
      var target := ShiftMonth(d, delta);
      ((MonthCount(NavigateMonthAsWritten(d, forward)) == MonthCount(d) + delta) <==>
        d.day <= DaysInMonth(target.year, target.month))
      && (d.day <= DaysInMonth(target.year, target.month) ==> NavigateMonthAsWritten(d, forward) == target)
  {
  }

  /** Month navigation as intended: move `delta` months, carrying the year,
      and keep the day of the month, clamped to the target month's length. */
  function ShiftMonth(d: CalendarDate, delta: int): (r: CalendarDate)
    requires ValidDate(d)
    ensures ValidDate(r)
    ensures MonthCount(r) == MonthCount(d) + delta
    ensures r.day == Min(d.day, DaysInMonth(r.year, r.month))
  {
    var m := d.month + delta;
    var year := d.year + m / 12;
    var month := m % 12;
    assert year * 12 + month == d.year * 12 + m;
    CalendarDate(year, month, Min(d.day, DaysInMonth(year, month)))
  }

  /** Forward and back again restores the month; the day too when it exists
      in the month passed through. */
  lemma ShiftMonthBackAndForth(d: CalendarDate)
    requires ValidDate(d)
    ensures MonthCount(ShiftMonth(ShiftMonth(d, 1), -1)) == MonthCount(d)
    ensures MonthCount(ShiftMonth(ShiftMonth(d, -1), 1)) == MonthCount(d)
    ensures var next := ShiftMonth(d, 1);
      d.day <= DaysInMonth(next.year, next.month) ==> ShiftMonth(next, -1) == d
  {
    var next := ShiftMonth(d, 1);
    var back := ShiftMonth(next, -1);
    assert back.year == d.year && back.month == d.month by {
      assert back.year * 12 + back.month == d.year * 12 + d.month;
    }
  }

  /** The state of the calendar page: the shown month's date and the
      selected day. `Today` and the day cells set them; the two arrows call
      `NavigateMonth`. */
  class CalendarView {
    var currentDate: CalendarDate
    var selectedDate: Option<CalendarDate>

    ghost predicate Valid()
      reads this
    {
      ValidDate(currentDate) && (selectedDate.Some? ==> ValidDate(selectedDate.value))
    }

    /** The page opens on today's date with no day selected. */
    constructor (today: CalendarDate)
      requires ValidDate(today)
      ensures Valid()
      ensures currentDate == today && selectedDate == None
    {
      currentDate := today;
      selectedDate := None;
    }

    /** The days the grid shows: every day of the current month. */
    function CalendarDays(): (days: seq<CalendarDate>)
      reads this
      requires Valid()
      ensures |days| == DaysInMonth(currentDate.year, currentDate.month)
      ensures forall i :: 0 <= i < |days| ==>
        days[i].year == currentDate.year && days[i].month == currentDate.month && days[i].day == i + 1
    {
      MonthDays(currentDate)
    }

    /** The previous/next arrows with the corrected month step: exactly
        one month on, the day clamped to the target month. Whenever the day
        exists in the target month this is what `setMonth` gives too. */
    method NavigateMonth(forward: bool)
      requires Valid()
      modifies this
      ensures Valid()
      ensures currentDate == ShiftMonth(old(currentDate), if forward then 1 else -1)
      ensures MonthCount(currentDate) == MonthCount(old(currentDate)) + (if forward then 1 else -1)
      ensures old(currentDate).day <= DaysInMonth(currentDate.year, currentDate.month) ==>
        currentDate == NavigateMonthAsWritten(old(currentDate), forward)
      ensures selectedDate == old(selectedDate)
    {
      NavigateMonthAsWrittenIff(currentDate, forward);
      currentDate := ShiftMonth(currentDate, if forward then 1 else -1);
    }

    /** The "Today" button. */
    method GoToToday(today: CalendarDate)
      requires Valid() && ValidDate(today)
      modifies this
      ensures Valid()
      ensures currentDate == today && selectedDate == old(selectedDate)
    {
      currentDate := today;
    }

    /** A click on a day cell selects that day. */
    method SelectDate(day: CalendarDate)
      requires Valid() && ValidDate(day)
      modifies this
      ensures Valid()
      ensures selectedDate == Some(day) && currentDate == old(currentDate)
    {
      selectedDate := Some(day);
    }
  }
}
