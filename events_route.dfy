/** The events endpoint: `eventSchema`, the listing with its optional
    month window (GET) and creation (POST). */
module EventsRoute {
  import opened Common
  import opened Entities
  import opened Store
  import opened Validation
  import opened NumberText
  import opened Dates

  const TitleRequired := "Event title is required"
  const Kinds := ["event", "study", "meeting", "exam", "deadline"]

  /** A closed range of instants, `{ gte: start, lte: end }`. */
  datatype Window = Window(start: Timestamp, end: Timestamp)

  predicate InWindow(w: Window, t: Timestamp) {
    w.start <= t <= w.end
  }

  /** The window as the handler builds it for the 1-based `month`:
      `new Date(year, month - 1, 1)` to `new Date(year, month, 0)`, i.e.
      from the first day at 00:00 to the LAST day at 00:00. */
  function MonthWindowAsWritten(year: int, month: int): (w: Window)
    ensures DayOf(w.start) == DayNumber(ConstructorYear(year), month - 1, 1)
    ensures DayOf(w.end) == DayNumber(ConstructorYear(year), month, 1) - 1
  {
    StartOfDayDay(year, month - 1, 1);
    StartOfDayDay(year, month, 0);
    Window(StartOfDay(year, month - 1, 1), StartOfDay(year, month, 0))
  }

  /** The window the listing means: the first day at 00:00 up to the last
      millisecond of the last day. */
  function MonthWindow(year: int, month: int): (w: Window)
    ensures DayOf(w.start) == DayNumber(ConstructorYear(year), month - 1, 1)
    ensures DayOf(w.end) == DayNumber(ConstructorYear(year), month, 1) - 1
  {
    StartOfDayDay(year, month - 1, 1);
    LastMillisecond(DayNumber(ConstructorYear(year), month, 1));
    Window(StartOfDay(year, month - 1, 1), StartOfDay(year, month, 1) - 1)
  }

  /** The millisecond before day `n` starts lies on day `n - 1`. */
  lemma LastMillisecond(n: int)
    ensures DayOf(n * MsPerDay - 1) == n - 1
  {
    assert n * MsPerDay - 1 == (n - 1) * MsPerDay + (MsPerDay - 1);
  }

  /** An instant is in the corrected window exactly when it falls on a day
      of that month, and the window spans the month's days. */
  lemma MonthWindowIff(year: int, month: int, t: Timestamp)
    ensures InWindow(MonthWindow(year, month), t) <==>
      DayNumber(ConstructorYear(year), month - 1, 1) <= DayOf(t) < DayNumber(ConstructorYear(year), month, 1)
    ensures DayNumber(ConstructorYear(year), month, 1) - DayNumber(ConstructorYear(year), month - 1, 1)
      == DaysInMonth(ConstructorYear(year) + (month - 1) / 12, (month - 1) % 12)
  {
    NextMonthStart(ConstructorYear(year), month - 1);
    var a, b := DayNumber(ConstructorYear(year), month - 1, 1), DayNumber(ConstructorYear(year), month, 1);
    assert t >= a * MsPerDay <==> t / MsPerDay >= a;
    assert t <= b * MsPerDay - 1 <==> t / MsPerDay < b;
  }

  /** The window as written is the corrected one cut off at 00:00 of the
      last day: every later instant of that day is lost. */
  lemma AsWrittenDropsLastDay(year: int, month: int, t: Timestamp)
    ensures InWindow(MonthWindowAsWritten(year, month), t) <==>
      InWindow(MonthWindow(year, month), t) && t <= StartOfDay(year, month, 0)
    ensures DayOf(MonthWindowAsWritten(year, month).end) == DayNumber(ConstructorYear(year), month, 1) - 1
    ensures MonthWindowAsWritten(year, month).end % MsPerDay == 0
  {
    StartOfDayDay(year, month, 0);
  }

  /** An event at 09:00 on 31 January 2025 is in January, but a request
      for month 1 of 2025 does not return it. */
  lemma LastDayEventExcluded()
    ensures var t := StartOfDay(2025, 0, 31) + 9 * 60 * 60 * 1000;
      !InWindow(MonthWindowAsWritten(2025, 1), t) && InWindow(MonthWindow(2025, 1), t)
  {
    assert ConstructorYear(2025) == 2025;
  }

  /** A two-digit year parameter asks for the twentieth century:
      `year=99` gives the window of 1999, not of the year 99. */
  lemma TwoDigitYearWindow(month: int)
    ensures MonthWindowAsWritten(99, month) == MonthWindowAsWritten(1999, month)
    ensures MonthWindow(99, month) == MonthWindow(1999, month)
  {
    assert ConstructorYear(99) == ConstructorYear(1999) == 1999;
  }

  /** What the listing promises: the user's events, inside the window
      when there is one. */
  predicate Listed(userId: Id, window: Option<Window>, e: Event) {
    e.userId == userId && (window.Some? ==> InWindow(window.value, e.date))
  }

  /** The month and year parameters, when both are given, read as
      integers. */
  predicate ReadableWindow(month: Option<string>, year: Option<string>) {
    Given(month) && Given(year) ==> ParseInt(month.value).Some? && ParseInt(year.value).Some?
  }

  /** The window asked for: only when both `month` and `year` are given
      and both read as integers. */
  function RequestedWindow(month: Option<string>, year: Option<string>): (w: Option<Window>)
    requires ReadableWindow(month, year)
    ensures w.Some? <==> Given(month) && Given(year)
    ensures w.Some? ==> w.value == MonthWindow(ParseInt(year.value).value, ParseInt(month.value).value)
  {
    if Given(month) && Given(year) then Some(MonthWindow(ParseInt(year.value).value, ParseInt(month.value).value))
    else None
  }

  /** `orderBy: { date: 'asc' }`. */
  function DateKey(e: Event): int {
    e.date
  }

  /** GET: 401 without a session user; the events of the user, earliest
      first, limited to the month when `month` and `year` are both given.
      A month or year that is not a number makes an invalid date, which
      the database refuses: 500. */
  method GetEvents(db: Database, session: Option<Id>, month: Option<string>, year: Option<string>)
    returns (reply: Reply<seq<Event>>)
    ensures !Authenticated(session) ==> reply == Fail(StatusUnauthorized, UnauthorizedMessage)
    ensures Authenticated(session) && Given(month) && Given(year)
      && (ParseInt(month.value).None? || ParseInt(year.value).None?)
      ==> reply == Fail(StatusServerError, InternalErrorMessage)
    ensures reply.Ok? ==> Authenticated(session) && reply.status == StatusOk
    ensures reply.Ok? ==>
      var w := RequestedWindow(month, year);
      (forall i :: 0 <= i < |reply.value| ==> reply.value[i] in db.events && Listed(session.value, w, reply.value[i]))
      && (forall i :: 0 <= i < |db.events| && Listed(session.value, w, db.events[i]) ==> db.events[i] in reply.value)
      && SortedBy(reply.value, DateKey)
      && multiset(reply.value) == multiset(Filter(db.events, (e: Event) => Listed(session.value, w, e)))
    ensures Authenticated(session) && ReadableWindow(month, year) ==> reply.Ok?
  {
    if !Authenticated(session) {
      return Fail(StatusUnauthorized, UnauthorizedMessage);
    }
    var window: Option<Window> := None;
    if Given(month) && Given(year) {
      var m, y := ParseInt(month.value), ParseInt(year.value);
      if m.None? || y.None? {
        return Fail(StatusServerError, InternalErrorMessage);
      }
      window := Some(MonthWindow(y.value, m.value));
    }
    assert window == RequestedWindow(month, year);
    var selected := Filter(db.events, (e: Event) => Listed(session.value, window, e));
    var sorted := SortBy(selected, DateKey);
    forall i | 0 <= i < |sorted|
      ensures sorted[i] in db.events && Listed(session.value, window, sorted[i])
    {
      assert sorted[i] in multiset(sorted);
    }
    forall i | 0 <= i < |db.events| && Listed(session.value, window, db.events[i])
      ensures db.events[i] in sorted
    {
      assert db.events[i] in multiset(selected);
    }
    return Ok(StatusOk, sorted);
  }

  /** The JSON body of a POST; `date` is the instant the date string
      denotes. */
  datatype EventBody = EventBody(
    title: Option<string>,
    description: Option<string>,
    kind: Option<string>,
    date: Option<Timestamp>,
    time: Option<string>,
    duration: Option<int>)

  datatype EventData = EventData(
    title: string,
    description: Option<string>,
    kind: string,
    date: Timestamp,
    time: Option<string>,
    duration: int)

  /** `eventSchema.parse`: a non-empty title, a known type, a date and a
      duration of 15 to 480 minutes (default 60). */
  function ParseEvent(b: EventBody): (r: Result<EventData>)
    ensures r.Success? <==>
      Given(b.title) && b.kind.Some? && b.kind.value in Kinds && b.date.Some?
      && (b.duration.None? || 15 <= b.duration.value <= 480)
    ensures r.Success? ==>
      r.value.title == b.title.value && r.value.description == b.description
      && r.value.kind == b.kind.value && r.value.date == b.date.value && r.value.time == b.time
      && r.value.duration == (if b.duration.Some? then b.duration.value else 60)
      && 15 <= r.value.duration <= 480
    ensures b.title.None? ==> r == Failure(RequiredMessage)
    ensures b.title == Some("") ==> r == Failure(TitleRequired)
    ensures Given(b.title) ==>
      (b.kind.None? ==> r == Failure(RequiredMessage))
      && (b.kind.Some? && b.kind.value !in Kinds ==> r == Failure(EnumMessage(Kinds, b.kind.value)))
    ensures Given(b.title) && b.kind.Some? && b.kind.value in Kinds && b.date.None? ==> r == Failure(RequiredMessage)
    ensures Given(b.title) && b.kind.Some? && b.kind.value in Kinds && b.date.Some? && b.duration.Some?
      ==> (b.duration.value < 15 ==> r == Failure(MinMessage(15)))
          && (b.duration.value > 480 ==> r == Failure(MaxMessage(480)))
  {
    var title := StringField(b.title, 1, TitleRequired);
    var kind := EnumField(b.kind, Kinds, None);
    var date := if b.date.Some? then Success(b.date.value) else Failure(RequiredMessage);
    var duration := NumberField(b.duration, 15, Some(480), Some(60));
    var first := First(ErrorOf(title), First(ErrorOf(kind), First(ErrorOf(date), ErrorOf(duration))));
    if first.Some? then Failure(first.value)
    else Success(EventData(title.value, b.description, kind.value, date.value, b.time, duration.value))
  }

  /** POST: 401 without a session user; 400 with the first schema message;
      else the event, owned by the session user, is appended and returned
      with 201. */
  method PostEvent(db: Database, session: Option<Id>, body: EventBody, newId: Id, now: Timestamp)
    returns (reply: Reply<Event>)
    requires db.Valid()
    requires !HasKey(db.events, (e: Event) => e.id, newId)
    modifies db`events
    ensures db.Valid()
    ensures !Authenticated(session) ==> reply == Fail(StatusUnauthorized, UnauthorizedMessage)
    ensures Authenticated(session) && ParseEvent(body).Failure? ==>
      reply == Fail(StatusBadRequest, ParseEvent(body).error)
    ensures reply.Fail? ==> db.events == old(db.events)
    ensures Authenticated(session) && ParseEvent(body).Success? ==>
      reply.Ok? && reply.status == StatusCreated
      && db.events == old(db.events) + [reply.value]
      && var data := ParseEvent(body).value;
      reply.value == Event(newId, session.value, data.title, data.description, data.kind, data.date,
                           data.time, data.duration, now)
  {
    if !Authenticated(session) {
      return Fail(StatusUnauthorized, UnauthorizedMessage);
    }
    var parsed := ParseEvent(body);
    if parsed.Failure? {
      return Fail(StatusBadRequest, parsed.error);
    }
    var data := parsed.value;
    var event := Event(newId, session.value, data.title, data.description, data.kind, data.date,
                       data.time, data.duration, now);
    UniqueKeysAppend(db.events, (e: Event) => e.id, event);
    db.events := db.events + [event];
    return Ok(StatusCreated, event);
  }
}
