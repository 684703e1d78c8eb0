/** The schedule panel of the new-tab page: the visible calendars are
    resolved, every calendar is asked for the day's events, a failing
    calendar contributes nothing, each event is tagged with its calendar's
    colour, and the union is sorted stably by start instant. */
module Calendar {
  import opened Wrappers
  import opened Seqs
  import opened Sorting

  /** A calendar day, as the `date` field of an all-day event. */
  datatype Date = Date(year: int, month: int, day: int)

  /** An event's start: a `dateTime` (carried as its instant, in
      milliseconds since 1970-01-01T00:00:00Z) or, for all-day events, a
      `date`. */
  datatype Start = DateTime(instant: int) | AllDay(date: Date)

  /** An event as the events endpoint returns it. */
  datatype RawEvent = RawEvent(summary: Option<string>, start: Start)

  /** An event with the colour of the calendar it came from. */
  datatype Event = Event(raw: RawEvent, calendarColor: string)

  /** An entry of the calendar list. `deleted` and `selected` are `None`
      when the field is absent. */
  datatype CalendarEntry = CalendarEntry(
    id: string, summary: Option<string>, backgroundColor: Option<string>,
    deleted: Option<bool>, selected: Option<bool>)

  /** What an HTTP request returned: a status and, for a readable body,
      its `items` field (`None` when absent); or a failure that left no
      readable response (network error, unparsable body). */
  datatype Response<T> = Reply(status: int, items: Option<seq<T>>) | Failed

  /** The colour given to events of a calendar without one. */
  const DefaultColor := "#4285f4"

  const MsPerDay: int := 86_400_000

  /** The calendar used when the calendar list cannot be read. */
  const PrimaryCalendar := CalendarEntry("primary", Some("Primary"), None, None, None)

  // ---------------------------------------------------------------------
  // Calendar list
  // ---------------------------------------------------------------------

  /** `response.ok`: a status in 200..299. */
  predicate IsOk(status: int)
  {
    200 <= status <= 299
  }

  /** Neither deleted nor explicitly deselected (`!cal.deleted &&
      cal.selected !== false`). */
  predicate IsVisible(c: CalendarEntry)
  {
    c.deleted != Some(true) && c.selected != Some(false)
  }

  /** The calendars to ask: the visible entries of the list in list order,
      or the primary calendar alone when the list request failed. */
  function ResolveCalendars(listing: Response<CalendarEntry>): (r: seq<CalendarEntry>)
    ensures (listing.Failed? || !IsOk(listing.status)) ==> r == [PrimaryCalendar]
    ensures listing.Reply? && IsOk(listing.status) ==>
              (forall i :: 0 <= i < |r| ==> IsVisible(r[i]) && r[i] in listing.items.GetOr([]))
              && (forall c :: c in listing.items.GetOr([]) && IsVisible(c) ==> c in r)
              && IsSubsequence(r, listing.items.GetOr([]))
              && (forall c :: IsVisible(c) ==> multiset(r)[c] == multiset(listing.items.GetOr([]))[c])
  {
    match listing
    case Failed => [PrimaryCalendar]
    case Reply(status, items) =>
      if !IsOk(status) then [PrimaryCalendar]
      else
        FilterIsSubsequence(IsVisible, items.GetOr([]));
        FilterKeepsCounts(IsVisible, items.GetOr([]));
        Filter(IsVisible, items.GetOr([]))
  }

  // ---------------------------------------------------------------------
  // One calendar
  // ---------------------------------------------------------------------

  /** `calendarColor || '#4285f4'`: a missing or empty colour reads as the
      default. */
  function ColorFor(backgroundColor: Option<string>): (r: string)
    ensures r != ""
    ensures backgroundColor.Some? && backgroundColor.value != "" ==> r == backgroundColor.value
    ensures backgroundColor.None? || backgroundColor.value == "" ==> r == DefaultColor
  {
    match backgroundColor
    case Some(c) => if c == "" then DefaultColor else c
    case None => DefaultColor
  }

  /** What a calendar's event request yields: its events (`items || []`) on
      success, `None` on any failure. */
  function Outcome(response: Response<RawEvent>): (r: Option<seq<RawEvent>>)
    ensures r.Some? <==> response.Reply? && IsOk(response.status)
    ensures r.Some? ==> r.value == response.items.GetOr([])
  {
    match response
    case Failed => None
    case Reply(status, items) => if IsOk(status) then Some(items.GetOr([])) else None
  }

  /** A 401 reply: the cached token is dropped so that the next refresh
      signs in again; the current refresh does not retry. */
  predicate TokenExpired(response: Response<RawEvent>)
  {
    response.Reply? && response.status == 401
  }

  /** The events one calendar contributes: its fetched events, each tagged
      with the calendar's colour, or nothing when the fetch failed. */
  function CalendarEvents(cal: CalendarEntry, outcome: Option<seq<RawEvent>>): (r: seq<Event>)
    ensures outcome.None? ==> r == []
    ensures outcome.Some? ==> |r| == |outcome.value|
    ensures outcome.Some? ==> forall i :: 0 <= i < |r| ==>
              r[i].raw == outcome.value[i] && r[i].calendarColor == ColorFor(cal.backgroundColor)
  {
    match outcome
    case None => []
    case Some(raws) => seq(|raws|, i requires 0 <= i < |raws| => Event(raws[i], ColorFor(cal.backgroundColor)))
  }

  /** An expired token yields no events. */
  lemma ExpiredTokenYieldsNothing(cal: CalendarEntry, response: Response<RawEvent>)
    requires TokenExpired(response)
    ensures CalendarEvents(cal, Outcome(response)) == []
  {
  }

  // ---------------------------------------------------------------------
  // Start instants
  // ---------------------------------------------------------------------

  /** Days from 1970-01-01 to the given proleptic Gregorian date. */
  function DaysFromCivil(d: Date): int
  {
    var y := if d.month <= 2 then d.year - 1 else d.year;
    var era := y / 400;
    var yoe := y - era * 400;
    var mp := if d.month > 2 then d.month - 3 else d.month + 9;
    var doy := (153 * mp + 2) / 5 + d.day - 1;
    var doe := yoe * 365 + yoe / 4 - yoe / 100 + doy;
    era * 146097 + doe - 719468
  }

  /** `new Date('YYYY-MM-DD')`: a date-only string is read as midnight UTC
      of that day. */
  function DateKey(d: Date): int
  {
    DaysFromCivil(d) * MsPerDay
  }

  /** The sort key `new Date(start.dateTime || start.date)`. */
  function StartKey(e: Event): int
  {
    match e.raw.start
    case DateTime(t) => t
    case AllDay(d) => DateKey(d)
  }

  // ---------------------------------------------------------------------
  // Merge
  // ---------------------------------------------------------------------

  /** The per-calendar results, in calendar order (`Promise.all` over
      `calendars.map`). */
  function PerCalendar(calendars: seq<CalendarEntry>, fetch: string -> Response<RawEvent>): (r: seq<seq<Event>>)
    ensures |r| == |calendars|
    ensures forall i :: 0 <= i < |r| ==> r[i] == CalendarEvents(calendars[i], Outcome(fetch(calendars[i].id)))
  {
    seq(|calendars|, i requires 0 <= i < |calendars| => CalendarEvents(calendars[i], Outcome(fetch(calendars[i].id))))
  }

  /** All events, calendar by calendar (`results.flat()`). */
  function AllEvents(calendars: seq<CalendarEntry>, fetch: string -> Response<RawEvent>): seq<Event>
  {
    Flatten(PerCalendar(calendars, fetch))
  }

  /** The day's schedule: all events sorted by start instant, equal instants
      in calendar order and then in the order each calendar returned them. */
  function Aggregate(calendars: seq<CalendarEntry>, fetch: string -> Response<RawEvent>): (r: seq<Event>)
    ensures SortedBy(StartKey, r)
    ensures multiset(r) == multiset(AllEvents(calendars, fetch))
    ensures StableRearrangement(StartKey, AllEvents(calendars, fetch), r)
  {
    SortIsStable(StartKey, AllEvents(calendars, fetch));
    SortByKey(StartKey, AllEvents(calendars, fetch))
  }

  /** A calendar whose request failed leaves the merged events exactly as if
      the calendar were not in the list: the other calendars are unaffected. */
  lemma FailedCalendarContributesNothing(calendars: seq<CalendarEntry>, i: int, fetch: string -> Response<RawEvent>)
    requires 0 <= i < |calendars|
    requires Outcome(fetch(calendars[i].id)).None?
    ensures AllEvents(calendars, fetch) == AllEvents(calendars[..i] + calendars[i + 1..], fetch)
    ensures Aggregate(calendars, fetch) == Aggregate(calendars[..i] + calendars[i + 1..], fetch)
  {
    var before, after := calendars[..i], calendars[i + 1..];
    assert calendars == before + [calendars[i]] + after;
    PerCalendarAppend(before + [calendars[i]], after, fetch);
    PerCalendarAppend(before, [calendars[i]], fetch);
    PerCalendarAppend(before, after, fetch);
    assert PerCalendar([calendars[i]], fetch) == [[]];
    FlattenSkipEmpty(PerCalendar(before, fetch), PerCalendar(after, fetch));
  }

  lemma PerCalendarAppend(a: seq<CalendarEntry>, b: seq<CalendarEntry>, fetch: string -> Response<RawEvent>)
    ensures PerCalendar(a + b, fetch) == PerCalendar(a, fetch) + PerCalendar(b, fetch)
  {
    var l, r := PerCalendar(a + b, fetch), PerCalendar(a, fetch) + PerCalendar(b, fetch);
    forall k | 0 <= k < |l| ensures l[k] == r[k] {
      if k < |a| {
        assert (a + b)[k] == a[k];
      } else {
        assert (a + b)[k] == b[k - |a|];
      }
    }
  }

  /** Every event of the schedule was returned by one of the calendars whose
      request succeeded, and carries that calendar's colour (or the default
      one). */
  lemma EventProvenance(calendars: seq<CalendarEntry>, fetch: string -> Response<RawEvent>, e: Event)
    requires e in Aggregate(calendars, fetch)
    ensures exists i :: 0 <= i < |calendars| && Outcome(fetch(calendars[i].id)).Some?
              && e.raw in Outcome(fetch(calendars[i].id)).value
              && e.calendarColor == ColorFor(calendars[i].backgroundColor)
  {
    var per := PerCalendar(calendars, fetch);
    assert e in multiset(Aggregate(calendars, fetch));
    assert e in AllEvents(calendars, fetch);
    FlattenMember(per, e);
    var i :| 0 <= i < |per| && e in per[i];
    var j :| 0 <= j < |per[i]| && per[i][j] == e;
  }

  /** Every event a successful calendar returned is in the schedule, with
      that calendar's colour. */
  lemma EventIncluded(calendars: seq<CalendarEntry>, fetch: string -> Response<RawEvent>, i: int, j: int)
    requires 0 <= i < |calendars|
    requires Outcome(fetch(calendars[i].id)).Some?
    requires 0 <= j < |Outcome(fetch(calendars[i].id)).value|
    ensures Event(Outcome(fetch(calendars[i].id)).value[j], ColorFor(calendars[i].backgroundColor))
            in Aggregate(calendars, fetch)
  {
    var per := PerCalendar(calendars, fetch);
    var e := Event(Outcome(fetch(calendars[i].id)).value[j], ColorFor(calendars[i].backgroundColor));
    assert per[i][j] == e;
    FlattenIncludes(per, i, e);
    assert e in multiset(AllEvents(calendars, fetch));
    assert e in multiset(Aggregate(calendars, fetch));
  }

  /** Whatever stable sort the engine uses, the schedule is the same
      sequence. */
  lemma ScheduleIsDetermined(calendars: seq<CalendarEntry>, fetch: string -> Response<RawEvent>, ys: seq<Event>)
    requires SortedBy(StartKey, ys)
    requires StableRearrangement(StartKey, AllEvents(calendars, fetch), ys)
    ensures ys == Aggregate(calendars, fetch)
  {
    StableSortIsUnique(StartKey, AllEvents(calendars, fetch), ys);
  }

  // ---------------------------------------------------------------------
  // Refresh
  // ---------------------------------------------------------------------

  /** What the schedule panel shows: a prompt to connect, or today's and
      tomorrow's events. */
  datatype ScheduleView = NotConnected | Schedule(today: seq<Event>, tomorrow: seq<Event>)

  /** One refresh of the schedule panel. `token` is what the silent sign-in
      returned; `listing` is the calendar-list reply; `today` and `tomorrow`
      are the event replies per calendar id for the two days. */
  function LoadSchedule(token: Option<string>, listing: Response<CalendarEntry>,
                        today: string -> Response<RawEvent>, tomorrow: string -> Response<RawEvent>): (r: ScheduleView)
    ensures r.NotConnected? <==> token.None? || token.value == ""
    ensures r.Schedule? ==> SortedBy(StartKey, r.today) && SortedBy(StartKey, r.tomorrow)
    ensures r.Schedule? ==>
              multiset(r.today) == multiset(AllEvents(ResolveCalendars(listing), today))
              && multiset(r.tomorrow) == multiset(AllEvents(ResolveCalendars(listing), tomorrow))
    ensures r.Schedule? ==>
              StableRearrangement(StartKey, AllEvents(ResolveCalendars(listing), today), r.today)
              && StableRearrangement(StartKey, AllEvents(ResolveCalendars(listing), tomorrow), r.tomorrow)
  {
    if token.None? || token.value == "" then NotConnected
    else
      var calendars := ResolveCalendars(listing);
      Schedule(Aggregate(calendars, today), Aggregate(calendars, tomorrow))
  }
}
