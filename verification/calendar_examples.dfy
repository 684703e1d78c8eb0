/** Worked examples of the schedule merge, on concrete calendars. The page
    runs in Japan (UTC+9); instants are milliseconds since the epoch. */
module CalendarExamples {
  import opened Wrappers
  import opened Seqs
  import opened Sorting
  import opened Calendar

  const Day := Date(2026, 10, 9)
  const Hour: int := 3_600_000

  /** 2026-10-09T00:00:00Z, which is 09:00 in Japan. */
  const NineInTokyo: int := 20735 * MsPerDay

  const Work := CalendarEntry("work", Some("Work"), Some("#0b8043"), None, None)
  const Holidays := CalendarEntry("holidays", Some("Holidays"), None, None, Some(true))

  const Standup := RawEvent(Some("Standup"), DateTime(NineInTokyo))
  const Breakfast := RawEvent(Some("Breakfast"), DateTime(NineInTokyo - Hour))
  const Holiday := RawEvent(Some("Holiday"), AllDay(Day))

  /** The epoch is day zero. */
  lemma EpochIsDayZero()
    ensures DaysFromCivil(Date(1970, 1, 1)) == 0
  {
    assert 1969 / 400 == 4;
    assert (153 * 10 + 2) / 5 == 306;
  }

  /** 2026-10-09 is day 20735, keyed at midnight UTC. */
  lemma DayNumbers()
    ensures DateKey(Day) == NineInTokyo
  {
    assert 2026 / 400 == 5;
    assert (153 * 7 + 2) / 5 == 214;
    assert 26 / 4 == 6 && 26 / 100 == 0;
    assert DaysFromCivil(Day) == 20735;
  }

  /** The holiday is keyed at midnight UTC of its day. */
  lemma HolidayKey(color: string)
    ensures StartKey(Event(Holiday, color)) == NineInTokyo
  {
    DayNumbers();
  }

  function Replies(work: seq<RawEvent>, holidays: seq<RawEvent>): string -> Response<RawEvent>
  {
    id => if id == "work" then Reply(200, Some(work)) else if id == "holidays" then Reply(200, Some(holidays)) else Failed
  }

  lemma RepliesOutcome(work: seq<RawEvent>, holidays: seq<RawEvent>)
    ensures Outcome(Replies(work, holidays)(Work.id)) == Some(work)
    ensures Outcome(Replies(work, holidays)(Holidays.id)) == Some(holidays)
  {
  }

  lemma TwoEvents(first: CalendarEntry, a: RawEvent, second: CalendarEntry, b: RawEvent,
                  fetch: string -> Response<RawEvent>)
    requires Outcome(fetch(first.id)) == Some([a]) && Outcome(fetch(second.id)) == Some([b])
    ensures AllEvents([first, second], fetch) ==
            [Event(a, ColorFor(first.backgroundColor)), Event(b, ColorFor(second.backgroundColor))]
  {
    var per := PerCalendar([first, second], fetch);
    var ea, eb := Event(a, ColorFor(first.backgroundColor)), Event(b, ColorFor(second.backgroundColor));
    assert per[0] == [ea] by {
      var r := CalendarEvents(first, Some([a]));
      assert |r| == 1 && r[0] == ea;
    }
    assert per[1] == [eb] by {
      var r := CalendarEvents(second, Some([b]));
      assert |r| == 1 && r[0] == eb;
    }
    assert per == [[ea], [eb]];
    assert per[1..] == [[eb]];
    assert per[1..][1..] == [];
    assert Flatten(per[1..]) == [eb] + Flatten(per[1..][1..]);
    assert Flatten(per) == [ea] + Flatten(per[1..]);
  }

  /** Sorting two events: they swap exactly when the second starts earlier. */
  lemma SortTwo(a: Event, b: Event)
    ensures StartKey(a) <= StartKey(b) ==> SortByKey(StartKey, [a, b]) == [a, b]
    ensures StartKey(b) < StartKey(a) ==> SortByKey(StartKey, [a, b]) == [b, a]
  {
    assert [a, b][1..] == [b];
    assert [b][1..] == [];
    assert SortByKey(StartKey, [b]) == [b];
    if StartKey(b) < StartKey(a) {
      assert Insert(StartKey, a, [b]) == [b] + Insert(StartKey, a, []);
    }
  }

  /** An all-day event is keyed at midnight UTC, which in Japan is 09:00: it
      ties with a 09:00 meeting, and the tie keeps calendar order, so the
      meeting of the first calendar is listed first. */
  lemma AllDayTiesWithNineInTokyo()
    ensures Aggregate([Work, Holidays], Replies([Standup], [Holiday])) ==
            [Event(Standup, "#0b8043"), Event(Holiday, DefaultColor)]
  {
    var fetch := Replies([Standup], [Holiday]);
    RepliesOutcome([Standup], [Holiday]);
    TwoEvents(Work, Standup, Holidays, Holiday, fetch);
    HolidayKey(DefaultColor);
    SortTwo(Event(Standup, "#0b8043"), Event(Holiday, DefaultColor));
  }

  /** An 08:00 meeting in Japan is listed before an all-day event of the same
      day, even when the all-day event's calendar comes first. */
  lemma EightInTokyoPrecedesAllDay()
    ensures Aggregate([Holidays, Work], Replies([Breakfast], [Holiday])) ==
            [Event(Breakfast, "#0b8043"), Event(Holiday, DefaultColor)]
  {
    var fetch := Replies([Breakfast], [Holiday]);
    RepliesOutcome([Breakfast], [Holiday]);
    TwoEvents(Holidays, Holiday, Work, Breakfast, fetch);
    HolidayKey(DefaultColor);
    SortTwo(Event(Holiday, DefaultColor), Event(Breakfast, "#0b8043"));
  }
}
