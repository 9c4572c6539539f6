/**
 * `GET /api/hearings/upcoming`: the scheduled hearings from local midnight today to seven
 * days later, ordered by date, and the number of them that fall today. Hearing dates and
 * "now" are instants in milliseconds of local wall-clock time.
 */
module UpcomingHearings {
  import opened Seqs
  import opened Calendar

  datatype Hearing = Hearing(id: string, caseId: string, date: int, status: string)

  /** `today` after `setHours(0, 0, 0, 0)`. */
  function TodayStart(now: int): int {
    Midnight(now)
  }

  /** `nextWeek`: seven days after `today`. */
  function WeekEnd(now: int): int {
    Midnight(now) + 7 * MsPerDay
  }

  /** `todayEnd`: 23:59:59.999 of today. */
  function TodayEnd(now: int): int {
    Midnight(now) + MsPerDay - 1
  }

  predicate Programada(h: Hearing) {
    h.status == "programada"
  }

  predicate InWeek(h: Hearing, now: int) {
    Programada(h) && TodayStart(now) <= h.date <= WeekEnd(now)
  }

  predicate InToday(h: Hearing, now: int) {
    Programada(h) && TodayStart(now) <= h.date <= TodayEnd(now)
  }

  function DateKey(h: Hearing): int {
    h.date
  }

  datatype Response = Response(hearings: seq<Hearing>, today: nat)

  function Upcoming(hs: seq<Hearing>, now: int): seq<Hearing> {
    SortBy(Filter(hs, (h: Hearing) => InWeek(h, now)), DateKey)
  }

  function TodayCount(hs: seq<Hearing>, now: int): nat {
    Count(hs, (h: Hearing) => InToday(h, now))
  }

  function Get(hs: seq<Hearing>, now: int): Response {
    Response(Upcoming(hs, now), TodayCount(hs, now))
  }

  /**
   * In calendar days, the window is today and the six days after it, plus the single
   * instant of midnight seven days ahead (both ends are inclusive); "today" is exactly
   * the hearings on today's calendar day.
   */
  lemma WindowInDays(h: Hearing, now: int)
    ensures InWeek(h, now) <==>
      Programada(h) && ((DayOf(now) <= DayOf(h.date) < DayOf(now) + 7) || h.date == Midnight(now) + 7 * MsPerDay)
    ensures InToday(h, now) <==> Programada(h) && DayOf(h.date) == DayOf(now)
  {
    var m := Midnight(now);
    assert m == DayOf(now) * MsPerDay;
    if m <= h.date < m + 7 * MsPerDay {
      assert DayOf(now) * MsPerDay <= h.date < (DayOf(now) + 7) * MsPerDay;
      assert DayOf(now) <= DayOf(h.date) < DayOf(now) + 7;
    }
    if DayOf(now) <= DayOf(h.date) < DayOf(now) + 7 {
      assert DayOf(h.date) * MsPerDay <= h.date < (DayOf(h.date) + 1) * MsPerDay;
    }
  }

  /**
   * The list holds every scheduled hearing of the window, each as often as stored, and
   * nothing else, in ascending date order; the today count never exceeds its length.
   */
  lemma GetSpec(hs: seq<Hearing>, now: int)
    ensures var r := Get(hs, now);
      && multiset(r.hearings) == multiset(Filter(hs, (h: Hearing) => InWeek(h, now)))
      && (forall i :: 0 <= i < |r.hearings| ==> InWeek(r.hearings[i], now))
      && (forall h :: h in hs && InWeek(h, now) ==> h in r.hearings)
      && (forall i, j :: 0 <= i < j < |r.hearings| ==> r.hearings[i].date <= r.hearings[j].date)
      && r.today <= |r.hearings|
  {
    var inWeek := (h: Hearing) => InWeek(h, now);
    SortBySorted(Filter(hs, inWeek), DateKey);
    UpcomingMembers(hs, now);
    FilterMonotone(hs, (h: Hearing) => InToday(h, now), inWeek);
  }

  /** The list holds the hearings of the window and all of them, as many as the window has. */
  lemma UpcomingMembers(hs: seq<Hearing>, now: int)
    ensures var r := Upcoming(hs, now);
      && (forall i :: 0 <= i < |r| ==> InWeek(r[i], now))
      && (forall h :: h in hs && InWeek(h, now) ==> h in r)
      && |r| == |Filter(hs, (h: Hearing) => InWeek(h, now))|
  {
    var sel := Filter(hs, (h: Hearing) => InWeek(h, now));
    var r := Upcoming(hs, now);
    forall i | 0 <= i < |r| ensures InWeek(r[i], now) {
      assert r[i] in multiset(r);
      assert r[i] in sel;
    }
    forall h | h in hs && InWeek(h, now) ensures h in r {
      assert h in multiset(sel);
    }
    assert |multiset(r)| == |multiset(sel)|;
  }
}
