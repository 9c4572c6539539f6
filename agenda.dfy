/**
 * The "Agenda" page: the month grid, the `YYYY-MM-DD` day keys the hearings are matched
 * against, the hearings of a day and of the selected day, month stepping, `isToday`, and
 * the new-hearing form. The viewed month is a year and a month index 0..11, as
 * `getFullYear()` and `getMonth()` return them.
 */
module Agenda {
  import opened Wrappers
  import opened Seqs
  import opened Text
  import opened Calendar

  /** A hearing as the page receives it; `date` is the serialized date-time text. */
  datatype Hearing = Hearing(
    id: string,
    date: string,
    time: string,
    hearingType: string,
    location: Option<string>,
    status: string,
    notes: Option<string>,
    caseId: string)

  /**
   * `new Date(year, month + 1, 0).getDate()` is the last day of the month: day zero of the
   * next month is the same day as `DaysInMonth` of this one, and no other valid date of any
   * month falls on that day.
   */
  lemma DayZeroIsLastOfMonth(y: int, m: Month, y2: int, m2: Month, d2: int)
    requires IsValidDate(y2, m2, d2) && DayNumber(y2, m2, d2) == MakeDay(y, m + 1, 0)
    ensures y2 == y && m2 == m && d2 == DaysInMonth(y, m)
  {
    DayZeroOfNextMonth(y, m);
    DayNumberInjective(y2, m2, d2, y, m, DaysInMonth(y, m));
  }

  /** `String(n).padStart(2, '0')` for a number below 100 is two digits that read back as `n`. */
  lemma {:induction false} TwoDigits(n: nat)
    requires n < 100
    ensures var s := Pad2(NatToString(n));
      && |s| == 2 && IsDigit(s[0]) && IsDigit(s[1]) && DigitsValue(s) == n
  {
    NatToStringValue(n);
    NatToStringLength(n);
    var s := Pad2(NatToString(n));
    if n < 10 {
      assert s == "0" + NatToString(n);
      assert s[..1] == "0";
      assert DigitsValue(s[..0]) == 0;
      assert DigitsValue(s[..1]) == 0;
    }
  }

  /** The key of a day of the viewed month: year, then month and day padded to two digits. */
  function DayKey(year: int, month: Month, day: nat): string {
    IntToString(year) + "-" + Pad2(NatToString(month + 1)) + "-" + Pad2(NatToString(day))
  }

  /** The positions of the three groups in `a-b-c` with groups of 4, 2 and 2 characters. */
  lemma KeyLayout(a: string, b: string, c: string)
    requires |a| == 4 && |b| == 2 && |c| == 2
    requires forall i :: 0 <= i < 4 ==> IsDigit(a[i])
    requires IsDigit(b[0]) && IsDigit(b[1]) && IsDigit(c[0]) && IsDigit(c[1])
    ensures var k := a + "-" + b + "-" + c;
      && |k| == 10 && k[4] == '-' && k[7] == '-'
      && k[..4] == a && k[5..7] == b && k[8..10] == c
      && (forall i :: 0 <= i < 10 && i != 4 && i != 7 ==> IsDigit(k[i]))
  {
    var k := a + "-" + b + "-" + c;
    forall i | 0 <= i < 10 && i != 4 && i != 7
      ensures IsDigit(k[i])
    {
      if i < 4 {
        assert k[i] == a[i];
      } else if i < 7 {
        assert k[i] == b[i - 5];
      } else {
        assert k[i] == c[i - 8];
      }
    }
  }

  /**
   * For a four-digit year the key is ISO `YYYY-MM-DD`: ten characters, dashes at 4 and 7,
   * and the three digit groups read back as the year, month + 1 and the day.
   */
  lemma {:induction false} DayKeyIsIso(year: int, month: Month, day: nat)
    requires 1000 <= year <= 9999 && day < 100
    ensures var k := DayKey(year, month, day);
      && |k| == 10 && k[4] == '-' && k[7] == '-'
      && (forall i :: 0 <= i < 10 && i != 4 && i != 7 ==> IsDigit(k[i]))
      && DigitsValue(k[..4]) == year
      && DigitsValue(k[5..7]) == month + 1
      && DigitsValue(k[8..10]) == day
  {
    var ys := IntToString(year);
    var ms := Pad2(NatToString(month + 1));
    var ds := Pad2(NatToString(day));
    assert ys == NatToString(year);
    NatToStringValue(year);
    NatToStringLength(year);
    TwoDigits(month + 1);
    TwoDigits(day);
    KeyLayout(ys, ms, ds);
  }

  /** Distinct days of four-digit years have distinct keys. */
  lemma DayKeyInjective(y1: int, m1: Month, d1: nat, y2: int, m2: Month, d2: nat)
    requires 1000 <= y1 <= 9999 && d1 < 100 && 1000 <= y2 <= 9999 && d2 < 100
    requires DayKey(y1, m1, d1) == DayKey(y2, m2, d2)
    ensures y1 == y2 && m1 == m2 && d1 == d2
  {
    DayKeyIsIso(y1, m1, d1);
    DayKeyIsIso(y2, m2, d2);
  }

  /** `getHearingsForDay(day)`. */
  function HearingsForDay(hs: seq<Hearing>, year: int, month: Month, day: nat): seq<Hearing> {
    var key := DayKey(year, month, day);
    Filter(hs, (h: Hearing) => StartsWith(h.date, key))
  }

  /**
   * The hearings of a day are those whose date text starts with the day's key, in the
   * order they were loaded; and in a month of a four-digit year no hearing is listed
   * under two different days.
   */
  lemma HearingsForDaySpec(hs: seq<Hearing>, year: int, month: Month, day: nat, other: nat)
    ensures var r := HearingsForDay(hs, year, month, day);
      && IsSubsequence(r, hs)
      && (forall h :: h in hs ==> (h in r <==> StartsWith(h.date, DayKey(year, month, day))))
    ensures 1000 <= year <= 9999 && day < 100 && other < 100 && other != day ==>
      forall h :: h in HearingsForDay(hs, year, month, day) ==> h !in HearingsForDay(hs, year, month, other)
  {
    FilterIsSubsequence(hs, (h: Hearing) => StartsWith(h.date, DayKey(year, month, day)));
    if 1000 <= year <= 9999 && day < 100 && other < 100 && other != day {
      DayKeyIsIso(year, month, day);
      DayKeyIsIso(year, month, other);
    }
  }

  /** `selectedHearings`: none until a day is selected, then the hearings with that prefix. */
  function SelectedHearings(hs: seq<Hearing>, selected: Option<string>): (r: seq<Hearing>)
    ensures !(selected.Some? && selected.value != "") ==> r == []
    ensures selected.Some? && selected.value != "" ==>
      forall h :: h in hs ==> (h in r <==> StartsWith(h.date, selected.value))
  {
    if selected.Some? && selected.value != "" then Filter(hs, (h: Hearing) => StartsWith(h.date, selected.value))
    else []
  }

  /** The 0-based index of a month counted from year 0. */
  function MonthIndex(year: int, month: Month): int {
    year * 12 + month
  }

  /** `new Date(year, month + 1)`, normalized into a year and a month 0..11. */
  function NextMonthOf(year: int, month: Month): (r: (int, Month))
    ensures MonthIndex(r.0, r.1) == MonthIndex(year, month) + 1
    ensures month == 11 ==> r == (year + 1, 0)
    ensures month < 11 ==> r == (year, month + 1)
  {
    (year + (month + 1) / 12, (month + 1) % 12)
  }

  /** `new Date(year, month - 1)`, normalized into a year and a month 0..11. */
  function PrevMonthOf(year: int, month: Month): (r: (int, Month))
    ensures MonthIndex(r.0, r.1) == MonthIndex(year, month) - 1
    ensures month == 0 ==> r == (year - 1, 11)
    ensures month > 0 ==> r == (year, month - 1)
  {
    (year + (month - 1) / 12, (month - 1) % 12)
  }

  /** Two views with the same month index are the same month. */
  lemma MonthIndexInjective(y1: int, m1: Month, y2: int, m2: Month)
    requires MonthIndex(y1, m1) == MonthIndex(y2, m2)
    ensures y1 == y2 && m1 == m2
  {
  }

  /** Stepping forward then back, or back then forward, returns to the same month. */
  lemma MonthSteppingInverse(year: int, month: Month)
    ensures var n := NextMonthOf(year, month); PrevMonthOf(n.0, n.1) == (year, month)
    ensures var p := PrevMonthOf(year, month); NextMonthOf(p.0, p.1) == (year, month)
  {
    var n := NextMonthOf(year, month);
    var b := PrevMonthOf(n.0, n.1);
    MonthIndexInjective(b.0, b.1, year, month);
    var p := PrevMonthOf(year, month);
    var f := NextMonthOf(p.0, p.1);
    MonthIndexInjective(f.0, f.1, year, month);
  }

  /** `isToday(day)` for the viewed month, today being the date `(ty, tm, td)`. */
  predicate IsToday(year: int, month: Month, day: int, ty: int, tm: Month, td: int) {
    day == td && month == tm && year == ty
  }

  /** For valid dates, a grid day is today exactly when it is the same calendar day. */
  lemma IsTodayIffSameDay(year: int, month: Month, day: int, ty: int, tm: Month, td: int)
    requires IsValidDate(year, month, day) && IsValidDate(ty, tm, td)
    ensures IsToday(year, month, day, ty, tm, td) <==> DayNumber(year, month, day) == DayNumber(ty, tm, td)
  {
    if DayNumber(year, month, day) == DayNumber(ty, tm, td) {
      DayNumberInjective(year, month, day, ty, tm, td);
    }
  }

  /** `NewHearingModal`'s form. */
  datatype HearingForm = HearingForm(
    caseId: string,
    date: string,
    time: string,
    hearingType: string,
    location: string,
    notes: string)

  const InitialHearingForm := HearingForm("", "", "09:00", "inicial", "", "")

  datatype Submission = Alert(message: string) | PostForm(body: HearingForm)

  /** `handleSubmit`: a case and a date are both required; the form is posted as it is. */
  function SubmitHearing(f: HearingForm): (r: Submission)
    ensures r.PostForm? <==> f.caseId != "" && f.date != ""
    ensures r.PostForm? ==> r.body == f
    ensures r.Alert? ==> r.message == "Caso y fecha requeridos"
  {
    if f.caseId == "" || f.date == "" then Alert("Caso y fecha requeridos") else PostForm(f)
  }

  /** The component state of the page. */
  class AgendaView {
    var year: int
    var month: Month
    var hearings: seq<Hearing>
    var selectedDate: Option<string>
    var loading: bool

    constructor (ty: int, tm: Month)
      ensures year == ty && month == tm && hearings == [] && selectedDate == None && loading
    {
      year := ty;
      month := tm;
      hearings := [];
      selectedDate := None;
      loading := true;
    }

    /**
     * `getDaysInMonth`: one empty cell per weekday before the 1st (0 = Sunday), then the
     * days 1 to the last day of the month, in order.
     */
    method GetDaysInMonth() returns (days: seq<Option<nat>>)
      ensures var first := WeekDay(MakeDay(year, month, 1));
        && |days| == first + DaysInMonth(year, month)
        && (forall i :: 0 <= i < first ==> days[i] == None)
        && (forall i :: first <= i < |days| ==> days[i] == Some(i - first + 1))
    {
      var firstDay := WeekDay(MakeDay(year, month, 1));
      var daysInMonth := DaysInMonth(year, month);
      days := [];
      var i := 0;
      while i < firstDay
        invariant 0 <= i <= firstDay
        invariant |days| == i
        invariant forall j :: 0 <= j < i ==> days[j] == None
      {
        days := days + [None];
        i := i + 1;
      }
      i := 1;
      while i <= daysInMonth
        invariant 1 <= i <= daysInMonth + 1
        invariant |days| == firstDay + i - 1
        invariant forall j :: 0 <= j < firstDay ==> days[j] == None
        invariant forall j :: firstDay <= j < |days| ==> days[j] == Some(j - firstDay + 1)
      {
        days := days + [Some(i)];
        i := i + 1;
      }
    }

    /** The hearings loaded for the viewed month replace the previous ones. */
    method LoadHearings(fetched: seq<Hearing>)
      modifies this
      ensures hearings == fetched && !loading
      ensures year == old(year) && month == old(month) && selectedDate == old(selectedDate)
    {
      hearings := fetched;
      loading := false;
    }

    method NextMonth()
      modifies this
      ensures (year, month) == NextMonthOf(old(year), old(month))
      ensures hearings == old(hearings) && selectedDate == old(selectedDate) && loading == old(loading)
    {
      var n := NextMonthOf(year, month);
      year, month := n.0, n.1;
    }

    method PrevMonth()
      modifies this
      ensures (year, month) == PrevMonthOf(old(year), old(month))
      ensures hearings == old(hearings) && selectedDate == old(selectedDate) && loading == old(loading)
    {
      var p := PrevMonthOf(year, month);
      year, month := p.0, p.1;
    }

    /** A click on a day cell selects that day's key; the panel then lists that cell's hearings. */
    method SelectDay(day: nat)
      modifies this
      ensures selectedDate == Some(DayKey(year, month, day))
      ensures SelectedHearings(hearings, selectedDate) == HearingsForDay(hearings, year, month, day)
      ensures year == old(year) && month == old(month) && hearings == old(hearings) && loading == old(loading)
    {
      selectedDate := Some(DayKey(year, month, day));
      assert DayKey(year, month, day) != "" by {
        assert |DayKey(year, month, day)| >= 1 + |Pad2(NatToString(day))|;
      }
    }
  }
}
