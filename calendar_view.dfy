/**
 * `CalendarView`: month navigation, the month grid, the selected day and
 * the unscheduled reminders. The calendar helpers the view calls
 * (`get_days_in_month`, `get_first_day_of_week`, `get_current_date`,
 * `group_reminders_by_date`) are not part of this model: their results are
 * parameters.
 */
module CalendarView {
  import opened Wrappers
  import opened Strings
  import opened Models

  /** The month before: January goes back to December of the year before. */
  function PrevMonth(year: int, month: nat): (r: (int, nat))
    requires 1 <= month <= 12
    ensures 1 <= r.1 <= 12
    ensures MonthIndex(r.0, r.1) == MonthIndex(year, month) - 1
  {
    if month == 1 then (year - 1, 12) else (year, month - 1)
  }

  /** The month after: December goes on to January of the year after. */
  function NextMonth(year: int, month: nat): (r: (int, nat))
    requires 1 <= month <= 12
    ensures 1 <= r.1 <= 12
    ensures MonthIndex(r.0, r.1) == MonthIndex(year, month) + 1
  {
    if month == 12 then (year + 1, 1) else (year, month + 1)
  }

  /** Months counted on one line: the reference definition the navigation is stated against. */
  function MonthIndex(year: int, month: nat): int {
    year * 12 + month - 1
  }

  /** The "YYYY-MM-DD" key of a day, `format!("{:04}-{:02}-{:02}", ..)`. */
  function DayKey(year: nat, month: nat, day: nat): string {
    PadZero(Decimal(year), 4) + "-" + PadZero(Decimal(month), 2) + "-" + PadZero(Decimal(day), 2)
  }

  /** Reads a key back: the digits before the first dash, between the dashes, and after the second. */
  function ParseDayKey(k: string): (r: (nat, nat, nat))
    requires |k| >= 8
    ensures r.0 < 10000 && r.1 < 100
  {
    ParseDecimalBound(k[..4]);
    ParseDecimalBound(k[5..7]);
    (ParseDecimal(k[..4]), ParseDecimal(k[5..7]), ParseDecimal(k[8..]))
  }

  /** One cell of the grid: a blank before the first day, or a day with its key and its number of reminders. */
  datatype Cell = Cell(valid: bool, day: nat, key: string, count: nat)

  /** The reminders filed under a day. */
  function CountOn(byDate: map<string, seq<Reminder>>, key: string): (n: nat)
    ensures n == 0 <==> key !in byDate || byDate[key] == []
  {
    if key in byDate then |byDate[key]| else 0
  }

  /** The cell of day `d`: its number, its key, and the number of reminders filed under the key. */
  function DayCell(year: nat, month: nat, d: nat, byDate: map<string, seq<Reminder>>): Cell {
    Cell(true, d, DayKey(year, month, d), CountOn(byDate, DayKey(year, month, d)))
  }

  /** `calendar_days`: `firstDay` blanks, then one cell per day of the month. */
  method CalendarDays(year: nat, month: nat, daysInMonth: nat, firstDay: nat, byDate: map<string, seq<Reminder>>)
    returns (days: seq<Cell>)
    ensures |days| == firstDay + daysInMonth
    ensures forall i :: 0 <= i < firstDay ==> days[i] == Cell(false, 0, [], 0)
    ensures forall d :: 1 <= d <= daysInMonth ==> days[firstDay + d - 1] == DayCell(year, month, d, byDate)
  {
    days := [];
    var i := 0;
    while i < firstDay
      invariant 0 <= i <= firstDay && |days| == i
      invariant forall j :: 0 <= j < i ==> days[j] == Cell(false, 0, [], 0)
    {
      days := days + [Cell(false, 0, [], 0)];
      i := i + 1;
    }
    var day := 1;
    while day <= daysInMonth
      invariant 1 <= day <= daysInMonth + 1 && |days| == firstDay + day - 1
      invariant forall j :: 0 <= j < firstDay ==> days[j] == Cell(false, 0, [], 0)
      invariant forall d :: 1 <= d < day ==> days[firstDay + d - 1] == DayCell(year, month, d, byDate)
    {
      days := days + [DayCell(year, month, day, byDate)];
      day := day + 1;
    }
  }

  /** A click on a day: the selected day is cleared, any other day selected. */
  function ClickDay(selected: Option<string>, key: string): (r: Option<string>)
    ensures r == Some(key) <==> selected != Some(key)
    ensures r.Some? ==> r == Some(key)
  {
    if selected == Some(key) then None else Some(key)
  }

  /** `selected_date_reminders`: the group of the selected day, empty without a selection or without a group. */
  function SelectedReminders(byDate: map<string, seq<Reminder>>, selected: Option<string>): (rs: seq<Reminder>)
    ensures selected.None? ==> rs == []
    ensures selected.Some? && selected.value !in byDate ==> rs == []
    ensures selected.Some? && selected.value in byDate ==> rs == byDate[selected.value]
  {
    if selected.Some? && selected.value in byDate then byDate[selected.value] else []
  }

  datatype DayStyle = Plain | Today | Selected

  /** A day cell's class: selection wins over today. */
  function DayClass(key: string, selected: Option<string>, today: string): (s: DayStyle)
    ensures s == Selected <==> selected == Some(key)
    ensures s == Today <==> selected != Some(key) && key == today
  {
    if selected == Some(key) then Selected else if key == today then Today else Plain
  }

  /** `unscheduled`: the listed reminders without a due date, in order. */
  function Unscheduled(rs: seq<Reminder>): (u: seq<Reminder>)
    ensures forall r :: r in u <==> r in rs && r.dueDate == []
  {
    if rs == [] then [] else (if rs[0].dueDate == [] then [rs[0]] else []) + Unscheduled(rs[1..])
  }

  /** Each reminder without a due date appears as often as in the list, and no scheduled one does. */
  lemma {:induction false} UnscheduledExactly(rs: seq<Reminder>, x: Reminder)
    ensures multiset(Unscheduled(rs))[x] == if x.dueDate == [] then multiset(rs)[x] else 0
  {
    if rs != [] {
      var rest := rs[1..];
      UnscheduledExactly(rest, x);
      assert multiset(rs) == multiset{rs[0]} + multiset(rest) by {
        assert rs == [rs[0]] + rest;
      }
    }
  }

  /** The unscheduled list keeps the list order. */
  lemma {:induction false} UnscheduledAppend(a: seq<Reminder>, b: seq<Reminder>)
    ensures Unscheduled(a + b) == Unscheduled(a) + Unscheduled(b)
  {
    if a != [] {
      UnscheduledAppend(a[1..], b);
      assert (a + b)[1..] == a[1..] + b;
    } else {
      assert a + b == b;
    }
  }

  /** The view's state. */
  class Calendar {
    var viewYear: int
    var viewMonth: nat
    var selectedDate: Option<string>

    ghost predicate Valid()
      reads this
    {
      1 <= viewMonth <= 12
    }

    /** The view opens on the current month, nothing selected. */
    constructor(currentYear: int, currentMonth: nat)
      requires 1 <= currentMonth <= 12
      ensures Valid() && viewYear == currentYear && viewMonth == currentMonth && selectedDate.None?
    {
      viewYear := currentYear;
      viewMonth := currentMonth;
      selectedDate := None;
    }

    method HandlePrevMonth()
      requires Valid()
      modifies this
      ensures Valid() && (viewYear, viewMonth) == PrevMonth(old(viewYear), old(viewMonth)) && selectedDate.None?
    {
      if viewMonth == 1 {
        viewMonth := 12;
        viewYear := viewYear - 1;
      } else {
        viewMonth := viewMonth - 1;
      }
      selectedDate := None;
    }

    method HandleNextMonth()
      requires Valid()
      modifies this
      ensures Valid() && (viewYear, viewMonth) == NextMonth(old(viewYear), old(viewMonth)) && selectedDate.None?
    {
      if viewMonth == 12 {
        viewMonth := 1;
        viewYear := viewYear + 1;
      } else {
        viewMonth := viewMonth + 1;
      }
      selectedDate := None;
    }

    /** "Today": back to the current month, nothing selected. */
    method HandleToday(currentYear: int, currentMonth: nat)
      requires 1 <= currentMonth <= 12
      modifies this
      ensures Valid() && viewYear == currentYear && viewMonth == currentMonth && selectedDate.None?
    {
      viewYear := currentYear;
      viewMonth := currentMonth;
      selectedDate := None;
    }

    method OnDayClick(key: string)
      modifies this
      ensures selectedDate == ClickDay(old(selectedDate), key)
      ensures viewYear == old(viewYear) && viewMonth == old(viewMonth)
    {
      if selectedDate == Some(key) {
        selectedDate := None;
      } else {
        selectedDate := Some(key);
      }
    }
  }

  // ---------------------------------------------------------------------------
  // Properties

  /** "←" then "→", or "→" then "←", comes back to the same month. */
  lemma PrevNextInverse(year: int, month: nat)
    requires 1 <= month <= 12
    ensures var p := PrevMonth(year, month); NextMonth(p.0, p.1) == (year, month)
    ensures var n := NextMonth(year, month); PrevMonth(n.0, n.1) == (year, month)
  {
  }

  /** Keys of years below 10000 read back as their year, month and day. */
  lemma DayKeyRoundTrip(year: nat, month: nat, day: nat)
    requires year < 10000 && month < 100 && day < 100
    ensures |DayKey(year, month, day)| == 10 && ParseDayKey(DayKey(year, month, day)) == (year, month, day)
  {
    DecimalLength(year, 4);
    DecimalLength(month, 2);
    DecimalLength(day, 2);
    var y, m, d := PadZero(Decimal(year), 4), PadZero(Decimal(month), 2), PadZero(Decimal(day), 2);
    var k := DayKey(year, month, day);
    assert k == y + "-" + m + "-" + d;
    assert k[..4] == y && k[5..7] == m && k[8..] == d;
    PadZeroRoundTrip(year, 4);
    PadZeroRoundTrip(month, 2);
    PadZeroRoundTrip(day, 2);
  }

  /** So different days have different keys, and the grid's counts never mix two days. */
  lemma DayKeyInjective(y1: nat, m1: nat, d1: nat, y2: nat, m2: nat, d2: nat)
    requires y1 < 10000 && m1 < 100 && d1 < 100 && y2 < 10000 && m2 < 100 && d2 < 100
    requires DayKey(y1, m1, d1) == DayKey(y2, m2, d2)
    ensures y1 == y2 && m1 == m2 && d1 == d2
  {
    DayKeyRoundTrip(y1, m1, d1);
    DayKeyRoundTrip(y2, m2, d2);
  }

  /** Clicking a day twice clears the selection again. */
  lemma ClickTwiceClears(key: string)
    ensures ClickDay(ClickDay(None, key), key) == None
  {
  }
}
