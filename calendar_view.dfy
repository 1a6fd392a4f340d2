// The month calendar of the published events: events grouped by their start
// date, the Monday-to-Sunday grid of days around the shown month, the list
// for the selected day, the dots of a cell, and the month navigation.
//
// Days are day numbers (days since 1970-01-01); the shown month is a
// (year, month) pair, the only part of `currentMonth` the view reads.

module CalendarView {

  import opened Optional
  import opened Types
  import opened Seqs
  import opened Dates

  /** The grouping key of an event: its `data_inizio` text as stored. */
  function DateKey(e: EventWithStats): string
  {
    e.event.dataInizio
  }

  /** The events of one key, in list order. */
  function Bucket(events: seq<EventWithStats>, key: string): (r: seq<EventWithStats>)
    ensures |r| <= |events|
  {
    if events == [] then []
    else
      var last := events[|events| - 1];
      Bucket(events[..|events| - 1], key) + (if DateKey(last) == key then [last] else [])
  }

  lemma {:induction false} BucketMembers(events: seq<EventWithStats>, key: string, x: EventWithStats)
    ensures x in Bucket(events, key) <==> x in events && DateKey(x) == key
    decreases |events|
  {
    if events != [] {
      var p := events[..|events| - 1];
      BucketMembers(p, key, x);
      assert events == p + [events[|events| - 1]];
    }
  }

  /** A bucket keeps the order of the list it was taken from. */
  lemma {:induction false} BucketIsSubsequence(events: seq<EventWithStats>, key: string)
    ensures Bucket(events, key) == Filter(events, (x: EventWithStats) => DateKey(x) == key)
    decreases |events|
  {
    if events != [] {
      var p := events[..|events| - 1];
      var last := events[|events| - 1];
      BucketIsSubsequence(p, key);
      assert events == p + [last];
      FilterConcat(p, [last], (x: EventWithStats) => DateKey(x) == key);
      assert Filter([last], (x: EventWithStats) => DateKey(x) == key) == if DateKey(last) == key then [last] else [];
    }
  }

  /**
   * eventsByDate: one list per start date that occurs, holding that date's
   * events in the order they came.
   */
  method EventsByDate(events: seq<EventWithStats>) returns (grouped: map<string, seq<EventWithStats>>)
    ensures forall k :: k in grouped <==> exists i :: 0 <= i < |events| && DateKey(events[i]) == k
    ensures forall k :: k in grouped ==> grouped[k] == Bucket(events, k)
  {
    grouped := map[];
    for i := 0 to |events|
      invariant forall k :: k in grouped <==> exists j :: 0 <= j < i && DateKey(events[j]) == k
      invariant forall k :: k in grouped ==> grouped[k] == Bucket(events[..i], k)
    {
      var e := events[i];
      var dateKey := DateKey(e);
      assert events[..i + 1][..i] == events[..i];
      if dateKey !in grouped {
        assert Bucket(events[..i], dateKey) == [] by {
          BucketEmpty(events[..i], dateKey);
        }
        grouped := grouped[dateKey := []];
      }
      grouped := grouped[dateKey := grouped[dateKey] + [e]];
    }
    assert events[..|events|] == events;
  }

  lemma BucketEmpty(events: seq<EventWithStats>, key: string)
    requires forall j :: 0 <= j < |events| ==> DateKey(events[j]) != key
    ensures Bucket(events, key) == []
  {
    if Bucket(events, key) != [] {
      var x := Bucket(events, key)[0];
      BucketMembers(events, key, x);
    }
  }

  /** Every event is in the list of its own date and in no other. */
  lemma EachEventOneBucket(events: seq<EventWithStats>, grouped: map<string, seq<EventWithStats>>, e: EventWithStats, k: string)
    requires forall k :: k in grouped <==> exists i :: 0 <= i < |events| && DateKey(events[i]) == k
    requires forall k :: k in grouped ==> grouped[k] == Bucket(events, k)
    requires e in events
    ensures DateKey(e) in grouped && e in grouped[DateKey(e)]
    ensures k in grouped && e in grouped[k] ==> k == DateKey(e)
  {
    var i :| 0 <= i < |events| && events[i] == e;
    BucketMembers(events, DateKey(e), e);
    BucketMembers(events, k, e);
  }

  // ---------------------------------------------------------------------
  // The grid
  // ---------------------------------------------------------------------

  /** startOfWeek(startOfMonth(currentMonth)): the Monday on or before the 1st. */
  function GridStart(y: nat, m: int): int
    requires 1 <= m <= 12
  {
    WeekStart(MonthFirst(y, m))
  }

  /** endOfWeek(endOfMonth(…)): the Sunday on or after the last day. */
  function GridEnd(y: nat, m: int): int
    requires 1 <= m <= 12
  {
    WeekStart(MonthLast(y, m)) + 6
  }

  /** calendarDays: every day from the grid's first Monday to its last Sunday, one after the other. */
  method CalendarDays(y: nat, m: int) returns (days: seq<int>)
    requires 1 <= m <= 12
    ensures |days| == GridEnd(y, m) - GridStart(y, m) + 1
    ensures forall i :: 0 <= i < |days| ==> days[i] == GridStart(y, m) + i
  {
    var startDate := GridStart(y, m);
    var endDate := GridEnd(y, m);
    days := [];
    var day := startDate;
    while day <= endDate
      invariant startDate <= day <= endDate + 1
      invariant |days| == day - startDate
      invariant forall i :: 0 <= i < |days| ==> days[i] == startDate + i
      decreases endDate + 1 - day
    {
      days := days + [day];
      day := day + 1;
    }
  }

  /** The week-aligned span around a run of 28 to 31 days. */
  lemma WeeksAround(first: int, last: int)
    requires 27 <= last - first <= 30
    ensures Weekday(WeekStart(first)) == 0 && Weekday(WeekStart(last) + 6) == 6
    ensures (WeekStart(last) + 6 - WeekStart(first) + 1) % 7 == 0
    ensures 28 <= WeekStart(last) + 6 - WeekStart(first) + 1 <= 42
  {
    var a, b := WeekStart(first), WeekStart(last);
    var p, q := (a + 3) / 7, (b + 3) / 7;
    assert a + 3 == 7 * p && b + 3 == 7 * q;
    var n := b + 6 - a + 1;
    assert n == 7 * (q - p + 1);
    assert 27 < n < 44;
  }

  /**
   * The grid opens on a Monday, closes on a Sunday, holds whole weeks (four
   * to six of them) and covers every day of the month, with less than a week
   * on either side.
   */
  lemma GridShape(y: nat, m: int)
    requires 1 <= m <= 12
    ensures Weekday(GridStart(y, m)) == 0 && Weekday(GridEnd(y, m)) == 6
    ensures GridStart(y, m) <= MonthFirst(y, m) < GridStart(y, m) + 7
    ensures GridEnd(y, m) - 7 < MonthLast(y, m) <= GridEnd(y, m)
    ensures (GridEnd(y, m) - GridStart(y, m) + 1) % 7 == 0
    ensures 28 <= GridEnd(y, m) - GridStart(y, m) + 1 <= 42
  {
    WeeksAround(MonthFirst(y, m), MonthLast(y, m));
  }

  // ---------------------------------------------------------------------
  // The selected day
  // ---------------------------------------------------------------------

  /** format(day, 'yyyy-MM-dd'), for the days of years 0 to 9999. */
  function DayKey(z: int): Option<string>
  {
    if z + Epoch >= 0 && FromDays(z).year < 10000 then Some(FormatIsoDate(FromDays(z))) else None
  }

  /** selectedDateEvents: nothing without a selection, else that day's list or nothing. */
  function SelectedDateEvents(grouped: map<string, seq<EventWithStats>>, selected: Option<int>): seq<EventWithStats>
  {
    if selected.None? then []
    else match DayKey(selected.value)
      case Some(k) => if k in grouped then grouped[k] else []
      case None => []
  }

  /** The selected day's list holds exactly the events whose start date is that day, in list order. */
  lemma SelectedDayEvents(events: seq<EventWithStats>, grouped: map<string, seq<EventWithStats>>, z: int)
    requires forall k :: k in grouped <==> exists i :: 0 <= i < |events| && DateKey(events[i]) == k
    requires forall k :: k in grouped ==> grouped[k] == Bucket(events, k)
    requires z + Epoch >= 0 && FromDays(z).year < 10000
    ensures forall x :: x in SelectedDateEvents(grouped, Some(z)) <==> x in events && ParseIsoDate(DateKey(x)) == Some(z)
  {
    forall x ensures x in SelectedDateEvents(grouped, Some(z)) <==> x in events && ParseIsoDate(DateKey(x)) == Some(z) {
      SelectedDayEvent(events, grouped, z, x);
    }
  }

  lemma SelectedDayEvent(events: seq<EventWithStats>, grouped: map<string, seq<EventWithStats>>, z: int, x: EventWithStats)
    requires forall k :: k in grouped <==> exists i :: 0 <= i < |events| && DateKey(events[i]) == k
    requires forall k :: k in grouped ==> grouped[k] == Bucket(events, k)
    requires z + Epoch >= 0 && FromDays(z).year < 10000
    ensures x in SelectedDateEvents(grouped, Some(z)) <==> x in events && ParseIsoDate(DateKey(x)) == Some(z)
  {
    var k := FormatIsoDate(FromDays(z));
    ParseIsoDateKey(DateKey(x), z);
    BucketMembers(events, k, x);
    if x in events && DateKey(x) == k {
      var i :| 0 <= i < |events| && events[i] == x;
    }
  }

  // ---------------------------------------------------------------------
  // A cell's dots
  // ---------------------------------------------------------------------

  const MaxDots: nat := 3

  /** dayEvents.slice(0, 3): one dot per event, at most three. */
  function Dots(dayEvents: seq<EventWithStats>): seq<EventWithStats>
  {
    Take(dayEvents, MaxDots)
  }

  /** The '+n' label, shown only beyond three events. */
  function Overflow(dayEvents: seq<EventWithStats>): Option<nat>
  {
    if |dayEvents| > MaxDots then Some(|dayEvents| - MaxDots) else None
  }

  /** The dots are the day's first events, at most three, and the label accounts for the rest. */
  lemma DotsAccount(dayEvents: seq<EventWithStats>)
    ensures |Dots(dayEvents)| <= MaxDots && Dots(dayEvents) == dayEvents[..|Dots(dayEvents)|]
    ensures Overflow(dayEvents).Some? <==> |dayEvents| > MaxDots
    ensures |Dots(dayEvents)| + (if Overflow(dayEvents).Some? then Overflow(dayEvents).value else 0) == |dayEvents|
  {
  }

  // ---------------------------------------------------------------------
  // Navigation
  // ---------------------------------------------------------------------

  /** The shown month and the selected day. */
  class Calendar {
    var year: nat
    var month: int
    var selectedDate: Option<int>

    predicate Valid()
      reads this
    {
      1 <= month <= 12
    }

    /** useState(new Date()) and useState(null). */
    constructor (now: nat)
      ensures Valid()
      ensures (year, month) == (FromDays(DayOf(now)).year, FromDays(DayOf(now)).month)
      ensures selectedDate.None?
    {
      var today := FromDays(DayOf(now));
      year, month := today.year, today.month;
      selectedDate := None;
    }

    method PrevMonthClick()
      requires Valid()
      modifies this
      ensures Valid()
      ensures (year, month) == PrevMonth(old(year), old(month)) && selectedDate == old(selectedDate)
    {
      var p := PrevMonth(year, month);
      year, month := p.0, p.1;
    }

    method NextMonthClick()
      requires Valid()
      modifies this
      ensures Valid()
      ensures (year, month) == NextMonth(old(year), old(month)) && selectedDate == old(selectedDate)
    {
      var n := NextMonth(year, month);
      year, month := n.0, n.1;
    }

    /** goToToday: the month of today is shown and today is selected. */
    method GoToToday(now: nat)
      modifies this
      ensures Valid()
      ensures (year, month) == (FromDays(DayOf(now)).year, FromDays(DayOf(now)).month)
      ensures selectedDate == Some(DayOf(now))
    {
      var today := FromDays(DayOf(now));
      year, month := today.year, today.month;
      selectedDate := Some(DayOf(now));
    }

    /** A click on a cell selects its day. */
    method SelectDay(z: int)
      modifies this
      ensures selectedDate == Some(z) && year == old(year) && month == old(month)
    {
      selectedDate := Some(z);
    }
  }

  /** After "Oggi" the selected day lies in the shown month's grid. */
  lemma TodayInShownGrid(now: nat)
    ensures var c := FromDays(DayOf(now));
            GridStart(c.year, c.month) <= DayOf(now) <= GridEnd(c.year, c.month)
  {
    var c := FromDays(DayOf(now));
    InMonthIff(c.year, c.month, DayOf(now));
    GridShape(c.year, c.month);
  }
}
