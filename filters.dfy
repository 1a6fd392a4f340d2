// The client-side filter engine of the event list: the filter state the
// panel edits (search text, category, place, association, date range,
// free or paid), the predicate the list applies to the events it was given,
// and the saved-ids list that the save button keeps up to date.
//
// Instants are milliseconds in UTC; an event's start is the midnight that
// begins its `data_inizio` day, as parseISO reads a date-only text.

module Filters {

  import opened Optional
  import opened Types
  import opened Seqs
  import opened Text
  import opened Dates
  import opened EventActions

  datatype DateRange = All | Today | Week | Month | Custom

  /**
   * The filter object. `categoria` None stands for the empty selection;
   * `dateFrom` and `dateTo` None for an absent key, Some("") for a cleared input.
   */
  datatype FilterState = FilterState(
    search: string,
    categoria: Option<Category>,
    luogo: string,
    associazione: string,
    dateRange: DateRange,
    dateFrom: Option<string>,
    dateTo: Option<string>,
    isFree: Option<bool>)

  /** The state both components start from and that "Rimuovi filtri" restores. */
  const DefaultFilters := FilterState("", None, "", "", All, None, None, None)

  /** JavaScript truthiness of an optional text key. */
  predicate Filled(s: Option<string>)
  {
    s.Some? && s.value != ""
  }

  // ---------------------------------------------------------------------
  // The predicate
  // ---------------------------------------------------------------------

  /** Some of titolo, descrizione, luogo and associazione contains the query, both lower-cased. */
  predicate SearchHits(e: Event, query: string)
  {
    var q := Lower(query);
    Contains(Lower(e.titolo), q) || Contains(Lower(e.descrizione), q)
    || Contains(Lower(e.luogo), q) || Contains(Lower(e.associazione), q)
  }

  /** A closed interval of instants, `{ start, end }`. */
  datatype Interval = Interval(start: int, end: int)

  /** The last millisecond of a day: endOfDay. */
  function DayEnd(z: int): int
  {
    DayStart(z + 1) - 1
  }

  predicate InInterval(t: int, i: Interval)
  {
    i.start <= t <= i.end
  }

  /** startOfDay(today) to endOfDay(today). */
  function TodayInterval(now: nat): Interval
  {
    Interval(DayStart(DayOf(now)), DayEnd(DayOf(now)))
  }

  /** startOfWeek to endOfWeek, weeks starting on Monday. */
  function WeekInterval(now: nat): Interval
  {
    var monday := WeekStart(DayOf(now));
    Interval(DayStart(monday), DayEnd(monday + 6))
  }

  /** startOfMonth to endOfMonth. */
  function MonthInterval(now: nat): Interval
  {
    var c := FromDays(DayOf(now));
    Interval(DayStart(MonthFirst(c.year, c.month)), DayEnd(MonthLast(c.year, c.month)))
  }

  /**
   * The interval a date range selects around `now`: None when the range does
   * not constrain (All, or Custom without both bounds filled), Some(None) for
   * custom bounds that do not parse (an invalid date, which no instant lies
   * within), Some(Some(i)) otherwise. isWithinInterval puts the two bounds
   * in order first, so a `dateFrom` later than `dateTo` selects the same days
   * as the two swapped.
   */
  function RangeInterval(f: FilterState, now: nat): Option<Option<Interval>>
  {
    match f.dateRange
    case All => None
    case Today => Some(Some(TodayInterval(now)))
    case Week => Some(Some(WeekInterval(now)))
    case Month => Some(Some(MonthInterval(now)))
    case Custom =>
      if Filled(f.dateFrom) && Filled(f.dateTo) then
        match (ParseIsoDate(f.dateFrom.value), ParseIsoDate(f.dateTo.value))
        case (Some(a), Some(b)) =>
          Some(Some(if a <= b then Interval(DayStart(a), DayStart(b)) else Interval(DayStart(b), DayStart(a))))
        case _ => Some(None)
      else None
  }

  /** isWithinInterval(parseISO(data_inizio), interval); an unparsable date is never within. */
  predicate Within(e: Event, i: Option<Interval>)
  {
    match ParseIsoDate(e.dataInizio)
    case None => false
    case Some(z) => i.Some? && InInterval(DayStart(z), i.value)
  }

  /** The callback given to events.filter: every active filter must accept the event. */
  predicate Matches(f: FilterState, e: Event, now: nat)
  {
    (f.search == "" || SearchHits(e, f.search))
    && (f.categoria.None? || e.categoria == f.categoria.value)
    && (f.luogo == "" || e.luogo == f.luogo)
    && (f.associazione == "" || e.associazione == f.associazione)
    && (f.isFree.None? || e.isGratuito == f.isFree.value)
    && (RangeInterval(f, now).None? || Within(e, RangeInterval(f, now).value))
  }

  /** filteredEvents: the events the list shows, in their given order. */
  function FilteredEvents(events: seq<EventWithStats>, f: FilterState, now: nat): (r: seq<EventWithStats>)
    ensures IsSubsequence(r, events)
    ensures forall x :: x in r <==> x in events && Matches(f, x.event, now)
  {
    FilterIsSubsequence(events, (x: EventWithStats) => Matches(f, x.event, now));
    FilterMembers(events, (x: EventWithStats) => Matches(f, x.event, now));
    Filter(events, (x: EventWithStats) => Matches(f, x.event, now))
  }

  /** The starting filters let every event through. */
  lemma DefaultShowsAll(events: seq<EventWithStats>, now: nat)
    ensures FilteredEvents(events, DefaultFilters, now) == events
  {
    FilterAll(events, (x: EventWithStats) => Matches(DefaultFilters, x.event, now));
  }

  /** Filtering the filtered list again changes nothing. */
  lemma FilteringIdempotent(events: seq<EventWithStats>, f: FilterState, now: nat)
    ensures FilteredEvents(FilteredEvents(events, f, now), f, now) == FilteredEvents(events, f, now)
  {
    FilterIdempotent(events, (x: EventWithStats) => Matches(f, x.event, now));
  }

  // ---------------------------------------------------------------------
  // What each date range means in days
  // ---------------------------------------------------------------------

  /** A day's midnight lies in the interval from the midnight of `a` to the end of day `b` exactly when a <= z <= b. */
  lemma MidnightInDays(z: int, a: int, b: int)
    ensures DayStart(a) <= DayStart(z) <= DayEnd(b) <==> a <= z <= b
  {
  }

  /** The custom interval ends at the midnight of `dateTo`, which still admits events of that day. */
  lemma MidnightToMidnight(z: int, a: int, b: int)
    ensures DayStart(a) <= DayStart(z) <= DayStart(b) <==> a <= z <= b
  {
  }

  /** 'today' keeps the events that start on the current day. */
  lemma TodayMeansSameDay(z: int, now: nat)
    ensures InInterval(DayStart(z), TodayInterval(now)) <==> z == DayOf(now)
  {
    MidnightInDays(z, DayOf(now), DayOf(now));
  }

  /** 'week' keeps the events whose start falls in the Monday-to-Sunday week of now. */
  lemma WeekMeansSameWeek(z: int, now: nat)
    ensures InInterval(DayStart(z), WeekInterval(now)) <==> WeekStart(z) == WeekStart(DayOf(now))
  {
    var s := WeekStart(DayOf(now));
    MidnightInDays(z, s, s + 6);
    if s <= z <= s + 6 {
      WeekStartOfWeek(s, z - s);
    }
  }

  /** 'month' keeps the events whose start falls in the calendar month of now. */
  lemma MonthMeansSameMonth(z: int, now: nat)
    ensures InInterval(DayStart(z), MonthInterval(now)) <==>
            z + Epoch >= 0 && FromDays(z).year == FromDays(DayOf(now)).year && FromDays(z).month == FromDays(DayOf(now)).month
  {
    var c := FromDays(DayOf(now));
    MidnightInDays(z, MonthFirst(c.year, c.month), MonthLast(c.year, c.month));
    InMonthIff(c.year, c.month, z);
  }

  /** 'custom' constrains only once both bounds are filled. */
  lemma CustomNeedsBothBounds(f: FilterState, now: nat)
    requires f.dateRange == Custom && !(Filled(f.dateFrom) && Filled(f.dateTo))
    ensures RangeInterval(f, now).None?
  {
  }

  /** With both bounds filled and valid, 'custom' keeps the days between them, both included, in either order. */
  lemma CustomMeansBetween(f: FilterState, now: nat, a: int, b: int, z: int)
    requires f.dateRange == Custom && Filled(f.dateFrom) && Filled(f.dateTo)
    requires ParseIsoDate(f.dateFrom.value) == Some(a) && ParseIsoDate(f.dateTo.value) == Some(b)
    ensures RangeInterval(f, now).value.Some?
    ensures InInterval(DayStart(z), RangeInterval(f, now).value.value) <==> a <= z <= b || b <= z <= a
  {
    MidnightToMidnight(z, a, b);
    MidnightToMidnight(z, b, a);
  }

  // ---------------------------------------------------------------------
  // Narrowing
  // ---------------------------------------------------------------------

  /** The date part of a filter state constrains nothing. */
  predicate DateInactive(f: FilterState)
  {
    f.dateRange == All || (f.dateRange == Custom && !(Filled(f.dateFrom) && Filled(f.dateTo)))
  }

  /**
   * `strong` keeps every constraint of `weak`: each key of `weak` is unset or
   * equal in `strong`, and `weak`'s query, if any, is part of `strong`'s.
   */
  predicate Narrows(strong: FilterState, weak: FilterState)
  {
    (weak.search == "" || (strong.search != "" && Contains(Lower(strong.search), Lower(weak.search))))
    && (weak.categoria.None? || strong.categoria == weak.categoria)
    && (weak.luogo == "" || strong.luogo == weak.luogo)
    && (weak.associazione == "" || strong.associazione == weak.associazione)
    && (weak.isFree.None? || strong.isFree == weak.isFree)
    && (DateInactive(weak) || (strong.dateRange == weak.dateRange && strong.dateFrom == weak.dateFrom && strong.dateTo == weak.dateTo))
  }

  lemma NarrowsMatches(strong: FilterState, weak: FilterState, e: Event, now: nat)
    requires Narrows(strong, weak) && Matches(strong, e, now)
    ensures Matches(weak, e, now)
  {
    if weak.search != "" {
      var q, p := Lower(strong.search), Lower(weak.search);
      if Contains(Lower(e.titolo), q) {
        ContainsTransitive(Lower(e.titolo), q, p);
      } else if Contains(Lower(e.descrizione), q) {
        ContainsTransitive(Lower(e.descrizione), q, p);
      } else if Contains(Lower(e.luogo), q) {
        ContainsTransitive(Lower(e.luogo), q, p);
      } else {
        ContainsTransitive(Lower(e.associazione), q, p);
      }
    }
  }

  /** Tightening the filters never adds an event: the new list is a subsequence of the old one. */
  lemma NarrowingShrinks(events: seq<EventWithStats>, strong: FilterState, weak: FilterState, now: nat)
    requires Narrows(strong, weak)
    ensures IsSubsequence(FilteredEvents(events, strong, now), FilteredEvents(events, weak, now))
    ensures |FilteredEvents(events, strong, now)| <= |FilteredEvents(events, weak, now)|
  {
    forall x: EventWithStats | Matches(strong, x.event, now) ensures Matches(weak, x.event, now) {
      NarrowsMatches(strong, weak, x.event, now);
    }
    FilterMonotone(events, (x: EventWithStats) => Matches(strong, x.event, now), (x: EventWithStats) => Matches(weak, x.event, now));
  }

  /** Typing one more character into the search box narrows the filters. */
  lemma TypingNarrows(f: FilterState, c: char)
    ensures Narrows(f.(search := f.search + [c]), f)
  {
    var p := Lower(f.search);
    var q := Lower(f.search + [c]);
    assert p <= q;
  }

  // ---------------------------------------------------------------------
  // The filter panel and the list it drives
  // ---------------------------------------------------------------------

  /** One change the panel's controls make, the `(key, value)` of updateFilter. */
  datatype FilterChange =
    | SetSearch(search: string)
    | SetCategoria(categoria: Option<Category>)
    | SetLuogo(luogo: string)
    | SetAssociazione(associazione: string)
    | SetDateRange(range: DateRange)
    | SetDateFrom(from: string)
    | SetDateTo(to: string)
    | SetIsFree(free: Option<bool>)

  /** `{ ...filters, [key]: value }` */
  function Apply(f: FilterState, ch: FilterChange): (r: FilterState)
  {
    match ch
    case SetSearch(s) => f.(search := s)
    case SetCategoria(c) => f.(categoria := c)
    case SetLuogo(l) => f.(luogo := l)
    case SetAssociazione(a) => f.(associazione := a)
    case SetDateRange(d) => f.(dateRange := d)
    case SetDateFrom(s) => f.(dateFrom := Some(s))
    case SetDateTo(s) => f.(dateTo := Some(s))
    case SetIsFree(b) => f.(isFree := b)
  }

  /** The key a change writes, as in `keyof EventFilters`. */
  function KeyOf(ch: FilterChange): string
  {
    match ch
    case SetSearch(_) => "search"
    case SetCategoria(_) => "categoria"
    case SetLuogo(_) => "luogo"
    case SetAssociazione(_) => "associazione"
    case SetDateRange(_) => "dateRange"
    case SetDateFrom(_) => "dateFrom"
    case SetDateTo(_) => "dateTo"
    case SetIsFree(_) => "isFree"
  }

  /** The value of one key of a filter state, as a change that would write it. */
  function Read(f: FilterState, key: string): Option<FilterChange>
  {
    if key == "search" then Some(SetSearch(f.search))
    else if key == "categoria" then Some(SetCategoria(f.categoria))
    else if key == "luogo" then Some(SetLuogo(f.luogo))
    else if key == "associazione" then Some(SetAssociazione(f.associazione))
    else if key == "dateRange" then Some(SetDateRange(f.dateRange))
    else if key == "dateFrom" then (if f.dateFrom.Some? then Some(SetDateFrom(f.dateFrom.value)) else None)
    else if key == "dateTo" then (if f.dateTo.Some? then Some(SetDateTo(f.dateTo.value)) else None)
    else if key == "isFree" then Some(SetIsFree(f.isFree))
    else None
  }

  /** A change writes its own key to its value and leaves every other key as it was. */
  lemma ApplyChangesOneKey(f: FilterState, ch: FilterChange, key: string)
    ensures Read(Apply(f, ch), KeyOf(ch)) == Some(ch)
    ensures key != KeyOf(ch) ==> Read(Apply(f, ch), key) == Read(f, key)
  {
  }

  /** The free/paid button: null, then true, then false, then null again. */
  function NextIsFree(b: Option<bool>): (r: Option<bool>)
    ensures r != b
  {
    match b
    case None => Some(true)
    case Some(true) => Some(false)
    case Some(false) => None
  }

  /** Three presses bring the button back to where it started. */
  lemma IsFreeCycle(b: Option<bool>)
    ensures NextIsFree(NextIsFree(NextIsFree(b))) == b
    ensures NextIsFree(b) != b && NextIsFree(NextIsFree(b)) != b
  {
  }

  /** hasActiveFilters: some key other than the search text constrains the list. */
  predicate HasActiveFilters(f: FilterState)
  {
    f.categoria.Some? || f.luogo != "" || f.associazione != "" || f.dateRange != All || f.isFree.Some?
  }

  /** A state with no active filter and no search text lets every event through. */
  lemma InactiveShowsAll(events: seq<EventWithStats>, f: FilterState, now: nat)
    requires !HasActiveFilters(f) && f.search == ""
    ensures FilteredEvents(events, f, now) == events
  {
    FilterAll(events, (x: EventWithStats) => Matches(f, x.event, now));
  }

  /** The search text alone never lights up "Rimuovi filtri". */
  lemma SearchNotActive(f: FilterState, s: string)
    ensures HasActiveFilters(f.(search := s)) == HasActiveFilters(f)
  {
  }

  /**
   * The filter bar and the list under it. `panel` is the bar's own state and
   * `applied` the list's, which the bar updates through onFilterChange with
   * every change it makes; `savedEventIds` is the list's saved-ids state.
   */
  class EventBrowser {
    const events: seq<EventWithStats>
    var panel: FilterState
    var applied: FilterState
    var showAdvanced: bool
    var savedEventIds: seq<Id>

    /** The bar and the list agree on the filters. */
    predicate Valid()
      reads this
    {
      panel == applied
    }

    constructor (events: seq<EventWithStats>, initialSavedIds: seq<Id>)
      ensures this.events == events && savedEventIds == initialSavedIds
      ensures panel == DefaultFilters && applied == DefaultFilters && !showAdvanced
      ensures Valid()
    {
      this.events := events;
      panel := DefaultFilters;
      applied := DefaultFilters;
      showAdvanced := false;
      savedEventIds := initialSavedIds;
    }

    /** The events the list shows at instant `now`. */
    function Shown(now: nat): seq<EventWithStats>
      reads this
    {
      FilteredEvents(events, applied, now)
    }

    /** updateFilter: the new object goes to the bar's state and to the list. */
    method UpdateFilter(ch: FilterChange)
      requires Valid()
      modifies this
      ensures Valid()
      ensures panel == Apply(old(panel), ch)
      ensures showAdvanced == old(showAdvanced) && savedEventIds == old(savedEventIds)
    {
      var newFilters := Apply(panel, ch);
      panel := newFilters;
      applied := newFilters;
    }

    /** The free/paid button. */
    method CycleIsFree()
      requires Valid()
      modifies this
      ensures Valid()
      ensures panel == old(panel).(isFree := NextIsFree(old(panel).isFree))
      ensures showAdvanced == old(showAdvanced) && savedEventIds == old(savedEventIds)
    {
      UpdateFilter(SetIsFree(NextIsFree(panel.isFree)));
    }

    /** clearFilters: both states go back to the defaults; the advanced panel stays as it is. */
    method ClearFilters()
      requires Valid()
      modifies this
      ensures Valid()
      ensures panel == DefaultFilters && !HasActiveFilters(panel)
      ensures showAdvanced == old(showAdvanced) && savedEventIds == old(savedEventIds)
    {
      panel := DefaultFilters;
      applied := DefaultFilters;
    }

    /** "Altri filtri" shows or hides the place, association and custom date inputs. */
    method ToggleAdvanced()
      modifies this
      ensures showAdvanced == !old(showAdvanced)
      ensures panel == old(panel) && applied == old(applied) && savedEventIds == old(savedEventIds)
    {
      showAdvanced := !showAdvanced;
    }

    /**
     * handleToggleSave after salvaEvento answered `result`: a save appends the
     * id (even if already listed), an unsave removes every copy of it, and any
     * other answer leaves the list alone.
     */
    method HandleToggleSave(eventId: Id, result: ActionResult)
      modifies this
      ensures result == Toggled(true) ==> savedEventIds == old(savedEventIds) + [eventId]
      ensures result == Toggled(false) ==> savedEventIds == Filter(old(savedEventIds), (id: Id) => id != eventId)
      ensures !result.Toggled? ==> savedEventIds == old(savedEventIds)
      ensures panel == old(panel) && applied == old(applied) && showAdvanced == old(showAdvanced)
    {
      if result.Toggled? {
        if result.saved {
          savedEventIds := savedEventIds + [eventId];
        } else {
          savedEventIds := Filter(savedEventIds, (id: Id) => id != eventId);
        }
      }
    }

    /** Whether the card of an event shows the filled bookmark. */
    predicate IsSaved(eventId: Id)
      reads this
    {
      eventId in savedEventIds
    }
  }

  /** After a save the card is marked; after an unsave it is not, and the other ids keep their marks. */
  lemma SaveMarks(ids: seq<Id>, eventId: Id, other: Id)
    requires other != eventId
    ensures eventId in ids + [eventId]
    ensures eventId !in Filter(ids, (id: Id) => id != eventId)
    ensures other in Filter(ids, (id: Id) => id != eventId) <==> other in ids
  {
    FilterMembers(ids, (id: Id) => id != eventId);
  }

  /**
   * The count line above the results: singular for one, plural otherwise.
   * With no results the list shows its empty-state block instead, so the
   * line is never shown for zero.
   */
  function ResultsHeader(n: nat): (s: string)
    ensures n == 1 <==> s == "1 evento trovato"
  {
    if n == 1 then "1 evento trovato"
    else
      var s := NatText(n) + " eventi trovati";
      assert s[|s| - 1] == 'i' && "1 evento trovato"[15] == 'o';
      s
  }
}
