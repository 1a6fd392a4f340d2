// The server pages that read the tables: who may open each page, which
// events each one lists and in what order, the statistics attached to every
// listed event, the dashboard totals, the status badge, the home page's
// filter options and the notification header.
//
// Rows come back in table order; an ordering by creation time, newest first,
// is modelled as the reverse of that order, since rows are appended as
// they are created.

module Pages {

  import opened Optional
  import opened Types
  import opened Seqs
  import opened Db
  import Dates
  import Text

  // ---------------------------------------------------------------------
  // Per-event statistics
  // ---------------------------------------------------------------------

  /** select rating from reviews where event_id = id */
  function RatingsFor(reviews: seq<Review>, id: Id): (r: seq<int>)
    ensures |r| <= |reviews|
    decreases |reviews|
  {
    if reviews == [] then []
    else (if reviews[0].eventId == id then [reviews[0].rating] else []) + RatingsFor(reviews[1..], id)
  }

  /** select count(*) from saved_events where event_id = id */
  function SavesFor(saved: seq<SavedEvent>, id: Id): nat
    decreases |saved|
  {
    if saved == [] then 0 else (if saved[0].eventId == id then 1 else 0) + SavesFor(saved[1..], id)
  }

  /** The mean of the ratings, null when there are none. */
  function Average(ratings: seq<int>): (r: Option<real>)
    ensures r.None? <==> ratings == []
  {
    if ratings == [] then None else Some(Sum(ratings) as real / |ratings| as real)
  }

  /** Every rating an event's reviews carry lies in a range that holds all the table's ratings. */
  lemma {:induction false} RatingsForWithin(reviews: seq<Review>, id: Id, lo: int, hi: int)
    requires forall i :: 0 <= i < |reviews| ==> lo <= reviews[i].rating <= hi
    ensures forall i :: 0 <= i < |RatingsFor(reviews, id)| ==> lo <= RatingsFor(reviews, id)[i] <= hi
    decreases |reviews|
  {
    if reviews != [] {
      RatingsForWithin(reviews[1..], id, lo, hi);
    }
  }

  /** The average lies between any lower and upper bound of the ratings. */
  lemma AverageWithin(ratings: seq<int>, lo: int, hi: int)
    requires ratings != [] && forall i :: 0 <= i < |ratings| ==> lo <= ratings[i] <= hi
    ensures lo as real <= Average(ratings).value <= hi as real
  {
    SumBounds(ratings, lo, hi);
    var n := |ratings| as real;
    var s := Sum(ratings) as real;
    assert lo as real * n <= s <= hi as real * n;
    assert s / n * n == s;
  }

  /** The number of reviews of an event is the number of its rows in the reviews table. */
  lemma {:induction false} RatingsForCount(reviews: seq<Review>, id: Id)
    ensures |RatingsFor(reviews, id)| == |Filter(reviews, (r: Review) => r.eventId == id)|
    decreases |reviews|
  {
    if reviews != [] {
      RatingsForCount(reviews[1..], id);
    }
  }

  /** The creator's name, as the users!events_creato_da_fkey join returns it. */
  function CreatorOf(users: map<Id, User>, id: Id): (r: Option<Creator>)
    ensures r.Some? <==> id in users
    ensures r.Some? ==> r.value == Creator(users[id].nome, users[id].cognome)
  {
    if id in users then Some(Creator(users[id].nome, users[id].cognome)) else None
  }

  /** The row a page pushes for one event: the event, its statistics and, where joined, its creator. */
  function WithStats(e: Event, reviews: seq<Review>, saved: seq<SavedEvent>, users: map<Id, User>, join: bool): (r: EventWithStats)
    ensures r.event == e && r.savesCount == SavesFor(saved, e.id)
    ensures r.reviewsCount == |RatingsFor(reviews, e.id)| && r.avgRating == Average(RatingsFor(reviews, e.id))
    ensures r.avgRating.None? <==> r.reviewsCount == 0
    ensures r.creator == if join then CreatorOf(users, e.creatoDa) else None
  {
    var ratings := RatingsFor(reviews, e.id);
    EventWithStats(e, Average(ratings), |ratings|, SavesFor(saved, e.id), if join then CreatorOf(users, e.creatoDa) else None)
  }

  /** The statistics of a list of events, one row per event in the same order. */
  function StatsOf(es: seq<Event>, reviews: seq<Review>, saved: seq<SavedEvent>, users: map<Id, User>, join: bool): (r: seq<EventWithStats>)
    ensures |r| == |es|
    ensures forall i :: 0 <= i < |es| ==> r[i] == WithStats(es[i], reviews, saved, users, join)
  {
    if es == [] then []
    else StatsOf(es[..|es| - 1], reviews, saved, users, join) + [WithStats(es[|es| - 1], reviews, saved, users, join)]
  }

  /**
   * The loop every listing page runs: for each event, fetch its ratings and its
   * save count, average the ratings and push the row.
   */
  method AttachStats(db: Database, es: seq<Event>, join: bool) returns (r: seq<EventWithStats>)
    ensures r == StatsOf(es, db.reviews, db.savedEvents, db.users, join)
  {
    r := [];
    var i := 0;
    while i < |es|
      invariant 0 <= i <= |es|
      invariant r == StatsOf(es[..i], db.reviews, db.savedEvents, db.users, join)
    {
      var e := es[i];
      var ratings := RatingsFor(db.reviews, e.id);
      var savesCount := SavesFor(db.savedEvents, e.id);
      var avgRating := if |ratings| > 0 then Some(Sum(ratings) as real / |ratings| as real) else None;
      var creator := if join then CreatorOf(db.users, e.creatoDa) else None;
      r := r + [EventWithStats(e, avgRating, |ratings|, savesCount, creator)];
      assert es[..i + 1][..i] == es[..i];
      i := i + 1;
    }
    assert es[..i] == es;
  }

  // ---------------------------------------------------------------------
  // Access
  // ---------------------------------------------------------------------

  /** Who a page admits: any signed-in user, municipal staff, or administrators only. */
  datatype Access = SignedIn | Staff | AdminOnly

  datatype Page<T> = Redirect(target: string) | Render(view: T)

  predicate Admits(access: Access, role: Role)
  {
    match access
    case SignedIn => true
    case Staff => IsStaff(role)
    case AdminOnly => role == Admin
  }

  /**
   * The redirect a page issues before reading anything: '/login' without a
   * session, '/' when a profile is required and missing or of the wrong role.
   */
  function Gate(session: Option<Id>, users: map<Id, User>, access: Access): (r: Option<string>)
    ensures r.None? <==> session.Some? && (access == SignedIn || (session.value in users && Admits(access, users[session.value].role)))
    ensures session.None? ==> r == Some("/login")
    ensures session.Some? && r.Some? ==> r == Some("/")
  {
    if session.None? then Some("/login")
    else if access == SignedIn then None
    else match RoleOf(users, session.value)
      case Some(role) => if Admits(access, role) then None else Some("/")
      case None => Some("/")
  }

  /** Whoever passes the administrators' gate passes the staff gate, and whoever passes that passes the sign-in gate. */
  lemma GatesNested(session: Option<Id>, users: map<Id, User>)
    ensures Gate(session, users, AdminOnly).None? ==> Gate(session, users, Staff).None?
    ensures Gate(session, users, Staff).None? ==> Gate(session, users, SignedIn).None?
  {
  }

  // ---------------------------------------------------------------------
  // Orders
  // ---------------------------------------------------------------------

  /** Newest first by creation time, over rows appended in creation order. */
  function NewestFirst<T>(rows: seq<T>): (r: seq<T>)
    ensures |r| == |rows|
    ensures forall i :: 0 <= i < |rows| ==> r[i] == rows[|rows| - 1 - i]
  {
    if rows == [] then [] else [rows[|rows| - 1]] + NewestFirst(rows[..|rows| - 1])
  }

  lemma NewestFirstSameElements<T>(rows: seq<T>)
    ensures forall x :: x in NewestFirst(rows) <==> x in rows
  {
    var r := NewestFirst(rows);
    forall x | x in rows ensures x in r {
      var i :| 0 <= i < |rows| && rows[i] == x;
      assert r[|rows| - 1 - i] == x;
    }
  }

  /** The start date's day number; a stored start date always parses. */
  function StartDay(e: Event): int
  {
    match Dates.ParseIsoDate(e.dataInizio)
    case Some(z) => z
    case None => 0
  }

  /** Earliest start date first; ties keep table order (SortDescStable). */
  function ByStartDate(es: seq<Event>): (r: seq<Event>)
    ensures multiset(r) == multiset(es)
  {
    SortDesc(es, (e: Event) => -StartDay(e))
  }

  lemma ByStartDateSorted(es: seq<Event>)
    ensures forall i, j :: 0 <= i < j < |ByStartDate(es)| ==> StartDay(ByStartDate(es)[i]) <= StartDay(ByStartDate(es)[j])
  {
    SortDescSorted(es, (e: Event) => -StartDay(e));
  }

  // ---------------------------------------------------------------------
  // The status badge on the dashboard and the admin list
  // ---------------------------------------------------------------------

  datatype Badge = Bozza | Concluso | Pubblicato

  /** An event is past when its start date's midnight is before now (instants in milliseconds). */
  predicate IsPast(e: Event, now: int)
  {
    Dates.DayStart(StartDay(e)) < now
  }

  function StatusBadge(e: Event, now: int): (b: Badge)
    ensures b == Bozza <==> e.isDraft
    ensures b == Pubblicato <==> !e.isDraft && !IsPast(e, now)
  {
    if e.isDraft then Bozza else if IsPast(e, now) then Concluso else Pubblicato
  }

  // ---------------------------------------------------------------------
  // Dashboard
  // ---------------------------------------------------------------------

  datatype DashboardView = DashboardView(
    events: seq<EventWithStats>,
    totalEvents: nat,
    totalViews: nat,
    totalSaves: nat,
    totalReviews: nat)

  /** The caller's own events, newest first. */
  function OwnEvents(events: seq<Event>, uid: Id): (r: seq<Event>)
    ensures forall e :: e in r <==> e in events && e.creatoDa == uid
  {
    var mine := Filter(events, (e: Event) => e.creatoDa == uid);
    NewestFirstSameElements(mine);
    NewestFirst(mine)
  }

  function TotalViews(es: seq<EventWithStats>): nat
  {
    if es == [] then 0 else es[0].event.viewsCount + TotalViews(es[1..])
  }

  function TotalSaves(es: seq<EventWithStats>): nat
  {
    if es == [] then 0 else es[0].savesCount + TotalSaves(es[1..])
  }

  function TotalReviews(es: seq<EventWithStats>): nat
  {
    if es == [] then 0 else es[0].reviewsCount + TotalReviews(es[1..])
  }

  /** The dashboard: staff only; the caller's events with their statistics and the four totals. */
  method DashboardPage(db: Database) returns (p: Page<DashboardView>)
    ensures Gate(db.session, db.users, Staff).Some? ==> p == Redirect(Gate(db.session, db.users, Staff).value)
    ensures Gate(db.session, db.users, Staff).None? ==>
              p.Render? && p.view.events == StatsOf(OwnEvents(db.events, db.session.value), db.reviews, db.savedEvents, db.users, false)
    ensures p.Render? ==> p.view.totalEvents == |p.view.events| && p.view.totalViews == TotalViews(p.view.events)
    ensures p.Render? ==> p.view.totalSaves == TotalSaves(p.view.events) && p.view.totalReviews == TotalReviews(p.view.events)
  {
    var gate := Gate(db.session, db.users, Staff);
    if gate.Some? {
      return Redirect(gate.value);
    }
    var mine := OwnEvents(db.events, db.session.value);
    var stats := AttachStats(db, mine, false);
    p := Render(DashboardView(stats, |stats|, TotalViews(stats), TotalSaves(stats), TotalReviews(stats)));
  }

  /** The ids of a list of rows. */
  function IdsOf(es: seq<EventWithStats>): set<Id>
  {
    set i | 0 <= i < |es| :: es[i].event.id
  }

  /** The number of saved_events rows whose event is one of ids. */
  function SavesAmong(saved: seq<SavedEvent>, ids: set<Id>): nat
    decreases |saved|
  {
    if saved == [] then 0 else (if saved[0].eventId in ids then 1 else 0) + SavesAmong(saved[1..], ids)
  }

  lemma {:induction false} SavesAmongNone(saved: seq<SavedEvent>)
    ensures SavesAmong(saved, {}) == 0
    decreases |saved|
  {
    if saved != [] {
      SavesAmongNone(saved[1..]);
    }
  }

  lemma {:induction false} SavesAmongAdd(saved: seq<SavedEvent>, ids: set<Id>, x: Id)
    requires x !in ids
    ensures SavesAmong(saved, {x} + ids) == SavesFor(saved, x) + SavesAmong(saved, ids)
    decreases |saved|
  {
    if saved != [] {
      SavesAmongAdd(saved[1..], ids, x);
    }
  }

  /**
   * With distinct events, the saves total counts every save of a listed event
   * exactly once.
   */
  lemma {:induction false} TotalSavesCountsEachSave(es: seq<EventWithStats>, saved: seq<SavedEvent>)
    requires forall i, j :: 0 <= i < j < |es| ==> es[i].event.id != es[j].event.id
    requires forall i :: 0 <= i < |es| ==> es[i].savesCount == SavesFor(saved, es[i].event.id)
    ensures TotalSaves(es) == SavesAmong(saved, IdsOf(es))
    decreases |es|
  {
    if es != [] {
      var rest := es[1..];
      TotalSavesCountsEachSave(rest, saved);
      assert IdsOf(es) == {es[0].event.id} + IdsOf(rest) by {
        forall y | y in IdsOf(es) ensures y in {es[0].event.id} + IdsOf(rest) {
          var i :| 0 <= i < |es| && es[i].event.id == y;
          if i > 0 {
            assert rest[i - 1].event.id == y;
          }
        }
        forall y | y in IdsOf(rest) ensures y in IdsOf(es) {
          var i :| 0 <= i < |rest| && rest[i].event.id == y;
          assert es[i + 1].event.id == y;
        }
      }
      assert es[0].event.id !in IdsOf(rest) by {
        forall i | 0 <= i < |rest| ensures rest[i].event.id != es[0].event.id {
          assert rest[i] == es[i + 1];
        }
      }
      SavesAmongAdd(saved, IdsOf(rest), es[0].event.id);
      assert TotalSaves(es) == SavesFor(saved, es[0].event.id) + TotalSaves(rest);
    } else {
      SavesAmongNone(saved);
      assert IdsOf(es) == {};
    }
  }

  /** Filtering a table with unique ids keeps the ids unique. */
  lemma {:induction false} FilterUniqueIds(events: seq<Event>, p: Event -> bool)
    requires UniqueEventIds(events)
    ensures UniqueEventIds(Filter(events, p))
    decreases |events|
  {
    if events != [] {
      var rest := events[1..];
      assert UniqueEventIds(rest) by {
        forall i, j | 0 <= i < j < |rest| ensures rest[i].id != rest[j].id {
          assert rest[i] == events[i + 1] && rest[j] == events[j + 1];
        }
      }
      FilterUniqueIds(rest, p);
      if p(events[0]) {
        var r := Filter(events, p);
        var t := Filter(rest, p);
        assert r == [events[0]] + t;
        forall j | 0 < j < |r| ensures r[0].id != r[j].id {
          assert r[j] == t[j - 1] && t[j - 1] in rest;
        }
      }
    }
  }

  /** The ids of the events a user created. */
  function OwnIds(events: seq<Event>, uid: Id): set<Id>
  {
    set e | e in events && e.creatoDa == uid :: e.id
  }

  /** On the dashboard, the saves total counts each save of one of the caller's events once. */
  lemma DashboardTotalSaves(events: seq<Event>, reviews: seq<Review>, saved: seq<SavedEvent>, users: map<Id, User>, uid: Id)
    requires UniqueEventIds(events)
    ensures TotalSaves(StatsOf(OwnEvents(events, uid), reviews, saved, users, false)) == SavesAmong(saved, OwnIds(events, uid))
  {
    var stats := StatsOf(OwnEvents(events, uid), reviews, saved, users, false);
    OwnStatsDistinct(events, reviews, saved, users, uid);
    OwnStatsIds(events, reviews, saved, users, uid);
    TotalSavesCountsEachSave(stats, saved);
  }

  lemma OwnStatsDistinct(events: seq<Event>, reviews: seq<Review>, saved: seq<SavedEvent>, users: map<Id, User>, uid: Id)
    requires UniqueEventIds(events)
    ensures var stats := StatsOf(OwnEvents(events, uid), reviews, saved, users, false);
            forall i, j :: 0 <= i < j < |stats| ==> stats[i].event.id != stats[j].event.id
  {
    var own := OwnEvents(events, uid);
    OwnEventsUnique(events, uid);
    var stats := StatsOf(own, reviews, saved, users, false);
    forall i, j | 0 <= i < j < |stats| ensures stats[i].event.id != stats[j].event.id {
      assert stats[i].event == own[i] && stats[j].event == own[j];
    }
  }

  lemma OwnEventsUnique(events: seq<Event>, uid: Id)
    requires UniqueEventIds(events)
    ensures UniqueEventIds(OwnEvents(events, uid))
  {
    FilterUniqueIds(events, (e: Event) => e.creatoDa == uid);
    NewestFirstUnique(Filter(events, (e: Event) => e.creatoDa == uid));
  }

  lemma NewestFirstUnique(rows: seq<Event>)
    requires UniqueEventIds(rows)
    ensures UniqueEventIds(NewestFirst(rows))
  {
    var r := NewestFirst(rows);
    forall i, j | 0 <= i < j < |r| ensures r[i].id != r[j].id {
      assert r[i] == rows[|rows| - 1 - i] && r[j] == rows[|rows| - 1 - j];
    }
  }

  lemma OwnStatsIds(events: seq<Event>, reviews: seq<Review>, saved: seq<SavedEvent>, users: map<Id, User>, uid: Id)
    ensures IdsOf(StatsOf(OwnEvents(events, uid), reviews, saved, users, false)) == OwnIds(events, uid)
  {
    var own := OwnEvents(events, uid);
    var stats := StatsOf(own, reviews, saved, users, false);
    forall y | y in IdsOf(stats) ensures y in OwnIds(events, uid) {
      var i :| 0 <= i < |stats| && stats[i].event.id == y;
      assert own[i] in own;
    }
    forall e | e in events && e.creatoDa == uid ensures e.id in IdsOf(stats) {
      assert e in own;
      var i :| 0 <= i < |own| && own[i] == e;
      assert stats[i].event.id == e.id;
    }
  }

  // ---------------------------------------------------------------------
  // Admin event list
  // ---------------------------------------------------------------------

  /** The administrators' list: every event, drafts included, newest first, with creators joined. */
  method AdminEventsPage(db: Database) returns (p: Page<seq<EventWithStats>>)
    ensures Gate(db.session, db.users, AdminOnly).Some? ==> p == Redirect(Gate(db.session, db.users, AdminOnly).value)
    ensures Gate(db.session, db.users, AdminOnly).None? ==>
              p == Render(StatsOf(NewestFirst(db.events), db.reviews, db.savedEvents, db.users, true))
  {
    var gate := Gate(db.session, db.users, AdminOnly);
    if gate.Some? {
      return Redirect(gate.value);
    }
    var stats := AttachStats(db, NewestFirst(db.events), true);
    p := Render(stats);
  }

  // ---------------------------------------------------------------------
  // Calendar page
  // ---------------------------------------------------------------------

  /** The calendar's events: every published event, past ones included, by start date. */
  function CalendarEvents(events: seq<Event>): (r: seq<Event>)
    ensures multiset(r) == multiset(Filter(events, (e: Event) => !e.isDraft))
  {
    ByStartDate(Filter(events, (e: Event) => !e.isDraft))
  }

  /** The calendar page has no gate: anyone sees the published events. */
  method CalendarPage(db: Database) returns (r: seq<EventWithStats>)
    ensures r == StatsOf(CalendarEvents(db.events), db.reviews, db.savedEvents, db.users, false)
  {
    r := AttachStats(db, CalendarEvents(db.events), false);
  }

  lemma CalendarEventsSpec(events: seq<Event>)
    ensures forall e :: e in CalendarEvents(events) <==> e in events && !e.isDraft
    ensures forall i, j :: 0 <= i < j < |CalendarEvents(events)| ==>
              StartDay(CalendarEvents(events)[i]) <= StartDay(CalendarEvents(events)[j])
  {
    var p := (e: Event) => !e.isDraft;
    ByStartDateSorted(Filter(events, p));
    SortDescMembers(Filter(events, p), (e: Event) => -StartDay(e));
    FilterMembers(events, p);
  }

  // ---------------------------------------------------------------------
  // Home page
  // ---------------------------------------------------------------------

  /** `is_draft = false and data_inizio >= today`, today being the current UTC date. */
  predicate Upcoming(e: Event, now: int)
  {
    !e.isDraft && StartDay(e) >= Dates.DayOf(now)
  }

  function HomeEvents(events: seq<Event>, now: int): (r: seq<Event>)
    ensures multiset(r) == multiset(Filter(events, (e: Event) => Upcoming(e, now)))
  {
    ByStartDate(Filter(events, (e: Event) => Upcoming(e, now)))
  }

  lemma HomeEventsSpec(events: seq<Event>, now: int)
    ensures forall e :: e in HomeEvents(events, now) <==> e in events && Upcoming(e, now)
    ensures forall i, j :: 0 <= i < j < |HomeEvents(events, now)| ==>
              StartDay(HomeEvents(events, now)[i]) <= StartDay(HomeEvents(events, now)[j])
  {
    var p := (e: Event) => Upcoming(e, now);
    ByStartDateSorted(Filter(events, p));
    SortDescMembers(Filter(events, p), (e: Event) => -StartDay(e));
    FilterMembers(events, p);
  }

  /** A published event starting later than today shows as Pubblicato. */
  lemma LaterEventPublished(e: Event, now: int)
    requires !e.isDraft && StartDay(e) > Dates.DayOf(now)
    ensures StatusBadge(e, now) == Pubblicato
  {
    Dates.DayOfBounds(now);
  }

  /**
   * An event starting today is still on the home page, while the dashboard
   * already marks it Concluso once today's midnight has passed.
   */
  lemma TodayListedYetConcluded(e: Event, now: int)
    requires !e.isDraft && StartDay(e) == Dates.DayOf(now) && now % Dates.MsPerDay != 0
    ensures Upcoming(e, now)
    ensures StatusBadge(e, now) == Concluso
  {
    Dates.DayOfBounds(now);
  }

  datatype HomeView = HomeView(
    events: seq<EventWithStats>,
    categories: seq<Category>,
    locations: seq<string>,
    associations: seq<string>,
    savedEventIds: seq<Id>,
    totalEvents: nat,
    totalLocations: nat,
    totalAssociations: nat)

  function Categories(es: seq<Event>): (r: seq<Category>)
    ensures |r| == |es| && forall i :: 0 <= i < |es| ==> r[i] == es[i].categoria
  {
    if es == [] then [] else [es[0].categoria] + Categories(es[1..])
  }

  function Locations(es: seq<Event>): (r: seq<string>)
    ensures |r| == |es| && forall i :: 0 <= i < |es| ==> r[i] == es[i].luogo
  {
    if es == [] then [] else [es[0].luogo] + Locations(es[1..])
  }

  function Associations(es: seq<Event>): (r: seq<string>)
    ensures |r| == |es| && forall i :: 0 <= i < |es| ==> r[i] == es[i].associazione
  {
    if es == [] then [] else [es[0].associazione] + Associations(es[1..])
  }

  /** The event ids a user has saved, in table order; none without a session. */
  function SavedIdsOf(saved: seq<SavedEvent>, session: Option<Id>): (r: seq<Id>)
    ensures session.None? ==> r == []
  {
    match session
    case None => []
    case Some(uid) => SavedEventIds(Filter(saved, (s: SavedEvent) => s.userId == uid))
  }

  function SavedEventIds(rows: seq<SavedEvent>): (r: seq<Id>)
    ensures |r| == |rows| && forall i :: 0 <= i < |rows| ==> r[i] == rows[i].eventId
  {
    if rows == [] then [] else [rows[0].eventId] + SavedEventIds(rows[1..])
  }

  /** A user's saved ids are exactly the events they have a saved_events row for. */
  lemma SavedIdsOfSpec(saved: seq<SavedEvent>, uid: Id, x: Id)
    ensures x in SavedIdsOf(saved, Some(uid)) <==> exists i :: 0 <= i < |saved| && saved[i].userId == uid && saved[i].eventId == x
  {
    var mine := Filter(saved, (s: SavedEvent) => s.userId == uid);
    var ids := SavedEventIds(mine);
    if x in ids {
      var k :| 0 <= k < |ids| && ids[k] == x;
      assert mine[k] in saved;
    }
    if exists i :: 0 <= i < |saved| && saved[i].userId == uid && saved[i].eventId == x {
      var i :| 0 <= i < |saved| && saved[i].userId == uid && saved[i].eventId == x;
      assert saved[i] in mine;
      var k :| 0 <= k < |mine| && mine[k] == saved[i];
      assert ids[k] == x;
    }
  }

  /** The home page: no gate; upcoming published events, the filter options and the caller's saved ids. */
  method HomePage(db: Database, now: int) returns (v: HomeView)
    ensures v.events == StatsOf(HomeEvents(db.events, now), db.reviews, db.savedEvents, db.users, true)
    ensures v.categories == Distinct(Categories(HomeEvents(db.events, now)))
    ensures v.locations == Distinct(Locations(HomeEvents(db.events, now)))
    ensures v.associations == Distinct(Associations(HomeEvents(db.events, now)))
    ensures v.savedEventIds == SavedIdsOf(db.savedEvents, db.session)
    ensures v.totalEvents == |v.events| && v.totalLocations == |v.locations| && v.totalAssociations == |v.associations|
  {
    var events := HomeEvents(db.events, now);
    var stats := AttachStats(db, events, true);
    var locations := Distinct(Locations(events));
    var associations := Distinct(Associations(events));
    v := HomeView(stats, Distinct(Categories(events)), locations, associations,
                  SavedIdsOf(db.savedEvents, db.session), |events|, |locations|, |associations|);
  }

  /** The filter options offer each value of the listed events once, and nothing else. */
  lemma CategoryOptions(es: seq<Event>)
    ensures forall i :: 0 <= i < |es| ==> es[i].categoria in Distinct(Categories(es))
    ensures forall c :: c in Distinct(Categories(es)) ==> exists i :: 0 <= i < |es| && es[i].categoria == c
    ensures NoDuplicates(Distinct(Categories(es)))
  {
    DistinctColumn(es, Categories(es), (e: Event) => e.categoria);
  }

  lemma LocationOptions(es: seq<Event>)
    ensures forall i :: 0 <= i < |es| ==> es[i].luogo in Distinct(Locations(es))
    ensures forall l :: l in Distinct(Locations(es)) ==> exists i :: 0 <= i < |es| && es[i].luogo == l
    ensures NoDuplicates(Distinct(Locations(es)))
  {
    DistinctColumn(es, Locations(es), (e: Event) => e.luogo);
  }

  lemma AssociationOptions(es: seq<Event>)
    ensures forall i :: 0 <= i < |es| ==> es[i].associazione in Distinct(Associations(es))
    ensures forall a :: a in Distinct(Associations(es)) ==> exists i :: 0 <= i < |es| && es[i].associazione == a
    ensures NoDuplicates(Distinct(Associations(es)))
  {
    DistinctColumn(es, Associations(es), (e: Event) => e.associazione);
  }

  // ---------------------------------------------------------------------
  // Saved events page
  // ---------------------------------------------------------------------

  /** The caller's saved_events rows, newest first. */
  function SavedByUser(saved: seq<SavedEvent>, uid: Id): seq<SavedEvent>
  {
    NewestFirst(Filter(saved, (s: SavedEvent) => s.userId == uid))
  }

  /** The events the rows point at; a row whose event the join does not return is skipped. */
  function JoinSaved(rows: seq<SavedEvent>, events: seq<Event>): (r: seq<Event>)
    ensures |r| <= |rows|
  {
    if rows == [] then [] else JoinSaved(rows[..|rows| - 1], events) + JoinOne(rows[|rows| - 1], events)
  }

  /** The join of one row: its event, or nothing. */
  function JoinOne(row: SavedEvent, events: seq<Event>): (r: seq<Event>)
    ensures |r| <= 1
  {
    match EventById(events, row.eventId)
    case None => []
    case Some(e) => [e]
  }

  datatype SavedView = SavedView(events: seq<EventWithStats>, savedEventIds: seq<Id>)

  lemma JoinSavedSnoc(rows: seq<SavedEvent>, events: seq<Event>, i: nat)
    requires i < |rows|
    ensures EventById(events, rows[i].eventId).None? ==> JoinSaved(rows[..i + 1], events) == JoinSaved(rows[..i], events)
    ensures EventById(events, rows[i].eventId).Some? ==>
              JoinSaved(rows[..i + 1], events) == JoinSaved(rows[..i], events) + [EventById(events, rows[i].eventId).value]
  {
    assert rows[..i + 1][..i] == rows[..i];
  }

  lemma StatsOfSnoc(es: seq<Event>, e: Event, reviews: seq<Review>, saved: seq<SavedEvent>, users: map<Id, User>, join: bool)
    ensures StatsOf(es + [e], reviews, saved, users, join) == StatsOf(es, reviews, saved, users, join) + [WithStats(e, reviews, saved, users, join)]
  {
    assert (es + [e])[..|es|] == es;
  }

  /** The saved events page: signed-in users only. */
  method SavedPage(db: Database) returns (p: Page<SavedView>)
    ensures db.session.None? ==> p == Redirect("/login")
    ensures db.session.Some? ==> p.Render?
    ensures p.Render? ==>
              p.view.events == StatsOf(JoinSaved(SavedByUser(db.savedEvents, db.session.value), db.events), db.reviews, db.savedEvents, db.users, true)
    ensures p.Render? ==> p.view.savedEventIds == EventIds(p.view.events)
  {
    if db.session.None? {
      return Redirect("/login");
    }
    var stats := SavedStats(db, SavedByUser(db.savedEvents, db.session.value));
    p := Render(SavedView(stats, EventIds(stats)));
  }

  /** The page's loop: a row whose event the join does not return is skipped. */
  method SavedStats(db: Database, rows: seq<SavedEvent>) returns (stats: seq<EventWithStats>)
    ensures stats == StatsOf(JoinSaved(rows, db.events), db.reviews, db.savedEvents, db.users, true)
  {
    stats := [];
    var i := 0;
    while i < |rows|
      invariant 0 <= i <= |rows|
      invariant stats == StatsOf(JoinSaved(rows[..i], db.events), db.reviews, db.savedEvents, db.users, true)
    {
      var joined := EventById(db.events, rows[i].eventId);
      JoinSavedSnoc(rows, db.events, i);
      if joined.None? {
        i := i + 1;
        continue;
      }
      var e := joined.value;
      var ratings := RatingsFor(db.reviews, e.id);
      var avgRating := if |ratings| > 0 then Some(Sum(ratings) as real / |ratings| as real) else None;
      var row := EventWithStats(e, avgRating, |ratings|, SavesFor(db.savedEvents, e.id), CreatorOf(db.users, e.creatoDa));
      assert row == WithStats(e, db.reviews, db.savedEvents, db.users, true);
      StatsOfSnoc(JoinSaved(rows[..i], db.events), e, db.reviews, db.savedEvents, db.users, true);
      stats := stats + [row];
      i := i + 1;
    }
    assert rows[..i] == rows;
  }

  function IdsOfEvents(es: seq<Event>): (r: seq<Id>)
    ensures |r| == |es| && forall i :: 0 <= i < |es| ==> r[i] == es[i].id
  {
    if es == [] then [] else [es[0].id] + IdsOfEvents(es[1..])
  }

  /**
   * The events listed are exactly those named by one of the rows that still
   * exist in the events table.
   */
  lemma {:induction false} JoinSavedIds(rows: seq<SavedEvent>, events: seq<Event>, x: Id)
    requires UniqueEventIds(events)
    ensures x in IdsOfEvents(JoinSaved(rows, events)) <==> x in SavedEventIds(rows) && !IdFree(events, x)
    decreases |rows|
  {
    if rows != [] {
      var p, last := rows[..|rows| - 1], rows[|rows| - 1];
      JoinSavedIds(p, events, x);
      var head := JoinSaved(p, events);
      var tail := JoinOne(last, events);
      JoinOneIds(last, events, x);
      IdsOfEventsAppend(head, tail);
      assert rows == p + [last];
      SavedEventIdsAppend(p, [last]);
    }
  }

  lemma JoinOneIds(row: SavedEvent, events: seq<Event>, x: Id)
    requires UniqueEventIds(events)
    ensures x in IdsOfEvents(JoinOne(row, events)) <==> row.eventId == x && !IdFree(events, x)
  {
    JoinFindsNamedEvent(events, row.eventId);
  }

  lemma SavedEventIdsAppend(a: seq<SavedEvent>, b: seq<SavedEvent>)
    ensures SavedEventIds(a + b) == SavedEventIds(a) + SavedEventIds(b)
  {
  }

  lemma IdsOfEventsAppend(a: seq<Event>, b: seq<Event>)
    ensures IdsOfEvents(a + b) == IdsOfEvents(a) + IdsOfEvents(b)
  {
  }

  /** A row's join returns, when it returns anything, the event with the row's id. */
  lemma JoinFindsNamedEvent(events: seq<Event>, id: Id)
    requires UniqueEventIds(events)
    ensures EventById(events, id).Some? ==> EventById(events, id).value.id == id && !IdFree(events, id)
    ensures EventById(events, id).None? ==> IdFree(events, id)
  {
    if EventById(events, id).Some? {
      var rows := EventsWithId(events, id);
      assert rows[0] in rows;
      assert rows[0] in events;
    } else if !IdFree(events, id) {
      var j :| 0 <= j < |events| && events[j].id == id;
      EventByIdFinds(events, j);
    }
  }

  /**
   * The header under the title: "1 evento salvato", otherwise "n eventi
   * salvati". With no saved events the page shows its empty-state block
   * instead, so the header is never shown for zero.
   */
  function SavedHeader(n: nat): string
  {
    if n == 1 then "1 evento salvato" else Text.NatText(n) + " eventi salvati"
  }

  // ---------------------------------------------------------------------
  // Notifications page
  // ---------------------------------------------------------------------

  const NotificationLimit: nat := 50

  /** The caller's notifications, newest first, at most fifty. */
  function LatestNotifications(ns: seq<Notification>, uid: Id): (r: seq<Notification>)
    ensures |r| <= NotificationLimit
    ensures forall n :: n in r ==> n in ns && n.userId == uid
  {
    var mine := Filter(ns, (n: Notification) => n.userId == uid);
    NewestFirstSameElements(mine);
    Take(NewestFirst(mine), NotificationLimit)
  }

  function UnreadCount(ns: seq<Notification>): (c: nat)
    ensures c <= |ns|
    ensures c == 0 <==> forall i :: 0 <= i < |ns| ==> ns[i].isRead
  {
    if ns == [] then 0 else (if ns[0].isRead then 0 else 1) + UnreadCount(ns[1..])
  }

  /** The page's subtitle. */
  function UnreadHeader(unread: nat): string
  {
    if unread > 0 then Text.NatText(unread) + (if unread == 1 then " nuova notifica" else " nuove notifiche")
    else "Tutte le notifiche lette"
  }

  datatype NotificationsView = NotificationsView(notifications: seq<Notification>, unreadCount: nat, header: string)

  method NotificationsPage(db: Database) returns (p: Page<NotificationsView>)
    ensures db.session.None? ==> p == Redirect("/login")
    ensures db.session.Some? ==> p.Render? && p.view.notifications == LatestNotifications(db.notifications, db.session.value)
    ensures p.Render? ==> p.view.unreadCount == UnreadCount(p.view.notifications) <= NotificationLimit
    ensures p.Render? ==> p.view.header == UnreadHeader(p.view.unreadCount)
  {
    if db.session.None? {
      return Redirect("/login");
    }
    var ns := LatestNotifications(db.notifications, db.session.value);
    var unread := UnreadCount(ns);
    p := Render(NotificationsView(ns, unread, UnreadHeader(unread)));
  }

  /** The header says all are read exactly when none of the shown notifications is unread. */
  lemma UnreadHeaderSpec(ns: seq<Notification>)
    ensures UnreadHeader(UnreadCount(ns)) == "Tutte le notifiche lette" <==> forall i :: 0 <= i < |ns| ==> ns[i].isRead
  {
    var c := UnreadCount(ns);
    if c > 0 {
      var t := UnreadHeader(c);
      assert '0' <= t[0] <= '9';
    }
  }
}
