// The administrators' statistics page: head counts by role, the platform
// totals, the category distribution with its percentages, the five most
// viewed events, the five most saved events and the average number of
// views per published event.

module Statistics {

  import opened Optional
  import opened Types
  import opened Seqs
  import opened Db
  import opened Pages

  /** select … from events where is_draft = false */
  function Published(events: seq<Event>): seq<Event>
  {
    Filter(events, (e: Event) => !e.isDraft)
  }

  // ---------------------------------------------------------------------
  // Users by role
  // ---------------------------------------------------------------------

  /** select count(*) from users where role = … */
  function CountRole(users: map<Id, User>, role: Role): nat
  {
    |set id | id in users && users[id].role == role|
  }

  lemma DisjointUnionSize<K>(a: set<K>, b: set<K>, c: set<K>)
    requires a !! b && a !! c && b !! c
    ensures |a + b + c| == |a| + |b| + |c|
  {
    assert (a + b) !! c;
  }

  /** Every profile has exactly one of the three roles, so the three counts add up to the total. */
  lemma RoleCountsPartition(users: map<Id, User>)
    ensures CountRole(users, Admin) + CountRole(users, Comunale) + CountRole(users, Cittadino) == |users|
  {
    var a := set id | id in users && users[id].role == Admin;
    var m := set id | id in users && users[id].role == Comunale;
    var c := set id | id in users && users[id].role == Cittadino;
    DisjointUnionSize(a, m, c);
    forall id | id in users.Keys ensures id in a + m + c {
      match users[id].role
      case Admin => assert id in a;
      case Comunale => assert id in m;
      case Cittadino => assert id in c;
    }
    assert users.Keys == a + m + c;
  }

  /** The width of one segment of the role bar: its share of the total, in percent, dividing by one when the total is zero. */
  function Percent(part: nat, total: nat): real
  {
    (part as real / (if total == 0 then 1 else total) as real) * 100.0
  }

  /** The administrators' count as the page shows it: the digit 2, whatever the table holds. */
  const ShownAdmins: nat := 2

  /** The role bar as written: admins, staff and citizens, with the admin count fixed at two. */
  function RoleBarAsWritten(users: map<Id, User>): (r: seq<real>)
    ensures |r| == 3
  {
    [Percent(ShownAdmins, |users|), Percent(CountRole(users, Comunale), |users|), Percent(CountRole(users, Cittadino), |users|)]
  }

  /** The role bar with the administrators counted from the table. */
  function RoleBar(users: map<Id, User>): (r: seq<real>)
    ensures |r| == 3
  {
    [Percent(CountRole(users, Admin), |users|), Percent(CountRole(users, Comunale), |users|), Percent(CountRole(users, Cittadino), |users|)]
  }

  /** With one administrator and no one else, the bar as written is twice as wide as the track. */
  lemma RoleBarAsWrittenOverflows(admin: User)
    requires admin.role == Admin
    ensures var users := map[admin.id := admin];
            RoleBarAsWritten(users)[0] + RoleBarAsWritten(users)[1] + RoleBarAsWritten(users)[2] == 200.0
  {
    var users := map[admin.id := admin];
    assert (set id | id in users && users[id].role == Comunale) == {};
    assert (set id | id in users && users[id].role == Cittadino) == {};
  }

  /** Counted from the table, the three segments fill the bar exactly once there is a user. */
  lemma RoleBarFills(users: map<Id, User>)
    requires |users| > 0
    ensures RoleBar(users)[0] + RoleBar(users)[1] + RoleBar(users)[2] == 100.0
  {
    RoleCountsPartition(users);
    var a, m, c := CountRole(users, Admin), CountRole(users, Comunale), CountRole(users, Cittadino);
    PercentAdd(a, m, |users|);
    PercentAdd(a + m, c, |users|);
    PercentWhole(|users|);
  }

  lemma PercentWhole(total: nat)
    requires total > 0
    ensures Percent(total, total) == 100.0
  {
  }

  lemma PercentAdd(x: nat, y: nat, total: nat)
    ensures Percent(x, total) + Percent(y, total) == Percent(x + y, total)
  {
    var n := (if total == 0 then 1 else total) as real;
    assert (x as real / n) * 100.0 + (y as real / n) * 100.0 == ((x as real + y as real) / n) * 100.0;
  }

  // ---------------------------------------------------------------------
  // Views
  // ---------------------------------------------------------------------

  /** The sum of the view counters of all events. */
  function ViewsSum(es: seq<Event>): nat
  {
    if es == [] then 0 else es[0].viewsCount + ViewsSum(es[1..])
  }

  /**
   * The views per event rounded to a whole number when both are non-zero, else 0:
   * the quotient rounded to the nearest integer, halves rounded up.
   */
  function AverageViews(totalViews: nat, totalEvents: nat): (r: nat)
    ensures totalEvents == 0 || totalViews == 0 ==> r == 0
    ensures totalEvents > 0 && totalViews > 0 ==>
              2 * r * totalEvents <= 2 * totalViews + totalEvents < 2 * (r + 1) * totalEvents
  {
    if totalEvents > 0 && totalViews > 0 then
      var q := (2 * totalViews + totalEvents) / (2 * totalEvents);
      assert q * (2 * totalEvents) <= 2 * totalViews + totalEvents < (q + 1) * (2 * totalEvents);
      q
    else 0
  }

  /** The rounded average is never further than half an event's worth from the exact one. */
  lemma AverageViewsNearest(totalViews: nat, totalEvents: nat)
    requires totalEvents > 0
    ensures -(totalEvents as int) <= 2 * (AverageViews(totalViews, totalEvents) * totalEvents - totalViews) <= totalEvents
  {
  }

  // ---------------------------------------------------------------------
  // Category distribution
  // ---------------------------------------------------------------------

  /** How many events each category has, one pass over the events. */
  method TallyCategories(es: seq<Event>) returns (t: seq<(Category, nat)>)
    ensures t == Tally(Categories(es))
  {
    t := [];
    for i := 0 to |es|
      invariant t == Tally(Categories(es[..i]))
    {
      assert es[..i + 1] == es[..i] + [es[i]];
      CategoriesAppend(es[..i], [es[i]]);
      var keys := Categories(es[..i + 1]);
      assert keys[..|keys| - 1] == Categories(es[..i]);
      t := Bump(t, es[i].categoria);
    }
    assert es[..|es|] == es;
  }

  lemma CategoriesAppend(a: seq<Event>, b: seq<Event>)
    ensures Categories(a + b) == Categories(a) + Categories(b)
  {
  }

  datatype CategoryShare = CategoryShare(categoria: Category, count: nat, percentage: real)

  /** A category's share of all events, in percent, 0 when there are no events. */
  function ShareOf(count: nat, n: nat): real
  {
    if n > 0 then (count as real / n as real) * 100.0 else 0.0
  }

  /** Object.entries(categoryStats).map(…) */
  function Shares(t: seq<(Category, nat)>, n: nat): (r: seq<CategoryShare>)
    ensures |r| == |t|
    ensures forall i :: 0 <= i < |t| ==> r[i] == CategoryShare(t[i].0, t[i].1, ShareOf(t[i].1, n))
  {
    if t == [] then [] else [CategoryShare(t[0].0, t[0].1, ShareOf(t[0].1, n))] + Shares(t[1..], n)
  }

  /** The category counts, largest count first. */
  function Distribution(t: seq<(Category, nat)>, n: nat): (r: seq<CategoryShare>)
    ensures multiset(r) == multiset(Shares(t, n))
  {
    SortDesc(Shares(t, n), ShareCount)
  }

  function ShareCount(s: CategoryShare): int
  {
    s.count
  }

  function Percentage(s: CategoryShare): real
  {
    s.percentage
  }

  lemma {:induction false} SharesSum(t: seq<(Category, nat)>, n: nat)
    requires n > 0
    ensures RealSum(Shares(t, n), Percentage) == (Sum(Counts(t)) as real / n as real) * 100.0
    decreases |t|
  {
    if t != [] {
      SharesSum(t[1..], n);
      var c, rest := t[0].1 as real, Sum(Counts(t[1..])) as real;
      assert Shares(t, n)[1..] == Shares(t[1..], n);
      assert Counts(t)[1..] == Counts(t[1..]);
      assert (c / n as real) * 100.0 + (rest / n as real) * 100.0 == ((c + rest) / n as real) * 100.0;
    }
  }

  /** The distribution of the published events, ordered by decreasing count. */
  function CategoryDistribution(events: seq<Event>): seq<CategoryShare>
  {
    var published := Published(events);
    Distribution(Tally(Categories(published)), |published|)
  }

  lemma DistributionSum(t: seq<(Category, nat)>, n: nat)
    requires n > 0 && Sum(Counts(t)) == n
    ensures RealSum(Distribution(t, n), Percentage) == 100.0
  {
    SortDescRealSum(Shares(t, n), ShareCount, Percentage);
    SharesSum(t, n);
    WholeShare(n);
  }

  lemma WholeShare(n: nat)
    requires n > 0
    ensures (n as real / n as real) * 100.0 == 100.0
  {
    var x := n as real;
    assert x / x == 1.0;
  }

  /** When some event is published the percentages add up to one hundred. */
  lemma PercentagesSumToHundred(events: seq<Event>)
    requires |Published(events)| > 0
    ensures RealSum(CategoryDistribution(events), Percentage) == 100.0
  {
    var published := Published(events);
    TallySpec(Categories(published));
    DistributionSum(Tally(Categories(published)), |published|);
  }

  lemma DistributionSorted(events: seq<Event>)
    ensures SortedDesc(CategoryDistribution(events), ShareCount)
  {
    var published := Published(events);
    SortDescSorted(Shares(Tally(Categories(published)), |published|), ShareCount);
  }

  /** Each entry's count is the number of published events of its category. */
  lemma DistributionCounts(events: seq<Event>)
    ensures forall s :: s in CategoryDistribution(events) ==> s.count == Count(Categories(Published(events)), s.categoria)
  {
    var published := Published(events);
    var keys := Categories(published);
    var t := Tally(keys);
    var shares := Shares(t, |published|);
    TallySpec(keys);
    DistinctSet(keys);
    forall s | s in CategoryDistribution(events)
      ensures s.count == Count(keys, s.categoria)
    {
      assert s in multiset(shares);
      var j :| 0 <= j < |shares| && shares[j] == s;
      CountOfAt(t, j);
      CountOfTally(keys, s.categoria);
    }
  }

  lemma DistributionHasKey(t: seq<(Category, nat)>, n: nat, j: nat)
    requires j < |t|
    ensures exists s :: s in Distribution(t, n) && s.categoria == t[j].0
  {
    var shares := Shares(t, n);
    SortDescMembers(shares, ShareCount);
    assert shares[j] in Distribution(t, n);
  }

  lemma DistributionKeyOf(t: seq<(Category, nat)>, n: nat, s: CategoryShare)
    requires s in Distribution(t, n)
    ensures s.categoria in TallyKeys(t)
  {
    var shares := Shares(t, n);
    SortDescMembers(shares, ShareCount);
    var j :| 0 <= j < |shares| && shares[j] == s;
    assert TallyKeys(t)[j] == s.categoria;
  }

  lemma DistributionKeys(t: seq<(Category, nat)>, n: nat, c: Category)
    ensures (exists s :: s in Distribution(t, n) && s.categoria == c) <==> c in TallyKeys(t)
  {
    if c in TallyKeys(t) {
      var j :| 0 <= j < |t| && TallyKeys(t)[j] == c;
      DistributionHasKey(t, n, j);
    }
    if exists s :: s in Distribution(t, n) && s.categoria == c {
      var s :| s in Distribution(t, n) && s.categoria == c;
      DistributionKeyOf(t, n, s);
    }
  }

  /** The distribution lists a category exactly when some published event has it. */
  lemma DistributionCategories(events: seq<Event>, c: Category)
    ensures (exists s :: s in CategoryDistribution(events) && s.categoria == c) <==> c in Categories(Published(events))
  {
    var published := Published(events);
    var keys := Categories(published);
    TallySpec(keys);
    DistinctSet(keys);
    DistributionKeys(Tally(keys), |published|, c);
  }

  // ---------------------------------------------------------------------
  // Most viewed and most saved
  // ---------------------------------------------------------------------

  const TopCount: nat := 5

  function Views(e: Event): int
  {
    e.viewsCount
  }

  /** The five published events with the most views, most viewed first. */
  function PopularEvents(events: seq<Event>): seq<Event>
  {
    Take(SortDesc(Published(events), Views), TopCount)
  }

  /** The most viewed list holds at most five published events, in decreasing views. */
  lemma PopularEventsOrdered(events: seq<Event>)
    ensures |PopularEvents(events)| <= TopCount
    ensures forall e :: e in PopularEvents(events) ==> e in events && !e.isDraft
    ensures SortedDesc(PopularEvents(events), Views)
  {
    TopSpec(Published(events), Views, TopCount);
    FilterMembers(events, (e: Event) => !e.isDraft);
  }

  /**
   * A published event left out of the most viewed list has no more views than
   * any listed one, and then five are listed.
   */
  lemma PopularEventsComplete(events: seq<Event>, e: Event)
    requires e in events && !e.isDraft && e !in PopularEvents(events)
    ensures |PopularEvents(events)| == TopCount
    ensures forall i :: 0 <= i < TopCount ==> PopularEvents(events)[i].viewsCount >= e.viewsCount
  {
    var published := Published(events);
    assert e in published;
    TopSpec(published, Views, TopCount);
  }

  /** How many saved rows name each event, one pass over the saved rows. */
  method TallySaves(saved: seq<SavedEvent>) returns (t: seq<(Id, nat)>)
    ensures t == Tally(SavedEventIds(saved))
  {
    t := [];
    for i := 0 to |saved|
      invariant t == Tally(SavedEventIds(saved[..i]))
    {
      assert saved[..i + 1] == saved[..i] + [saved[i]];
      SavedEventIdsAppend(saved[..i], [saved[i]]);
      var keys := SavedEventIds(saved[..i + 1]);
      assert keys[..|keys| - 1] == SavedEventIds(saved[..i]);
      t := Bump(t, saved[i].eventId);
    }
    assert saved[..|saved|] == saved;
  }

  function SaveCount(entry: (Id, nat)): int
  {
    entry.1
  }

  /** The ids of the five most saved events, most saved first. */
  function TopSavedIds(t: seq<(Id, nat)>): (r: seq<Id>)
    ensures |r| <= TopCount
  {
    TallyKeys(Take(SortDesc(t, SaveCount), TopCount))
  }

  datatype SavedRank = SavedRank(id: Id, titolo: string, categoria: Category, savesCount: nat)

  function RankCount(r: SavedRank): int
  {
    r.savesCount
  }

  function Ranks(rows: seq<Event>, t: seq<(Id, nat)>): (r: seq<SavedRank>)
    ensures |r| == |rows|
    ensures forall i :: 0 <= i < |rows| ==> r[i] == SavedRank(rows[i].id, rows[i].titolo, rows[i].categoria, CountOf(t, rows[i].id))
  {
    if rows == [] then [] else [SavedRank(rows[0].id, rows[0].titolo, rows[0].categoria, CountOf(t, rows[0].id))] + Ranks(rows[1..], t)
  }

  /**
   * The most saved list: the events whose id is among the top ids (in table
   * order, as the store's id-list query returns them), each with its count, sorted by it.
   */
  function TopSavedEvents(events: seq<Event>, t: seq<(Id, nat)>): seq<SavedRank>
  {
    var ids := TopSavedIds(t);
    if |ids| > 0 then SortDesc(Ranks(Filter(events, (e: Event) => e.id in ids), t), RankCount) else []
  }

  /** The number of saved_events rows of an event is its count in the tally. */
  lemma {:induction false} SavesForCount(saved: seq<SavedEvent>, id: Id)
    ensures SavesFor(saved, id) == Count(SavedEventIds(saved), id)
    decreases |saved|
  {
    if saved != [] {
      SavesForCount(saved[1..], id);
      assert SavedEventIds(saved)[1..] == SavedEventIds(saved[1..]);
    }
  }

  /** Every listed event carries its true number of saves. */
  lemma TopSavedCounts(events: seq<Event>, saved: seq<SavedEvent>)
    ensures forall r :: r in TopSavedEvents(events, Tally(SavedEventIds(saved))) ==> r.savesCount == SavesFor(saved, r.id)
  {
    var t := Tally(SavedEventIds(saved));
    var ids := TopSavedIds(t);
    if |ids| > 0 {
      var ranks := Ranks(Filter(events, (e: Event) => e.id in ids), t);
      SortDescMembers(ranks, RankCount);
      forall r | r in TopSavedEvents(events, t) ensures r.savesCount == SavesFor(saved, r.id) {
        assert r in ranks;
        CountOfTally(SavedEventIds(saved), r.id);
        SavesForCount(saved, r.id);
      }
    }
  }

  /**
   * No event outside the top ids has been saved more often than one inside:
   * an id left out means five were taken, each saved at least as often.
   */
  lemma TopSavedIdsRanked(saved: seq<SavedEvent>, x: Id)
    requires x in SavedEventIds(saved)
    requires x !in TopSavedIds(Tally(SavedEventIds(saved)))
    ensures |TopSavedIds(Tally(SavedEventIds(saved)))| == TopCount
    ensures forall i :: 0 <= i < TopCount ==>
              SavesFor(saved, TopSavedIds(Tally(SavedEventIds(saved)))[i]) >= SavesFor(saved, x)
  {
    var keys := SavedEventIds(saved);
    var t := Tally(keys);
    var top := Take(SortDesc(t, SaveCount), TopCount);
    TallySpec(keys);
    DistinctSet(keys);
    assert x in TallyKeys(t);
    var j :| 0 <= j < |t| && TallyKeys(t)[j] == x;
    assert t[j] !in top by {
      forall i | 0 <= i < |top| ensures top[i] != t[j] {
        assert TallyKeys(top)[i] == top[i].0;
      }
    }
    assert t[j] in t;
    TopSpec(t, SaveCount, TopCount);
    CountOfAt(t, j);
    CountOfTally(keys, x);
    SavesForCount(saved, x);
    forall i | 0 <= i < TopCount
      ensures SavesFor(saved, TallyKeys(top)[i]) >= SavesFor(saved, x)
    {
      assert top[i] in t;
      var k :| 0 <= k < |t| && t[k] == top[i];
      CountOfAt(t, k);
      CountOfTally(keys, top[i].0);
      SavesForCount(saved, top[i].0);
    }
  }

  // ---------------------------------------------------------------------
  // The page
  // ---------------------------------------------------------------------

  datatype StatsView = StatsView(
    totalUsers: nat,
    totalAdmins: nat,
    totalComunali: nat,
    totalCittadini: nat,
    totalEvents: nat,
    totalReviews: nat,
    totalSaves: nat,
    totalViews: nat,
    distribution: seq<CategoryShare>,
    popular: seq<Event>,
    topSaved: seq<SavedRank>,
    averageViews: nat,
    roleBar: seq<real>)

  /**
   * The statistics page: administrators only. The administrators' figure and
   * the first segment of the role bar are drawn from the constant two.
   */
  method StatisticsPage(db: Database) returns (p: Page<StatsView>)
    ensures Gate(db.session, db.users, AdminOnly).Some? ==> p == Redirect(Gate(db.session, db.users, AdminOnly).value)
    ensures Gate(db.session, db.users, AdminOnly).None? ==> p.Render?
    ensures p.Render? ==> p.view.totalUsers == |db.users| && p.view.totalAdmins == ShownAdmins
    ensures p.Render? ==> p.view.totalComunali == CountRole(db.users, Comunale) && p.view.totalCittadini == CountRole(db.users, Cittadino)
    ensures p.Render? ==> p.view.totalEvents == |Published(db.events)| && p.view.totalViews == ViewsSum(Published(db.events))
    ensures p.Render? ==> p.view.totalReviews == |db.reviews| && p.view.totalSaves == |db.savedEvents|
    ensures p.Render? ==> p.view.distribution == CategoryDistribution(db.events)
    ensures p.Render? ==> p.view.popular == PopularEvents(db.events)
    ensures p.Render? ==> p.view.topSaved == TopSavedEvents(db.events, Tally(SavedEventIds(db.savedEvents)))
    ensures p.Render? ==> p.view.averageViews == AverageViews(p.view.totalViews, p.view.totalEvents)
    ensures p.Render? ==> p.view.roleBar == RoleBarAsWritten(db.users)
  {
    var gate := Gate(db.session, db.users, AdminOnly);
    if gate.Some? {
      return Redirect(gate.value);
    }
    var published := Published(db.events);
    var totalViews := ViewsSum(published);
    var categoryStats := TallyCategories(published);
    var distribution := Distribution(categoryStats, |published|);
    var savesCounts := TallySaves(db.savedEvents);
    var topSaved := TopSavedEvents(db.events, savesCounts);
    p := Render(StatsView(
      |db.users|, ShownAdmins, CountRole(db.users, Comunale), CountRole(db.users, Cittadino),
      |published|, |db.reviews|, |db.savedEvents|, totalViews,
      distribution, PopularEvents(db.events), topSaved,
      AverageViews(totalViews, |published|), RoleBarAsWritten(db.users)));
  }
}
