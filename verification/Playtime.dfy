/**
 Playtime windows: the total of a period is the sum of the rises between consecutive samples of a
 series that end inside it.
 */
module Playtime {
  import opened Prelude

  type UserId = int

  /** One observation of a running total. */
  datatype Sample = Sample(id: int, series: Series, createdAt: int, totalSeconds: int)

  datatype Series = Series(user: UserId, game: int, source: int, platform: int)

  /** A zero platform id does not filter. */
  datatype Query = Query(user: UserId, source: Option<int>, platform: Option<int>, startDate: int, endDate: int)

  ghost predicate IdsUnique(rows: set<Sample>) {
    forall x, y :: x in rows && y in rows && x.id == y.id ==> x == y
  }

  /** previous.createdAt < ph.createdAt, ties by id. */
  predicate Before(x: Sample, y: Sample) {
    x.createdAt < y.createdAt || (x.createdAt == y.createdAt && x.id < y.id)
  }

  predicate IsLast(rows: set<Sample>, x: Sample) {
    x in rows && forall y :: y in rows && y != x ==> Before(y, x)
  }

  predicate IsFirst(rows: set<Sample>, x: Sample) {
    x in rows && forall y :: y in rows && y != x ==> Before(x, y)
  }

  function Earlier(rows: set<Sample>, s: Sample): set<Sample> {
    set p | p in rows && p.series == s.series && Before(p, s)
  }

  lemma {:induction false} LastExists(rows: set<Sample>) returns (x: Sample)
    requires rows != {} && IdsUnique(rows)
    ensures IsLast(rows, x)
    decreases |rows|
  {
    x :| x in rows;
    var rest := rows - {x};
    assert forall y :: y in rows ==> y == x || y in rest;
    if rest != {} {
      var z := LastExists(rest);
      if Before(x, z) { x := z; }
    }
  }

  /** The subquery: ORDER BY createdAt DESC, id DESC LIMIT 1 over the earlier samples of the series. */
  ghost function Previous(rows: set<Sample>, s: Sample): (p: Option<Sample>)
    requires IdsUnique(rows)
    ensures p.None? <==> Earlier(rows, s) == {}
    ensures p.Some? ==> IsLast(Earlier(rows, s), p.value)
  {
    if Earlier(rows, s) == {} then None
    else
      assert exists x :: IsLast(Earlier(rows, s), x) by { var x := LastExists(Earlier(rows, s)); }
      var x :| IsLast(Earlier(rows, s), x); Some(x)
  }

  /** GREATEST(total - previous, 0); with no previous sample it is NULL, which SUM skips. */
  ghost function Rise(rows: set<Sample>, s: Sample): int
    requires IdsUnique(rows)
  {
    var p := Previous(rows, s);
    if p.None? then 0 else Max(s.totalSeconds - p.value.totalSeconds, 0)
  }

  /** How far a sample falls below the one before it. */
  ghost function Fall(rows: set<Sample>, s: Sample): int
    requires IdsUnique(rows)
  {
    var p := Previous(rows, s);
    if p.None? then 0 else Max(p.value.totalSeconds - s.totalSeconds, 0)
  }

  ghost function Rises(rows: set<Sample>, picked: set<Sample>): int
    requires IdsUnique(rows)
    decreases |picked|
  {
    if picked == {} then 0
    else var s :| s in picked; Rise(rows, s) + Rises(rows, picked - {s})
  }

  ghost function Falls(rows: set<Sample>, picked: set<Sample>): int
    requires IdsUnique(rows)
    decreases |picked|
  {
    if picked == {} then 0
    else var s :| s in picked; Fall(rows, s) + Falls(rows, picked - {s})
  }

  /** createdAt > start AND createdAt <= end. */
  function Window(rows: set<Sample>, series: Series, start: int, end: int): set<Sample> {
    set s | s in rows && s.series == series && start < s.createdAt <= end
  }

  ghost function PeriodTotal(rows: set<Sample>, series: Series, start: int, end: int): int
    requires IdsUnique(rows)
  {
    Rises(rows, Window(rows, series, start, end))
  }

  predicate Wanted(q: Query, series: Series) {
    && series.user == q.user
    && (q.source.Some? ==> series.source == q.source.value)
    && (q.platform.Some? && q.platform.value != 0 ==> series.platform == q.platform.value)
  }

  /** getTotalPlaytimeForPeriod: one total per series with a sample in the window. */
  ghost function TotalsForPeriod(rows: set<Sample>, q: Query): map<Series, int>
    requires IdsUnique(rows)
  {
    map g | g in (set s | s in rows && Wanted(q, s.series) && q.startDate < s.createdAt <= q.endDate :: s.series)
      :: PeriodTotal(rows, g, q.startDate, q.endDate)
  }

  // ----- sums -----

  lemma {:induction false} RisesRemove(rows: set<Sample>, picked: set<Sample>, x: Sample)
    requires IdsUnique(rows) && x in picked
    ensures Rises(rows, picked) == Rise(rows, x) + Rises(rows, picked - {x})
    decreases |picked|
  {
    var s :| s in picked && Rises(rows, picked) == Rise(rows, s) + Rises(rows, picked - {s});
    if s != x {
      RisesRemove(rows, picked - {s}, x);
      RisesRemove(rows, picked - {x}, s);
      assert picked - {s} - {x} == picked - {x} - {s};
    }
  }

  lemma {:induction false} FallsRemove(rows: set<Sample>, picked: set<Sample>, x: Sample)
    requires IdsUnique(rows) && x in picked
    ensures Falls(rows, picked) == Fall(rows, x) + Falls(rows, picked - {x})
    decreases |picked|
  {
    var s :| s in picked && Falls(rows, picked) == Fall(rows, s) + Falls(rows, picked - {s});
    if s != x {
      FallsRemove(rows, picked - {s}, x);
      FallsRemove(rows, picked - {x}, s);
      assert picked - {s} - {x} == picked - {x} - {s};
    }
  }

  lemma {:induction false} RisesSplit(rows: set<Sample>, a: set<Sample>, b: set<Sample>)
    requires IdsUnique(rows) && a !! b
    ensures Rises(rows, a + b) == Rises(rows, a) + Rises(rows, b)
    decreases |b|
  {
    if b == {} {
      assert a + b == a;
    } else {
      var x :| x in b;
      RisesRemove(rows, b, x);
      RisesRemove(rows, a + b, x);
      assert a + b - {x} == a + (b - {x});
      RisesSplit(rows, a, b - {x});
    }
  }

  lemma {:induction false} RisesSame(rows: set<Sample>, later: set<Sample>, picked: set<Sample>)
    requires IdsUnique(rows) && IdsUnique(later)
    requires forall s :: s in picked ==> Rise(rows, s) == Rise(later, s)
    ensures Rises(rows, picked) == Rises(later, picked)
    decreases |picked|
  {
    if picked != {} {
      var x :| x in picked;
      RisesRemove(rows, picked, x);
      RisesRemove(later, picked, x);
      RisesSame(rows, later, picked - {x});
    }
  }

  /** Falls are zero exactly when no picked sample is below its predecessor. */
  lemma {:induction false} FallsVanish(rows: set<Sample>, picked: set<Sample>)
    requires IdsUnique(rows)
    ensures Falls(rows, picked) >= 0
    ensures Falls(rows, picked) == 0 <==> forall s :: s in picked ==> Fall(rows, s) == 0
    decreases |picked|
  {
    if picked != {} {
      var x :| x in picked;
      FallsRemove(rows, picked, x);
      FallsVanish(rows, picked - {x});
      assert forall s :: s in picked ==> s == x || s in picked - {x};
    }
  }

  // ----- windows -----

  /** Totals of adjacent windows add up. */
  lemma WindowsAreAdditive(rows: set<Sample>, series: Series, a: int, b: int, c: int)
    requires IdsUnique(rows) && a <= b <= c
    ensures PeriodTotal(rows, series, a, c) == PeriodTotal(rows, series, a, b) + PeriodTotal(rows, series, b, c)
  {
    assert Window(rows, series, a, c) == Window(rows, series, a, b) + Window(rows, series, b, c);
    RisesSplit(rows, Window(rows, series, a, b), Window(rows, series, b, c));
  }

  predicate Precedes(r: Sample, picked: set<Sample>) {
    forall s :: s in picked ==> Before(r, s)
  }

  predicate Follows(r: Sample, picked: set<Sample>) {
    forall s :: s in picked ==> Before(s, r)
  }

  /** Samples of one series with nothing of the series in between: every other one precedes or follows them all. */
  ghost predicate Stretch(rows: set<Sample>, series: Series, picked: set<Sample>) {
    && (forall s :: s in picked ==> s in rows && s.series == series)
    && forall r :: r in rows && r.series == series && r !in picked ==> Precedes(r, picked) || Follows(r, picked)
  }

  /** The samples of the series before the whole stretch. */
  function Below(rows: set<Sample>, series: Series, picked: set<Sample>): set<Sample> {
    set r | r in rows && r.series == series && Precedes(r, picked)
  }

  /** The sample a stretch starts from: its baseline, or else its own first sample. */
  ghost predicate StartsFrom(below: set<Sample>, picked: set<Sample>, base: Sample) {
    if below == {} then IsFirst(picked, base) else IsLast(below, base)
  }

  /** Over a stretch, rises minus falls is the net change from where it starts to its last sample. */
  lemma {:induction false} RisesMinusFalls(rows: set<Sample>, series: Series, picked: set<Sample>, last: Sample,
                                           base: Sample)
    requires IdsUnique(rows) && Stretch(rows, series, picked) && IsLast(picked, last)
    requires StartsFrom(Below(rows, series, picked), picked, base)
    ensures Rises(rows, picked) - Falls(rows, picked) == last.totalSeconds - base.totalSeconds
    decreases |picked|
  {
    var rest := picked - {last};
    RisesRemove(rows, picked, last);
    FallsRemove(rows, picked, last);
    if rest == {} {
      OnlySample(rows, series, picked, last, base);
      assert Rises(rows, rest) == 0 && Falls(rows, rest) == 0;
    } else {
      var before := LastExists(rest);
      LastStep(rows, series, picked, last, before, base);
      RisesMinusFalls(rows, series, rest, before, base);
    }
  }

  /**
   Taking the last sample off a stretch: it adds its change from the one before, and the rest
   starts where the whole did.
   */
  lemma LastStep(rows: set<Sample>, series: Series, picked: set<Sample>, last: Sample, before: Sample, base: Sample)
    requires IdsUnique(rows) && Stretch(rows, series, picked) && IsLast(picked, last) && IsLast(picked - {last}, before)
    requires StartsFrom(Below(rows, series, picked), picked, base)
    ensures Rise(rows, last) - Fall(rows, last) == last.totalSeconds - before.totalSeconds
    ensures Stretch(rows, series, picked - {last})
    ensures StartsFrom(Below(rows, series, picked - {last}), picked - {last}, base)
  {
    RestIsStretch(rows, series, picked, last, before);
    BeforeLast(rows, series, picked, last, before);
    if Below(rows, series, picked) == {} { FirstOfRest(picked, last, before, base); }
  }

  lemma OnlySample(rows: set<Sample>, series: Series, picked: set<Sample>, last: Sample, base: Sample)
    requires IdsUnique(rows) && Stretch(rows, series, picked) && IsLast(picked, last) && picked - {last} == {}
    requires StartsFrom(Below(rows, series, picked), picked, base)
    ensures Rise(rows, last) - Fall(rows, last) == last.totalSeconds - base.totalSeconds
  {
    assert picked == {last};
    assert Earlier(rows, last) == Below(rows, series, picked);
    var p := Previous(rows, last);
    if p.Some? { LastIsUnique(Earlier(rows, last), p.value, base); }
  }

  lemma LastIsUnique(rows: set<Sample>, x: Sample, y: Sample)
    requires IsLast(rows, x) && IsLast(rows, y)
    ensures x == y
  {
    assert x != y ==> Before(x, y) && Before(y, x);
  }

  lemma BeforeLast(rows: set<Sample>, series: Series, picked: set<Sample>, last: Sample, before: Sample)
    requires IdsUnique(rows) && Stretch(rows, series, picked) && IsLast(picked, last) && IsLast(picked - {last}, before)
    ensures Previous(rows, last) == Some(before)
  {
    forall r | r in Earlier(rows, last) && r != before ensures Before(r, before) {
      if r !in picked { assert Precedes(r, picked) || Follows(r, picked); }
    }
    assert IsLast(Earlier(rows, last), before);
    LastIsUnique(Earlier(rows, last), Previous(rows, last).value, before);
  }

  lemma RestIsStretch(rows: set<Sample>, series: Series, picked: set<Sample>, last: Sample, before: Sample)
    requires IdsUnique(rows) && Stretch(rows, series, picked) && IsLast(picked, last) && IsLast(picked - {last}, before)
    ensures Stretch(rows, series, picked - {last})
    ensures Below(rows, series, picked - {last}) == Below(rows, series, picked)
  {
    var rest := picked - {last};
    forall r | r in rows && r.series == series && r !in rest ensures Precedes(r, rest) || Follows(r, rest) {
      if r !in picked { assert Precedes(r, picked) || Follows(r, picked); }
    }
    forall r | r in rows && Precedes(r, rest) ensures Precedes(r, picked) {
      assert Before(r, before) && Before(before, last);
    }
  }

  lemma FirstOfRest(picked: set<Sample>, last: Sample, before: Sample, base: Sample)
    requires IsLast(picked, last) && IsLast(picked - {last}, before) && IsFirst(picked, base)
    ensures IsFirst(picked - {last}, base)
  {
    assert before != last && Before(before, last);
    assert base != before ==> Before(base, before);
  }

  function Baseline(rows: set<Sample>, series: Series, start: int): set<Sample> {
    set r | r in rows && r.series == series && r.createdAt <= start
  }

  /**
   The total of a period is the net change over it plus everything that was lost to decreases in
   between: from the last sample before the window, or else from the first sample inside it.
   */
  lemma PeriodTotalMeaning(rows: set<Sample>, series: Series, start: int, end: int, last: Sample, base: Sample)
    requires IdsUnique(rows) && IsLast(Window(rows, series, start, end), last)
    requires if Baseline(rows, series, start) == {} then IsFirst(Window(rows, series, start, end), base)
             else IsLast(Baseline(rows, series, start), base)
    ensures PeriodTotal(rows, series, start, end)
         == last.totalSeconds - base.totalSeconds + Falls(rows, Window(rows, series, start, end))
  {
    var window := Window(rows, series, start, end);
    BelowWindow(rows, series, start, end);
    RisesMinusFalls(rows, series, window, last, base);
  }

  /** A sample of the series is before, inside or after a window by its time alone. */
  lemma SideOfWindow(rows: set<Sample>, series: Series, start: int, end: int, r: Sample, inside: Sample)
    requires r in rows && r.series == series && inside in Window(rows, series, start, end)
    ensures var window := Window(rows, series, start, end);
      && (Precedes(r, window) <==> r.createdAt <= start)
      && (r.createdAt > end ==> Follows(r, window))
  {
    var window := Window(rows, series, start, end);
    if r.createdAt > start {
      if r in window { assert !Before(r, r); } else { assert !Before(r, inside); }
    }
  }

  lemma BelowWindow(rows: set<Sample>, series: Series, start: int, end: int)
    requires Window(rows, series, start, end) != {} && IdsUnique(rows)
    ensures Below(rows, series, Window(rows, series, start, end)) == Baseline(rows, series, start)
    ensures Stretch(rows, series, Window(rows, series, start, end))
  {
    var window := Window(rows, series, start, end);
    var inside :| inside in window;
    forall r | r in rows && r.series == series
      ensures Precedes(r, window) <==> r.createdAt <= start
      ensures r.createdAt > end ==> Follows(r, window)
    {
      SideOfWindow(rows, series, start, end, r, inside);
    }
  }

  /**
   It telescopes to the net change exactly when no sample in the window is below the one before it,
   in particular whenever the series never decreases.
   */
  lemma TelescopesExactly(rows: set<Sample>, series: Series, start: int, end: int, last: Sample, base: Sample)
    requires IdsUnique(rows) && IsLast(Window(rows, series, start, end), last)
    requires if Baseline(rows, series, start) == {} then IsFirst(Window(rows, series, start, end), base)
             else IsLast(Baseline(rows, series, start), base)
    ensures PeriodTotal(rows, series, start, end) >= last.totalSeconds - base.totalSeconds
    ensures PeriodTotal(rows, series, start, end) == last.totalSeconds - base.totalSeconds <==>
            forall s :: s in Window(rows, series, start, end) ==>
              Previous(rows, s).Some? ==> Previous(rows, s).value.totalSeconds <= s.totalSeconds
  {
    PeriodTotalMeaning(rows, series, start, end, last, base);
    var window := Window(rows, series, start, end);
    FallsVanish(rows, window);
    assert forall s :: s in window ==>
      (Fall(rows, s) == 0 <==> (Previous(rows, s).Some? ==> Previous(rows, s).value.totalSeconds <= s.totalSeconds));
  }

  /** Saving a sample never changes the total of a window that ended before it was observed. */
  lemma SavingKeepsClosedWindows(rows: set<Sample>, added: Sample, series: Series, start: int, end: int)
    requires IdsUnique(rows + {added}) && added !in rows && end < added.createdAt
    ensures IdsUnique(rows) && PeriodTotal(rows + {added}, series, start, end) == PeriodTotal(rows, series, start, end)
  {
    var after := rows + {added};
    assert IdsUnique(rows);
    var window := Window(rows, series, start, end);
    assert Window(after, series, start, end) == window;
    forall s | s in window ensures Rise(rows, s) == Rise(after, s) {
      assert Earlier(after, s) == Earlier(rows, s);
      SameLast(rows, after, s);
    }
    RisesSame(rows, after, window);
  }

  lemma SameLast(rows: set<Sample>, later: set<Sample>, s: Sample)
    requires IdsUnique(rows) && IdsUnique(later) && Earlier(rows, s) == Earlier(later, s)
    ensures Previous(rows, s) == Previous(later, s)
  {
    if Previous(rows, s).Some? {
      LastIsUnique(Earlier(rows, s), Previous(rows, s).value, Previous(later, s).value);
    }
  }

  /**
   The newest sample of a series adds its rise to every window that includes it, and nothing when
   it is the first or a decrease.
   */
  lemma NewestSampleAddsRise(rows: set<Sample>, added: Sample, start: int, end: int)
    requires IdsUnique(rows + {added}) && added !in rows && start < added.createdAt <= end
    requires forall r :: r in rows && r.series == added.series ==> Before(r, added)
    ensures IdsUnique(rows)
    ensures PeriodTotal(rows + {added}, added.series, start, end)
         == PeriodTotal(rows, added.series, start, end) + Rise(rows, added)
  {
    var after := rows + {added};
    assert IdsUnique(rows);
    var window := Window(rows, added.series, start, end);
    assert Window(after, added.series, start, end) == window + {added};
    RisesRemove(after, window + {added}, added);
    assert window + {added} - {added} == window;
    forall s | s in window + {added} ensures Rise(rows, s) == Rise(after, s) {
      assert Earlier(after, s) == Earlier(rows, s);
      SameLast(rows, after, s);
    }
    RisesSame(rows, after, window);
  }

  // ----- what a query returns -----

  /** The total a query returns for a series; a series it does not return counts as zero. */
  ghost function Returned(rows: set<Sample>, q: Query, g: Series): int
    requires IdsUnique(rows)
  {
    var totals := TotalsForPeriod(rows, q);
    if g in totals then totals[g] else 0
  }

  /** A series of the user, from the source and on the platform asked for; platform zero asks for any. */
  predicate Passes(q: Query, g: Series) {
    && g.user == q.user
    && (q.source == None || q.source == Some(g.source))
    && (q.platform == None || q.platform == Some(0) || q.platform == Some(g.platform))
  }

  /**
   getTotalPlaytimeForPeriod returns exactly the user's series that pass the filters and have a sample
   in the window, each with its period total; for the series it leaves out that total is zero anyway.
   */
  lemma QueryMeaning(rows: set<Sample>, q: Query, g: Series)
    requires IdsUnique(rows)
    ensures g in TotalsForPeriod(rows, q) <==>
              && Passes(q, g)
              && exists s :: s in rows && s.series == g && q.startDate < s.createdAt && s.createdAt <= q.endDate
    ensures Returned(rows, q, g) == if Passes(q, g) then PeriodTotal(rows, g, q.startDate, q.endDate) else 0
    ensures g in TotalsForPeriod(rows, q) ==> TotalsForPeriod(rows, q)[g] >= 0
  {
    var window := Window(rows, g, q.startDate, q.endDate);
    if s :| s in rows && s.series == g && q.startDate < s.createdAt && s.createdAt <= q.endDate {
      assert s in window;
    }
    if window != {} && Wanted(q, g) {
      var s :| s in window;
      assert s.series == g;
    }
    if g in TotalsForPeriod(rows, q) {
      var s :| s in rows && Wanted(q, s.series) && q.startDate < s.createdAt <= q.endDate && s.series == g;
      assert s in window;
    }
    RisesAreNonNegative(rows, window);
  }

  lemma {:induction false} RisesAreNonNegative(rows: set<Sample>, picked: set<Sample>)
    requires IdsUnique(rows)
    ensures Rises(rows, picked) >= 0
    decreases |picked|
  {
    if picked != {} {
      var x :| x in picked;
      RisesRemove(rows, picked, x);
      RisesAreNonNegative(rows, picked - {x});
    }
  }

  /** Asking for two adjacent periods adds up to asking for both at once, series by series. */
  lemma QueriesAreAdditive(rows: set<Sample>, q: Query, middle: int, g: Series)
    requires IdsUnique(rows) && q.startDate <= middle <= q.endDate
    ensures Returned(rows, q, g) == Returned(rows, q.(endDate := middle), g)
        + Returned(rows, q.(startDate := middle), g)
  {
    QueryMeaning(rows, q, g);
    QueryMeaning(rows, q.(endDate := middle), g);
    QueryMeaning(rows, q.(startDate := middle), g);
    WindowsAreAdditive(rows, g, q.startDate, middle, q.endDate);
  }

  /** A filter only selects: what it returns for a series is what the query without filters returns. */
  lemma FiltersOnlySelect(rows: set<Sample>, q: Query, g: Series)
    requires IdsUnique(rows)
    ensures g in TotalsForPeriod(rows, q) <==>
        Passes(q, g) && g in TotalsForPeriod(rows, q.(source := None, platform := None))
    ensures g in TotalsForPeriod(rows, q) ==>
              TotalsForPeriod(rows, q)[g] == TotalsForPeriod(rows, q.(source := None, platform := None))[g]
  {
    QueryMeaning(rows, q, g);
    QueryMeaning(rows, q.(source := None, platform := None), g);
  }

  class PlaytimeHistory {
    var rows: set<Sample>
    var nextId: int

    ghost predicate Valid()
      reads this
    {
      IdsUnique(rows) && forall s :: s in rows ==> s.id < nextId
    }

    constructor ()
      ensures Valid() && rows == {}
    {
      rows, nextId := {}, 1;
    }

    /** save: a new row is inserted under the observation time, whatever was saved before. */
    method Save(series: Series, totalSeconds: int, observedAt: int)
      requires Valid()
      modifies this
      ensures Valid()
      ensures exists s :: s !in old(rows) && rows == old(rows) + {s}
                          && s.series == series && s.totalSeconds == totalSeconds && s.createdAt == observedAt
    {
      var s := Sample(nextId, series, observedAt, totalSeconds);
      rows := rows + {s};
      nextId := nextId + 1;
      assert s !in old(rows);
    }
  }
}
