/**
 The statistics projection: facts become totals and hourly buckets. A drain transaction is one
 step; a failed transaction leaves a reading behind that recordFailure writes in a later step, so
 concurrent drains, late failure records and rearms may interleave in any way.
 */
module StatisticsLedger {
  import opened Prelude

  type FactId = int
  type TargetId = int

  const HOUR_MS := 3600000
  const MAX_RETRIES := 5
  const BATCH_SIZE := 200

  datatype FactKind = ViewRecorded | LikeAdded | LikeRemoved | UnknownKind

  datatype Metric = Views | LikesAdded | LikeCredit | LikesRemoved

  datatype ProjectionState = Pending | Done | Failed

  datatype Fact = Fact(
    version: int,
    kind: FactKind,
    target: TargetId,
    occurredAt: int,
    credit: bool,
    state: ProjectionState,
    attempts: int,
    nextAttemptAt: int)

  /** What a failed transaction knew about its fact. */
  datatype Report = Report(id: FactId, attempts: int)

  datatype TotalKey = TotalKey(target: TargetId, metric: Metric)

  datatype HourKey = HourKey(target: TargetId, metric: Metric, bucket: int)

  datatype State = State(
    now: int,
    facts: map<FactId, Fact>,
    totals: map<TotalKey, int>,
    hours: map<HourKey, int>,
    reports: set<Report>)

  datatype Step =
    | Record(id: FactId, version: int, kind: FactKind, target: TargetId, occurredAt: int, credit: bool)
    | Drain(id: FactId)
    | Break(id: FactId)
    | WriteFailure(report: Report)
    | Rearm(id: FactId)
    | Wait(until: int)

  /** setUTCMinutes(0, 0, 0): the start of the UTC hour. */
  function Bucket(occurredAt: int): int {
    occurredAt - occurredAt % HOUR_MS
  }

  predicate Supported(f: Fact) {
    f.version == 1 && f.kind != UnknownKind
  }

  function Contributions(f: Fact): set<Metric> {
    match f.kind
    case ViewRecorded => {Views}
    case LikeAdded => if f.credit then {LikesAdded, LikeCredit} else {LikesAdded}
    case LikeRemoved => {LikesRemoved}
    case UnknownKind => {}
  }

  predicate IsDue(f: Fact, now: int) {
    f.state == Pending && f.nextAttemptAt <= now
  }

  function At<K>(m: map<K, int>, k: K): int {
    if k in m then m[k] else 0
  }

  function DelayMs(attempts: nat): int {
    1000 * Min(300, PowerOfTwo(if attempts < 8 then attempts else 8))
  }

  function FailFact(f: Fact, report: Report, now: int): Fact {
    if f.state != Pending || f.attempts != report.attempts then f
    else
      var attempts := report.attempts + 1;
      f.(attempts := attempts, state := if attempts > MAX_RETRIES then Failed else Pending,
         nextAttemptAt := now + DelayMs(Max(attempts, 0)))
  }

  function Upsert<K>(m: map<K, int>, k: K): map<K, int> {
    m[k := At(m, k) + 1]
  }

  function UpsertAll<K>(m: map<K, int>, ks: set<K>): map<K, int> {
    m + map k | k in ks :: At(m, k) + 1
  }

  function TotalKeys(target: TargetId, metrics: set<Metric>): set<TotalKey> {
    set m | m in metrics :: TotalKey(target, m)
  }

  function HourKeys(target: TargetId, bucket: int, metrics: set<Metric>): set<HourKey> {
    set m | m in metrics :: HourKey(target, m, bucket)
  }

  /** `after` is `before` with every key of `ks` upserted once. */
  predicate Bumped<K>(before: map<K, int>, after: map<K, int>, ks: set<K>) {
    after.Keys == before.Keys + ks && forall k :: k in after ==> after[k] == At(before, k) + (if k in ks then 1 else 0)
  }

  lemma BumpedIsUpsertAll<K>(before: map<K, int>, after: map<K, int>, ks: set<K>)
    requires Bumped(before, after, ks)
    ensures after == UpsertAll(before, ks)
  {
  }

  lemma BumpOneMore<K>(before: map<K, int>, after: map<K, int>, ks: set<K>, k: K)
    requires Bumped(before, after, ks) && k !in ks
    ensures Bumped(before, Upsert(after, k), ks + {k})
  {
  }

  lemma KeysOneMore(target: TargetId, bucket: int, seen: set<Metric>, m: Metric)
    ensures TotalKeys(target, seen + {m}) == TotalKeys(target, seen) + {TotalKey(target, m)}
    ensures HourKeys(target, bucket, seen + {m}) == HourKeys(target, bucket, seen) + {HourKey(target, m, bucket)}
    ensures m !in seen ==>
      TotalKey(target, m) !in TotalKeys(target, seen) && HourKey(target, m, bucket) !in HourKeys(target, bucket, seen)
  {
  }

  /** The drain transaction of one supported fact, as a change of both tables at once. */
  function CountFact(s: State, id: FactId): State
    requires id in s.facts
  {
    var f := s.facts[id];
    s.(facts := s.facts[id := f.(state := Done)],
       totals := UpsertAll(s.totals, TotalKeys(f.target, Contributions(f))),
       hours := UpsertAll(s.hours, HourKeys(f.target, Bucket(f.occurredAt), Contributions(f))))
  }

  predicate Enabled(s: State, step: Step) {
    match step
    case Record(id, _, _, _, _, _) => id !in s.facts
    case Drain(id) => id in s.facts && IsDue(s.facts[id], s.now)
    case Break(id) => id in s.facts && IsDue(s.facts[id], s.now)
    case WriteFailure(report) => report in s.reports
    case Rearm(_) => true
    case Wait(until) => s.now <= until
  }

  function Apply(s: State, step: Step): State
    requires Enabled(s, step)
  {
    match step
    case Record(id, version, kind, target, occurredAt, credit) =>
      s.(facts := s.facts[id := Fact(version, kind, target, occurredAt, credit, Pending, 0, s.now)])
    case Drain(id) =>
      if Supported(s.facts[id]) then CountFact(s, id)
      else s.(reports := s.reports + {Report(id, s.facts[id].attempts)})
    case Break(id) => s.(reports := s.reports + {Report(id, s.facts[id].attempts)})
    case WriteFailure(report) =>
      if report.id in s.facts
      then s.(facts := s.facts[report.id := FailFact(s.facts[report.id], report, s.now)]) else s
    case Rearm(id) =>
      if id in s.facts && s.facts[id].state == Failed
      then s.(facts := s.facts[id := s.facts[id].(state := Pending, attempts := 0, nextAttemptAt := s.now)]) else s
    case Wait(until) => s.(now := until)
  }

  predicate Initial(s: State) {
    s.facts == map[] && s.totals == map[] && s.hours == map[] && s.reports == {}
  }

  predicate Legal(s: State, steps: seq<Step>)
    decreases |steps|
  {
    steps == [] || (Enabled(s, steps[0]) && Legal(Apply(s, steps[0]), steps[1..]))
  }

  function Run(s: State, steps: seq<Step>): State
    requires Legal(s, steps)
    decreases |steps|
  {
    if steps == [] then s else Run(Apply(s, steps[0]), steps[1..])
  }

  // ----- the ledger invariant -----

  predicate Counts(f: Fact, target: TargetId, metric: Metric) {
    f.state == Done && f.target == target && metric in Contributions(f)
  }

  function Contributing(facts: map<FactId, Fact>, target: TargetId, metric: Metric): set<FactId> {
    set id | id in facts && Counts(facts[id], target, metric)
  }

  function ContributingIn(facts: map<FactId, Fact>, target: TargetId, metric: Metric, bucket: int): set<FactId> {
    set id | id in facts && Counts(facts[id], target, metric) && Bucket(facts[id].occurredAt) == bucket
  }

  ghost predicate TotalsExact(facts: map<FactId, Fact>, totals: map<TotalKey, int>) {
    forall t, m :: At(totals, TotalKey(t, m)) == |Contributing(facts, t, m)|
  }

  ghost predicate HoursExact(facts: map<FactId, Fact>, hours: map<HourKey, int>) {
    forall t, m, b :: At(hours, HourKey(t, m, b)) == |ContributingIn(facts, t, m, b)|
  }

  /** Retries are counted 0..5 while pending, and a failed fact has used its sixth attempt. */
  predicate AttemptsOk(facts: map<FactId, Fact>) {
    forall id :: id in facts ==>
      && (facts[id].state == Done ==> Supported(facts[id]))
      && (facts[id].state != Failed ==> 0 <= facts[id].attempts <= MAX_RETRIES)
      && (facts[id].state == Failed ==> facts[id].attempts == MAX_RETRIES + 1)
  }

  ghost predicate Inv(s: State) {
    TotalsExact(s.facts, s.totals) && HoursExact(s.facts, s.hours) && AttemptsOk(s.facts)
  }

  /** Replacing a fact by one that is counted the same way changes no count. */
  lemma SameCounting(facts: map<FactId, Fact>, id: FactId, f: Fact)
    requires f.state != Done && (id in facts ==> facts[id].state != Done)
    ensures forall t, m :: Contributing(facts[id := f], t, m) == Contributing(facts, t, m)
    ensures forall t, m, b :: ContributingIn(facts[id := f], t, m, b) == ContributingIn(facts, t, m, b)
  {
  }

  lemma UncountedStepKeepsInv(s: State, id: FactId, f: Fact)
    requires Inv(s) && f.state != Done && (id in s.facts ==> s.facts[id].state != Done)
    requires AttemptsOk(map[id := f])
    ensures Inv(s.(facts := s.facts[id := f]))
  {
    SameCounting(s.facts, id, f);
    assert id in map[id := f];
  }

  lemma CountedFact(facts: map<FactId, Fact>, id: FactId, t: TargetId, m: Metric)
    requires id in facts && facts[id].state != Done
    ensures var f := facts[id];
            Contributing(facts[id := f.(state := Done)], t, m)
            == Contributing(facts, t, m) + (if f.target == t && m in Contributions(f) then {id} else {})
  {
  }

  lemma CountedFactIn(facts: map<FactId, Fact>, id: FactId, t: TargetId, m: Metric, b: int)
    requires id in facts && facts[id].state != Done
    ensures var f := facts[id];
            ContributingIn(facts[id := f.(state := Done)], t, m, b)
            == ContributingIn(facts, t, m, b)
               + (if f.target == t && m in Contributions(f) && Bucket(f.occurredAt) == b then {id} else {})
  {
  }

  lemma CountFactKeepsTotals(s: State, id: FactId)
    requires id in s.facts && s.facts[id].state != Done && TotalsExact(s.facts, s.totals)
    ensures TotalsExact(CountFact(s, id).facts, CountFact(s, id).totals)
  {
    var f, s' := s.facts[id], CountFact(s, id);
    forall t, m ensures At(s'.totals, TotalKey(t, m)) == |Contributing(s'.facts, t, m)| {
      CountedFact(s.facts, id, t, m);
      assert At(s.totals, TotalKey(t, m)) == |Contributing(s.facts, t, m)|;
    }
  }

  lemma CountFactKeepsHours(s: State, id: FactId)
    requires id in s.facts && s.facts[id].state != Done && HoursExact(s.facts, s.hours)
    ensures HoursExact(CountFact(s, id).facts, CountFact(s, id).hours)
  {
    var f, s' := s.facts[id], CountFact(s, id);
    forall t, m, b ensures At(s'.hours, HourKey(t, m, b)) == |ContributingIn(s'.facts, t, m, b)| {
      CountedFactIn(s.facts, id, t, m, b);
      assert At(s.hours, HourKey(t, m, b)) == |ContributingIn(s.facts, t, m, b)|;
    }
  }

  lemma StepKeepsInv(s: State, step: Step)
    requires Inv(s) && Enabled(s, step)
    ensures Inv(Apply(s, step))
  {
    match step
    case Record(id, version, kind, target, occurredAt, credit) =>
      UncountedStepKeepsInv(s, id, Fact(version, kind, target, occurredAt, credit, Pending, 0, s.now));
    case Drain(id) =>
      if Supported(s.facts[id]) {
        CountFactKeepsTotals(s, id);
        CountFactKeepsHours(s, id);
      }
    case WriteFailure(report) =>
      if report.id in s.facts {
        var f := FailFact(s.facts[report.id], report, s.now);
        if f == s.facts[report.id] {
          assert s.facts[report.id := f] == s.facts;
        } else {
          UncountedStepKeepsInv(s, report.id, f);
        }
      }
    case Rearm(id) =>
      if id in s.facts && s.facts[id].state == Failed {
        UncountedStepKeepsInv(s, id, s.facts[id].(state := Pending, attempts := 0, nextAttemptAt := s.now));
      }
    case _ =>
  }

  lemma {:induction false} RunKeepsInv(s: State, steps: seq<Step>)
    requires Inv(s) && Legal(s, steps)
    ensures Inv(Run(s, steps))
    decreases |steps|
  {
    if steps != [] {
      StepKeepsInv(s, steps[0]);
      RunKeepsInv(Apply(s, steps[0]), steps[1..]);
    }
  }

  lemma InitialInv(s: State)
    requires Initial(s)
    ensures Inv(s)
  {
    forall t, m ensures At(s.totals, TotalKey(t, m)) == |Contributing(s.facts, t, m)| {
      assert Contributing(s.facts, t, m) == {};
    }
    forall t, m, b ensures At(s.hours, HourKey(t, m, b)) == |ContributingIn(s.facts, t, m, b)| {
      assert ContributingIn(s.facts, t, m, b) == {};
    }
  }

  // ----- totals are the sums of their hours -----

  function BucketsOf(hours: map<HourKey, int>, t: TargetId, m: Metric): set<int> {
    set k | k in hours && k.target == t && k.metric == m :: k.bucket
  }

  ghost function SumHours(hours: map<HourKey, int>, t: TargetId, m: Metric, buckets: set<int>): int
    decreases |buckets|
  {
    if buckets == {} then 0
    else
      assert exists b :: b in buckets by { var b := Member(buckets); }
      var b :| b in buckets;
      At(hours, HourKey(t, m, b)) + SumHours(hours, t, m, buckets - {b})
  }

  function ContributingDuring(facts: map<FactId, Fact>, t: TargetId, m: Metric, buckets: set<int>): set<FactId> {
    set id | id in facts && Counts(facts[id], t, m) && Bucket(facts[id].occurredAt) in buckets
  }

  lemma DuringOneBucketMore(facts: map<FactId, Fact>, t: TargetId, m: Metric, buckets: set<int>, b: int)
    requires b in buckets
    ensures |ContributingDuring(facts, t, m, buckets)|
         == |ContributingIn(facts, t, m, b)| + |ContributingDuring(facts, t, m, buckets - {b})|
  {
    var here, others := ContributingIn(facts, t, m, b), ContributingDuring(facts, t, m, buckets - {b});
    assert ContributingDuring(facts, t, m, buckets) == here + others;
    assert here !! others;
  }

  lemma {:induction false} SumCountsContributions(facts: map<FactId, Fact>, hours: map<HourKey, int>, t: TargetId,
                                                  m: Metric, buckets: set<int>)
    requires HoursExact(facts, hours)
    ensures SumHours(hours, t, m, buckets) == |ContributingDuring(facts, t, m, buckets)|
    decreases |buckets|
  {
    if buckets == {} {
      assert ContributingDuring(facts, t, m, buckets) == {};
    } else {
      var first := Member(buckets);
      var b :| b in buckets && SumHours(hours, t, m, buckets) == At(hours, HourKey(t, m, b))
          + SumHours(hours, t, m, buckets - {b});
      SumCountsContributions(facts, hours, t, m, buckets - {b});
      DuringOneBucketMore(facts, t, m, buckets, b);
    }
  }

  // ----- what each metric counts, in the facts' own columns -----

  /** What a fact that is done counts for. */
  predicate Earns(f: Fact, m: Metric) {
    match m
    case Views => f.kind == ViewRecorded
    case LikesAdded => f.kind == LikeAdded
    case LikeCredit => f.kind == LikeAdded && f.credit
    case LikesRemoved => f.kind == LikeRemoved
  }

  lemma ContributionsAreEarned(f: Fact, m: Metric)
    ensures m in Contributions(f) <==> Earns(f, m)
  {
  }

  /** The instant lies in the hour that starts at b, counted in whole hours from the epoch. */
  predicate InHour(b: int, occurredAt: int) {
    b % (60 * 60 * 1000) == 0 && b <= occurredAt < b + 60 * 60 * 1000
  }

  lemma BucketIsHour(occurredAt: int, b: int)
    ensures Bucket(occurredAt) == b <==> InHour(b, occurredAt)
  {
  }

  /** The done facts of a target that earn a metric. */
  function Earning(facts: map<FactId, Fact>, t: TargetId, m: Metric): set<FactId> {
    set id | id in facts && facts[id].state == Done && facts[id].target == t && Earns(facts[id], m)
  }

  lemma ContributingIsEarning(facts: map<FactId, Fact>, t: TargetId, m: Metric)
    ensures Contributing(facts, t, m) == Earning(facts, t, m)
  {
    forall id ensures id in Contributing(facts, t, m) <==> id in Earning(facts, t, m) {
      if id in facts { ContributionsAreEarned(facts[id], m); }
    }
  }

  /**
   In every run a total is the sum of its hourly buckets, and the number of done facts of its target that
   earn the metric: views, likes added, those with a first-like credit, likes removed.
   */
  lemma LedgerBalances(s0: State, steps: seq<Step>, t: TargetId, m: Metric)
    requires Initial(s0) && Legal(s0, steps)
    ensures var s := Run(s0, steps);
            && At(s.totals, TotalKey(t, m)) == |Earning(s.facts, t, m)|
            && At(s.totals, TotalKey(t, m)) == SumHours(s.hours, t, m, BucketsOf(s.hours, t, m))
  {
    InitialInv(s0);
    RunKeepsInv(s0, steps);
    var s := Run(s0, steps);
    var buckets := BucketsOf(s.hours, t, m);
    ContributingIsEarning(s.facts, t, m);
    SumCountsContributions(s.facts, s.hours, t, m, buckets);
    forall id | id in Contributing(s.facts, t, m) ensures Bucket(s.facts[id].occurredAt) in buckets {
      var b := Bucket(s.facts[id].occurredAt);
      assert id in ContributingIn(s.facts, t, m, b);
      assert At(s.hours, HourKey(t, m, b)) > 0;
      assert HourKey(t, m, b) in s.hours;
    }
    assert ContributingDuring(s.facts, t, m, buckets) == Contributing(s.facts, t, m);
  }

  /** An hour's bucket is the number of those that happened in that UTC hour; there is none between hours. */
  lemma HoursCountTheirFacts(s0: State, steps: seq<Step>, t: TargetId, m: Metric, b: int)
    requires Initial(s0) && Legal(s0, steps)
    ensures var s := Run(s0, steps);
      At(s.hours, HourKey(t, m, b))
      == |set id | id in Earning(s.facts, t, m) && InHour(b, s.facts[id].occurredAt)|
  {
    InitialInv(s0);
    RunKeepsInv(s0, steps);
    EarningInHour(Run(s0, steps).facts, t, m, b);
  }

  lemma EarningInHour(facts: map<FactId, Fact>, t: TargetId, m: Metric, b: int)
    ensures ContributingIn(facts, t, m, b)
         == set id | id in Earning(facts, t, m) && InHour(b, facts[id].occurredAt)
  {
    ContributingIsEarning(facts, t, m);
    forall id | id in facts ensures Bucket(facts[id].occurredAt) == b <==> InHour(b, facts[id].occurredAt) {
      BucketIsHour(facts[id].occurredAt, b);
    }
    assert forall id :: id in ContributingIn(facts, t, m, b) <==>
        id in Contributing(facts, t, m) && Bucket(facts[id].occurredAt) == b;
  }

  /** What was recorded about a fact. */
  predicate SameRecord(a: Fact, b: Fact) {
    && a.version == b.version && a.kind == b.kind && a.target == b.target
    && a.occurredAt == b.occurredAt && a.credit == b.credit
  }

  /** A recorded fact is kept as it was recorded, pending at first; only its projection state ever moves. */
  lemma {:induction false} RecordsAreKept(s: State, steps: seq<Step>, id: FactId)
    requires Legal(s, steps) && id in s.facts
    ensures id in Run(s, steps).facts && SameRecord(s.facts[id], Run(s, steps).facts[id])
    decreases |steps|
  {
    if steps != [] { RecordsAreKept(Apply(s, steps[0]), steps[1..], id); }
  }

  lemma RecordedAsGiven(s: State, id: FactId, version: int, kind: FactKind, target: TargetId, at: int, credit: bool)
    requires id !in s.facts
    ensures var s' := Apply(s, Record(id, version, kind, target, at, credit));
      && id in s'.facts && s'.facts[id].state == Pending && s'.facts[id].attempts == 0 && IsDue(s'.facts[id], s.now)
      && s'.facts[id].version == version && s'.facts[id].kind == kind && s'.facts[id].target == target
      && s'.facts[id].occurredAt == at && s'.facts[id].credit == credit
      && (forall x :: x in s.facts ==> x in s'.facts && s'.facts[x] == s.facts[x])
      && s'.totals == s.totals && s'.hours == s.hours
  {
  }

  /** The retry delays in use: 2 s after the first failure, doubling to 32 s after the fifth. */
  lemma DelayDoubles(attempts: nat)
    requires 1 <= attempts <= MAX_RETRIES
    ensures DelayMs(1) == 2000 && DelayMs(2) == 4000 && DelayMs(3) == 8000
    ensures DelayMs(4) == 16000 && DelayMs(5) == 32000
    ensures attempts > 1 ==> DelayMs(attempts) == 2 * DelayMs(attempts - 1)
  {
    assert PowerOfTwo(1) == 2 && PowerOfTwo(2) == 4 && PowerOfTwo(3) == 8;
    assert PowerOfTwo(4) == 16 && PowerOfTwo(5) == 32;
  }

  // ----- exactly once -----

  function CountingsOf(s: State, steps: seq<Step>, id: FactId): nat
    requires Legal(s, steps)
    decreases |steps|
  {
    if steps == [] then 0
    else (if Apply(s, steps[0]).totals != s.totals && steps[0] == Drain(id) then 1 else 0)
         + CountingsOf(Apply(s, steps[0]), steps[1..], id)
  }

  lemma DoneIsForever(s: State, step: Step, id: FactId)
    requires Enabled(s, step) && id in s.facts
    ensures id in Apply(s, step).facts
    ensures s.facts[id].state == Done ==> Apply(s, step).facts[id] == s.facts[id]
    ensures Apply(s, step).totals != s.totals ==> step.Drain?
    ensures step == Drain(id) && Apply(s, step).totals != s.totals ==> Apply(s, step).facts[id].state == Done
  {
  }

  /** Whatever fails, retries or is rearmed, a fact is counted at most once. */
  lemma {:induction false} CountedAtMostOnce(s: State, steps: seq<Step>, id: FactId)
    requires Legal(s, steps)
    ensures CountingsOf(s, steps, id) + (if id in s.facts && s.facts[id].state == Done then 1 else 0) <= 1
    decreases |steps|
  {
    if steps != [] {
      if id in s.facts { DoneIsForever(s, steps[0], id); }
      CountedAtMostOnce(Apply(s, steps[0]), steps[1..], id);
    }
  }

  // ----- the drain loop -----

  lemma {:induction false} RunAppend(s: State, steps: seq<Step>, last: Step)
    requires Legal(s, steps) && Enabled(Run(s, steps), last)
    ensures Legal(s, steps + [last]) && Run(s, steps + [last]) == Apply(Run(s, steps), last)
    decreases |steps|
  {
    if steps == [] {
      assert steps + [last] == [last];
      assert Legal(Apply(s, last), []);
    } else {
      assert (steps + [last])[1..] == steps[1..] + [last];
      RunAppend(Apply(s, steps[0]), steps[1..], last);
    }
  }

  function DueFacts(facts: map<FactId, Fact>, now: int): set<FactId> {
    set id | id in facts && IsDue(facts[id], now)
  }

  /** ORDER BY nextAttemptAt, id. */
  predicate DueBefore(facts: map<FactId, Fact>, a: FactId, b: FactId)
    requires a in facts && b in facts
  {
    facts[a].nextAttemptAt < facts[b].nextAttemptAt || (facts[a].nextAttemptAt == facts[b].nextAttemptAt && a < b)
  }

  predicate NextDue(facts: map<FactId, Fact>, due: set<FactId>, id: FactId)
    requires forall x :: x in due ==> x in facts
  {
    id in due && forall x :: x in due && x != id ==> DueBefore(facts, id, x)
  }

  lemma {:induction false} NextDueExists(facts: map<FactId, Fact>, due: set<FactId>) returns (id: FactId)
    requires due != {} && forall x :: x in due ==> x in facts
    ensures NextDue(facts, due, id)
    decreases |due|
  {
    var x := Member(due);
    var rest := due - {x};
    id := x;
    assert forall y :: y in due ==> y == x || y in rest;
    if rest != {} {
      var y := NextDueExists(facts, rest);
      if DueBefore(facts, y, x) { id := y; }
    }
  }

  lemma FailureLeavesDue(s: State, id: FactId)
    requires Inv(s) && id in s.facts && IsDue(s.facts[id], s.now)
    ensures var f := FailFact(s.facts[id], Report(id, s.facts[id].attempts), s.now);
            DueFacts(s.facts[id := f], s.now) == DueFacts(s.facts, s.now) - {id}
  {
    DelayIsPositive(s.facts[id].attempts + 1);
  }

  lemma DelayIsPositive(attempts: nat)
    ensures DelayMs(attempts) > 0
  {
    PowerIsPositive(if attempts < 8 then attempts else 8);
  }

  /** Each total and each hour the fact earns goes up by one, and no other. */
  ghost predicate CountedOnce(f: Fact, totals: map<TotalKey, int>, totals': map<TotalKey, int>,
                              hours: map<HourKey, int>, hours': map<HourKey, int>)
  {
    && (forall k :: At(totals', k) == At(totals, k) + (if k.target == f.target && Earns(f, k.metric) then 1 else 0))
    && (forall k :: At(hours', k) == At(hours, k) + (if k.target == f.target && Earns(f, k.metric)
                                                       && InHour(k.bucket, f.occurredAt) then 1 else 0))
  }

  lemma UpsertsCountOnce(f: Fact, totals: map<TotalKey, int>, hours: map<HourKey, int>)
    ensures CountedOnce(f, totals, UpsertAll(totals, TotalKeys(f.target, Contributions(f))),
                        hours, UpsertAll(hours, HourKeys(f.target, Bucket(f.occurredAt), Contributions(f))))
  {
    forall k: TotalKey
      ensures k in TotalKeys(f.target, Contributions(f)) <==> k.target == f.target && Earns(f, k.metric)
    {
      ContributionsAreEarned(f, k.metric);
      assert k == TotalKey(k.target, k.metric);
    }
    forall k: HourKey
      ensures k in HourKeys(f.target, Bucket(f.occurredAt), Contributions(f)) <==>
              k.target == f.target && Earns(f, k.metric) && InHour(k.bucket, f.occurredAt)
    {
      ContributionsAreEarned(f, k.metric);
      BucketIsHour(f.occurredAt, k.bucket);
      assert k == HourKey(k.target, k.metric, k.bucket);
    }
  }

  /** A supported fact is done; any other has one attempt more and is not due, or has failed at the sixth. */
  predicate Attempted(before: Fact, after: Fact, now: int) {
    if before.version == 1 && before.kind != UnknownKind then after == before.(state := Done)
    else
      && after == before.(attempts := before.attempts + 1, state := after.state, nextAttemptAt := after.nextAttemptAt)
      && after.state == (if before.attempts < 5 then Pending else Failed) && after.nextAttemptAt > now
  }

  /** Due facts in the order of their due time, then of their id; what is due but not listed comes later. */
  predicate InDueOrder(facts: map<FactId, Fact>, now: int, order: seq<FactId>) {
    && (forall i :: 0 <= i < |order| ==>
          order[i] in facts && facts[order[i]].state == Pending && facts[order[i]].nextAttemptAt <= now)
    && (forall i, j :: 0 <= i < j < |order| ==> Earlier(facts[order[i]].nextAttemptAt, order[i],
                                                        facts[order[j]].nextAttemptAt, order[j]))
    && (forall id, i :: id in DueFacts(facts, now) && id !in order && 0 <= i < |order| ==>
          Earlier(facts[order[i]].nextAttemptAt, order[i], facts[id].nextAttemptAt, id))
  }

  predicate Earlier(at: int, id: FactId, at': int, id': FactId) {
    at < at' || (at == at' && id < id')
  }

  /** The facts in `order` were attempted, the first due ones in their order; no other fact moved. */
  predicate DrainedSoFar(first: map<FactId, Fact>, facts: map<FactId, Fact>, now: int, order: seq<FactId>) {
    && facts.Keys == first.Keys && InDueOrder(first, now, order)
    && forall id :: id in facts ==>
         if id in order then Attempted(first[id], facts[id], now) else facts[id] == first[id]
  }

  lemma DueAfterDrain(first: map<FactId, Fact>, facts: map<FactId, Fact>, now: int, order: seq<FactId>)
    requires DrainedSoFar(first, facts, now, order)
    ensures DueFacts(facts, now) == DueFacts(first, now) - (set id | id in order)
  {
    forall id ensures id in DueFacts(facts, now) <==> id in DueFacts(first, now) && id !in order {
      if id in order {
        var i :| 0 <= i < |order| && order[i] == id;
        assert first[order[i]].state == Pending;
      }
    }
  }

  lemma DrainedOneMore(first: map<FactId, Fact>, before: map<FactId, Fact>, after: map<FactId, Fact>, now: int,
                       order: seq<FactId>, id: FactId)
    requires DrainedSoFar(first, before, now, order) && NextDue(before, DueFacts(before, now), id)
    requires id in after && after == before[id := after[id]] && Attempted(before[id], after[id], now)
    ensures id !in order && DrainedSoFar(first, after, now, order + [id])
  {
    DueAfterDrain(first, before, now, order);
    var more := order + [id];
    assert id in DueFacts(first, now) && id !in order;
    forall x, i | x in DueFacts(first, now) && x !in more && 0 <= i < |more|
      ensures Earlier(first[more[i]].nextAttemptAt, more[i], first[x].nextAttemptAt, x)
    {
      assert x !in order && x != id;
      if i == |order| { assert x in DueFacts(before, now) && DueBefore(before, id, x); }
    }
    assert InDueOrder(first, now, more);
    assert forall x :: x in more <==> x in order || x == id;
  }

  lemma DrainedCount(first: map<FactId, Fact>, facts: map<FactId, Fact>, now: int, order: seq<FactId>)
    requires DrainedSoFar(first, facts, now, order)
    ensures |DueFacts(first, now)| == |order| + |DueFacts(facts, now)|
    ensures DueFacts(facts, now) !! (set id | id in order)
  {
    DueAfterDrain(first, facts, now, order);
    ListedCount(first, order);
    var listed := set id | id in order;
    assert listed <= DueFacts(first, now);
    assert DueFacts(first, now) == listed + DueFacts(facts, now);
  }

  lemma {:induction false} ListedCount(facts: map<FactId, Fact>, order: seq<FactId>)
    requires forall i, j :: 0 <= i < j < |order| ==> order[i] != order[j]
    ensures |set id | id in order| == |order|
  {
    if order != [] {
      var init, last := order[..|order| - 1], order[|order| - 1];
      ListedCount(facts, init);
      assert order == init + [last];
      assert (set id | id in order) == (set id | id in init) + {last};
    }
  }

  class Projector {
    var now: int
    var facts: map<FactId, Fact>
    var totals: map<TotalKey, int>
    var hours: map<HourKey, int>
    ghost var reports: set<Report>

    ghost function Image(): State
      reads this
    {
      State(now, facts, totals, hours, reports)
    }

    /** The two upserts of one metric. */
    method Increment(target: TargetId, metric: Metric, bucket: int)
      modifies this`totals, this`hours
      ensures totals == Upsert(old(totals), TotalKey(target, metric))
      ensures hours == Upsert(old(hours), HourKey(target, metric, bucket))
    {
      var t, h := TotalKey(target, metric), HourKey(target, metric, bucket);
      if t in totals { totals := totals[t := totals[t] + 1]; } else { totals := totals[t := 1]; }
      if h in hours { hours := hours[h := hours[h] + 1]; } else { hours := hours[h := 1]; }
    }

    /** The transaction around one fact. It throws for an unsupported one, and then no table changed. */
    method ProjectFact(id: FactId) returns (counted: bool)
      requires id in facts && IsDue(facts[id], now)
      modifies this`facts, this`totals, this`hours, this`reports
      ensures Image() == Apply(old(Image()), Drain(id))
      ensures counted <==> old(facts)[id].version == 1 && old(facts)[id].kind != UnknownKind
      ensures counted ==> && facts == old(facts)[id := old(facts)[id].(state := Done)]
                          && CountedOnce(old(facts)[id], old(totals), totals, old(hours), hours)
      ensures !counted ==> facts == old(facts) && totals == old(totals) && hours == old(hours)
      ensures !counted ==> Report(id, facts[id].attempts) in reports
    {
      var f := facts[id];
      if f.version != 1 || f.kind == UnknownKind {
        reports := reports + {Report(id, f.attempts)};
        return false;
      }
      CountMetrics(f);
      facts := facts[id := f.(state := Done)];
      counted := true;
    }

    /** The loop over the metrics a supported fact contributes to. */
    method CountMetrics(f: Fact)
      requires Supported(f)
      modifies this`totals, this`hours
      ensures totals == UpsertAll(old(totals), TotalKeys(f.target, Contributions(f)))
      ensures hours == UpsertAll(old(hours), HourKeys(f.target, Bucket(f.occurredAt), Contributions(f)))
      ensures CountedOnce(f, old(totals), totals, old(hours), hours)
    {
      UpsertsCountOnce(f, totals, hours);
      var bucket := Bucket(f.occurredAt);
      var contributions :=
        match f.kind
        case ViewRecorded => [Views]
        case LikeAdded => if f.credit then [LikesAdded, LikeCredit] else [LikesAdded]
        case LikeRemoved => [LikesRemoved]
        case UnknownKind => [];
      assert Contributions(f) == set m | m in contributions;
      IncrementAll(f.target, contributions, bucket);
    }

    method IncrementAll(target: TargetId, metrics: seq<Metric>, bucket: int)
      requires forall i, j :: 0 <= i < j < |metrics| ==> metrics[i] != metrics[j]
      modifies this`totals, this`hours
      ensures totals == UpsertAll(old(totals), TotalKeys(target, set m | m in metrics))
      ensures hours == UpsertAll(old(hours), HourKeys(target, bucket, set m | m in metrics))
    {
      ghost var seen: set<Metric>, ts: set<TotalKey>, hs: set<HourKey> := {}, {}, {};
      for i := 0 to |metrics|
        invariant seen == set m | m in metrics[..i]
        invariant ts == TotalKeys(target, seen) && hs == HourKeys(target, bucket, seen)
        invariant Bumped(old(totals), totals, ts) && Bumped(old(hours), hours, hs)
      {
        var m := metrics[i];
        assert m !in metrics[..i];
        KeysOneMore(target, bucket, seen, m);
        BumpOneMore(old(totals), totals, ts, TotalKey(target, m));
        BumpOneMore(old(hours), hours, hs, HourKey(target, m, bucket));
        Increment(target, m, bucket);
        seen, ts, hs := seen + {m}, ts + {TotalKey(target, m)}, hs + {HourKey(target, m, bucket)};
      }
      assert metrics[..|metrics|] == metrics;
      BumpedIsUpsertAll(old(totals), totals, ts);
      BumpedIsUpsertAll(old(hours), hours, hs);
    }

    /** recordFailure: conditional on the fact still being pending with the attempts that were read. */
    method RecordFailure(report: Report)
      requires report in reports && report.id in facts
      modifies this`facts
      ensures Image() == Apply(old(Image()), WriteFailure(report))
      ensures facts.Keys == old(facts).Keys
      ensures forall id :: id in facts && id != report.id ==> facts[id] == old(facts)[id]
      ensures var before, after := old(facts)[report.id], facts[report.id];
        if before.state != Pending || before.attempts != report.attempts then after == before
        else
          && after.attempts == before.attempts + 1 && after.nextAttemptAt > now
          && (before.attempts >= 0 ==> after.nextAttemptAt == now + DelayMs(before.attempts + 1))
          && after.state == (if before.attempts < 5 then Pending else Failed)
          && after == before.(attempts := after.attempts, state := after.state, nextAttemptAt := after.nextAttemptAt)
      ensures Inv(old(Image())) ==> Inv(Image())
    {
      if Inv(Image()) { StepKeepsInv(Image(), WriteFailure(report)); }
      DelayIsPositive(Max(report.attempts + 1, 0));
      var f := facts[report.id];
      if f.state == Pending && f.attempts == report.attempts {
        var attempts := report.attempts + 1;
        facts := facts[report.id := f.(attempts := attempts,
                                       state := if attempts > MAX_RETRIES then Failed else Pending,
                                       nextAttemptAt := now + DelayMs(Max(attempts, 0)))];
      } else {
        assert facts[report.id := f] == facts;
      }
    }

    /** rearm: only a failed fact goes back to pending, with its attempts reset. */
    method RearmFact(id: FactId) returns (rearmed: Result<bool, string>)
      modifies this`facts
      ensures rearmed.Err? <==> id < 1
      ensures rearmed.Err? ==> Image() == old(Image())
      ensures rearmed.Ok? ==> Image() == Apply(old(Image()), Rearm(id))
                              && (rearmed.value <==> id in old(facts) && old(facts)[id].state == Failed)
      ensures rearmed == Ok(false) ==> facts == old(facts)
      ensures rearmed == Ok(true) ==>
                && facts == old(facts)[id := old(facts)[id].(state := Pending, attempts := 0, nextAttemptAt := now)]
                && id in facts && IsDue(facts[id], now)
    {
      if id < 1 { return Err("Statistics event id must be a positive safe integer"); }
      if id !in facts || facts[id].state != Failed { return Ok(false); }
      facts := facts[id := facts[id].(state := Pending, attempts := 0, nextAttemptAt := now)];
      rearmed := Ok(true);
    }

    /** One round of drain: the fact is counted, or its failure is written. */
    method DrainOne(id: FactId, ghost first: State, ghost trace: seq<Step>) returns (ghost more: seq<Step>)
      requires Inv(Image()) && id in facts && IsDue(facts[id], now)
      requires Legal(first, trace) && Image() == Run(first, trace)
      modifies this`facts, this`totals, this`hours, this`reports
      ensures Inv(Image()) && Legal(first, more) && Image() == Run(first, more)
      ensures id in facts && facts == old(facts)[id := facts[id]] && Attempted(old(facts)[id], facts[id], now)
    {
      StepKeepsInv(Image(), Drain(id));
      RunAppend(first, trace, Drain(id));
      var counted := ProjectFact(id);
      more := trace + [Drain(id)];
      if !counted {
        var report := Report(id, facts[id].attempts);
        RunAppend(first, more, WriteFailure(report));
        RecordFailure(report);
        more := more + [WriteFailure(report)];
      }
    }

    /**
     drain: a run of the protocol that takes the due facts in order, one by one, counting or failing
     each, until the limit is reached or nothing is due.
     */
    method DrainDue(limit: int)
      returns (processed: Result<int, string>, ghost trace: seq<Step>, ghost order: seq<FactId>)
      requires Inv(Image())
      modifies this`facts, this`totals, this`hours, this`reports
      ensures processed.Err? <==> !(1 <= limit <= 200)
      ensures processed.Err? ==> Image() == old(Image())
      ensures Legal(old(Image()), trace) && Image() == Run(old(Image()), trace)
      ensures Inv(Image())
      ensures processed.Ok? ==> processed.value == |order| == Min(limit, |DueFacts(old(facts), now)|)
      ensures processed.Ok? ==> InDueOrder(old(facts), now, order) && DueFacts(facts, now) !! (set id | id in order)
      ensures facts.Keys == old(facts).Keys && forall id :: id in facts ==> (if id in order
                then Attempted(old(facts)[id], facts[id], now) else facts[id] == old(facts)[id])
    {
      trace, order := [], [];
      if limit < 1 || limit > BATCH_SIZE {
        processed := Err("Projection batch limit out of range");
        return;
      }
      var count := 0;
      assert DrainedSoFar(old(facts), facts, now, []);
      while count < limit
        invariant 0 <= count <= limit && |order| == count
        invariant now == old(now) && Inv(Image())
        invariant Legal(old(Image()), trace) && Image() == Run(old(Image()), trace)
        invariant DrainedSoFar(old(facts), facts, now, order)
      {
        var due := DueFacts(facts, now);
        if due == {} { break; }
        ghost var next := NextDueExists(facts, due);
        var id :| id in due && NextDue(facts, due, id);
        ghost var before := facts;
        trace := DrainOne(id, old(Image()), trace);
        DrainedOneMore(old(facts), before, facts, now, order, id);
        count, order := count + 1, order + [id];
      }
      DrainedCount(old(facts), facts, now, order);
      processed := Ok(count);
    }
  }
}
