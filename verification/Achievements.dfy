/**
 The achievement ledger: tier grants from three racing paths (live evaluation, backfill, manual)
 interleaved with admin edits. Loading a definition, planning the levels to grant and granting
 them are separate steps, because a worker grants from a snapshot it loaded earlier.
 */
module Achievements {
  import opened Prelude

  type UserId = int
  type DefId = int

  const MAX_TIERS := 10
  const BACKFILL_BATCH_SIZE := 500

  datatype Status = Draft | Published | Archived

  datatype TierInput = TierInput(threshold: int, expReward: nat)

  /** Tier `i` of a definition has level i + 1. */
  datatype Tier = Tier(threshold: int, expReward: nat, obtainedCount: int)

  /** `rule` stands for the metric, its criteria, the window and the event. */
  datatype Definition = Definition(status: Status, rule: int, tiers: seq<Tier>)

  /** A row of obtained_achievement; the three columns are its unique key. */
  datatype Row = Row(user: UserId, def: DefId, level: int)

  datatype Mode = Live | Backfill | Manual

  /** A definition as a worker loaded it; its counters may be stale and tiers may have been appended since. */
  datatype Snapshot = Snapshot(def: DefId, tiers: seq<Tier>)

  /** One pending call of grantTiers. */
  datatype Plan = Plan(user: UserId, snapshot: Snapshot, levels: set<int>, mode: Mode)

  datatype State = State(
    defs: map<DefId, Definition>,
    obtained: set<Row>,
    paid: map<UserId, int>,
    notices: seq<Row>,
    loaded: set<Snapshot>,
    plans: set<Plan>)

  datatype Edit =
    | Create(id: DefId, rule: int, inputs: seq<TierInput>)
    | Update(id: DefId, newRule: Option<int>, newInputs: Option<seq<TierInput>>)
    | Delete(id: DefId)
    | Publish(id: DefId)
    | Archive(id: DefId)

  datatype Step =
    | Admin(edit: Edit)
    | Load(def: DefId)
    | PlanLive(user: UserId, snapshot: Snapshot, value: int)
    | PlanBackfill(user: UserId, snapshot: Snapshot, value: int)
    | PlanManual(user: UserId, snapshot: Snapshot)
    | Grant(plan: Plan)

  datatype Error = NotFound | Conflict | BadRequest | AlreadyObtained

  // ----- admin operations -----

  /** validateDefinition, the part about tiers. */
  predicate ValidTiers(inputs: seq<TierInput>) {
    && 1 <= |inputs| <= MAX_TIERS
    && forall i :: 0 < i < |inputs| ==> IncreasesAt(inputs, i)
  }

  predicate IncreasesAt(inputs: seq<TierInput>, i: int)
    requires 0 < i < |inputs|
  {
    inputs[i].threshold > inputs[i - 1].threshold
  }

  function Terms(tiers: seq<Tier>): seq<TierInput> {
    seq(|tiers|, i requires 0 <= i < |tiers| => TierInput(tiers[i].threshold, tiers[i].expReward))
  }

  function ToTiers(inputs: seq<TierInput>): seq<Tier> {
    seq(|inputs|, i requires 0 <= i < |inputs| => Tier(inputs[i].threshold, inputs[i].expReward, 0))
  }

  predicate ChangesExistingTier(tiers: seq<Tier>, inputs: seq<TierInput>) {
    exists i :: 0 <= i < |tiers| && (i >= |inputs| || inputs[i] != TierInput(tiers[i].threshold, tiers[i].expReward))
  }

  function UpdatedTiers(saved: Definition, inputs: Option<seq<TierInput>>): seq<Tier> {
    if inputs.None? then saved.tiers
    else if saved.status == Published && |saved.tiers| <= |inputs.value|
    then saved.tiers + ToTiers(inputs.value)[|saved.tiers|..]
    else ToTiers(inputs.value)
  }

  function UpdateDefinition(saved: Definition, newRule: Option<int>,
                            newInputs: Option<seq<TierInput>>): Result<Definition, Error> {
    var rule := if newRule.Some? then newRule.value else saved.rule;
    var inputs := if newInputs.Some? then newInputs.value else Terms(saved.tiers);
    if saved.status == Archived then Err(BadRequest)
    else if saved.status == Published && (rule != saved.rule || ChangesExistingTier(saved.tiers, inputs))
    then Err(BadRequest)
    else if !ValidTiers(inputs) then Err(BadRequest)
    else Ok(saved.(rule := rule, tiers := UpdatedTiers(saved, newInputs)))
  }

  function EditCatalogue(defs: map<DefId, Definition>, edit: Edit): Result<map<DefId, Definition>, Error> {
    if edit.Create? then
      if edit.id in defs then Err(Conflict)
      else if !ValidTiers(edit.inputs) then Err(BadRequest)
      else Ok(defs[edit.id := Definition(Draft, edit.rule, ToTiers(edit.inputs))])
    else if edit.id !in defs then Err(NotFound)
    else
      var saved := defs[edit.id];
      match edit
      case Update(id, newRule, newInputs) =>
        var updated := UpdateDefinition(saved, newRule, newInputs);
        if updated.Ok? then Ok(defs[id := updated.value]) else Err(updated.error)
      case Delete(id) => if saved.status != Draft then Err(BadRequest) else Ok(defs - {id})
      case Publish(id) =>
        if saved.status != Draft || !ValidTiers(Terms(saved.tiers)) then Err(BadRequest)
        else Ok(defs[id := saved.(status := Published)])
      case Archive(id) =>
        if saved.status != Published then Err(BadRequest) else Ok(defs[id := saved.(status := Archived)])
  }

  // ----- grants -----

  /** Levels whose threshold the value reaches. */
  predicate Reaches(tiers: seq<Tier>, value: int, level: int) {
    1 <= level <= |tiers| && tiers[level - 1].threshold <= value
  }

  function ReachedLevels(tiers: seq<Tier>, value: int): set<int> {
    set l | 1 <= l <= |tiers| && Reaches(tiers, value, l)
  }

  function LevelsOf(obtained: set<Row>, user: UserId, def: DefId): set<int> {
    set r | r in obtained && r.user == user && r.def == def :: r.level
  }

  /** UPDATE achievement_tier SET obtainedCount = obtainedCount + 1. */
  function CountUp(defs: map<DefId, Definition>, d: DefId, level: int): map<DefId, Definition> {
    if d in defs && 1 <= level <= |defs[d].tiers| then
      var tiers := defs[d].tiers;
      var tier := tiers[level - 1];
      defs[d := defs[d].(tiers := tiers[level - 1 := tier.(obtainedCount := tier.obtainedCount + 1)])]
    else defs
  }

  /** The local state of the grantTiers transaction; `highest` is 0 while nothing was new. */
  datatype Award = Award(defs: map<DefId, Definition>, obtained: set<Row>, exp: int, highest: int)

  /** After the insertions for levels 1..n of the plan, in ascending order. */
  function AwardUpTo(defs: map<DefId, Definition>, obtained: set<Row>, p: Plan, n: nat): Award
    requires n <= |p.snapshot.tiers|
  {
    if n == 0 then Award(defs, obtained, 0, 0)
    else
      var a := AwardUpTo(defs, obtained, p, n - 1);
      var row := Row(p.user, p.snapshot.def, n);
      if n in p.levels && row !in a.obtained
      then Award(CountUp(a.defs, p.snapshot.def, n), a.obtained + {row}, a.exp + p.snapshot.tiers[n - 1].expReward, n)
      else a
  }

  function PaidTo(paid: map<UserId, int>, user: UserId): int {
    if user in paid then paid[user] else 0
  }

  function GrantTiers(s: State, p: Plan): Result<State, Error> {
    var a := AwardUpTo(s.defs, s.obtained, p, |p.snapshot.tiers|);
    if a.highest == 0 then
      if p.mode == Manual then Err(AlreadyObtained) else Ok(s)
    else Ok(s.(
      defs := a.defs,
      obtained := a.obtained,
      paid := if a.exp > 0 then s.paid[p.user := PaidTo(s.paid, p.user) + a.exp] else s.paid,
      notices := if p.mode == Backfill then s.notices else s.notices + [Row(p.user, p.snapshot.def, a.highest)]))
  }

  function AddPlan(s: State, p: Plan): State {
    if p.levels == {} then s else s.(plans := s.plans + {p})
  }

  function Apply(s: State, step: Step): State {
    match step
    case Admin(edit) =>
      var edited := EditCatalogue(s.defs, edit);
      if edited.Ok? then s.(defs := edited.value) else s
    case Load(d) =>
      if d in s.defs && s.defs[d].status == Published
      then s.(loaded := s.loaded + {Snapshot(d, s.defs[d].tiers)}) else s
    case PlanLive(user, snapshot, value) =>
      if snapshot !in s.loaded then s
      else
        var missing := ReachedLevels(snapshot.tiers, value) - LevelsOf(s.obtained, user, snapshot.def);
        AddPlan(s, Plan(user, snapshot, missing, Live))
    case PlanBackfill(user, snapshot, value) =>
      if snapshot !in s.loaded then s
      else AddPlan(s, Plan(user, snapshot, ReachedLevels(snapshot.tiers, value), Backfill))
    case PlanManual(user, snapshot) =>
      if snapshot !in s.loaded then s else AddPlan(s, Plan(user, snapshot, {1}, Manual))
    case Grant(plan) =>
      if plan !in s.plans then s
      else var granted := GrantTiers(s, plan); if granted.Ok? then granted.value else s
  }

  function Run(s: State, steps: seq<Step>): State
    decreases |steps|
  {
    if steps == [] then s else Run(Apply(s, steps[0]), steps[1..])
  }

  function Initial(): State {
    State(map[], {}, map[], [], {}, {})
  }

  // ----- the ledger -----

  function Holders(obtained: set<Row>, d: DefId, level: int): set<Row> {
    set r | r in obtained && r.def == d && r.level == level
  }

  function Mine(obtained: set<Row>, user: UserId): set<Row> {
    set r | r in obtained && r.user == user
  }

  function Reward(defs: map<DefId, Definition>, r: Row): int {
    if r.def in defs && 1 <= r.level <= |defs[r.def].tiers| then defs[r.def].tiers[r.level - 1].expReward else 0
  }

  /** The sum of expReward over a set of obtained rows. */
  ghost function Total(defs: map<DefId, Definition>, rows: set<Row>): int
    decreases |rows|
  {
    if rows == {} then 0
    else var r :| r in rows; Reward(defs, r) + Total(defs, rows - {r})
  }

  ghost predicate CatalogueOk(defs: map<DefId, Definition>) {
    forall d :: d in defs ==> ValidTiers(Terms(defs[d].tiers))
  }

  /** Obtained rows belong to existing levels of definitions that left the draft state, from level 1 up without gaps. */
  ghost predicate RowsOk(defs: map<DefId, Definition>, obtained: set<Row>) {
    && (forall r :: r in obtained ==>
          r.def in defs && defs[r.def].status != Draft && 1 <= r.level <= |defs[r.def].tiers|)
    && (forall r, q {:trigger IsBelow(q, r)} :: r in obtained && IsBelow(q, r) ==> q in obtained)
  }

  /** A row for a lower level of the same definition and user. */
  predicate IsBelow(q: Row, r: Row) {
    q.user == r.user && q.def == r.def && 1 <= q.level < r.level
  }

  /** obtainedCount of every tier is the number of its obtained rows. */
  ghost predicate CountsOk(defs: map<DefId, Definition>, obtained: set<Row>) {
    forall d, i :: d in defs && 0 <= i < |defs[d].tiers| ==>
      defs[d].tiers[i].obtainedCount == |Holders(obtained, d, i + 1)|
  }

  /** The exp paid to every user is the sum of the rewards of the rows they hold. */
  ghost predicate PaidOk(defs: map<DefId, Definition>, obtained: set<Row>, paid: map<UserId, int>) {
    forall u :: PaidTo(paid, u) == Total(defs, Mine(obtained, u))
  }

  ghost predicate NoticesOk(obtained: set<Row>, notices: seq<Row>) {
    && (forall i :: 0 <= i < |notices| ==> notices[i] in obtained)
    && (forall i, j :: 0 <= i < j < |notices| ==> notices[i] != notices[j])
  }

  /** The earlier tiers are still there, with the same terms. */
  predicate SameTerms(earlier: seq<Tier>, later: seq<Tier>) {
    && |earlier| <= |later|
    && forall i :: 0 <= i < |earlier| ==>
         earlier[i].threshold == later[i].threshold && earlier[i].expReward == later[i].expReward
  }

  ghost predicate SnapshotOk(defs: map<DefId, Definition>, snapshot: Snapshot) {
    && snapshot.def in defs && defs[snapshot.def].status != Draft
    && SameTerms(snapshot.tiers, defs[snapshot.def].tiers)
    && ValidTiers(Terms(snapshot.tiers))
  }

  predicate IsLower(j: int, l: int) {
    1 <= j < l
  }

  /** Granting the plan leaves no gap below any level it grants. */
  ghost predicate PlanOk(loaded: set<Snapshot>, obtained: set<Row>, p: Plan) {
    && p.snapshot in loaded
    && forall l, j {:trigger IsLower(j, l)} :: l in p.levels && IsLower(j, l) ==>
         j in p.levels || Row(p.user, p.snapshot.def, j) in obtained
  }

  ghost predicate Ledger(s: State) {
    && CatalogueOk(s.defs)
    && RowsOk(s.defs, s.obtained)
    && CountsOk(s.defs, s.obtained)
    && PaidOk(s.defs, s.obtained, s.paid)
    && NoticesOk(s.obtained, s.notices)
    && (forall snapshot :: snapshot in s.loaded ==> SnapshotOk(s.defs, snapshot))
    && (forall p :: p in s.plans ==> PlanOk(s.loaded, s.obtained, p))
  }

  // ----- sums over rows -----

  lemma {:induction false} TotalRemove(defs: map<DefId, Definition>, rows: set<Row>, x: Row)
    requires x in rows
    ensures Total(defs, rows) == Reward(defs, x) + Total(defs, rows - {x})
    decreases |rows|
  {
    var r :| r in rows && Total(defs, rows) == Reward(defs, r) + Total(defs, rows - {r});
    if r != x {
      TotalRemove(defs, rows - {r}, x);
      TotalRemove(defs, rows - {x}, r);
      assert rows - {r} - {x} == rows - {x} - {r};
    }
  }

  lemma {:induction false} TotalSame(defs: map<DefId, Definition>, later: map<DefId, Definition>, rows: set<Row>)
    requires forall r :: r in rows ==> Reward(defs, r) == Reward(later, r)
    ensures Total(defs, rows) == Total(later, rows)
    decreases |rows|
  {
    if rows != {} {
      var x :| x in rows;
      TotalRemove(defs, rows, x);
      TotalRemove(later, rows, x);
      TotalSame(defs, later, rows - {x});
    }
  }

  /** From one to ten tiers, each with a threshold above every earlier one. */
  predicate Sound(inputs: seq<TierInput>) {
    && 1 <= |inputs| <= 10
    && forall i, j :: 0 <= i < j < |inputs| ==> inputs[i].threshold < inputs[j].threshold
  }

  /** Comparing neighbours is enough. */
  lemma ValidMeansSound(inputs: seq<TierInput>)
    ensures ValidTiers(inputs) <==> Sound(inputs)
  {
    if ValidTiers(inputs) {
      var tiers := ToTiers(inputs);
      assert Terms(tiers) == inputs;
      forall i, j | 0 <= i < j < |inputs| ensures inputs[i].threshold < inputs[j].threshold {
        ThresholdsIncrease(tiers, i, j);
        assert tiers[i].threshold < tiers[j].threshold;
      }
    }
    if Sound(inputs) {
      forall i | 0 < i < |inputs| ensures IncreasesAt(inputs, i) {
      }
    }
  }

  /** The tiers are those asked for, from the n-th on, and nobody has obtained them yet. */
  predicate FreshFrom(tiers: seq<Tier>, inputs: seq<TierInput>, n: nat) {
    && |tiers| == |inputs|
    && forall i :: n <= i < |tiers| ==>
         && tiers[i].threshold == inputs[i].threshold && tiers[i].expReward == inputs[i].expReward
         && tiers[i].obtainedCount == 0
  }

  lemma {:induction false} ThresholdsIncrease(tiers: seq<Tier>, i: nat, j: nat)
    requires ValidTiers(Terms(tiers)) && i < j < |tiers|
    ensures tiers[i].threshold < tiers[j].threshold
    decreases j
  {
    assert IncreasesAt(Terms(tiers), j);
    if i < j - 1 {
      ThresholdsIncrease(tiers, i, j - 1);
    }
  }

  // ----- what a worker plans -----

  /** The levels of the snapshot that the value reaches and the user does not hold. */
  predicate IsMissing(obtained: set<Row>, user: UserId, snapshot: Snapshot, value: int, level: int) {
    && 1 <= level <= |snapshot.tiers| && snapshot.tiers[level - 1].threshold <= value
    && Row(user, snapshot.def, level) !in obtained
  }

  /** Some plan of these levels, or nothing when there are none; no other plan appears or goes. */
  predicate Adds(before: set<Plan>, after: set<Plan>, p: Plan) {
    after == if p.levels == {} then before else before + {p}
  }

  /**
   What loading and planning add: a published definition is loaded as it is; a live evaluation plans the
   levels reached and not held, backfill all levels reached, a manual grant the first level. No table moves.
   */
  lemma PlansMean(s: State, user: UserId, snapshot: Snapshot, value: int)
    requires snapshot in s.loaded
    ensures exists levels :: && Adds(s.plans, Apply(s, PlanLive(user, snapshot, value)).plans,
                                     Plan(user, snapshot, levels, Live))
                             && forall l :: l in levels <==> IsMissing(s.obtained, user, snapshot, value, l)
    ensures exists levels :: && Adds(s.plans, Apply(s, PlanBackfill(user, snapshot, value)).plans,
                                     Plan(user, snapshot, levels, Backfill))
                             && forall l :: l in levels <==> IsMissing({}, user, snapshot, value, l)
    ensures Apply(s, PlanManual(user, snapshot)).plans == s.plans + {Plan(user, snapshot, {1}, Manual)}
  {
    var reached := ReachedLevels(snapshot.tiers, value);
    var missing := reached - LevelsOf(s.obtained, user, snapshot.def);
    forall l ensures l in missing <==> IsMissing(s.obtained, user, snapshot, value, l) {
      if l in reached && Row(user, snapshot.def, l) in s.obtained {
        assert l in LevelsOf(s.obtained, user, snapshot.def);
      }
    }
    assert Adds(s.plans, Apply(s, PlanLive(user, snapshot, value)).plans, Plan(user, snapshot, missing, Live));
    assert Adds(s.plans, Apply(s, PlanBackfill(user, snapshot, value)).plans, Plan(user, snapshot, reached, Backfill));
  }

  lemma LoadedAsPublished(s: State, d: DefId)
    ensures var s' := Apply(s, Load(d));
      && s' == s.(loaded := s'.loaded)
      && forall x :: x in s'.loaded <==>
           || x in s.loaded
           || (d in s.defs && s.defs[d].status == Published && x == Snapshot(d, s.defs[d].tiers))
  {
  }

  // ----- one grant -----

  /** The same definitions, up to their counters. */
  ghost predicate SameShape(defs: map<DefId, Definition>, later: map<DefId, Definition>) {
    && defs.Keys == later.Keys
    && forall d :: d in defs ==>
         && defs[d].status == later[d].status && defs[d].rule == later[d].rule
         && |defs[d].tiers| == |later[d].tiers| && SameTerms(defs[d].tiers, later[d].tiers)
  }

  /** The rows a plan asks for, up to level n. */
  function Planned(p: Plan, n: int): set<Row> {
    set l | l in p.levels && 1 <= l <= n :: Row(p.user, p.snapshot.def, l)
  }

  ghost predicate IsHighestNew(obtained: set<Row>, p: Plan, n: int, highest: int) {
    && 1 <= highest <= n && highest in p.levels && Row(p.user, p.snapshot.def, highest) !in obtained
    && forall l :: l in p.levels && highest < l <= n ==> Row(p.user, p.snapshot.def, l) in obtained
  }

  lemma CountUpKeepsCounts(defs: map<DefId, Definition>, obtained: set<Row>, row: Row)
    requires CountsOk(defs, obtained) && row !in obtained
    requires row.def in defs && 1 <= row.level <= |defs[row.def].tiers|
    ensures CountsOk(CountUp(defs, row.def, row.level), obtained + {row})
    ensures SameShape(defs, CountUp(defs, row.def, row.level))
  {
    CountUpKeepsShape(defs, row.def, row.level);
    var later := CountUp(defs, row.def, row.level);
    forall d, i | d in later && 0 <= i < |later[d].tiers|
      ensures later[d].tiers[i].obtainedCount == |Holders(obtained + {row}, d, i + 1)|
    {
      HoldersOfInsert(obtained, row, d, i + 1);
      CountUpAt(defs, row.def, row.level, d, i);
    }
  }

  lemma HoldersOfInsert(obtained: set<Row>, row: Row, d: DefId, level: int)
    requires row !in obtained
    ensures |Holders(obtained + {row}, d, level)|
         == |Holders(obtained, d, level)| + (if d == row.def && level == row.level then 1 else 0)
  {
    var before := Holders(obtained, d, level);
    assert Holders(obtained + {row}, d, level) == before + (if d == row.def && level == row.level then {row} else {});
  }

  lemma CountUpAt(defs: map<DefId, Definition>, d: DefId, level: int, e: DefId, i: int)
    requires d in defs && 1 <= level <= |defs[d].tiers| && e in defs && 0 <= i < |defs[e].tiers|
    ensures var later := CountUp(defs, d, level);
      && e in later && i < |later[e].tiers|
      && later[e].tiers[i].obtainedCount == defs[e].tiers[i].obtainedCount + (if e == d && i + 1 == level then 1 else 0)
  {
  }

  lemma CountUpKeepsShape(defs: map<DefId, Definition>, d: DefId, level: int)
    ensures SameShape(defs, CountUp(defs, d, level))
  {
  }

  lemma PlannedOneMore(p: Plan, n: int)
    requires n >= 1
    ensures Planned(p, n) == Planned(p, n - 1) + (if n in p.levels then {Row(p.user, p.snapshot.def, n)} else {})
  {
  }

  lemma TotalOneMore(defs: map<DefId, Definition>, obtained: set<Row>, row: Row)
    requires row !in obtained
    ensures Total(defs, Mine(obtained + {row}, row.user)) == Total(defs, Mine(obtained, row.user)) + Reward(defs, row)
  {
    var mine := Mine(obtained + {row}, row.user);
    TotalRemove(defs, mine, row);
    assert mine - {row} == Mine(obtained, row.user);
  }

  /** Which rows the insertion loop of grantTiers leaves, and the highest level it inserted. */
  lemma {:induction false} AwardedRows(defs: map<DefId, Definition>, obtained: set<Row>, p: Plan, n: nat)
    requires n <= |p.snapshot.tiers|
    ensures var a := AwardUpTo(defs, obtained, p, n);
      && a.obtained == obtained + Planned(p, n)
      && (a.highest == 0 ==> a == Award(defs, obtained, 0, 0))
      && (a.highest != 0 ==> IsHighestNew(obtained, p, n, a.highest))
  {
    if n > 0 {
      AwardedRows(defs, obtained, p, n - 1);
      PlannedOneMore(p, n);
    } else {
      assert Planned(p, 0) == {};
    }
  }

  /** One more insertion: the counter of its tier and the sum of rewards move together. */
  lemma InsertionOutcome(defs: map<DefId, Definition>, a: Award, p: Plan, n: nat)
    requires SnapshotOk(defs, p.snapshot) && 1 <= n <= |p.snapshot.tiers| && SameShape(defs, a.defs)
        && CountsOk(a.defs, a.obtained)
    requires Row(p.user, p.snapshot.def, n) !in a.obtained
    ensures var d, row := p.snapshot.def, Row(p.user, p.snapshot.def, n);
      && SameShape(defs, CountUp(a.defs, d, n)) && CountsOk(CountUp(a.defs, d, n), a.obtained + {row})
      && Total(defs, Mine(a.obtained + {row}, p.user)) == Total(defs, Mine(a.obtained, p.user))
           + p.snapshot.tiers[n - 1].expReward
  {
    var row := Row(p.user, p.snapshot.def, n);
    CountUpKeepsCounts(a.defs, a.obtained, row);
    ShapeIsTransitive(defs, a.defs, CountUp(a.defs, row.def, n));
    TotalOneMore(defs, a.obtained, row);
  }

  lemma ShapeIsTransitive(a: map<DefId, Definition>, b: map<DefId, Definition>, c: map<DefId, Definition>)
    requires SameShape(a, b) && SameShape(b, c)
    ensures SameShape(a, c)
  {
  }

  /** What it does to the counters and to the exp, level by level. */
  lemma {:induction false} AwardOutcome(defs: map<DefId, Definition>, obtained: set<Row>, p: Plan, n: nat)
    requires CountsOk(defs, obtained) && SnapshotOk(defs, p.snapshot) && n <= |p.snapshot.tiers|
    ensures var a := AwardUpTo(defs, obtained, p, n);
      && SameShape(defs, a.defs) && CountsOk(a.defs, a.obtained)
      && Total(defs, Mine(a.obtained, p.user)) == Total(defs, Mine(obtained, p.user)) + a.exp && a.exp >= 0
  {
    if n > 0 {
      AwardOutcome(defs, obtained, p, n - 1);
      var a := AwardUpTo(defs, obtained, p, n - 1);
      var row := Row(p.user, p.snapshot.def, n);
      if n in p.levels && row !in a.obtained { InsertionOutcome(defs, a, p, n); }
    }
  }

  /** The finished award, in terms of the planned rows that were missing. */
  lemma AwardIsMissing(defs: map<DefId, Definition>, obtained: set<Row>, p: Plan, missing: set<Row>)
    requires CountsOk(defs, obtained) && SnapshotOk(defs, p.snapshot)
    requires missing == Planned(p, |p.snapshot.tiers|) - obtained
    ensures var a := AwardUpTo(defs, obtained, p, |p.snapshot.tiers|);
      && SameShape(defs, a.defs) && CountsOk(a.defs, a.obtained)
      && a.obtained == obtained + missing && a.exp == Total(defs, missing) && a.exp >= 0
      && (a.highest == 0 <==> missing == {})
      && (a.highest == 0 ==> a == Award(defs, obtained, 0, 0))
      && (a.highest != 0 ==>
            Row(p.user, p.snapshot.def, a.highest) in missing && forall r :: r in missing ==> r.level <= a.highest)
  {
    var n := |p.snapshot.tiers|;
    AwardOutcome(defs, obtained, p, n);
    AwardedRows(defs, obtained, p, n);
    MissingIsPlanned(obtained, p, missing);
    MissingTotal(defs, obtained, p, missing);
    var a := AwardUpTo(defs, obtained, p, n);
    if a.highest != 0 { HighestIsMissing(obtained, p, missing, a.highest); }
  }

  lemma MissingIsPlanned(obtained: set<Row>, p: Plan, missing: set<Row>)
    requires missing == Planned(p, |p.snapshot.tiers|) - obtained
    ensures obtained + Planned(p, |p.snapshot.tiers|) == obtained + missing
    ensures obtained + missing == obtained ==> missing == {}
  {
  }

  lemma MissingTotal(defs: map<DefId, Definition>, obtained: set<Row>, p: Plan, missing: set<Row>)
    requires missing == Planned(p, |p.snapshot.tiers|) - obtained
    ensures Total(defs, Mine(obtained + missing, p.user)) == Total(defs, Mine(obtained, p.user)) + Total(defs, missing)
  {
    TotalSplit(defs, Mine(obtained, p.user), missing);
    assert Mine(obtained + missing, p.user) == Mine(obtained, p.user) + missing;
  }

  lemma HighestIsMissing(obtained: set<Row>, p: Plan, missing: set<Row>, highest: int)
    requires missing == Planned(p, |p.snapshot.tiers|) - obtained
    requires IsHighestNew(obtained, p, |p.snapshot.tiers|, highest)
    ensures Row(p.user, p.snapshot.def, highest) in missing && forall r :: r in missing ==> r.level <= highest
  {
  }

  /** The grant inserts exactly the missing planned rows and pays exactly their rewards. */
  lemma GrantOutcome(s: State, p: Plan)
    requires Ledger(s) && p in s.plans
    ensures var missing := Planned(p, |p.snapshot.tiers|) - s.obtained;
      match GrantTiers(s, p)
      case Err(e) => e == AlreadyObtained && p.mode == Manual && missing == {}
      case Ok(t) =>
        && t.obtained == s.obtained + missing && SameShape(s.defs, t.defs) && CountsOk(t.defs, t.obtained)
        && t.loaded == s.loaded && t.plans == s.plans
        && (forall u :: PaidTo(t.paid, u) == PaidTo(s.paid, u) + (if u == p.user then Total(s.defs, missing) else 0))
        && (Total(s.defs, missing) == 0 ==> t.paid == s.paid)
        && (missing == {} ==> t == s && p.mode != Manual)
        && (p.mode == Backfill || missing == {} ==> t.notices == s.notices)
  {
    AwardIsMissing(s.defs, s.obtained, p, Planned(p, |p.snapshot.tiers|) - s.obtained);
  }

  /** A live or manual grant of something new leaves one notice, for the highest new level only. */
  lemma GrantAnnouncesHighest(s: State, p: Plan)
    requires Ledger(s) && p in s.plans && p.mode != Backfill
    requires Planned(p, |p.snapshot.tiers|) - s.obtained != {}
    ensures GrantTiers(s, p).Ok?
    ensures exists top :: Announces(s.notices, GrantTiers(s, p).value.notices,
        Planned(p, |p.snapshot.tiers|) - s.obtained, top)
  {
    var missing := Planned(p, |p.snapshot.tiers|) - s.obtained;
    AwardIsMissing(s.defs, s.obtained, p, missing);
    var a := AwardUpTo(s.defs, s.obtained, p, |p.snapshot.tiers|);
    assert Announces(s.notices, GrantTiers(s, p).value.notices, missing, Row(p.user, p.snapshot.def, a.highest));
  }

  /** One notice, for the highest of the new rows. */
  predicate Announces(before: seq<Row>, after: seq<Row>, missing: set<Row>, top: Row) {
    after == before + [top] && top in missing && forall r :: r in missing ==> r.level <= top.level
  }

  lemma {:induction false} TotalSplit(defs: map<DefId, Definition>, rows: set<Row>, more: set<Row>)
    requires rows !! more
    ensures Total(defs, rows + more) == Total(defs, rows) + Total(defs, more)
    decreases |more|
  {
    if more == {} {
      assert rows + more == rows;
    } else {
      var x :| x in more;
      TotalRemove(defs, more, x);
      TotalRemove(defs, rows + more, x);
      assert rows + more - {x} == rows + (more - {x});
      TotalSplit(defs, rows, more - {x});
    }
  }

  // ----- every step keeps the ledger -----

  /** What an edit may do to definitions that left the draft state: archive them and append tiers. */
  ghost predicate Extends(defs: map<DefId, Definition>, later: map<DefId, Definition>) {
    forall d :: d in defs && defs[d].status != Draft ==>
      && d in later && later[d].status != Draft && later[d].rule == defs[d].rule
      && |defs[d].tiers| <= |later[d].tiers|
      && later[d].tiers[..|defs[d].tiers|] == defs[d].tiers
  }

  lemma EditExtends(defs: map<DefId, Definition>, edit: Edit)
    requires CatalogueOk(defs) && EditCatalogue(defs, edit).Ok?
    ensures var later := EditCatalogue(defs, edit).value;
      && CatalogueOk(later) && Extends(defs, later)
      && (forall d, i :: d in later && 0 <= i < |later[d].tiers| ==>
            || (d in defs && i < |defs[d].tiers| && later[d].tiers[i] == defs[d].tiers[i])
            || (later[d].tiers[i].obtainedCount == 0 && !(d in defs && defs[d].status != Draft && i < |defs[d].tiers|)))
  {
    match edit
    case Create(id, rule, inputs) => assert Terms(ToTiers(inputs)) == inputs;
    case Update(id, newRule, newInputs) =>
      UpdateAppends(defs[id], newRule, newInputs);
      PutExtends(defs, id, UpdateDefinition(defs[id], newRule, newInputs).value);
    case _ =>
  }

  lemma PutExtends(defs: map<DefId, Definition>, id: DefId, later: Definition)
    requires CatalogueOk(defs) && id in defs && ValidTiers(Terms(later.tiers)) && later.status == defs[id].status
    requires later.status != Draft ==> later.rule == defs[id].rule && defs[id].tiers <= later.tiers
    requires forall i :: 0 <= i < |later.tiers| ==>
               || (i < |defs[id].tiers| && later.tiers[i] == defs[id].tiers[i])
               || (later.tiers[i].obtainedCount == 0 && !(later.status != Draft && i < |defs[id].tiers|))
    ensures CatalogueOk(defs[id := later]) && Extends(defs, defs[id := later])
  {
  }

  lemma DroppingChanges(tiers: seq<Tier>, inputs: seq<TierInput>)
    ensures |inputs| < |tiers| ==> ChangesExistingTier(tiers, inputs)
  {
    if |inputs| < |tiers| { var dropped := tiers[|inputs|]; }
  }

  /** The request repeats every tier there is, in its place. */
  predicate Repeats(inputs: seq<TierInput>, tiers: seq<Tier>) {
    && |tiers| <= |inputs|
    && forall i :: 0 <= i < |tiers| ==>
         inputs[i].threshold == tiers[i].threshold && inputs[i].expReward == tiers[i].expReward
  }

  /**
   Which updates are accepted, and what they leave: a draft takes what is asked, a published definition
   only takes more tiers, an archived one nothing. What is not asked for stays.
   */
  lemma UpdateExactly(saved: Definition, newRule: Option<int>, newInputs: Option<seq<TierInput>>)
    ensures var updated := UpdateDefinition(saved, newRule, newInputs);
      && (updated.Ok? <==>
            && saved.status != Archived && Sound(if newInputs.Some? then newInputs.value else Terms(saved.tiers))
            && (saved.status == Published ==> OnlyAppends(saved, newRule, newInputs)))
      && (updated.Err? ==> updated.error == BadRequest)
      && (updated.Ok? ==> AsAsked(saved, newRule, newInputs, updated.value))
  {
    ValidMeansSound(if newInputs.Some? then newInputs.value else Terms(saved.tiers));
    if newInputs.Some? {
      RepeatsMeansNoChange(saved.tiers, newInputs.value);
    } else {
      assert !ChangesExistingTier(saved.tiers, Terms(saved.tiers));
    }
    if UpdateDefinition(saved, newRule, newInputs).Ok? { UpdateLeaves(saved, newRule, newInputs); }
  }

  /** The rule stays, and the tiers asked for, if any, begin with those there are. */
  predicate OnlyAppends(saved: Definition, newRule: Option<int>, newInputs: Option<seq<TierInput>>) {
    && (newRule == None || newRule == Some(saved.rule))
    && (newInputs.Some? ==> Repeats(newInputs.value, saved.tiers))
  }

  lemma UpdateLeaves(saved: Definition, newRule: Option<int>, newInputs: Option<seq<TierInput>>)
    requires UpdateDefinition(saved, newRule, newInputs).Ok?
    ensures AsAsked(saved, newRule, newInputs, UpdateDefinition(saved, newRule, newInputs).value)
  {
    if newInputs.Some? {
      if saved.status == Published {
        RepeatsMeansNoChange(saved.tiers, newInputs.value);
        AppendedAreFresh(saved.tiers, newInputs.value);
      } else {
        FreshTiers(newInputs.value);
      }
    }
  }

  lemma FreshTiers(inputs: seq<TierInput>)
    ensures FreshFrom(ToTiers(inputs), inputs, 0)
  {
  }

  lemma AppendedAreFresh(tiers: seq<Tier>, inputs: seq<TierInput>)
    requires |tiers| <= |inputs|
    ensures var later := tiers + ToTiers(inputs)[|tiers|..];
      FreshFrom(later, inputs, |tiers|) && forall i :: 0 <= i < |tiers| ==> later[i] == tiers[i]
  {
    FreshTiers(inputs);
  }

  lemma RepeatsMeansNoChange(tiers: seq<Tier>, inputs: seq<TierInput>)
    ensures ChangesExistingTier(tiers, inputs) <==> !Repeats(inputs, tiers)
  {
    if !ChangesExistingTier(tiers, inputs) { DroppingChanges(tiers, inputs); }
  }

  /** The definition after an accepted update. */
  predicate AsAsked(saved: Definition, newRule: Option<int>, newInputs: Option<seq<TierInput>>, later: Definition) {
    && later.status == saved.status && later.rule == (if newRule.Some? then newRule.value else saved.rule)
    && if newInputs.None? then later.tiers == saved.tiers
       else
         var kept := if saved.status == Published then |saved.tiers| else 0;
         && FreshFrom(later.tiers, newInputs.value, kept) && kept <= |later.tiers|
         && forall i :: 0 <= i < kept ==> later.tiers[i] == saved.tiers[i]
  }

  /** A published definition keeps its rule and its tiers, counters included; new tiers start at zero. */
  lemma UpdateAppends(saved: Definition, newRule: Option<int>, newInputs: Option<seq<TierInput>>)
    requires UpdateDefinition(saved, newRule, newInputs).Ok?
    ensures var later := UpdateDefinition(saved, newRule, newInputs).value;
      && saved.status != Archived && later.status == saved.status
      && Terms(later.tiers) == (if newInputs.Some? then newInputs.value else Terms(saved.tiers))
      && ValidTiers(Terms(later.tiers))
      && (saved.status == Published || newInputs.None? ==>
            |saved.tiers| <= |later.tiers| && later.tiers[..|saved.tiers|] == saved.tiers
            && forall i :: |saved.tiers| <= i < |later.tiers| ==> later.tiers[i].obtainedCount == 0)
      && (saved.status == Published ==> later.rule == saved.rule)
      && (saved.status == Draft && newInputs.Some? ==> later.tiers == ToTiers(newInputs.value))
  {
    var later := UpdateDefinition(saved, newRule, newInputs).value;
    if newInputs.Some? {
      var inputs := newInputs.value;
      assert Terms(ToTiers(inputs)) == inputs;
      if saved.status == Published {
        var n := |saved.tiers|;
        assert !ChangesExistingTier(saved.tiers, inputs);
        DroppingChanges(saved.tiers, inputs);
        forall i | 0 <= i < |inputs| ensures Terms(later.tiers)[i] == inputs[i] {
          if i < n { assert inputs[i] == TierInput(saved.tiers[i].threshold, saved.tiers[i].expReward); }
        }
        assert Terms(later.tiers) == inputs;
      }
    }
  }

  lemma EditKeepsLedger(s: State, edit: Edit)
    requires Ledger(s)
    ensures Ledger(Apply(s, Admin(edit)))
  {
    var edited := EditCatalogue(s.defs, edit);
    if edited.Ok? {
      var later := edited.value;
      EditExtends(s.defs, edit);
      forall d, i | d in later && 0 <= i < |later[d].tiers|
        ensures later[d].tiers[i].obtainedCount == |Holders(s.obtained, d, i + 1)|
      {
        if !(d in s.defs && s.defs[d].status != Draft && i < |s.defs[d].tiers|) {
          assert Holders(s.obtained, d, i + 1) == {};
        }
      }
      forall u ensures PaidTo(s.paid, u) == Total(later, Mine(s.obtained, u)) {
        forall r | r in Mine(s.obtained, u) ensures Reward(s.defs, r) == Reward(later, r) {
          assert later[r.def].tiers[..|s.defs[r.def].tiers|][r.level - 1] == s.defs[r.def].tiers[r.level - 1];
        }
        TotalSame(s.defs, later, Mine(s.obtained, u));
      }
      forall snapshot | SnapshotOk(s.defs, snapshot) ensures SnapshotOk(later, snapshot) {
        var tiers := s.defs[snapshot.def].tiers;
        assert forall i :: 0 <= i < |tiers| ==> later[snapshot.def].tiers[..|tiers|][i] == tiers[i];
      }
    }
  }

  /** Plans close over what is below them, even when the obtained rows they consult were read earlier. */
  lemma PlanClosed(s: State, seen: set<Row>, user: UserId, snapshot: Snapshot, value: int)
    requires Ledger(s) && snapshot in s.loaded && seen <= s.obtained
    ensures PlanOk(s.loaded, s.obtained,
                   Plan(user, snapshot,
                        ReachedLevels(snapshot.tiers, value) - LevelsOf(seen, user, snapshot.def), Live))
    ensures PlanOk(s.loaded, s.obtained, Plan(user, snapshot, ReachedLevels(snapshot.tiers, value), Backfill))
    ensures PlanOk(s.loaded, s.obtained, Plan(user, snapshot, {1}, Manual))
  {
    var reached := ReachedLevels(snapshot.tiers, value);
    forall l, j | l in reached && IsLower(j, l)
      ensures j in reached && (j in LevelsOf(seen, user, snapshot.def) ==> Row(user, snapshot.def, j) in s.obtained)
    {
      ThresholdsIncrease(snapshot.tiers, j - 1, l - 1);
      assert Reaches(snapshot.tiers, value, j);
    }
  }

  lemma GrantKeepsRows(defs: map<DefId, Definition>, loaded: set<Snapshot>, obtained: set<Row>, p: Plan)
    requires RowsOk(defs, obtained) && PlanOk(loaded, obtained, p) && SnapshotOk(defs, p.snapshot)
    ensures RowsOk(defs, obtained + Planned(p, |p.snapshot.tiers|))
  {
    var n := |p.snapshot.tiers|;
    forall r, q | r in Planned(p, n) && IsBelow(q, r) ensures q in obtained + Planned(p, n) {
      assert IsLower(q.level, r.level) && q == Row(p.user, p.snapshot.def, q.level);
      if q.level in p.levels { assert q in Planned(p, n); }
    }
  }

  lemma PaymentMatches(defs: map<DefId, Definition>, later: map<DefId, Definition>, obtained: set<Row>,
                       missing: set<Row>, u: UserId)
    requires SameShape(defs, later) && missing !! obtained
    ensures (forall r :: r in missing ==> r.user == u)
            ==> Total(later, Mine(obtained + missing, u)) == Total(defs, Mine(obtained, u)) + Total(defs, missing)
    ensures (forall r :: r in missing ==> r.user != u)
            ==> Total(later, Mine(obtained + missing, u)) == Total(defs, Mine(obtained, u))
  {
    var mine := Mine(obtained + missing, u);
    TotalSame(defs, later, mine);
    if forall r :: r in missing ==> r.user == u {
      assert mine == Mine(obtained, u) + missing;
      TotalSplit(defs, Mine(obtained, u), missing);
    }
    if forall r :: r in missing ==> r.user != u {
      assert mine == Mine(obtained, u);
    }
  }

  lemma ShapeKeeps(defs: map<DefId, Definition>, later: map<DefId, Definition>, obtained: set<Row>, more: set<Row>,
                   plans: set<Plan>, loaded: set<Snapshot>)
    requires SameShape(defs, later)
    ensures CatalogueOk(defs) ==> CatalogueOk(later)
    ensures RowsOk(defs, obtained + more) ==> RowsOk(later, obtained + more)
    ensures (forall p :: p in plans ==> PlanOk(loaded, obtained, p)) ==>
            forall p :: p in plans ==> PlanOk(loaded, obtained + more, p)
    ensures (forall snapshot :: snapshot in loaded ==> SnapshotOk(defs, snapshot)) ==>
            forall snapshot :: snapshot in loaded ==> SnapshotOk(later, snapshot)
  {
    assert forall d :: d in defs ==> Terms(later[d].tiers) == Terms(defs[d].tiers);
  }

  lemma GrantKeepsPaid(s: State, p: Plan)
    requires Ledger(s) && p in s.plans && GrantTiers(s, p).Ok?
    ensures var t := GrantTiers(s, p).value; PaidOk(t.defs, t.obtained, t.paid)
  {
    var t := GrantTiers(s, p).value;
    var missing := Planned(p, |p.snapshot.tiers|) - s.obtained;
    GrantOutcome(s, p);
    forall u ensures PaidTo(t.paid, u) == Total(t.defs, Mine(t.obtained, u)) {
      PaymentMatches(s.defs, t.defs, s.obtained, missing, u);
    }
  }

  lemma GrantKeepsNotices(s: State, p: Plan)
    requires Ledger(s) && p in s.plans && GrantTiers(s, p).Ok?
    ensures var t := GrantTiers(s, p).value; NoticesOk(t.obtained, t.notices)
  {
    GrantOutcome(s, p);
    if p.mode != Backfill && Planned(p, |p.snapshot.tiers|) - s.obtained != {} { GrantAnnouncesHighest(s, p); }
  }

  lemma GrantKeepsLedger(s: State, p: Plan)
    requires Ledger(s) && p in s.plans && GrantTiers(s, p).Ok?
    ensures Ledger(GrantTiers(s, p).value)
  {
    var planned := Planned(p, |p.snapshot.tiers|);
    GrantOutcome(s, p);
    GrantKeepsPaid(s, p);
    GrantKeepsNotices(s, p);
    GrantKeepsRows(s.defs, s.loaded, s.obtained, p);
    assert s.obtained + (planned - s.obtained) == s.obtained + planned;
    ShapeKeeps(s.defs, GrantTiers(s, p).value.defs, s.obtained, planned, s.plans, s.loaded);
  }

  /** Every step, from any of the racing workers or the admin, keeps the ledger. */
  lemma StepKeepsLedger(s: State, step: Step)
    requires Ledger(s)
    ensures Ledger(Apply(s, step))
  {
    match step
    case Admin(edit) => EditKeepsLedger(s, edit);
    case Load(d) =>
    case PlanLive(user, snapshot, value) =>
      if snapshot in s.loaded { PlanClosed(s, s.obtained, user, snapshot, value); }
    case PlanBackfill(user, snapshot, value) =>
      if snapshot in s.loaded { PlanClosed(s, s.obtained, user, snapshot, value); }
    case PlanManual(user, snapshot) => if snapshot in s.loaded { PlanClosed(s, s.obtained, user, snapshot, 0); }
    case Grant(plan) => if plan in s.plans && GrantTiers(s, plan).Ok? { GrantKeepsLedger(s, plan); }
  }

  lemma {:induction false} RunKeepsLedger(s: State, steps: seq<Step>)
    requires Ledger(s)
    ensures Ledger(Run(s, steps))
    decreases |steps|
  {
    if steps != [] {
      StepKeepsLedger(s, steps[0]);
      RunKeepsLedger(Apply(s, steps[0]), steps[1..]);
    }
  }

  /** The ledger, in plain terms, in every state any interleaving can reach. */
  lemma LedgerHoldsAlways(steps: seq<Step>)
    ensures var s := Run(Initial(), steps);
      && (forall u, d :: IsPrefix(LevelsOf(s.obtained, u, d)))
      && (forall d, i :: d in s.defs && 0 <= i < |s.defs[d].tiers| ==>
            s.defs[d].tiers[i].obtainedCount == |Holders(s.obtained, d, i + 1)|)
      && (forall u :: PaidTo(s.paid, u) == Total(s.defs, Mine(s.obtained, u)))
      && (forall r :: r in s.obtained ==> r.def in s.defs && s.defs[r.def].status != Draft)
      && (forall i :: 0 <= i < |s.notices| ==> s.notices[i] in s.obtained)
      && (forall i, j :: 0 <= i < j < |s.notices| ==> s.notices[i] != s.notices[j])
  {
    assert Ledger(Initial());
    RunKeepsLedger(Initial(), steps);
    var s := Run(Initial(), steps);
    forall u, d ensures IsPrefix(LevelsOf(s.obtained, u, d)) {
      ObtainedArePrefix(s, u, d);
    }
  }

  predicate Within(l: int, k: int) {
    1 <= l <= k
  }

  function Upto(k: int): set<int> {
    set l | 1 <= l <= k && Within(l, k)
  }

  ghost predicate IsPrefix(levels: set<int>) {
    exists k: nat :: levels == Upto(k)
  }

  lemma ObtainedArePrefix(s: State, u: UserId, d: DefId)
    requires Ledger(s)
    ensures IsPrefix(LevelsOf(s.obtained, u, d))
  {
    var levels := LevelsOf(s.obtained, u, d);
    if levels == {} {
      assert levels == Upto(0);
    } else {
      var k := MaxOf(levels);
      forall l | 1 <= l <= k ensures l in levels {
        assert Row(u, d, k) in s.obtained;
        assert l < k ==> IsBelow(Row(u, d, l), Row(u, d, k));
        assert Row(u, d, l) in s.obtained;
      }
      assert levels == Upto(k);
    }
  }

  // ----- grants racing each other -----

  /** What the definitions, the obtained rows and the payments say; notices are not part of it. */
  ghost predicate SameLedger(s: State, t: State) {
    && s.obtained == t.obtained && s.defs == t.defs
    && forall u :: PaidTo(s.paid, u) == PaidTo(t.paid, u)
  }

  /** Under the ledger, counters and payments are determined by the obtained rows. */
  lemma RowsDecide(s: State, t: State)
    requires CountsOk(s.defs, s.obtained) && PaidOk(s.defs, s.obtained, s.paid)
    requires CountsOk(t.defs, t.obtained) && PaidOk(t.defs, t.obtained, t.paid)
    requires s.obtained == t.obtained && SameShape(s.defs, t.defs)
    ensures SameLedger(s, t)
  {
    forall d | d in s.defs ensures s.defs[d] == t.defs[d] {
      assert forall i :: 0 <= i < |s.defs[d].tiers| ==> s.defs[d].tiers[i] == t.defs[d].tiers[i];
      assert s.defs[d].tiers == t.defs[d].tiers;
    }
    assert s.defs == t.defs;
  }

  /** Delivering a grant again changes nothing; a manual repeat is refused. */
  lemma GrantIsIdempotent(s: State, p: Plan)
    requires Ledger(s)
    ensures Apply(Apply(s, Grant(p)), Grant(p)) == Apply(s, Grant(p))
  {
    if p in s.plans {
      var t := Apply(s, Grant(p));
      GrantOutcome(s, p);
      StepKeepsLedger(s, Grant(p));
      assert Planned(p, |p.snapshot.tiers|) - t.obtained == {};
      GrantOutcome(t, p);
    }
  }

  /** What a grant step adds, when it is pending. */
  function Additions(s: State, p: Plan): set<Row> {
    if p in s.plans then Planned(p, |p.snapshot.tiers|) else {}
  }

  lemma GrantAdds(s: State, p: Plan)
    requires Ledger(s)
    ensures var t := Apply(s, Grant(p));
      SameShape(s.defs, t.defs) && t.plans == s.plans && t.obtained == s.obtained + Additions(s, p)
  {
    if p in s.plans {
      var planned := Planned(p, |p.snapshot.tiers|);
      GrantOutcome(s, p);
      assert s.obtained + (planned - s.obtained) == s.obtained + planned;
    }
  }

  lemma GrantFacts(s: State, p: Plan)
    requires Ledger(s) && p in s.plans
    ensures var t := Apply(s, Grant(p));
      && Ledger(t) && t.obtained == s.obtained + Planned(p, |p.snapshot.tiers|) && SameShape(s.defs, t.defs)
      && (p.mode == Backfill ==> t.notices == s.notices)
    ensures p.mode != Manual ==> GrantTiers(s, p).Ok?
  {
    GrantAdds(s, p);
    StepKeepsLedger(s, Grant(p));
    GrantOutcome(s, p);
  }

  lemma GrantsAdd(s: State, p: Plan, q: Plan)
    requires Ledger(s)
    ensures var t := Apply(Apply(s, Grant(p)), Grant(q));
      && CountsOk(t.defs, t.obtained) && PaidOk(t.defs, t.obtained, t.paid) && SameShape(s.defs, t.defs)
      && t.obtained == s.obtained + (Additions(s, p) + Additions(s, q))
  {
    GrantAdds(s, p);
    StepKeepsLedger(s, Grant(p));
    var mid := Apply(s, Grant(p));
    GrantAdds(mid, q);
    StepKeepsLedger(mid, Grant(q));
    assert Additions(mid, q) == Additions(s, q);
  }

  /** Two pending grants, from whatever paths and snapshots, leave the same ledger in either order. */
  lemma RacingGrantsAgree(s: State, p: Plan, q: Plan)
    requires Ledger(s)
    ensures SameLedger(Apply(Apply(s, Grant(p)), Grant(q)), Apply(Apply(s, Grant(q)), Grant(p)))
  {
    GrantsAdd(s, p, q);
    GrantsAdd(s, q, p);
    assert Additions(s, p) + Additions(s, q) == Additions(s, q) + Additions(s, p);
    RowsDecide(Apply(Apply(s, Grant(p)), Grant(q)), Apply(Apply(s, Grant(q)), Grant(p)));
  }

  /**
   A live evaluation that runs to its grant leaves the user with every loaded tier the value
   reaches, whatever other workers did between reading the obtained rows and granting.
   */
  lemma LiveGrantReaches(s: State, u: UserId, snapshot: Snapshot, value: int, between: seq<Step>, level: int)
    requires Ledger(s) && snapshot in s.loaded && Reaches(snapshot.tiers, value, level)
    ensures var levels := ReachedLevels(snapshot.tiers, value) - LevelsOf(s.obtained, u, snapshot.def);
      var t := Run(Apply(s, PlanLive(u, snapshot, value)), between);
      Row(u, snapshot.def, level) in Apply(t, Grant(Plan(u, snapshot, levels, Live))).obtained
  {
    var levels := ReachedLevels(snapshot.tiers, value) - LevelsOf(s.obtained, u, snapshot.def);
    var planned := Apply(s, PlanLive(u, snapshot, value));
    StepKeepsLedger(s, PlanLive(u, snapshot, value));
    RunOnlyAdds(planned, between);
    assert s.obtained == planned.obtained;
    assert level in levels || Row(u, snapshot.def, level) in s.obtained;
    assert level in levels ==> Plan(u, snapshot, levels, Live) in planned.plans;
    GrantedRow(planned, between, Plan(u, snapshot, levels, Live), level);
  }

  lemma GrantedRow(s: State, steps: seq<Step>, p: Plan, level: int)
    requires Ledger(s) && 1 <= level <= |p.snapshot.tiers|
    requires Row(p.user, p.snapshot.def, level) in s.obtained || (level in p.levels && p in s.plans)
    ensures Row(p.user, p.snapshot.def, level) in Apply(Run(s, steps), Grant(p)).obtained
  {
    RunKeepsLedger(s, steps);
    RunOnlyAdds(s, steps);
    GrantAdds(Run(s, steps), p);
    if level in p.levels {
      assert Row(p.user, p.snapshot.def, level) in Planned(p, |p.snapshot.tiers|);
    }
  }

  /** Over any run nothing obtained, planned or loaded is lost and nobody's payments shrink. */
  lemma {:induction false} RunOnlyAdds(s: State, steps: seq<Step>)
    requires Ledger(s)
    ensures var t := Run(s, steps);
      && s.obtained <= t.obtained && s.plans <= t.plans && s.loaded <= t.loaded
      && forall u :: PaidTo(s.paid, u) <= PaidTo(t.paid, u)
    decreases |steps|
  {
    if steps != [] {
      var next := Apply(s, steps[0]);
      StepKeepsLedger(s, steps[0]);
      StepOnlyAdds(s, steps[0]);
      RunOnlyAdds(next, steps[1..]);
    }
  }

  lemma StepOnlyAdds(s: State, step: Step)
    requires Ledger(s)
    ensures var t := Apply(s, step);
      && s.obtained <= t.obtained && s.plans <= t.plans && s.loaded <= t.loaded
      && forall u :: PaidTo(s.paid, u) <= PaidTo(t.paid, u)
  {
    if step.Grant? && step.plan in s.plans {
      var p := step.plan;
      GrantOutcome(s, p);
      TotalNonNegative(s.defs, Planned(p, |p.snapshot.tiers|) - s.obtained);
    }
  }

  lemma {:induction false} TotalNonNegative(defs: map<DefId, Definition>, rows: set<Row>)
    ensures Total(defs, rows) >= 0
    decreases |rows|
  {
    if rows != {} {
      var x :| x in rows;
      TotalRemove(defs, rows, x);
      TotalNonNegative(defs, rows - {x});
    }
  }

  /**
   Tier rows are deleted and inserted afresh only for drafts. The guard matters: replacing the tiers
   of a definition keeps the counters right exactly when nobody holds one of its tiers.
   */
  lemma ReplacementIsSafe(s: State, d: DefId, inputs: seq<TierInput>)
    requires Ledger(s) && d in s.defs && ValidTiers(inputs)
    ensures (var replaced := s.defs[d := s.defs[d].(tiers := ToTiers(inputs))];
             RowsOk(replaced, s.obtained) && CountsOk(replaced, s.obtained))
            <==> forall r :: r in s.obtained ==> r.def != d
  {
    var replaced := s.defs[d := s.defs[d].(tiers := ToTiers(inputs))];
    if r :| r in s.obtained && r.def == d {
      if r.level <= |inputs| {
        assert r in Holders(s.obtained, d, r.level);
        assert replaced[d].tiers[r.level - 1].obtainedCount == 0;
      }
    } else {
      forall l | 1 <= l <= |inputs| ensures |Holders(s.obtained, d, l)| == 0 {
        assert Holders(s.obtained, d, l) == {};
      }
    }
  }

  // ----- the services -----

  /** The rows a value reaches in a loaded definition. */
  function ReachedRows(user: UserId, snapshot: Snapshot, value: int): set<Row> {
    Planned(Plan(user, snapshot, ReachedLevels(snapshot.tiers, value), Live), |snapshot.tiers|)
  }

  /** The obtained rows with everything the user reaches in the first n definitions. */
  function WithReached(obtained: set<Row>, user: UserId, snapshots: seq<Snapshot>, values: seq<int>, n: nat): set<Row>
    requires n <= |snapshots| && |values| == |snapshots|
  {
    if n == 0 then obtained
    else WithReached(obtained, user, snapshots, values, n - 1) + ReachedRows(user, snapshots[n - 1], values[n - 1])
  }

  /** Nothing but what was there and what is reached, and all of it. */
  lemma {:induction false} WithReachedMeaning(obtained: set<Row>, user: UserId, snapshots: seq<Snapshot>,
                                              values: seq<int>, n: nat, r: Row)
    requires n <= |snapshots| && |values| == |snapshots|
    ensures r in WithReached(obtained, user, snapshots, values, n) <==>
      || r in obtained
      || exists i :: 0 <= i < n && r.user == user && r.def == snapshots[i].def
           && Reaches(snapshots[i].tiers, values[i], r.level)
    decreases n
  {
    if n > 0 {
      WithReachedMeaning(obtained, user, snapshots, values, n - 1, r);
      ReachedRow(user, snapshots[n - 1], values[n - 1], r);
    }
  }

  lemma ReachedRow(user: UserId, snapshot: Snapshot, value: int, r: Row)
    ensures r in ReachedRows(user, snapshot, value) <==>
            r.user == user && r.def == snapshot.def && Reaches(snapshot.tiers, value, r.level)
  {
    assert Reaches(snapshot.tiers, value, r.level) ==> r.level in ReachedLevels(snapshot.tiers, value);
  }

  /** A user the metric proposes, with their value. */
  datatype Candidate = Candidate(user: UserId, value: int)

  /** ORDER BY userId. */
  predicate Ascending(candidates: seq<Candidate>) {
    forall i, j :: 0 <= i < j < |candidates| ==> candidates[i].user < candidates[j].user
  }

  /** WHERE userId > after. */
  predicate IsAfter(c: Candidate, after: Option<UserId>) {
    after.None? || c.user > after.value
  }

  /** How many candidates the cursor has passed. */
  function Passed(candidates: seq<Candidate>, after: Option<UserId>): (p: nat)
    ensures p <= |candidates|
  {
    if candidates == [] || IsAfter(candidates[0], after) then 0 else 1 + Passed(candidates[1..], after)
  }

  lemma {:induction false} PassedAll(candidates: seq<Candidate>, n: nat)
    requires Ascending(candidates) && 0 < n <= |candidates|
    ensures Passed(candidates, Some(candidates[n - 1].user)) == n
  {
    var rest := candidates[1..];
    if n > 1 {
      assert candidates[0].user < candidates[n - 1].user && rest[n - 2] == candidates[n - 1];
      PassedAll(rest, n - 1);
    } else if |candidates| > 1 {
      assert rest[0] == candidates[1] && IsAfter(rest[0], Some(candidates[0].user));
    }
  }

  lemma NonePassed(candidates: seq<Candidate>)
    ensures Passed(candidates, None) == 0
  {
  }

  predicate ReachesTerm(terms: seq<TierInput>, value: int, level: int) {
    1 <= level <= |terms| && terms[level - 1].threshold <= value
  }

  /** Every row the candidate has earned. */
  function EarnedBy(d: DefId, terms: seq<TierInput>, c: Candidate): set<Row> {
    set l | 1 <= l <= |terms| && ReachesTerm(terms, c.value, l) :: Row(c.user, d, l)
  }

  /** The obtained rows after candidates p up to q have been given what they earned. */
  function WithEarned(obtained: set<Row>, d: DefId, terms: seq<TierInput>, candidates: seq<Candidate>, p: nat,
                      q: nat): set<Row>
    requires p <= q <= |candidates|
  {
    if p == q then obtained
    else WithEarned(obtained, d, terms, candidates, p, q - 1) + EarnedBy(d, terms, candidates[q - 1])
  }

  lemma {:induction false} RangesJoin(obtained: set<Row>, d: DefId, terms: seq<TierInput>, candidates: seq<Candidate>,
                                      m: nat, q: nat)
    requires m <= q <= |candidates|
    ensures WithEarned(WithEarned(obtained, d, terms, candidates, 0, m), d, terms, candidates, m, q)
         == WithEarned(obtained, d, terms, candidates, 0, q)
    decreases q
  {
    if m < q { RangesJoin(obtained, d, terms, candidates, m, q - 1); }
  }

  /** Nothing but what was there and what the candidates earned, and all of it. */
  lemma {:induction false} WithEarnedMeaning(obtained: set<Row>, d: DefId, terms: seq<TierInput>,
                                             candidates: seq<Candidate>, n: nat, r: Row)
    requires n <= |candidates|
    ensures r in WithEarned(obtained, d, terms, candidates, 0, n) <==>
            r in obtained || exists i :: 0 <= i < n && r in EarnedBy(d, terms, candidates[i])
    decreases n
  {
    if n > 0 { WithEarnedMeaning(obtained, d, terms, candidates, n - 1, r); }
  }

  /** What backfill plans for a candidate is what the candidate has earned. */
  lemma PlannedIsEarned(snapshot: Snapshot, c: Candidate)
    ensures var levels := ReachedLevels(snapshot.tiers, c.value);
      && Planned(Plan(c.user, snapshot, levels, Backfill), |snapshot.tiers|)
         == EarnedBy(snapshot.def, Terms(snapshot.tiers), c)
      && (levels == {} ==> EarnedBy(snapshot.def, Terms(snapshot.tiers), c) == {})
  {
    var levels := ReachedLevels(snapshot.tiers, c.value);
    forall l | 1 <= l <= |snapshot.tiers| ensures l in levels <==> ReachesTerm(Terms(snapshot.tiers), c.value, l) {
    }
  }

  /** The definition is published with these tier terms. */
  predicate Offers(defs: map<DefId, Definition>, d: DefId, terms: seq<TierInput>) {
    d in defs && defs[d].status == Published && Terms(defs[d].tiers) == terms
  }

  /** How many candidates a chain has done when its next cursor is this one; null ends it. */
  function Reached(candidates: seq<Candidate>, next: Option<UserId>): (p: nat)
    ensures p <= |candidates|
  {
    if next.Some? then Passed(candidates, next) else |candidates|
  }

  /** A grant changes counters only, so the definition still offers the same. */
  lemma ShapeKeepsOffer(s: State, p: Plan, d: DefId, terms: seq<TierInput>)
    requires Ledger(s) && p in s.plans && Offers(s.defs, d, terms)
    ensures Offers(Apply(s, Grant(p)).defs, d, terms)
  {
    GrantAdds(s, p);
    assert Terms(Apply(s, Grant(p)).defs[d].tiers) == Terms(s.defs[d].tiers);
  }

  class AchievementStore {
    var defs: map<DefId, Definition>
    var obtained: set<Row>
    var paid: map<UserId, int>
    var notices: seq<Row>
    ghost var loaded: set<Snapshot>
    ghost var plans: set<Plan>

    constructor ()
      ensures Image() == Initial()
    {
      defs, obtained, paid, notices, loaded, plans := map[], {}, map[], [], {}, {};
    }

    ghost function Image(): State
      reads this
    {
      State(defs, obtained, paid, notices, loaded, plans)
    }

    /** The transaction of grantTiers; throwing rolls it back. Returns the highest new level, or 0. */
    method GrantTiersTo(p: Plan) returns (r: Result<int, Error>)
      modifies this`defs, this`obtained, this`paid, this`notices
      ensures var granted := GrantTiers(old(Image()), p);
              if granted.Ok? then Image() == granted.value && r.Ok?
              else Image() == old(Image()) && r == Err(granted.error)
      ensures r.Ok? ==> r.value == AwardUpTo(old(defs), old(obtained), p, |p.snapshot.tiers|).highest
    {
      var exp, highest := 0, 0;
      for i := 0 to |p.snapshot.tiers|
        invariant Award(defs, obtained, exp, highest) == AwardUpTo(old(defs), old(obtained), p, i)
        invariant highest == 0 ==> defs == old(defs) && obtained == old(obtained)
        invariant paid == old(paid) && notices == old(notices)
        invariant highest >= 0
      {
        var level := i + 1;
        var row := Row(p.user, p.snapshot.def, level);
        if level in p.levels && row !in obtained {
          obtained := obtained + {row};
          defs := CountUp(defs, p.snapshot.def, level);
          exp := exp + p.snapshot.tiers[i].expReward;
          highest := level;
        }
      }
      if highest == 0 {
        if p.mode == Manual { return Err(AlreadyObtained); }
        return Ok(0);
      }
      if exp > 0 {
        paid := paid[p.user := PaidTo(paid, p.user) + exp];
      }
      if p.mode != Backfill {
        notices := notices + [Row(p.user, p.snapshot.def, highest)];
      }
      r := Ok(highest);
    }

    /**
     evaluate: one read of the obtained rows, then a grant per definition. Afterwards the user
     holds exactly what they held plus every tier their values reach.
     */
    method Evaluate(user: UserId, snapshots: seq<Snapshot>, values: seq<int>)
      requires Ledger(Image()) && |values| == |snapshots|
      requires forall i :: 0 <= i < |snapshots| ==> snapshots[i] in loaded
      modifies this
      ensures Ledger(Image()) && loaded == old(loaded)
      ensures obtained == WithReached(old(obtained), user, snapshots, values, |snapshots|)
    {
      var seen := obtained;
      for i := 0 to |snapshots|
        invariant Ledger(Image()) && loaded == old(loaded) && seen <= obtained
        invariant obtained == WithReached(seen, user, snapshots, values, i)
      {
        EvaluateOne(user, seen, snapshots[i], values[i]);
      }
    }

    method EvaluateOne(user: UserId, seen: set<Row>, snapshot: Snapshot, value: int)
      requires Ledger(Image()) && snapshot in loaded && seen <= obtained
      modifies this
      ensures Ledger(Image()) && loaded == old(loaded)
      ensures obtained == old(obtained) + ReachedRows(user, snapshot, value)
    {
      var levels := ReachedLevels(snapshot.tiers, value) - LevelsOf(seen, user, snapshot.def);
      MissingRows(seen, obtained, user, snapshot, value);
      if levels != {} {
        var p := Plan(user, snapshot, levels, Live);
        PlanClosed(Image(), seen, user, snapshot, value);
        plans := plans + {p};
        var granted := GrantPlanned(p);
      }
    }

    /** Grants a plan a worker holds. */
    method GrantPlanned(p: Plan) returns (r: Result<int, Error>)
      requires Ledger(Image()) && p in plans
      modifies this`defs, this`obtained, this`paid, this`notices
      ensures Ledger(Image()) && obtained == old(obtained) + Planned(p, |p.snapshot.tiers|)
          && SameShape(old(defs), defs)
      ensures Image() == Apply(old(Image()), Grant(p))
      ensures p.mode == Backfill ==> notices == old(notices)
      ensures p.mode != Manual ==> r.Ok?
    {
      GrantFacts(Image(), p);
      r := GrantTiersTo(p);
    }

    /** One candidate of a backfill. */
    method BackfillOne(snapshot: Snapshot, terms: seq<TierInput>, c: Candidate)
      requires Ledger(Image()) && snapshot in loaded && Offers(defs, snapshot.def, terms)
          && terms == Terms(snapshot.tiers)
      modifies this
      ensures Ledger(Image()) && snapshot in loaded && Offers(defs, snapshot.def, terms) && notices == old(notices)
      ensures obtained == old(obtained) + EarnedBy(snapshot.def, terms, c)
    {
      var levels := ReachedLevels(snapshot.tiers, c.value);
      PlannedIsEarned(snapshot, c);
      if levels != {} {
        var p := Plan(c.user, snapshot, levels, Backfill);
        PlanClosed(Image(), obtained, c.user, snapshot, c.value);
        plans := plans + {p};
        ShapeKeepsOffer(Image(), p, snapshot.def, terms);
        var granted := GrantPlanned(p);
      }
    }

    /** The loop of backfill over one batch of candidates. */
    method BackfillRange(snapshot: Snapshot, terms: seq<TierInput>, candidates: seq<Candidate>, p: nat, q: nat)
      requires Ledger(Image()) && snapshot in loaded && Offers(defs, snapshot.def, terms)
          && terms == Terms(snapshot.tiers)
      requires p <= q <= |candidates|
      modifies this
      ensures Ledger(Image()) && Offers(defs, snapshot.def, terms) && notices == old(notices)
      ensures obtained == WithEarned(old(obtained), snapshot.def, terms, candidates, p, q)
    {
      for i := p to q
        invariant Ledger(Image()) && snapshot in loaded && Offers(defs, snapshot.def, terms) && notices == old(notices)
        invariant obtained == WithEarned(old(obtained), snapshot.def, terms, candidates, p, i)
      {
        BackfillOne(snapshot, terms, candidates[i]);
      }
    }

    /**
     backfill: one batch after the cursor, silent and complete for its candidates. The answer is the
     cursor of the next batch, or null when the definition is not published or the batch was short.
     */
    method BackfillBatch(d: DefId, candidates: seq<Candidate>, after: Option<UserId>) returns (next: Option<UserId>)
      requires Ledger(Image()) && Ascending(candidates)
      modifies this
      ensures Ledger(Image()) && notices == old(notices)
      ensures !(d in old(defs) && old(defs)[d].status == Published) ==> next.None? && Image() == old(Image())
      ensures d in old(defs) && old(defs)[d].status == Published ==>
        var terms, p := Terms(old(defs)[d].tiers), Passed(candidates, after);
        var q := Min(p + BACKFILL_BATCH_SIZE, |candidates|);
        && Offers(defs, d, terms)
        && obtained == WithEarned(old(obtained), d, terms, candidates, p, q)
        && (next.None? ==> q == |candidates|)
        && (next.Some? ==> p < q && next.value == candidates[q - 1].user && Passed(candidates, next) == q)
    {
      if d !in defs || defs[d].status != Published { return None; }
      var snapshot, terms := Snapshot(d, defs[d].tiers), Terms(defs[d].tiers);
      StepKeepsLedger(Image(), Load(d));
      loaded := loaded + {snapshot};
      var p := Passed(candidates, after);
      var q := Min(p + BACKFILL_BATCH_SIZE, |candidates|);
      BackfillRange(snapshot, terms, candidates, p, q);
      if q - p < BACKFILL_BATCH_SIZE { return None; }
      PassedAll(candidates, q);
      next := Some(candidates[q - 1].user);
    }

    /**
     The chain of backfill jobs, each started with the cursor of the one before until it is null. With
     no other step in between, it ends and every candidate holds every tier they reach.
     */
    method BackfillAll(d: DefId, terms: seq<TierInput>, candidates: seq<Candidate>)
      requires Ledger(Image()) && Ascending(candidates) && Offers(defs, d, terms)
      modifies this
      ensures Ledger(Image()) && notices == old(notices) && Offers(defs, d, terms)
      ensures forall r :: r in obtained <==>
                r in old(obtained) || exists i :: 0 <= i < |candidates| && r in EarnedBy(d, terms, candidates[i])
    {
      NonePassed(candidates);
      var after := BackfillMore(d, candidates, None, obtained, terms);
      while after.Some?
        invariant Ledger(Image()) && notices == old(notices) && Offers(defs, d, terms)
        invariant obtained == WithEarned(old(obtained), d, terms, candidates, 0, Reached(candidates, after))
        decreases after.Some?, |candidates| - Passed(candidates, after)
      {
        after := BackfillMore(d, candidates, after, old(obtained), terms);
      }
      forall r ensures r in obtained <==>
        r in old(obtained) || exists i :: 0 <= i < |candidates| && r in EarnedBy(d, terms, candidates[i])
      {
        WithEarnedMeaning(old(obtained), d, terms, candidates, |candidates|, r);
      }
    }

    /** One more batch of the chain, added to what the earlier ones granted. */
    method BackfillMore(d: DefId, candidates: seq<Candidate>, after: Option<UserId>, ghost first: set<Row>,
                        ghost terms: seq<TierInput>)
      returns (next: Option<UserId>)
      requires Ledger(Image()) && Ascending(candidates) && Offers(defs, d, terms)
      requires obtained == WithEarned(first, d, terms, candidates, 0, Passed(candidates, after))
      modifies this
      ensures Ledger(Image()) && notices == old(notices) && Offers(defs, d, terms)
      ensures obtained == WithEarned(first, d, terms, candidates, 0, Reached(candidates, next))
      ensures next.Some? ==> Passed(candidates, after) < Passed(candidates, next)
    {
      ghost var p := Passed(candidates, after);
      RangesJoin(first, d, terms, candidates, p, Min(p + BACKFILL_BATCH_SIZE, |candidates|));
      next := BackfillBatch(d, candidates, after);
    }

    /** createDefinition: always a draft, levels numbered from 1, counters at zero. */
    method CreateDefinition(id: DefId, rule: int, inputs: seq<TierInput>) returns (r: Result<(), Error>)
      modifies this`defs
      ensures Image() == Apply(old(Image()), Admin(Edit.Create(id, rule, inputs)))
      ensures r.Ok? <==> id !in old(defs) && Sound(inputs)
      ensures r.Ok? ==> && id in defs && defs == old(defs)[id := defs[id]]
                        && defs[id].status == Draft && defs[id].rule == rule && FreshFrom(defs[id].tiers, inputs, 0)
      ensures r.Err? ==> defs == old(defs) && r.error == (if id in defs then Conflict else BadRequest)
    {
      ValidMeansSound(inputs);
      if id in defs { return Err(Conflict); }
      if !ValidTiers(inputs) { return Err(BadRequest); }
      defs := defs[id := Definition(Draft, rule, ToTiers(inputs))];
      r := Ok(());
    }

    /** deleteDefinition, publishDefinition and archiveDefinition: each from one status only. */
    method DeleteDefinition(id: DefId) returns (r: Result<(), Error>)
      modifies this`defs
      ensures Image() == Apply(old(Image()), Admin(Edit.Delete(id)))
      ensures r.Ok? <==> id in old(defs) && old(defs)[id].status == Draft
      ensures r.Ok? ==> defs.Keys == old(defs).Keys - {id} && forall d :: d in defs ==> defs[d] == old(defs)[d]
      ensures r.Err? ==> defs == old(defs) && r.error == (if id in defs then BadRequest else NotFound)
    {
      if id !in defs { return Err(NotFound); }
      if defs[id].status != Draft { return Err(BadRequest); }
      defs := defs - {id};
      r := Ok(());
    }

    method PublishDefinition(id: DefId) returns (r: Result<(), Error>)
      modifies this`defs
      ensures Image() == Apply(old(Image()), Admin(Edit.Publish(id)))
      ensures r.Ok? <==> id in old(defs) && old(defs)[id].status == Draft && Sound(Terms(old(defs)[id].tiers))
      ensures r.Ok? ==> id in defs && defs == old(defs)[id := defs[id]]
                        && defs[id] == Definition(Published, old(defs)[id].rule, old(defs)[id].tiers)
      ensures r.Err? ==> defs == old(defs) && r.error == (if id in defs then BadRequest else NotFound)
    {
      if id !in defs { return Err(NotFound); }
      ValidMeansSound(Terms(defs[id].tiers));
      if defs[id].status != Draft || !ValidTiers(Terms(defs[id].tiers)) { return Err(BadRequest); }
      defs := defs[id := defs[id].(status := Published)];
      r := Ok(());
    }

    method ArchiveDefinition(id: DefId) returns (r: Result<(), Error>)
      modifies this`defs
      ensures Image() == Apply(old(Image()), Admin(Edit.Archive(id)))
      ensures r.Ok? <==> id in old(defs) && old(defs)[id].status == Published
      ensures r.Ok? ==> id in defs && defs == old(defs)[id := defs[id]]
                        && defs[id] == Definition(Archived, old(defs)[id].rule, old(defs)[id].tiers)
      ensures r.Err? ==> defs == old(defs) && r.error == (if id in defs then BadRequest else NotFound)
    {
      if id !in defs { return Err(NotFound); }
      if defs[id].status != Published { return Err(BadRequest); }
      defs := defs[id := defs[id].(status := Archived)];
      r := Ok(());
    }

    /** updateDefinition: drafts replace their tiers, published definitions only append. */
    method Update(id: DefId, newRule: Option<int>, newInputs: Option<seq<TierInput>>) returns (r: Result<(), Error>)
      modifies this`defs
      ensures Image() == Apply(old(Image()), Admin(Edit.Update(id, newRule, newInputs)))
      ensures r.Ok? <==>
                && id in old(defs) && old(defs)[id].status != Archived
                && Sound(if newInputs.Some? then newInputs.value else Terms(old(defs)[id].tiers))
                && (old(defs)[id].status == Published ==> OnlyAppends(old(defs)[id], newRule, newInputs))
      ensures r.Ok? ==> id in defs && defs == old(defs)[id := defs[id]]
                        && AsAsked(old(defs)[id], newRule, newInputs, defs[id])
      ensures r.Err? ==> defs == old(defs) && r.error == (if id in defs then BadRequest else NotFound)
    {
      if id !in defs { return Err(NotFound); }
      var saved := defs[id];
      UpdateExactly(saved, newRule, newInputs);
      if saved.status == Archived { return Err(BadRequest); }
      var rule := if newRule.Some? then newRule.value else saved.rule;
      var inputs := if newInputs.Some? then newInputs.value else Terms(saved.tiers);
      if saved.status == Published {
        if rule != saved.rule { return Err(BadRequest); }
        DroppingChanges(saved.tiers, inputs);
        if ChangesExistingTier(saved.tiers, inputs) { return Err(BadRequest); }
      }
      if !ValidTiers(inputs) { return Err(BadRequest); }
      defs := defs[id := defs[id].(rule := rule)];
      if newInputs.Some? {
        var kept := if saved.status == Published then saved.tiers else [];
        defs := defs[id := defs[id].(tiers := kept + ToTiers(inputs)[|kept|..])];
        assert kept == [] ==> kept + ToTiers(inputs)[|kept|..] == ToTiers(inputs);
      }
      r := Ok(());
    }
  }

  /** Leaving out levels already seen as obtained changes nothing about what ends up obtained. */
  lemma MissingRows(seen: set<Row>, obtained: set<Row>, user: UserId, snapshot: Snapshot, value: int)
    requires seen <= obtained
    ensures var reached := ReachedLevels(snapshot.tiers, value);
            var missing := reached - LevelsOf(seen, user, snapshot.def);
            var n := |snapshot.tiers|;
            && obtained + Planned(Plan(user, snapshot, missing, Live), n)
               == obtained + Planned(Plan(user, snapshot, reached, Live), n)
            && (missing == {} ==> Planned(Plan(user, snapshot, reached, Live), n) <= obtained)
  {
    var reached := ReachedLevels(snapshot.tiers, value);
    var missing := reached - LevelsOf(seen, user, snapshot.def);
    forall r | r in Planned(Plan(user, snapshot, reached, Live), |snapshot.tiers|)
      ensures r in obtained || r in Planned(Plan(user, snapshot, missing, Live), |snapshot.tiers|)
    {
      assert r.level in missing || r.level in LevelsOf(seen, user, snapshot.def);
    }
  }
}
