/** What the notification protocol guarantees over every run, stated from its initial states. */
module Guarantees {
  import opened Prelude
  import opened Content
  import opened Outbox
  import opened Inbox
  import opened Projection
  import opened Protocol
  import Paging

  lemma RunFromInitial(dir: Directory, s0: State, steps: seq<Step>)
    requires Initial(dir, s0) && Legal(dir, s0, steps)
    ensures Inv(dir, Run(s0, steps))
  {
    InitialInv(dir, s0);
    RunKeepsInv(dir, s0, steps);
  }

  // ----- aggregates -----

  /** Every inbox item of every run is the aggregate recomputed from its contribution rows. */
  lemma InboxIsRecomputation(dir: Directory, s0: State, steps: seq<Step>, g: GroupKey)
    requires Initial(dir, s0) && Legal(dir, s0, steps)
    requires g in Run(s0, steps).inbox
    ensures var s := Run(s0, steps);
            var item, rows := s.inbox[g], GroupRows(s.events, g);
            && rows != {}
            && item.eventCount == item.version == |rows|
            && item.actorCount == |Actors(rows)|
            && IsTop(rows, Actors(rows), 3, item.actorIds)
            && IsMax(set e | e in rows :: e.occurredAt, item.lastEventAt)
            && (exists e :: IsLatest(rows, e) && ShowsLatest(item, e))
  {
    ItemSummarises(dir, s0, steps, g);
    SummaryMeaning(Run(s0, steps).inbox[g], GroupRows(Run(s0, steps).events, g));
  }

  lemma ItemSummarises(dir: Directory, s0: State, steps: seq<Step>, g: GroupKey)
    requires Initial(dir, s0) && Legal(dir, s0, steps)
    requires g in Run(s0, steps).inbox
    ensures var s := Run(s0, steps);
            var rows := GroupRows(s.events, g);
            rows != {} && DistinctIds(rows) && Summarises(s.inbox[g], rows)
  {
    RunFromInitial(dir, s0, steps);
  }

  lemma SummaryMeaning(item: InboxRow, rows: set<EventRow>)
    requires rows != {} && DistinctIds(rows) && Summarises(item, rows)
    ensures IsMax(set e | e in rows :: e.occurredAt, item.lastEventAt)
    ensures exists e :: IsLatest(rows, e) && ShowsLatest(item, e)
  {
    var latest := LatestExists(rows);
    assert ShowsLatest(item, latest);
    forall e | e in rows ensures e.occurredAt <= latest.occurredAt {
      assert e == latest || e in rows - {latest};
    }
  }

  /** And an item exists exactly for the groups that received a contribution. */
  lemma ItemsAreTheContributedGroups(dir: Directory, s0: State, steps: seq<Step>, g: GroupKey)
    requires Initial(dir, s0) && Legal(dir, s0, steps)
    ensures var s := Run(s0, steps); g in s.inbox <==> GroupRows(s.events, g) != {}
  {
    RunFromInitial(dir, s0, steps);
    var s := Run(s0, steps);
    if GroupRows(s.events, g) != {} {
      var e := Member(GroupRows(s.events, g));
    }
  }

  /** Order of delivery, duplicates, crashes and retries leave no trace in the aggregated columns. */
  lemma DeliveryHistoryIsIrrelevant(dir: Directory, s0: State, t0: State, xs: seq<Step>, ys: seq<Step>, g: GroupKey)
    requires Initial(dir, s0) && Legal(dir, s0, xs) && Initial(dir, t0) && Legal(dir, t0, ys)
    ensures GroupRows(Run(s0, xs).events, g) == GroupRows(Run(t0, ys).events, g) != {} ==>
            && g in Run(s0, xs).inbox && g in Run(t0, ys).inbox
            && var a, b := Run(s0, xs).inbox[g], Run(t0, ys).inbox[g];
               && a.eventCount == b.eventCount && a.actorCount == b.actorCount && a.actorIds == b.actorIds
               && a.lastEventAt == b.lastEventAt && a.version == b.version
               && (!a.redacted && !b.redacted ==>
                     a.preview == b.preview && a.target == b.target && a.trigger == b.trigger)
  {
    ItemsAreTheContributedGroups(dir, s0, xs, g);
    ItemsAreTheContributedGroups(dir, t0, ys, g);
    if GroupRows(Run(s0, xs).events, g) == GroupRows(Run(t0, ys).events, g) != {} {
      ItemSummarises(dir, s0, xs, g);
      ItemSummarises(dir, t0, ys, g);
      SummaryIsDetermined(Run(s0, xs).inbox[g], Run(t0, ys).inbox[g], GroupRows(Run(s0, xs).events, g));
    }
  }

  // ----- exactly once -----

  /** Some inbox item appears or moves to a higher version in this step. */
  ghost predicate BumpsInbox(s: State, step: Step) {
    exists g :: g in Apply(s, step).inbox && (g !in s.inbox || Apply(s, step).inbox[g].version > s.inbox[g].version)
  }

  ghost function BumpsOf(s: State, steps: seq<Step>, id: EventId): nat
    decreases |steps|
  {
    if steps == [] then 0
    else (if steps[0].Project? && steps[0].id == id && BumpsInbox(s, steps[0]) then 1 else 0)
         + BumpsOf(Apply(s, steps[0]), steps[1..], id)
  }

  lemma OtherStepsKeepVersions(s: State, step: Step)
    requires !step.Project?
    ensures !BumpsInbox(s, step)
  {
  }

  lemma RecordedProjectionBumpsNothing(dir: Directory, s: State, step: Step)
    requires OutboxInv(dir, s.outbox, s.events, s.tokens, s.reports) && Agrees(s.content, dir)
    requires step.Project? && Contributed(s.events, step.id)
    ensures Apply(s, step).inbox == s.inbox && Apply(s, step).events == s.events
  {
    var id := step.id;
    if id in s.outbox && CanFinish(s.outbox[id], step.token, step.commitAt) {
      var resolution := Resolve(s.content, id, s.outbox[id].intent);
      if resolution.Contribute? {
        ResolvedMatchesBlueprint(s.content, dir, id, s.outbox[id].intent);
        RecordedMeansContributed(dir, s, id, resolution.row);
      }
    }
  }

  lemma BumpingProjectionContributes(s: State, step: Step)
    requires step.Project? && BumpsInbox(s, step)
    ensures Contributed(Apply(s, step).events, step.id)
  {
    var id := step.id;
    if id in s.outbox && CanFinish(s.outbox[id], step.token, step.commitAt) {
      var resolution := Resolve(s.content, id, s.outbox[id].intent);
      if resolution.Contribute? {
        assert !Recorded(s.events, id, resolution.row.recipient) ==> resolution.row in Apply(s, step).events;
      }
    }
  }

  /** Only a projection that adds the event's first contribution row can bump an item. */
  lemma BumpAddsContribution(dir: Directory, s: State, step: Step)
    requires Inv(dir, s)
    ensures BumpsInbox(s, step) ==>
              step.Project? && !Contributed(s.events, step.id) && Contributed(Apply(s, step).events, step.id)
  {
    if !BumpsInbox(s, step) {
    } else if !step.Project? {
      OtherStepsKeepVersions(s, step);
    } else {
      BumpingProjectionContributes(s, step);
      if Contributed(s.events, step.id) { RecordedProjectionBumpsNothing(dir, s, step); }
    }
  }

  lemma ContributionsOnlyGrow(s: State, step: Step)
    ensures s.events <= Apply(s, step).events
  {
  }

  lemma {:induction false} BumpsAreBounded(dir: Directory, s: State, steps: seq<Step>, id: EventId)
    requires Inv(dir, s) && Legal(dir, s, steps)
    ensures BumpsOf(s, steps, id) + (if Contributed(s.events, id) then 1 else 0) <= 1
    decreases |steps|
  {
    if steps != [] {
      var next := Apply(s, steps[0]);
      StepKeepsInv(dir, s, steps[0]);
      BumpsAreBounded(dir, next, steps[1..], id);
      ContributionsOnlyGrow(s, steps[0]);
      if Contributed(s.events, id) {
        var e :| e in s.events && e.eventId == id;
        assert e in next.events;
      }
      if steps[0].Project? && steps[0].id == id && BumpsInbox(s, steps[0]) {
        BumpAddsContribution(dir, s, steps[0]);
      }
    }
  }

  /** Whatever the workers, leases, failures and rearms, an event bumps the inbox at most once. */
  lemma AtMostOneBump(dir: Directory, s0: State, steps: seq<Step>, id: EventId)
    requires Initial(dir, s0) && Legal(dir, s0, steps)
    ensures BumpsOf(s0, steps, id) <= 1
  {
    InitialInv(dir, s0);
    BumpsAreBounded(dir, s0, steps, id);
  }

  /** A completed row has its one contribution row, addressed to the recipient the intent determines. */
  lemma CompletedMeansContributedOnce(dir: Directory, s0: State, steps: seq<Step>, id: EventId)
    requires Initial(dir, s0) && Legal(dir, s0, steps)
    requires var s := Run(s0, steps); id in s.outbox && s.outbox[id].state == Completed
    ensures var s := Run(s0, steps);
            exists e :: && e in s.events && e.eventId == id && e.group in s.inbox
                        && FollowsBlueprint(dir, s.outbox[id].intent, e)
                        && (forall x :: x in s.events && x.eventId == id ==> x == e)
  {
    RunFromInitial(dir, s0, steps);
    var s := Run(s0, steps);
    assert Contributed(s.events, id);
    var e :| e in s.events && e.eventId == id;
    assert forall x :: x in s.events && x.eventId == id ==> x == e;
  }

  // ----- fencing -----

  /** A worker or a failure report whose token no longer owns the row changes no table. */
  lemma StaleTokenChangesNothing(s: State, id: EventId, token: Token, commitAt: int, inboxId: int, attempts: int,
                                 kind: FailureKind)
    requires id !in s.outbox || !OwnedBy(s.outbox[id], token)
    ensures Apply(s, Project(id, token, commitAt, inboxId)) == s.(now := commitAt)
    ensures Apply(s, WriteFailure(FailureReport(id, token, attempts, kind))) == s
    ensures Apply(s, ReadFailure(id, token, kind)) == s
  {
    if id in s.outbox { assert s.outbox[id := s.outbox[id]] == s.outbox; }
  }

  /**
   In every run: a token exists exactly while processing, retries are bounded, and a late failure
   write is current.
   */
  lemma FencingHolds(dir: Directory, s0: State, steps: seq<Step>, id: EventId)
    requires Initial(dir, s0) && Legal(dir, s0, steps)
    requires id in Run(s0, steps).outbox
    ensures var row := Run(s0, steps).outbox[id];
            && (row.ownerToken.Some? <==> row.state == Processing)
            && (row.state == Pending ==> 0 <= row.attempts < MAX_ATTEMPTS)
            && (row.state == Processing ==> 1 <= row.attempts <= MAX_ATTEMPTS)
    ensures forall f :: f in Run(s0, steps).reports && f.id == id && OwnedBy(Run(s0, steps).outbox[id], f.token) ==>
              f.attempts == Run(s0, steps).outbox[id].attempts
  {
    RunFromInitial(dir, s0, steps);
  }

  /** A claim gives the row a token nobody held before, so every earlier token is stale from then on. */
  lemma ClaimRetiresOldTokens(dir: Directory, s: State, picks: map<EventId, Token>, leaseMs: int, id: EventId,
                              earlier: Token)
    requires Inv(dir, s) && Enabled(dir, s, Claim(picks, leaseMs))
    requires id in picks && earlier in s.tokens
    ensures !OwnedBy(Apply(s, Claim(picks, leaseMs)).outbox[id], earlier)
    ensures Apply(s, Claim(picks, leaseMs)).outbox[id].lastError == Some(AttemptsExhausted) ==>
              s.outbox[id].lastError == Some(AttemptsExhausted)
  {
    ClaimOutcome(s.outbox[id], picks[id], s.now, leaseMs);
    assert picks[id] in picks.Values;
  }

  // ----- what a relay can take -----

  /** An appended event is a new pending row with its intent, never attempted and due at once; no other row moves. */
  lemma AppendedIsDue(s: State, id: EventId, intent: Intent)
    requires id !in s.outbox
    ensures var s' := Apply(s, Append(id, intent));
      && s' == s.(outbox := s'.outbox) && id in s'.outbox && s'.outbox == s.outbox[id := s'.outbox[id]]
      && s'.outbox[id].intent == intent && s'.outbox[id].state == Pending && s'.outbox[id].attempts == 0
      && s'.outbox[id].nextAttemptAt == s.now && s'.outbox[id].ownerToken == None
      && s'.outbox[id].ownerExpiresAt == None && s'.outbox[id].completedAt == None && s'.outbox[id].lastError == None
  {
  }

  lemma OnePick(id: EventId, token: Token)
    ensures map[id := token].Values == {token} && Injective(map[id := token]) && |map[id := token]| == 1
  {
    var picks := map[id := token];
    assert picks[id] == token && picks.Keys == {id};
  }

  /**
   A due row, and no other, can be claimed under a fresh token: one whose turn has come, or one whose
   lease has run out.
   */
  lemma ClaimableExactly(dir: Directory, s: State, id: EventId, token: Token, leaseMs: int)
    requires RowsOk(s.outbox) && token !in s.tokens && 1000 <= leaseMs <= 30000
    ensures Enabled(dir, s, Claim(map[id := token], leaseMs)) <==>
      && id in s.outbox
      && (|| (s.outbox[id].state == Pending && s.outbox[id].nextAttemptAt <= s.now)
          || (s.outbox[id].state == Processing && s.outbox[id].ownerExpiresAt.value <= s.now))
  {
    OnePick(id, token);
    assert id in map[id := token];
  }

  /** Claiming one due row under a fresh token. */
  lemma ClaimAlone(dir: Directory, s: State, id: EventId, token: Token, leaseMs: int)
    requires id in s.outbox && Due(s.outbox[id], s.now) && token !in s.tokens && 1000 <= leaseMs <= 30000
    ensures Enabled(dir, s, Claim(map[id := token], leaseMs))
    ensures var s' := Apply(s, Claim(map[id := token], leaseMs));
      && s'.now == s.now && s'.tokens == s.tokens + {token} && id in s'.outbox
      && s'.outbox[id] == ClaimRow(s.outbox[id], token, s.now, leaseMs)
  {
    OnePick(id, token);
  }

  /** A claim takes an expired lease away: the row is due again after its backoff. */
  lemma ExpiredIsReleased(dir: Directory, s: State, id: EventId, token: Token, leaseMs: int)
    requires id in s.outbox && RowOk(s.outbox[id]) && s.outbox[id].state == Processing && s.outbox[id].attempts < 5
    requires s.outbox[id].ownerExpiresAt.value <= s.now && token !in s.tokens && 1000 <= leaseMs <= 30000
    ensures Enabled(dir, s, Claim(map[id := token], leaseMs))
    ensures var s' := Apply(s, Claim(map[id := token], leaseMs));
      && s'.now == s.now && s'.tokens == s.tokens + {token} && id in s'.outbox && RowOk(s'.outbox[id])
      && s'.outbox[id].state == Pending && s'.outbox[id].nextAttemptAt == s.now + Backoff(s.outbox[id].attempts)
      && s'.outbox[id].attempts == s.outbox[id].attempts && s'.outbox[id].intent == s.outbox[id].intent
  {
    ClaimAlone(dir, s, id, token, leaseMs);
    ClaimOutcome(s.outbox[id], token, s.now, leaseMs);
  }

  lemma PendingIsLeased(dir: Directory, s: State, id: EventId, token: Token, leaseMs: int)
    requires id in s.outbox && RowOk(s.outbox[id]) && s.outbox[id].state == Pending
    requires s.outbox[id].nextAttemptAt <= s.now && token !in s.tokens && 1000 <= leaseMs <= 30000
    ensures Enabled(dir, s, Claim(map[id := token], leaseMs))
    ensures var s' := Apply(s, Claim(map[id := token], leaseMs));
      && id in s'.outbox && s'.outbox[id].state == Processing && s'.outbox[id].ownerToken == Some(token)
      && s'.outbox[id].attempts == s.outbox[id].attempts + 1 && s'.outbox[id].intent == s.outbox[id].intent
  {
    ClaimAlone(dir, s, id, token, leaseMs);
  }

  /**
   A crash loses nothing: wherever a run has left a row with a worker before the fifth attempt is used up,
   waiting for the lease, releasing the row, waiting for its backoff and claiming it again puts it under
   the new token with one more attempt.
   */
  lemma AbandonedWorkIsRetried(dir: Directory, s: State, id: EventId, first: Token, second: Token, leaseMs: int)
    returns (released: State, retried: State)
    requires RowsOk(s.outbox) && id in s.outbox && s.outbox[id].state == Processing && s.outbox[id].attempts < 5
    requires first !in s.tokens && second !in s.tokens && first != second && 1000 <= leaseMs <= 30000
    ensures var expired := s.(now := Max(s.now, s.outbox[id].ownerExpiresAt.value));
      && Enabled(dir, expired, Claim(map[id := first], leaseMs))
      && released == Apply(expired, Claim(map[id := first], leaseMs))
    ensures var backed := released.(now := released.now + Backoff(s.outbox[id].attempts));
      && Enabled(dir, backed, Claim(map[id := second], leaseMs))
      && retried == Apply(backed, Claim(map[id := second], leaseMs))
    ensures && id in retried.outbox && retried.outbox[id].state == Processing
            && retried.outbox[id].ownerToken == Some(second)
            && retried.outbox[id].attempts == s.outbox[id].attempts + 1
            && retried.outbox[id].intent == s.outbox[id].intent
  {
    var expired := s.(now := Max(s.now, s.outbox[id].ownerExpiresAt.value));
    ExpiredIsReleased(dir, expired, id, first, leaseMs);
    released := Apply(expired, Claim(map[id := first], leaseMs));
    var backed := released.(now := released.now + Backoff(s.outbox[id].attempts));
    PendingIsLeased(dir, backed, id, second, leaseMs);
    retried := Apply(backed, Claim(map[id := second], leaseMs));
  }

  // ----- bounded work -----

  ghost function TransitionsOf(s: State, steps: seq<Step>, id: EventId): nat
    decreases |steps|
  {
    if steps == [] then 0
    else
      var s' := Apply(s, steps[0]);
      (if id in s.outbox && id in s'.outbox && s'.outbox[id] != s.outbox[id] then 1 else 0)
      + TransitionsOf(s', steps[1..], id)
  }

  ghost function ClaimsOf(s: State, steps: seq<Step>, id: EventId): nat
    decreases |steps|
  {
    if steps == [] then 0
    else
      var s' := Apply(s, steps[0]);
      (if id in s.outbox && id in s'.outbox && IsClaim(s.outbox[id], s'.outbox[id]) then 1 else 0)
      + ClaimsOf(s', steps[1..], id)
  }

  predicate NeverRearms(steps: seq<Step>, id: EventId) {
    forall i :: 0 <= i < |steps| ==> steps[i] != Rearm(id)
  }

  /** No row disappears or changes its intent, and without a rearm every change makes progress. */
  lemma StepMakesProgress(dir: Directory, s: State, step: Step, id: EventId)
    requires RowsOk(s.outbox) && Fenced(s.outbox, s.tokens, s.reports) && Enabled(dir, s, step) && id in s.outbox
    ensures id in Apply(s, step).outbox && Apply(s, step).outbox[id].intent == s.outbox[id].intent
    ensures step != Rearm(id) ==> Progress(s.outbox[id], Apply(s, step).outbox[id])
  {
    match step
    case Claim(picks, leaseMs) => if id in picks { ClaimOutcome(s.outbox[id], picks[id], s.now, leaseMs); }
    case WriteFailure(f) => if f.id == id { FailureOutcome(s.outbox[id], f, s.now); }
    case Project(p, token, commitAt, inboxId) => ProjectionMakesProgress(s, p, token, commitAt, inboxId, id);
    case RemoveProfile(user, t) =>
    case _ => OutboxUntouched(s, step, id);
  }

  lemma OutboxUntouched(s: State, step: Step, id: EventId)
    requires id in s.outbox && (step.Append? ==> step.id != id)
    requires !step.Claim? && !step.WriteFailure? && !step.Project? && !step.RemoveProfile?
    ensures id in Apply(s, step).outbox && Apply(s, step).outbox[id].intent == s.outbox[id].intent
    ensures step != Rearm(id) ==> Apply(s, step).outbox[id] == s.outbox[id]
  {
  }

  lemma ProjectionMakesProgress(s: State, p: EventId, token: Token, commitAt: int, inboxId: int, id: EventId)
    requires id in s.outbox && RowOk(s.outbox[id])
    ensures var after := ProjectTx(s, p, token, commitAt, inboxId).outbox;
            id in after && after[id].intent == s.outbox[id].intent && Progress(s.outbox[id], after[id])
  {
  }

  lemma {:induction false} WorkIsBounded(dir: Directory, s: State, steps: seq<Step>, id: EventId)
    requires Inv(dir, s) && Legal(dir, s, steps) && NeverRearms(steps, id) && id in s.outbox
    ensures TransitionsOf(s, steps, id) <= Remaining(s.outbox[id]) <= 2 * MAX_ATTEMPTS
    ensures ClaimsOf(s, steps, id) <= ClaimsLeft(s.outbox[id]) <= MAX_ATTEMPTS
    ensures id in Run(s, steps).outbox && Run(s, steps).outbox[id].intent == s.outbox[id].intent
    decreases |steps|
  {
    if steps != [] {
      assert steps[0] != Rearm(id);
      StepMakesProgress(dir, s, steps[0], id);
      StepKeepsInv(dir, s, steps[0]);
      assert NeverRearms(steps[1..], id);
      WorkIsBounded(dir, Apply(s, steps[0]), steps[1..], id);
    }
  }

  // ----- versions -----

  /** Versions and read marks only grow, step by step. */
  lemma VersionsOnlyGrow(s: State, step: Step, g: GroupKey)
    requires g in s.inbox
    ensures g in Apply(s, step).inbox
    ensures Apply(s, step).inbox[g].version >= s.inbox[g].version
    ensures Apply(s, step).inbox[g].readVersion >= s.inbox[g].readVersion
    ensures Apply(s, step).inbox[g].id == s.inbox[g].id
  {
  }

  /** An acknowledgement is on its way exactly when it was checked: its item is there, the user's, and that far. */
  lemma AcknowledgementIsChecked(s: State, ack: Ack)
    ensures var s' := Apply(s, ReadAck(ack));
      && s' == s.(acks := s'.acks)
      && forall a :: a in s'.acks <==>
           || a in s.acks
           || (a == ack && a.group in s.inbox && a.group.recipient == a.user && a.version <= s.inbox[a.group].version)
  {
  }

  /** So over a run. */
  lemma {:induction false} ReadMarksStay(s: State, steps: seq<Step>, g: GroupKey)
    requires g in s.inbox
    ensures g in Run(s, steps).inbox && Run(s, steps).inbox[g].readVersion >= s.inbox[g].readVersion
    decreases |steps|
  {
    if steps != [] {
      VersionsOnlyGrow(s, steps[0], g);
      ReadMarksStay(Apply(s, steps[0]), steps[1..], g);
    }
  }

  /** Once an acknowledgement of a stored item is written, the item stays read up to its version in the whole run. */
  lemma {:induction false} AcknowledgedStaysRead(s: State, steps: seq<Step>, k: nat, ack: Ack)
    requires k < |steps| && steps[k] == WriteAck(ack) && ack.group in Run(s, steps[..k]).inbox
    ensures ack.group in Run(s, steps).inbox && Run(s, steps).inbox[ack.group].readVersion >= ack.version
    decreases k
  {
    var next := Apply(s, steps[0]);
    if k == 0 {
      assert steps[..0] == [];
      assert next.inbox[ack.group].readVersion >= ack.version;
      ReadMarksStay(next, steps[1..], ack.group);
    } else {
      assert steps[..k][1..] == steps[1..][..k - 1] && steps[..k][0] == steps[0];
      AcknowledgedStaysRead(next, steps[1..], k - 1, ack);
    }
  }

  /** Although an acknowledgement is checked against a snapshot and written later, it never runs ahead. */
  lemma ReadNeverExceedsVersion(dir: Directory, s0: State, steps: seq<Step>, g: GroupKey)
    requires Initial(dir, s0) && Legal(dir, s0, steps) && g in Run(s0, steps).inbox
    ensures 0 <= Run(s0, steps).inbox[g].readVersion <= Run(s0, steps).inbox[g].version
    ensures forall a :: a in Run(s0, steps).acks && a.group == g ==> a.version <= Run(s0, steps).inbox[g].version
  {
    RunFromInitial(dir, s0, steps);
  }

  // ----- what a reader pages through -----

  function Listing(s: State, user: UserId): set<Paging.Item> {
    set g | g in s.inbox && g.recipient == user && s.inbox[g].visible
      :: Paging.Item(s.inbox[g].id, s.inbox[g].lastEventAt, Eligible(s.content, s.inbox[g]))
  }

  /** The row shows an item addressed to the user that is visible and eligible. */
  predicate IsListed(s: State, user: UserId, x: Paging.Item) {
    exists g :: && g in s.inbox && g.recipient == user && s.inbox[g].visible && Eligible(s.content, s.inbox[g])
                && x == Paging.Item(s.inbox[g].id, s.inbox[g].lastEventAt, true)
  }

  lemma ListingIdsUnique(dir: Directory, s0: State, steps: seq<Step>, user: UserId)
    requires Initial(dir, s0) && Legal(dir, s0, steps)
    ensures Paging.UniqueIds(Listing(Run(s0, steps), user))
  {
    RunFromInitial(dir, s0, steps);
    assert ItemIdsDistinct(Run(s0, steps).inbox);
  }

  /**
   In every run a reader who follows the cursor from page to page sees each visible eligible item
   of theirs exactly once.
   */
  lemma InboxWalkIsComplete(dir: Directory, s0: State, steps: seq<Step>, user: UserId, limit: nat)
    requires Initial(dir, s0) && Legal(dir, s0, steps) && limit > 0
    ensures Paging.UniqueIds(Listing(Run(s0, steps), user))
    ensures exists view :: && Paging.Lists(view, Listing(Run(s0, steps), user)) && Paging.Sorted(view)
                           && var all := Paging.Follow(view, user, None, limit);
                              && (forall i, j :: 0 <= i < j < |all| ==>
                                   Paging.NewerFirst(all[i], all[j]) && all[i] != all[j])
                              && (forall x :: x in all <==> IsListed(Run(s0, steps), user, x))
  {
    var s := Run(s0, steps);
    ListingIdsUnique(dir, s0, steps, user);
    var view := Paging.ListingExists(Listing(s, user));
    Paging.FollowIsComplete(Listing(s, user), view, user, limit);
    assert forall x :: IsListed(s, user, x) <==> x in Listing(s, user) && x.eligible;
  }
}
