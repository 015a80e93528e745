/**
 The notification services as imperative methods over the database tables. Each method performs
 its reads and writes one after another, in the order of the service code, and is proved to
 amount to one step (or one run of steps) of the protocol.
 */
module NotificationStore {
  import opened Prelude
  import opened Content
  import opened Outbox
  import opened Inbox
  import opened Projection
  import opened Protocol
  import opened Delivery

  datatype Outcome = Ignored | Finished | Threw

  datatype AckError = UnknownItem | VersionAhead(version: int, current: int)

  /** The greatest of the old read mark and the versions read; nothing else of the item moves. */
  predicate ReadUpTo(before: InboxRow, after: InboxRow, versions: set<int>) {
    && after == before.(readVersion := after.readVersion)
    && after.readVersion >= before.readVersion && (forall v :: v in versions ==> after.readVersion >= v)
    && (after.readVersion == before.readVersion || after.readVersion in versions)
  }

  function VersionsFor(acks: seq<Ack>, g: GroupKey): set<int> {
    set a | a in acks && a.group == g :: a.version
  }

  /** Every stored item is read up to what was acknowledged of it, and no item appears or goes. */
  predicate ReadMarks(before: map<GroupKey, InboxRow>, after: map<GroupKey, InboxRow>, acks: seq<Ack>) {
    && after.Keys == before.Keys
    && forall g :: g in before ==> ReadUpTo(before[g], after[g], VersionsFor(acks, g))
  }

  lemma ReadOneMore(first: map<GroupKey, InboxRow>, before: map<GroupKey, InboxRow>, after: map<GroupKey, InboxRow>,
                    acks: seq<Ack>, ack: Ack)
    requires ReadMarks(first, before, acks) && after.Keys == before.Keys
    requires forall g :: g in after ==>
               ReadUpTo(before[g], after[g], if g == ack.group then {ack.version} else {})
    ensures ReadMarks(first, after, acks + [ack])
  {
    forall g | g in first ensures ReadUpTo(first[g], after[g], VersionsFor(acks + [ack], g)) {
      VersionsOfMore(acks, ack, g);
      assert ReadUpTo(first[g], before[g], VersionsFor(acks, g));
    }
  }

  lemma VersionsOfMore(acks: seq<Ack>, ack: Ack, g: GroupKey)
    ensures VersionsFor(acks + [ack], g) == VersionsFor(acks, g) + (if ack.group == g then {ack.version} else {})
  {
    var more := acks + [ack];
    assert more[|acks|] == ack && ack in more;
    assert forall a :: a in acks ==> a in more;
  }

  function AckSteps(acks: seq<Ack>): seq<Step> {
    seq(|acks|, i requires 0 <= i < |acks| => WriteAck(acks[i]))
  }

  lemma {:induction false} RunAppend(s: State, steps: seq<Step>, last: Step)
    ensures Run(s, steps + [last]) == Apply(Run(s, steps), last)
    decreases |steps|
  {
    if steps == [] {
      assert steps + [last] == [last];
      assert Run(Apply(s, last), []) == Apply(s, last);
    } else {
      assert (steps + [last])[1..] == steps[1..] + [last];
      RunAppend(Apply(s, steps[0]), steps[1..], last);
    }
  }

  /** The row is processing under the token until the lease ends, with one more attempt. */
  predicate Leased(before: OutboxRow, after: OutboxRow, token: Token, until: int) {
    && after.state == Processing && after.ownerToken == Some(token) && after.ownerExpiresAt == Some(until)
    && after.attempts == before.attempts + 1 && after.intent == before.intent
  }

  /** The row has no owner and its attempts; it failed if they are used up, else it is due after its backoff. */
  predicate LetGo(before: OutboxRow, after: OutboxRow, now: int) {
    && after.ownerToken == None && after.ownerExpiresAt == None
    && after.attempts == before.attempts && after.intent == before.intent
    && after.state == (if before.attempts >= 5 then Failed else Pending)
    && after.nextAttemptAt == now + Backoff(before.attempts)
  }

  predicate Claimable(row: OutboxRow) {
    row.state != Processing && row.attempts < MAX_ATTEMPTS
  }

  lemma ClaimAllMeans(outbox: map<EventId, OutboxRow>, picks: map<EventId, Token>, now: int, leaseMs: int)
    ensures var after := ClaimAll(outbox, picks, now, leaseMs);
      && after.Keys == outbox.Keys
      && forall id :: id in outbox ==>
           if id !in picks then after[id] == outbox[id]
           else if Claimable(outbox[id]) then Leased(outbox[id], after[id], picks[id], now + leaseMs)
           else LetGo(outbox[id], after[id], now)
  {
  }

  lemma ClaimOneMore(outbox: map<EventId, OutboxRow>, picks: map<EventId, Token>, id: EventId, token: Token, now: int,
                     leaseMs: int)
    requires id in outbox && id !in picks
    ensures ClaimAll(outbox, picks, now, leaseMs)[id := ClaimRow(outbox[id], token, now, leaseMs)]
         == ClaimAll(outbox, picks[id := token], now, leaseMs)
    ensures id in ClaimAll(outbox, picks, now, leaseMs) && ClaimAll(outbox, picks, now, leaseMs)[id] == outbox[id]
  {
  }

  /** The tokens of the first n due rows. */
  function FirstPicks(due: seq<EventId>, issued: map<EventId, Token>, n: nat): map<EventId, Token>
    requires n <= |due| && forall id :: id in due ==> id in issued
  {
    if n == 0 then map[] else FirstPicks(due, issued, n - 1)[due[n - 1] := issued[due[n - 1]]]
  }

  lemma {:induction false} PicksSoFar(due: seq<EventId>, issued: map<EventId, Token>, n: nat)
    requires n <= |due| && forall id :: id in due ==> id in issued
    ensures forall id :: id in FirstPicks(due, issued, n) <==> exists k :: 0 <= k < n && due[k] == id
    ensures forall id :: id in FirstPicks(due, issued, n) ==> FirstPicks(due, issued, n)[id] == issued[id]
  {
    if n > 0 { PicksSoFar(due, issued, n - 1); }
  }

  lemma NotPickedYet(due: seq<EventId>, issued: map<EventId, Token>, n: nat)
    requires n < |due| && (forall id :: id in due ==> id in issued)
    requires forall i, j :: 0 <= i < j < |due| ==> due[i] != due[j]
    ensures due[n] !in FirstPicks(due, issued, n)
  {
    PicksSoFar(due, issued, n);
  }

  lemma AllPicked(due: seq<EventId>, issued: map<EventId, Token>)
    requires issued.Keys == set id | id in due
    ensures FirstPicks(due, issued, |due|) == issued
  {
    PicksSoFar(due, issued, |due|);
    var picks := FirstPicks(due, issued, |due|);
    forall id | id in issued ensures id in picks {
      assert id in due;
      var k :| 0 <= k < |due| && due[k] == id;
    }
    forall id | id in picks ensures id in issued && picks[id] == issued[id] {
      var k :| 0 <= k < |due| && due[k] == id;
      assert id in issued.Keys;
    }
    assert picks.Keys == issued.Keys;
  }

  /** The ids returned for the first n due rows. */
  function ClaimedFirst(due: seq<EventId>, outbox: map<EventId, OutboxRow>, n: nat): seq<EventId>
    requires n <= |due| && forall id :: id in due ==> id in outbox
  {
    if n == 0 then []
    else ClaimedFirst(due, outbox, n - 1) + (if Claimable(outbox[due[n - 1]]) then [due[n - 1]] else [])
  }

  lemma {:induction false} ClaimedAre(due: seq<EventId>, outbox: map<EventId, OutboxRow>, n: nat, id: EventId)
    requires n <= |due| && forall id :: id in due ==> id in outbox
    ensures id in ClaimedFirst(due, outbox, n) <==> id in due[..n] && Claimable(outbox[id])
  {
    if n > 0 {
      ClaimedAre(due, outbox, n - 1, id);
      assert due[..n] == due[..n - 1] + [due[n - 1]];
    }
  }

  lemma HideRootsCompose(inbox: map<GroupKey, InboxRow>, a: set<Root>, b: set<Root>)
    ensures HideRoots(HideRoots(inbox, a), b) == HideRoots(inbox, a + b)
  {
  }

  function OwnedOfKind(t: Tables, user: UserId, kind: RootKind): set<Root> {
    match kind
    case Post => set id | id in t.posts && t.posts[id].owner == user :: Root(Post, id)
    case Review => set id | id in t.reviews && t.reviews[id].owner == user :: Root(Review, id)
    case Activity => set id | id in t.activities && t.activities[id].owner == user :: Root(Activity, id)
  }

  lemma ReachedByKinds(t: Tables, user: UserId)
    ensures Reached(t, OwnedRoots(t, user))
         == Reached(t, OwnedOfKind(t, user, Post)) + Reached(t, OwnedOfKind(t, user, Review))
            + Reached(t, OwnedOfKind(t, user, Activity))
  {
    var p, r, a := OwnedOfKind(t, user, Post), OwnedOfKind(t, user, Review), OwnedOfKind(t, user, Activity);
    assert OwnedRoots(t, user) == p + r + a;
    ReachedUnion(t, p, r);
    ReachedUnion(t, p + r, a);
  }

  lemma ReachedUnion(t: Tables, a: set<Root>, b: set<Root>)
    ensures Reached(t, a + b) == Reached(t, a) + Reached(t, b)
  {
    forall d | d in Reached(t, a) + Reached(t, b) ensures d in Reached(t, a + b) {
      if d !in a + b {
        if d in Reached(t, a) {
          var r :| r in a && d in DerivedRoots(t, r);
          assert r in a + b;
        } else {
          var r :| r in b && d in DerivedRoots(t, r);
          assert r in a + b;
        }
      }
    }
  }

  /** The roots one call of invalidateContent hides. */
  function Hidden(t: Tables, root: Root): set<Root> {
    {root} + DerivedRoots(t, root)
  }

  lemma ReachedOneMore(t: Tables, done: set<Root>, root: Root)
    ensures Reached(t, done + {root}) == Reached(t, done) + Hidden(t, root)
  {
    forall d | d in DerivedRoots(t, root) ensures d in Reached(t, done + {root}) {
      assert root in done + {root};
    }
    forall d | d in Reached(t, done) ensures d in Reached(t, done + {root}) {
      if d !in done {
        var r :| r in done && d in DerivedRoots(t, r);
        assert r in done + {root};
      }
    }
  }

  lemma NothingReached(t: Tables, inbox: map<GroupKey, InboxRow>)
    ensures HideRoots(inbox, Reached(t, {})) == inbox
  {
    assert Reached(t, {}) == {};
  }

  lemma HideNothing(inbox: map<GroupKey, InboxRow>)
    ensures HideRoots(inbox, {}) == inbox
  {
  }

  lemma ReachedFromOne(t: Tables, root: Root)
    ensures Reached(t, {root}) == Hidden(t, root)
  {
  }

  class Database {
    var now: int
    var content: Tables
    var outbox: map<EventId, OutboxRow>
    var events: set<EventRow>
    var inbox: map<GroupKey, InboxRow>
    ghost var tokens: set<Token>
    ghost var reports: set<FailureReport>
    ghost var acks: set<Ack>

    constructor (content: Tables, now: int)
      ensures Image() == State(now, content, map[], {}, map[], {}, {}, {})
    {
      this.now, this.content := now, content;
      outbox, events, inbox := map[], {}, map[];
      tokens, reports, acks := {}, {}, {};
    }

    /** The tables and the readings in flight, as a state of the protocol. */
    ghost function Image(): State
      reads this
    {
      State(now, content, outbox, events, inbox, tokens, reports, acks)
    }

    /**
     claimDueRows: `due` is the answer of the locking query and `issued` the random token drawn for
     each of its rows. Expired and exhausted rows are released; the others are claimed and returned.
     */
    method ClaimDueRows(limit: int, leaseMs: int, due: seq<EventId>, issued: map<EventId, Token>)
      returns (result: Result<seq<EventId>, string>)
      requires forall i, j :: 0 <= i < j < |due| ==> due[i] != due[j]
      requires forall id :: id in due ==> id in outbox && Due(outbox[id], now)
      requires |due| <= Max(limit, 0)
      requires issued.Keys == (set id | id in due) && Injective(issued) && issued.Values !! tokens
      modifies this`outbox, this`tokens
      ensures result.Err? <==> !(1 <= limit <= 100 && 1000 <= leaseMs <= 30000)
      ensures result.Err? ==> Image() == old(Image())
      ensures result.Ok? ==> Image() == Apply(old(Image()), Claim(issued, leaseMs))
      ensures result.Ok? ==> forall id :: id in result.value <==>
                id in due && old(outbox)[id].state != Processing && old(outbox)[id].attempts < 5
      ensures result.Ok? ==> outbox.Keys == old(outbox).Keys && forall id :: id in outbox ==>
                if id in result.value then Leased(old(outbox)[id], outbox[id], issued[id], now + leaseMs)
                else if id in due then LetGo(old(outbox)[id], outbox[id], now)
                else outbox[id] == old(outbox)[id]
    {
      if limit < 1 || limit > CLAIM_LIMIT || leaseMs < 1000 || leaseMs > MAX_LEASE_MS {
        return Err("Invalid outbox claim bounds");
      }
      var claimed := ClaimEach(leaseMs, due, issued);
      tokens := tokens + issued.Values;
      ClaimAllMeans(old(outbox), issued, now, leaseMs);
      result := Ok(claimed);
    }

    /** The claim loop. */
    method ClaimEach(leaseMs: int, due: seq<EventId>, issued: map<EventId, Token>) returns (claimed: seq<EventId>)
      requires forall i, j :: 0 <= i < j < |due| ==> due[i] != due[j]
      requires (forall id :: id in due ==> id in outbox) && issued.Keys == (set id | id in due)
      modifies this`outbox
      ensures outbox == ClaimAll(old(outbox), issued, now, leaseMs)
      ensures forall id :: id in claimed <==> id in due && Claimable(old(outbox)[id])
    {
      claimed := [];
      assert ClaimAll(outbox, map[], now, leaseMs) == outbox;
      for i := 0 to |due|
        invariant outbox == ClaimAll(old(outbox), FirstPicks(due, issued, i), now, leaseMs)
        invariant claimed == ClaimedFirst(due, old(outbox), i)
      {
        var id := due[i];
        NotPickedYet(due, issued, i);
        ClaimOneMore(old(outbox), FirstPicks(due, issued, i), id, issued[id], now, leaseMs);
        var taken := ClaimOne(id, issued[id], leaseMs);
        if taken { claimed := claimed + [id]; }
      }
      AllPicked(due, issued);
      forall id ensures id in claimed <==> id in due && Claimable(old(outbox)[id]) {
        ClaimedAre(due, old(outbox), |due|, id);
        assert due[..|due|] == due;
      }
    }

    /** One iteration of the claim loop. */
    method ClaimOne(id: EventId, token: Token, leaseMs: int) returns (taken: bool)
      requires id in outbox
      modifies this`outbox
      ensures outbox == old(outbox)[id := ClaimRow(old(outbox)[id], token, now, leaseMs)]
      ensures taken == Claimable(old(outbox)[id])
    {
      var row := outbox[id];
      if row.state == Processing || row.attempts >= MAX_ATTEMPTS {
        var failed := row.attempts >= MAX_ATTEMPTS;
        var note := if row.state == Processing then OwnerExpired else AttemptsExhausted;
        outbox := outbox[id := row.(state := if failed then Failed else Pending,
                                    ownerToken := None,
                                    ownerExpiresAt := None,
                                    nextAttemptAt := now + Backoff(row.attempts),
                                    lastError := Some(note))];
        return false;
      }
      outbox := outbox[id := row.(state := Processing, ownerToken := Some(token),
                                  ownerExpiresAt := Some(now + leaseMs), attempts := row.attempts + 1)];
      taken := true;
    }

    /** recordFailure, first half: the row as this owner sees it, or nothing when the owner is stale. */
    method ReadFailureRow(id: EventId, token: Token, kind: FailureKind) returns (report: Option<FailureReport>)
      modifies this`reports
      ensures Image() == Apply(old(Image()), ReadFailure(id, token, kind))
      ensures report.Some? <==> id in outbox && OwnedBy(outbox[id], token)
      ensures report.Some? ==>
                report.value in reports && report.value == FailureReport(id, token, outbox[id].attempts, kind)
    {
      if id !in outbox || !OwnedBy(outbox[id], token) {
        return None;
      }
      report := Some(FailureReport(id, token, outbox[id].attempts, kind));
      reports := reports + {report.value};
    }

    /** recordFailure, second half: the conditional update with what was read. */
    method WriteFailureRow(report: FailureReport)
      modifies this`outbox
      ensures Image() == Apply(old(Image()), WriteFailure(report))
      ensures outbox.Keys == old(outbox).Keys
      ensures forall id :: id in outbox && id != report.id ==> outbox[id] == old(outbox)[id]
      ensures report.id in outbox && !OwnedBy(old(outbox)[report.id], report.token) ==> outbox == old(outbox)
      ensures report.id in outbox && OwnedBy(old(outbox)[report.id], report.token) && RowOk(old(outbox)[report.id])
              && old(outbox)[report.id].attempts == report.attempts ==>
                var row := outbox[report.id];
                && RowOk(row) && (forall t :: !OwnedBy(row, t)) && row.attempts == report.attempts
                && (if report.kind == Poison || report.attempts == MAX_ATTEMPTS then row.state == Failed
                    else Backing(row, now))
    {
      if report.id in outbox && RowOk(outbox[report.id])
         && (OwnedBy(outbox[report.id], report.token) ==> outbox[report.id].attempts == report.attempts) {
        FailureOutcome(outbox[report.id], report, now);
      }
      if report.id in outbox && OwnedBy(outbox[report.id], report.token) {
        var note := Some(FailureNote(report.kind));
        var row := outbox[report.id].(ownerToken := None, ownerExpiresAt := None, lastError := note);
        if report.kind == Poison || report.attempts >= MAX_ATTEMPTS {
          row := row.(state := Failed);
        } else {
          row := row.(state := Pending, nextAttemptAt := now + Backoff(report.attempts));
        }
        outbox := outbox[report.id := row];
      } else if report.id in outbox {
        assert outbox[report.id := outbox[report.id]] == outbox;
      }
    }

    method RearmEvent(id: EventId) returns (found: bool)
      modifies this`outbox
      ensures Image() == Apply(old(Image()), Rearm(id))
      ensures found <==> id in old(outbox)
      ensures outbox.Keys == old(outbox).Keys && forall x :: x in outbox && x != id ==> outbox[x] == old(outbox)[x]
      ensures found ==>
                var row := outbox[id];
                && row.state == Pending && row.attempts == 0 && row.nextAttemptAt == now && row.ownerToken == None
                && row.intent == old(outbox)[id].intent && row.completedAt == None && row.lastError == None
    {
      found := id in outbox;
      if found {
        outbox := outbox[id := OutboxRow(outbox[id].intent, Pending, None, None, 0, now, None, None)];
      }
    }

    /** The fenced completion; `done` is the affected-rows test. */
    method CompleteOwnedOutbox(id: EventId, token: Token, state: OutboxState, reason: Option<Note>) returns (done: bool)
      requires id in outbox
      modifies this`outbox
      ensures done == CanFinish(old(outbox)[id], token, now)
      ensures outbox == if done then old(outbox)[id := FinishRow(old(outbox)[id], state, reason, now)] else old(outbox)
      ensures done ==> && Closed(old(outbox)[id], outbox[id], now)
                       && outbox[id].state == state && outbox[id].lastError == reason
    {
      var row := outbox[id];
      done := row.state == Processing && row.ownerToken == Some(token)
              && row.ownerExpiresAt.Some? && row.ownerExpiresAt.value > now;
      if done {
        outbox := outbox[id := row.(state := state, completedAt := Some(now), ownerToken := None,
                                    ownerExpiresAt := None, lastError := reason)];
      }
    }

    /** SELECT … ORDER BY occurredAt DESC, eventId DESC LIMIT 1. */
    method SelectLatest(rows: set<EventRow>) returns (latest: Option<EventRow>)
      requires DistinctIds(rows)
      ensures LatestSoFar(rows, latest)
    {
      latest := None;
      var todo := rows;
      ghost var done: set<EventRow> := {};
      while todo != {}
        invariant done + todo == rows && done !! todo
        invariant LatestSoFar(done, latest)
        decreases |todo|
      {
        var e :| e in todo;
        LatestOfMore(done, latest, e, rows);
        if latest.None? || Newer(e, latest.value) { latest := Some(e); }
        todo, done := todo - {e}, done + {e};
      }
    }

    /** SELECT actorUserId … GROUP BY actorUserId ORDER BY MAX(occurredAt) DESC, MAX(eventId) DESC LIMIT 3. */
    method SelectTopActors(rows: set<EventRow>) returns (actors: seq<UserId>)
      requires DistinctIds(rows)
      ensures IsTop(rows, Actors(rows), 3, actors)
    {
      actors := [];
      var pool := Actors(rows);
      while |actors| < 3 && pool != {}
        invariant |actors| <= 3 && |actors| + |pool| == |Actors(rows)|
        invariant pool == Actors(rows) - (set a | a in actors)
        invariant IsTop(rows, Actors(rows), |actors|, actors)
        decreases |pool|
      {
        ghost var leader := LeaderExists(rows, pool);
        var a :| a in pool && Leads(rows, pool, a);
        AppendLeader(rows, Actors(rows), actors, a);
        actors, pool := actors + [a], pool - {a};
      }
    }

    /** projectEvent. A thrown error rolls every table back to the start of the transaction. */
    method ProjectInTransaction(ghost dir: Directory, id: EventId, token: Token, commitAt: int, inboxId: int)
      returns (outcome: Outcome)
      requires Agrees(content, dir) && EventsOk(dir, outbox, events) && now <= commitAt
      modifies this`now, this`outbox, this`events, this`inbox
      ensures Image() == ProjectTx(old(Image()), id, token, commitAt, inboxId)
      ensures outcome == Finished <==> id in old(outbox) && CanFinish(old(outbox)[id], token, commitAt)
      ensures outcome == Threw ==> outbox == old(outbox) && events == old(events) && inbox == old(inbox)
    {
      if id !in outbox || !OwnedBy(outbox[id], token) {
        now := commitAt;
        return Ignored;
      }
      var row := outbox[id];
      if row.ownerExpiresAt.Some? && row.ownerExpiresAt.value <= now {
        now := commitAt;
        return Ignored;
      }
      now := commitAt;
      var savedEvents, savedInbox := events, inbox;
      var state, reason := Completed, None;
      var resolution := Resolve(content, id, row.intent);
      match resolution {
        case Suppress(why) => state, reason := Suppressed, Some(why);
        case Contribute(e) =>
          ResolvedMatchesBlueprint(content, dir, id, row.intent);
          if !(exists x :: x in events && x.eventId == id && x.recipient == e.recipient) {
            RecordedMeansContributed(dir, Image(), id, e);
            Contribution(e, inboxId);
          }
      }
      var done := CompleteOwnedOutbox(id, token, state, reason);
      if !done {
        events, inbox := savedEvents, savedInbox;
        return Threw;
      }
      outcome := Finished;
    }

    /**
     projectEvent. A worker whose token and lease are good finishes the row, any other changes nothing. When
     activities name at most one context, it completes exactly a deliverable event, which is told to its
     recipient from then on, and suppresses any other.
     */
    method ProjectEvent(ghost dir: Directory, id: EventId, token: Token, commitAt: int, inboxId: int)
      returns (outcome: Outcome)
      requires Agrees(content, dir) && EventsOk(dir, outbox, events) && ShapesOk(events, inbox) && now <= commitAt
      modifies this`now, this`outbox, this`events, this`inbox
      ensures Image() == ProjectTx(old(Image()), id, token, commitAt, inboxId)
      ensures outcome != Finished ==> outbox == old(outbox) && events == old(events) && inbox == old(inbox)
      ensures outcome == Finished <==>
                && id in old(outbox) && old(outbox)[id].state == Processing && old(outbox)[id].ownerToken == Some(token)
                && old(outbox)[id].ownerExpiresAt.Some? && commitAt < old(outbox)[id].ownerExpiresAt.value
      ensures outcome == Finished ==>
                var row := outbox[id];
                row.intent == old(outbox)[id].intent && row.ownerToken == None && row.completedAt == Some(commitAt)
      ensures outcome == Finished && MembershipsResolve(content) && SingleContext(content) ==>
                var row := outbox[id];
                if Deliverable(content, row.intent)
                then row.state == Completed && Told(content, row.intent, events, inbox, id)
                else row.state == Suppressed && events == old(events) && inbox == old(inbox)
    {
      ghost var before := Image();
      outcome := ProjectInTransaction(dir, id, token, commitAt, inboxId);
      if outcome == Finished && MembershipsResolve(content) && SingleContext(content) {
        ProjectionOutcome(dir, before, id, token, commitAt, inboxId);
      }
    }

    /** The contribution part of projectEvent: upsert, idempotent reads, event insert, aggregate update. */
    method Contribution(e: EventRow, inboxId: int)
      requires DistinctIds(events + {e}) && e !in events
      modifies this`events, this`inbox
      ensures events == old(events) + {e}
      ensures inbox == AddContribution(old(Image()), e, inboxId).inbox
    {
      if e.group !in inbox {
        inbox := inbox[e.group := NewItem(e, inboxId)];
      }
      var prior := GroupRows(events, e.group);
      var latest := SelectLatest(prior);
      GroupRowsOfInsert(events, e, e.group);
      events := events + {e};
      var item := Aggregate(inbox[e.group], prior, latest, e);
      inbox := inbox[e.group := item];
    }

    /** The comparison with the latest row of the group. */
    method IsNewest(prior: set<EventRow>, latest: Option<EventRow>, e: EventRow) returns (newest: bool)
      requires LatestSoFar(prior, latest)
      ensures newest == NewerThanAll(e, prior)
    {
      newest := latest.None? || e.occurredAt > latest.value.occurredAt
                || (e.occurredAt == latest.value.occurredAt && e.eventId > latest.value.eventId);
      if latest.Some? { LatestDecidesNewest(prior, latest.value, e); }
    }

    /** Whether the actor had contributed to the group before; rows without an actor never count. */
    method IsKnownActor(prior: set<EventRow>, e: EventRow) returns (known: bool)
      ensures e.actor.Some? ==> (known <==> e.actor.value in Actors(prior))
    {
      known := exists x :: x in prior && x.actor == e.actor && e.actor.Some?;
    }

    method TopActorsWith(prior: set<EventRow>, e: EventRow) returns (actors: seq<UserId>)
      requires DistinctIds(prior + {e})
      ensures actors == TopThree(prior + {e})
    {
      actors := SelectTopActors(prior + {e});
      TopIsUnique(prior + {e}, Actors(prior + {e}), 3, actors, TopThree(prior + {e}));
    }

    /** The column values of the final inbox update, from what was read before the event was inserted. */
    method Aggregate(item: InboxRow, prior: set<EventRow>, latest: Option<EventRow>, e: EventRow)
      returns (updated: InboxRow)
      requires DistinctIds(prior + {e})
      requires LatestSoFar(prior, latest)
      ensures updated == Bump(item, prior, e)
    {
      var isNewer := IsNewest(prior, latest, e);
      var knownActor := IsKnownActor(prior, e);
      var actors := TopActorsWith(prior, e);
      updated := item.(eventCount := item.eventCount + 1,
                       actorCount := item.actorCount + (if e.actor.Some? && !knownActor then 1 else 0),
                       actorIds := actors,
                       version := item.version + 1,
                       visible := true);
      if isNewer {
        updated := updated.(lastEventAt := e.occurredAt, preview := Some(e.preview), target := Some(e.target),
                            trigger := e.trigger, redacted := false);
      }
    }

    /** invalidateComment, in the transaction that has just deleted the comment. */
    method InvalidateComment(c: CommentId)
      modifies this`inbox
      ensures inbox == RedactComment(old(inbox), events, content, c)
    {
      var groups := set g | g in inbox && Touched(inbox[g], GroupRows(events, g), c);
      var todo := groups;
      while todo != {}
        invariant todo <= groups && inbox.Keys == old(inbox).Keys
        invariant forall g :: g in inbox && g in todo ==> inbox[g] == old(inbox)[g]
        invariant forall g :: g in inbox && g !in todo ==>
                    inbox[g] == RedactItem(old(inbox)[g], GroupRows(events, g), content, c)
        decreases |todo|
      {
        var g :| g in todo;
        RedactOne(g, c);
        todo := todo - {g};
      }
    }

    /** One iteration of the loop, over an item of a group that mentions the comment. */
    method RedactOne(g: GroupKey, c: CommentId)
      requires g in inbox && Touched(inbox[g], GroupRows(events, g), c)
      modifies this`inbox
      ensures inbox == old(inbox)[g := RedactItem(old(inbox)[g], GroupRows(events, g), content, c)]
    {
      var item := inbox[g];
      if !item.visible { return; }
      if item.subject == OnComment(c) {
        inbox := inbox[g := item.(visible := false)];
        return;
      }
      if item.trigger != Some(c) && !item.redacted { return; }
      var active := exists e :: e in GroupRows(events, g) && e.trigger != Some(c) && TriggerStored(content, e);
      var target := if item.target.Some? then Some(item.target.value.(focus := None)) else None;
      inbox := inbox[g := item.(visible := active, redacted := true, preview := Some(CommentDeleted),
                                target := target, trigger := None)];
    }

    /** A comment deletion as the comment service performs it: delete, cascade, invalidate. */
    method RemoveComment(c: CommentId)
      modifies this`content, this`inbox
      ensures Image() == Apply(old(Image()), DeleteComment(c))
    {
      if c in content.comments {
        content := WithoutComment(content, c);
        InvalidateComment(c);
      }
    }

    /** The bulk update of invalidateContent for one piece of content. */
    method HideOne(root: Root)
      modifies this`inbox
      ensures inbox == HideRoots(old(inbox), {root})
    {
      inbox := map g | g in inbox ::
        if (inbox[g].subject.OnRoot? && inbox[g].subject.root == root) || inbox[g].root == Some(root)
        then inbox[g].(visible := false) else inbox[g];
    }

    /** invalidateContent: the bulk update for the content, then itself for every derived activity. */
    method InvalidateRoot(root: Root)
      modifies this`inbox
      ensures inbox == HideRoots(old(inbox), Hidden(content, root))
      decreases root.kind != Activity, 1
    {
      var derived := DerivedRoots(content, root);
      HideOne(root);
      if derived == {} { return; }
      HideRootsCompose(old(inbox), {root}, derived);
      InvalidateActivities(derived);
    }

    /** The recursion of invalidateContent; activities have nothing derived from them. */
    method InvalidateActivities(activities: set<Root>)
      requires forall r :: r in activities ==> r.kind == Activity
      modifies this`inbox
      ensures inbox == HideRoots(old(inbox), activities)
      decreases true, 0
    {
      var todo := activities;
      ghost var done: set<Root> := {};
      HideNothing(inbox);
      while todo != {}
        invariant done <= activities && todo == activities - done
        invariant inbox == HideRoots(old(inbox), done)
        decreases |todo|
      {
        var activity :| activity in todo;
        InvalidateActivity(old(inbox), done, activity);
        todo, done := todo - {activity}, done + {activity};
      }
      assert done == activities;
    }

    method InvalidateActivity(ghost first: map<GroupKey, InboxRow>, ghost done: set<Root>, activity: Root)
      requires activity.kind == Activity && inbox == HideRoots(first, done)
      modifies this`inbox
      ensures inbox == HideRoots(first, done + {activity})
      decreases false, 2
    {
      assert Hidden(content, activity) == {activity};
      HideRootsCompose(first, done, {activity});
      InvalidateRoot(activity);
    }

    /** invalidateContent in the transaction that then deletes the content. */
    method RemoveContent(root: Root, rest: Tables)
      modifies this`content, this`inbox
      ensures Image() == Apply(old(Image()), Step.InvalidateContent({root}, rest))
      ensures content == rest
    {
      ReachedFromOne(content, root);
      InvalidateRoot(root);
      content := rest;
    }

    /** The loop of invalidateProfile over the profile's content of one kind. */
    method InvalidateOwned(user: UserId, kind: RootKind)
      modifies this`inbox
      ensures inbox == HideRoots(old(inbox), Reached(content, OwnedOfKind(content, user, kind)))
    {
      InvalidateAll(OwnedOfKind(content, user, kind));
    }

    method InvalidateAll(roots: set<Root>)
      modifies this`inbox
      ensures inbox == HideRoots(old(inbox), Reached(content, roots))
    {
      var todo := roots;
      ghost var done: set<Root> := {};
      NothingReached(content, inbox);
      while todo != {}
        invariant done <= roots && todo == roots - done
        invariant inbox == HideRoots(old(inbox), Reached(content, done))
        decreases |todo|
      {
        var root :| root in todo;
        InvalidateMore(old(inbox), done, root);
        todo, done := todo - {root}, done + {root};
      }
      assert done == roots;
    }

    /** One more root after those in `done`. */
    method InvalidateMore(ghost first: map<GroupKey, InboxRow>, ghost done: set<Root>, root: Root)
      requires inbox == HideRoots(first, Reached(content, done))
      modifies this`inbox
      ensures inbox == HideRoots(first, Reached(content, done + {root}))
    {
      ReachedOneMore(content, done, root);
      HideRootsCompose(first, Reached(content, done), Hidden(content, root));
      InvalidateRoot(root);
    }

    /** The loop over the three kinds. */
    method InvalidateAllOwned(user: UserId)
      modifies this`inbox
      ensures inbox == HideRoots(old(inbox), Reached(content, OwnedRoots(content, user)))
    {
      ghost var p := Reached(content, OwnedOfKind(content, user, Post));
      ghost var r := Reached(content, OwnedOfKind(content, user, Review));
      ghost var a := Reached(content, OwnedOfKind(content, user, Activity));
      HideRootsCompose(old(inbox), p, r);
      HideRootsCompose(old(inbox), p + r, a);
      ReachedByKinds(content, user);
      InvalidateOwned(user, Post);
      InvalidateOwned(user, Review);
      InvalidateOwned(user, Activity);
    }

    /** The outbox update of invalidateProfile. */
    method SuppressRecipient(user: UserId)
      modifies this`outbox
      ensures outbox == map id | id in old(outbox) :: RemoveRecipient(old(outbox)[id], user, now)
    {
      outbox := map id | id in outbox ::
        if outbox[id].intent.recipient == Some(user) && (outbox[id].state == Pending || outbox[id].state == Processing)
        then outbox[id].(state := Suppressed, ownerToken := None, ownerExpiresAt := None, completedAt := Some(now),
                         lastError := Some(RecipientRemoved))
        else outbox[id];
    }

    /** The last update of invalidateProfile: everything addressed to the profile is hidden. */
    method HideAllOf(user: UserId)
      modifies this`inbox
      ensures inbox == HideRecipient(old(inbox), user)
    {
      inbox := map g | g in inbox :: if g.recipient == user then inbox[g].(visible := false) else inbox[g];
    }

    /** invalidateProfile in the transaction that then deletes the profile and its content. */
    method RemoveProfileOf(user: UserId, rest: Tables)
      modifies this`content, this`outbox, this`inbox
      ensures Image() == Apply(old(Image()), Step.RemoveProfile(user, rest))
      ensures content == rest
    {
      InvalidateAllOwned(user);
      SuppressRecipient(user);
      HideAllOf(user);
      content := rest;
    }

    /** acknowledgeRead, first half: every item is checked against one reading of the inbox. */
    method CheckAcknowledgement(user: UserId, items: seq<(GroupKey, int)>) returns (result: Result<seq<Ack>, AckError>)
      modifies this`acks
      ensures result.Ok? <==> forall i :: 0 <= i < |items| ==>
                items[i].0 in inbox && items[i].0.recipient == user && items[i].1 <= inbox[items[i].0].version
      ensures result == Err(UnknownItem) <==>
              exists i :: 0 <= i < |items| && (items[i].0 !in inbox || items[i].0.recipient != user)
      ensures result.Err? && result.error.VersionAhead? ==>
                exists i :: && 0 <= i < |items| && items[i].0 in inbox && items[i].1 == result.error.version
                            && inbox[items[i].0].version == result.error.current < items[i].1
      ensures result.Ok? ==> |result.value| == |items|
                             && (forall i :: 0 <= i < |items| ==> result.value[i] == Ack(user, items[i].0, items[i].1))
                             && acks == old(acks) + set a | a in result.value
      ensures result.Err? ==> acks == old(acks)
    {
      var checked: seq<Ack> := [];
      for i := 0 to |items|
        invariant forall k :: 0 <= k < i ==> items[k].0 in inbox && items[k].0.recipient == user
      {
        if items[i].0 !in inbox || items[i].0.recipient != user {
          return Err(UnknownItem);
        }
      }
      for i := 0 to |items|
        invariant |checked| == i
        invariant forall k :: 0 <= k < i ==>
            checked[k] == Ack(user, items[k].0, items[k].1) && AckAccepted(Image(), checked[k])
      {
        if items[i].1 > inbox[items[i].0].version {
          return Err(VersionAhead(items[i].1, inbox[items[i].0].version));
        }
        checked := checked + [Ack(user, items[i].0, items[i].1)];
      }
      acks := acks + set a | a in checked;
      result := Ok(checked);
    }

    /** acknowledgeRead, second half: one update per item. */
    method WriteAcknowledgement(checked: seq<Ack>)
      modifies this`inbox
      ensures Image() == Run(old(Image()), AckSteps(checked))
      ensures ReadMarks(old(inbox), inbox, checked)
    {
      assert VersionsFor(checked[..0], ByLike(0, OnOther(0), 0)) == {};
      for i := 0 to |checked|
        invariant Image() == Run(old(Image()), AckSteps(checked[..i]))
        invariant ReadMarks(old(inbox), inbox, checked[..i])
      {
        var ack := checked[i];
        RunAppend(old(Image()), AckSteps(checked[..i]), WriteAck(ack));
        assert AckSteps(checked[..i + 1]) == AckSteps(checked[..i]) + [WriteAck(ack)];
        assert checked[..i + 1] == checked[..i] + [ack];
        ghost var before := inbox;
        WriteOne(ack);
        ReadOneMore(old(inbox), before, inbox, checked[..i], ack);
      }
      assert checked[..|checked|] == checked;
    }

    /** UPDATE … SET readVersion = GREATEST(readVersion, version). */
    method WriteOne(ack: Ack)
      modifies this`inbox
      ensures Image() == Apply(old(Image()), WriteAck(ack))
      ensures inbox.Keys == old(inbox).Keys
      ensures forall g :: g in inbox ==>
                ReadUpTo(old(inbox)[g], inbox[g], if g == ack.group then {ack.version} else {})
    {
      if ack.group in inbox {
        var item := inbox[ack.group];
        var greatest := if item.readVersion >= ack.version then item.readVersion else ack.version;
        inbox := inbox[ack.group := item.(readVersion := greatest)];
      }
    }
  }
}
