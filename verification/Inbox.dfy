/**
 Contribution rows and the inbox groups that aggregate them. `Bump` is the incremental update
 made by projectEvent; `Summarises` is the aggregate recomputed from the set of contributions.
 */
module Inbox {
  import opened Prelude
  import opened Content
  import opened Outbox

  datatype Kind = Liked | Created | Replied | Followed | Imported | Reauth | Moderated | Unlocked

  datatype Subject = OnRoot(root: Root) | OnComment(comment: CommentId) | OnOther(id: int)

  /** The grouping key. Every variant carries its recipient, as every key string does. */
  datatype GroupKey =
    | ByLike(recipient: UserId, subject: Subject, day: int)
    | ByRoot(recipient: UserId, root: Root, day: int)
    | ByParent(recipient: UserId, parent: CommentId, day: int)
    | Alone(recipient: UserId, kind: Kind, event: EventId)

  datatype Preview = LikedYours | CommentText(text: int) | Notice(kind: Kind) | CommentDeleted

  /** Navigation target; `focus` is the comment the reader is taken to. */
  datatype Target = Target(place: Subject, focus: Option<CommentId>)

  datatype EventRow = EventRow(
    eventId: EventId,
    kind: Kind,
    recipient: UserId,
    group: GroupKey,
    actor: Option<UserId>,
    subject: Subject,
    root: Option<Root>,
    trigger: Option<CommentId>,
    preview: Preview,
    target: Target,
    occurredAt: int)

  datatype InboxRow = InboxRow(
    id: int,
    kind: Kind,
    subject: Subject,
    root: Option<Root>,
    trigger: Option<CommentId>,
    preview: Option<Preview>,
    target: Option<Target>,
    actorIds: seq<UserId>,
    eventCount: int,
    actorCount: int,
    lastEventAt: int,
    version: int,
    readVersion: int,
    visible: bool,
    redacted: bool)

  function GroupRows(events: set<EventRow>, g: GroupKey): set<EventRow> {
    set e | e in events && e.group == g
  }

  // ----- newest contribution -----

  /** (occurredAt, eventId) in lexicographic order: a is strictly newer than b. */
  predicate Newer(a: EventRow, b: EventRow) {
    a.occurredAt > b.occurredAt || (a.occurredAt == b.occurredAt && a.eventId > b.eventId)
  }

  predicate NewerThanAll(e: EventRow, rows: set<EventRow>) {
    forall x :: x in rows ==> Newer(e, x)
  }

  predicate IsLatest(rows: set<EventRow>, e: EventRow) {
    e in rows && NewerThanAll(e, rows - {e})
  }

  /** The unique key (eventId, recipient), seen inside one recipient's rows. */
  predicate DistinctIds(rows: set<EventRow>) {
    forall a, b :: a in rows && b in rows && a.eventId == b.eventId ==> a == b
  }

  lemma {:induction false} LatestExists(rows: set<EventRow>) returns (latest: EventRow)
    requires rows != {} && DistinctIds(rows)
    ensures IsLatest(rows, latest)
    decreases |rows|
  {
    var e :| e in rows;
    var rest := rows - {e};
    latest := e;
    if rest != {} {
      var best := LatestExists(rest);
      assert forall x :: x in rest ==> x == best || Newer(best, x);
      assert best.eventId != e.eventId;
      if Newer(best, e) { latest := best; }
    }
  }

  /** Comparing with the latest stored row decides whether a row is newer than all of them. */
  lemma LatestDecidesNewest(rows: set<EventRow>, latest: EventRow, e: EventRow)
    requires IsLatest(rows, latest)
    ensures Newer(e, latest) <==> NewerThanAll(e, rows)
  {
    assert forall x :: x in rows ==> x == latest || x in rows - {latest};
  }

  // ----- actors -----

  function Actors(rows: set<EventRow>): set<UserId> {
    set e | e in rows && e.actor.Some? :: e.actor.value
  }

  function TimesOf(rows: set<EventRow>, a: UserId): set<int> {
    set e | e in rows && e.actor == Some(a) :: e.occurredAt
  }

  function IdsOf(rows: set<EventRow>, a: UserId): set<int> {
    set e | e in rows && e.actor == Some(a) :: e.eventId
  }

  /** ORDER BY MAX(occurredAt) DESC, MAX(eventId) DESC over the rows of each actor. */
  predicate Outranks(rows: set<EventRow>, a: UserId, b: UserId) {
    var ta, tb := MaxOf(TimesOf(rows, a)), MaxOf(TimesOf(rows, b));
    ta > tb || (ta == tb && MaxOf(IdsOf(rows, a)) > MaxOf(IdsOf(rows, b)))
  }

  /** Different actors never tie: their newest event ids belong to different events. */
  lemma ActorsAreRanked(rows: set<EventRow>, a: UserId, b: UserId)
    requires DistinctIds(rows) && a in Actors(rows) && b in Actors(rows) && a != b
    ensures Outranks(rows, a, b) || Outranks(rows, b, a)
  {
    var ea :| ea in rows && ea.actor == Some(a);
    assert ea.eventId in IdsOf(rows, a);
    var eb :| eb in rows && eb.actor == Some(b);
    assert eb.eventId in IdsOf(rows, b);
    var ma := MaxOf(IdsOf(rows, a));
    var xa :| xa in rows && xa.actor == Some(a) && xa.eventId == ma;
    var mb := MaxOf(IdsOf(rows, b));
    var xb :| xb in rows && xb.actor == Some(b) && xb.eventId == mb;
  }

  /**
   The first `k` actors of `pool` in rank order: as many as there are, in rank order, and nobody
   left out ranks above a listed actor.
   */
  predicate IsTop(rows: set<EventRow>, pool: set<UserId>, k: nat, actors: seq<UserId>) {
    && |actors| == Min(k, |pool|)
    && (forall i :: 0 <= i < |actors| ==> actors[i] in pool)
    && (forall i, j :: 0 <= i < j < |actors| ==> Outranks(rows, actors[i], actors[j]))
    && (forall a, i :: a in pool && a !in actors && 0 <= i < |actors| ==> Outranks(rows, actors[i], a))
  }

  predicate Leads(rows: set<EventRow>, pool: set<UserId>, a: UserId) {
    a in pool && forall b :: b in pool && b != a ==> Outranks(rows, a, b)
  }

  lemma {:induction false} LeaderExists(rows: set<EventRow>, pool: set<UserId>) returns (a: UserId)
    requires DistinctIds(rows) && pool <= Actors(rows) && pool != {}
    ensures Leads(rows, pool, a)
    decreases |pool|
  {
    var x := Member(pool);
    var rest := pool - {x};
    assert forall b :: b in pool ==> b == x || b in rest;
    a := x;
    if rest != {} {
      var y := LeaderExists(rows, rest);
      ActorsAreRanked(rows, x, y);
      if Outranks(rows, y, x) { a := y; }
    }
  }

  lemma {:induction false} TopExists(rows: set<EventRow>, pool: set<UserId>, k: nat) returns (actors: seq<UserId>)
    requires DistinctIds(rows) && pool <= Actors(rows)
    ensures IsTop(rows, pool, k, actors)
    decreases k
  {
    if k == 0 || pool == {} {
      actors := [];
    } else {
      var a := LeaderExists(rows, pool);
      var rest := TopExists(rows, pool - {a}, k - 1);
      actors := [a] + rest;
      assert forall i :: 0 < i < |actors| ==> actors[i] == rest[i - 1];
      assert forall b :: b in pool && b !in actors ==> b in pool - {a} && b !in rest;
    }
  }

  /** Taking the leader of the actors not yet listed extends the list by one. */
  lemma AppendLeader(rows: set<EventRow>, all: set<UserId>, actors: seq<UserId>, a: UserId)
    requires |actors| < |all| && IsTop(rows, all, |actors|, actors)
    requires Leads(rows, all - (set x | x in actors), a)
    ensures IsTop(rows, all, |actors| + 1, actors + [a])
  {
    var longer := actors + [a];
    forall b, i | b in all && b !in longer && 0 <= i < |longer| ensures Outranks(rows, longer[i], b) {
      assert b !in actors && b != a;
      if i < |actors| { assert Outranks(rows, actors[i], b); }
    }
  }

  /** The ORDER BY … LIMIT result is a function of the set of rows: any two answers coincide. */
  lemma {:induction false} TopIsUnique(rows: set<EventRow>, pool: set<UserId>, k: nat, xs: seq<UserId>, ys: seq<UserId>)
    requires IsTop(rows, pool, k, xs) && IsTop(rows, pool, k, ys)
    ensures xs == ys
    decreases |xs|
  {
    if xs == [] {
      assert ys == [];
    } else {
      assert xs[0] in pool && ys[0] in pool;
      if xs[0] != ys[0] {
        assert Outranks(rows, xs[0], ys[0]) && Outranks(rows, ys[0], xs[0]);
        assert false;
      }
      TopTail(rows, pool, k, xs);
      TopTail(rows, pool, k, ys);
      TopIsUnique(rows, pool - {xs[0]}, k - 1, xs[1..], ys[1..]);
      assert xs == [xs[0]] + xs[1..] && ys == [ys[0]] + ys[1..];
    }
  }

  lemma TopTail(rows: set<EventRow>, pool: set<UserId>, k: nat, xs: seq<UserId>)
    requires IsTop(rows, pool, k, xs) && xs != []
    ensures k > 0 && IsTop(rows, pool - {xs[0]}, k - 1, xs[1..])
  {
    var tail := xs[1..];
    forall i | 0 <= i < |tail| ensures tail[i] in pool - {xs[0]} {
      assert Outranks(rows, xs[0], xs[i + 1]);
    }
    forall a, i | a in pool - {xs[0]} && a !in tail && 0 <= i < |tail| ensures Outranks(rows, tail[i], a) {
      assert a !in xs;
      assert tail[i] == xs[i + 1];
    }
  }

  /** The actorIds column: at most three actors, latest activity first. */
  ghost function TopThree(rows: set<EventRow>): (actors: seq<UserId>)
    ensures DistinctIds(rows) ==> IsTop(rows, Actors(rows), 3, actors)
  {
    assert DistinctIds(rows) ==> exists xs :: IsTop(rows, Actors(rows), 3, xs) by {
      if DistinctIds(rows) { var xs := TopExists(rows, Actors(rows), 3); }
    }
    if exists xs :: IsTop(rows, Actors(rows), 3, xs) then
      var xs :| IsTop(rows, Actors(rows), 3, xs); xs
    else []
  }

  // ----- the incremental update and the recomputation -----

  function NewItem(e: EventRow, id: int): InboxRow {
    InboxRow(id, e.kind, e.subject, e.root, None, None, None, [], 0, 0, e.occurredAt, 0, 0, true, false)
  }

  /** The UPDATE of projectEvent for contribution `e` over the rows `prior` already in its group. */
  ghost function Bump(item: InboxRow, prior: set<EventRow>, e: EventRow): InboxRow {
    var newest := NewerThanAll(e, prior);
    item.(eventCount := item.eventCount + 1,
          actorCount := item.actorCount + (if e.actor.Some? && e.actor.value !in Actors(prior) then 1 else 0),
          actorIds := TopThree(prior + {e}),
          version := item.version + 1,
          lastEventAt := if newest then e.occurredAt else item.lastEventAt,
          preview := if newest then Some(e.preview) else item.preview,
          target := if newest then Some(e.target) else item.target,
          trigger := if newest then e.trigger else item.trigger,
          visible := true,
          redacted := if newest then false else item.redacted)
  }

  predicate ShowsLatest(item: InboxRow, latest: EventRow) {
    && item.lastEventAt == latest.occurredAt
    && (!item.redacted ==>
          && item.preview == Some(latest.preview)
          && item.target == Some(latest.target)
          && item.trigger == latest.trigger)
  }

  /** The item is the aggregate of exactly these contributions. */
  ghost predicate Summarises(item: InboxRow, rows: set<EventRow>) {
    && item.eventCount == |rows|
    && item.version == |rows|
    && item.actorCount == |Actors(rows)|
    && (rows != {} ==> IsTop(rows, Actors(rows), 3, item.actorIds))
    && (forall e :: IsLatest(rows, e) ==> ShowsLatest(item, e))
  }

  lemma NewItemSummarisesNothing(e: EventRow, id: int)
    ensures Summarises(NewItem(e, id), {})
  {
  }

  lemma ActorsOfInsert(rows: set<EventRow>, e: EventRow)
    ensures Actors(rows + {e}) == Actors(rows) + (if e.actor.Some? then {e.actor.value} else {})
  {
    forall a | a in Actors(rows) + (if e.actor.Some? then {e.actor.value} else {})
      ensures a in Actors(rows + {e})
    {
      if a in Actors(rows) {
        var x :| x in rows && x.actor == Some(a);
        assert x in rows + {e};
      } else {
        assert e in rows + {e} && e.actor == Some(a);
      }
    }
  }

  /** No row, or the newest one. */
  predicate LatestSoFar(rows: set<EventRow>, latest: Option<EventRow>) {
    if rows == {} then latest.None? else latest.Some? && IsLatest(rows, latest.value)
  }

  /** The newer of a row and the latest so far is the latest of both. */
  lemma LatestOfMore(done: set<EventRow>, latest: Option<EventRow>, e: EventRow, all: set<EventRow>)
    requires DistinctIds(all) && done <= all && e in all && e !in done
    requires LatestSoFar(done, latest)
    ensures LatestSoFar(done + {e}, Some(if latest.None? || Newer(e, latest.value) then e else latest.value))
  {
    if latest.Some? {
      LatestDecidesNewest(done, latest.value, e);
      assert Newer(e, latest.value) || Newer(latest.value, e);
    }
    assert done + {e} - {e} == done;
  }

  lemma LatestOfInsert(rows: set<EventRow>, e: EventRow, latest: EventRow)
    requires DistinctIds(rows + {e}) && e !in rows
    requires IsLatest(rows + {e}, latest)
    ensures if NewerThanAll(e, rows) then latest == e else IsLatest(rows, latest)
  {
    if latest == e {
      assert forall x :: x in rows ==> x in rows + {e} - {e};
    } else {
      assert e in rows + {e} - {latest};
      assert Newer(latest, e);
      assert !NewerThanAll(e, rows);
    }
  }

  /** One incremental update keeps the item equal to the recomputation, in whatever order rows arrive. */
  lemma BumpKeepsSummary(item: InboxRow, rows: set<EventRow>, e: EventRow)
    requires DistinctIds(rows + {e}) && e !in rows
    requires Summarises(item, rows)
    ensures Summarises(Bump(item, rows, e), rows + {e})
  {
    BumpCounts(item, rows, e);
    forall latest | IsLatest(rows + {e}, latest) ensures ShowsLatest(Bump(item, rows, e), latest) {
      BumpShowsLatest(item, rows, e, latest);
    }
  }

  lemma BumpCounts(item: InboxRow, rows: set<EventRow>, e: EventRow)
    requires e !in rows && item.eventCount == item.version == |rows| && item.actorCount == |Actors(rows)|
    ensures var after := Bump(item, rows, e);
      after.eventCount == after.version == |rows + {e}| && after.actorCount == |Actors(rows + {e})|
  {
    ActorsOfInsert(rows, e);
    var before := Actors(rows);
    if e.actor.Some? && e.actor.value !in before {
      assert |before + {e.actor.value}| == |before| + 1;
    } else if e.actor.Some? {
      assert before + {e.actor.value} == before;
    } else {
      assert before + {} == before;
    }
  }

  lemma BumpShowsLatest(item: InboxRow, rows: set<EventRow>, e: EventRow, latest: EventRow)
    requires DistinctIds(rows + {e}) && e !in rows && IsLatest(rows + {e}, latest)
    requires forall x :: IsLatest(rows, x) ==> ShowsLatest(item, x)
    ensures ShowsLatest(Bump(item, rows, e), latest)
  {
    LatestOfInsert(rows, e, latest);
  }

  /** Two items over the same contributions agree on every aggregated column. */
  lemma SummaryIsDetermined(a: InboxRow, b: InboxRow, rows: set<EventRow>)
    requires rows != {} && DistinctIds(rows)
    requires Summarises(a, rows) && Summarises(b, rows)
    ensures a.eventCount == b.eventCount && a.version == b.version && a.actorCount == b.actorCount
    ensures a.actorIds == b.actorIds && a.lastEventAt == b.lastEventAt
    ensures !a.redacted && !b.redacted ==> a.preview == b.preview && a.target == b.target && a.trigger == b.trigger
  {
    TopIsUnique(rows, Actors(rows), 3, a.actorIds, b.actorIds);
    var latest := LatestExists(rows);
    assert ShowsLatest(a, latest) && ShowsLatest(b, latest);
  }

  // ----- the actor list against the shown excerpt -----

  /** Another actor ties on time with the newest row yet owns a larger event id than its actor. */
  predicate Overtaken(rows: set<EventRow>, latest: EventRow, b: UserId) {
    && b in Actors(rows)
    && latest.occurredAt in TimesOf(rows, b)
    && latest.actor.Some?
    && MaxOf(IdsOf(rows, b)) > MaxOf(IdsOf(rows, latest.actor.value))
  }

  /** The first listed actor wrote the shown excerpt exactly when no other actor overtakes its author. */
  lemma FirstActorIsNewestAuthor(rows: set<EventRow>, latest: EventRow, actors: seq<UserId>)
    requires DistinctIds(rows) && IsLatest(rows, latest) && latest.actor.Some?
    requires IsTop(rows, Actors(rows), 3, actors)
    ensures actors != []
    ensures actors[0] == latest.actor.value <==>
            !(exists b :: b != latest.actor.value && Overtaken(rows, latest, b))
  {
    var a := latest.actor.value;
    assert a in Actors(rows);
    assert Actors(rows) != {} && actors != [];
    assert latest.occurredAt in TimesOf(rows, a);
    assert IsMax(TimesOf(rows, a), latest.occurredAt) by { TimesBounded(rows, latest, a); }
    if b :| b != a && Overtaken(rows, latest, b) {
      TimesBounded(rows, latest, b);
      assert Outranks(rows, b, a);
      assert actors[0] != a by {
        if actors[0] == a { assert Outranks(rows, a, b) by { HeadOutranks(rows, actors, b); } }
      }
    } else if actors[0] != a {
      HeadOutranks(rows, actors, a);
      TimesBounded(rows, latest, actors[0]);
      assert Overtaken(rows, latest, actors[0]);
      assert false;
    }
  }

  lemma TimesBounded(rows: set<EventRow>, latest: EventRow, b: UserId)
    requires IsLatest(rows, latest) && b in Actors(rows)
    ensures MaxOf(TimesOf(rows, b)) <= latest.occurredAt
    ensures latest.occurredAt in TimesOf(rows, b) <==> MaxOf(TimesOf(rows, b)) == latest.occurredAt
  {
    var e :| e in rows && e.actor == Some(b);
    assert e.occurredAt in TimesOf(rows, b);
    var x :| x in rows && x.actor == Some(b) && x.occurredAt == MaxOf(TimesOf(rows, b));
    assert x == latest || x in rows - {latest};
  }

  lemma HeadOutranks(rows: set<EventRow>, actors: seq<UserId>, b: UserId)
    requires IsTop(rows, Actors(rows), 3, actors) && actors != []
    requires b in Actors(rows) && b != actors[0]
    ensures Outranks(rows, actors[0], b)
  {
    if b in actors {
      var j :| 0 <= j < |actors| && actors[j] == b;
      assert Outranks(rows, actors[0], actors[j]);
    }
  }

  /** A tie on time where the listed order and the excerpt disagree. */
  lemma OvertakenExample() returns (rows: set<EventRow>, latest: EventRow)
    ensures DistinctIds(rows) && IsLatest(rows, latest) && latest.actor == Some(1)
    ensures forall actors :: IsTop(rows, Actors(rows), 3, actors) ==> actors != [] && actors[0] == 2
  {
    var row := EventRow(5, Liked, 9, ByLike(9, OnOther(0), 0), Some(1), OnOther(0), None, None, LikedYours,
                        Target(OnOther(0), None), 100);
    latest := row;
    var tied := row.(eventId := 3, actor := Some(2));
    var older := row.(eventId := 7, actor := Some(2), occurredAt := 50);
    rows := {latest, tied, older};
    assert latest in rows && tied in rows && older in rows;
    assert latest.occurredAt in TimesOf(rows, 2) && older.eventId in IdsOf(rows, 2);
    assert IdsOf(rows, 1) == {5} by { assert latest.eventId in IdsOf(rows, 1); }
    assert 2 in Actors(rows);
    assert Overtaken(rows, latest, 2);
    assert Actors(rows) == {1, 2} by { assert 1 in Actors(rows); }
    forall actors | IsTop(rows, Actors(rows), 3, actors) ensures actors != [] && actors[0] == 2 {
      FirstActorIsNewestAuthor(rows, latest, actors);
      assert actors[0] in Actors(rows);
    }
  }
}
