/** What a projection under a live lease does to the tables, column by column. */
module Delivery {
  import opened Prelude
  import opened Content
  import opened Outbox
  import opened Inbox
  import opened Projection
  import opened Protocol

  /** The event has a row that tells its recipient what it is about, and that row's item is there. */
  ghost predicate Told(t: Tables, intent: Intent, events: set<EventRow>, inbox: map<GroupKey, InboxRow>, id: EventId) {
    exists e :: e in events && e.eventId == id && Tells(t, intent, e) && e.group in inbox
  }

  /** Whoever recorded the event, and whatever its excerpt was then, its row tells the same. */
  lemma RecordedTellsTheSame(dir: Directory, t: Tables, intent: Intent, a: EventRow, b: EventRow)
    requires FollowsBlueprint(dir, intent, a) && FollowsBlueprint(dir, intent, b) && a.eventId == b.eventId
    ensures Tells(t, intent, a) <==> Tells(t, intent, b)
  {
    assert Anonymous(a) == Anonymous(b);
    assert Anonymous(a).kind == a.kind && Anonymous(a).recipient == a.recipient && Anonymous(a).actor == a.actor;
    assert Anonymous(a).subject == a.subject && Anonymous(a).root == a.root && Anonymous(a).trigger == a.trigger;
  }

  /**
   A worker whose token and lease are good ends the row: a deliverable event is completed, with its
   contribution recorded now or before, and any other is suppressed and leaves the inbox alone.
   */
  lemma ProjectionOutcome(dir: Directory, s: State, id: EventId, token: Token, commitAt: int, inboxId: int)
    requires Agrees(s.content, dir) && EventsOk(dir, s.outbox, s.events) && ShapesOk(s.events, s.inbox)
    requires MembershipsResolve(s.content) && SingleContext(s.content)
    requires id in s.outbox && s.outbox[id].state == Processing && s.outbox[id].ownerToken == Some(token)
    requires s.outbox[id].ownerExpiresAt.Some? && commitAt < s.outbox[id].ownerExpiresAt.value
    ensures var s', row := ProjectTx(s, id, token, commitAt, inboxId), s.outbox[id];
      && s'.outbox.Keys == s.outbox.Keys && (forall x :: x in s.outbox && x != id ==> s'.outbox[x] == s.outbox[x])
      && Closed(row, s'.outbox[id], commitAt)
      && if Deliverable(s.content, row.intent) then
           && s'.outbox[id].state == Completed && s'.outbox[id].lastError == None
           && Told(s.content, row.intent, s'.events, s'.inbox, id)
         else
           && s'.outbox[id].state == Suppressed && s'.outbox[id].lastError == Some(WhyNot(s.content, row.intent))
           && s'.events == s.events && s'.inbox == s.inbox
  {
    var intent := s.outbox[id].intent;
    if Deliverable(s.content, intent) {
      DeliveryIsTold(dir, s, id, commitAt, inboxId);
    } else {
      SuppressedBecause(s.content, id, intent);
    }
  }

  /** The tables after a delivery have a row that tells it, added now or before. */
  lemma DeliveryIsTold(dir: Directory, s: State, id: EventId, commitAt: int, inboxId: int)
    requires Agrees(s.content, dir) && EventsOk(dir, s.outbox, s.events) && ShapesOk(s.events, s.inbox)
    requires MembershipsResolve(s.content) && SingleContext(s.content)
    requires id in s.outbox && Deliverable(s.content, s.outbox[id].intent)
    ensures var intent, mid := s.outbox[id].intent, s.(now := commitAt);
      && Resolve(s.content, id, intent).Contribute?
      && var e := Resolve(s.content, id, intent).row;
         var after := if Recorded(s.events, id, e.recipient) then mid else AddContribution(mid, e, inboxId);
         Told(s.content, intent, after.events, after.inbox, id)
  {
    var intent := s.outbox[id].intent;
    DeliveredExactlyWhen(s.content, id, intent);
    DeliveredAs(s.content, id, intent);
    ResolvedMatchesBlueprint(s.content, dir, id, intent);
    var e := Resolve(s.content, id, intent).row;
    if Recorded(s.events, id, e.recipient) {
      var x :| x in s.events && x.eventId == id && x.recipient == e.recipient;
      RecordedTellsTheSame(dir, s.content, intent, x, e);
    } else {
      assert e in s.events + {e};
    }
  }

  /** The same item, one event and one version further; its read mark stays behind. */
  predicate Advanced(before: InboxRow, after: InboxRow) {
    && after.id == before.id && after.kind == before.kind && after.subject == before.subject
    && after.root == before.root && after.readVersion == before.readVersion
    && after.eventCount == before.eventCount + 1 && after.version == before.version + 1
  }

  /** A new item about what its first event is about, unread. */
  predicate Opened(e: EventRow, id: int, item: InboxRow) {
    && item.id == id && item.kind == e.kind && item.subject == e.subject && item.root == e.root
    && item.eventCount == 1 && item.version == 1 && item.readVersion == 0
  }

  /**
   The first delivery adds one row and touches one item: it is shown, counts one event more, is one
   version further and unread for a reader who had read it; every other item stays as it is.
   */
  lemma FirstDeliveryShowsTheItem(dir: Directory, s: State, id: EventId, token: Token, commitAt: int, inboxId: int)
    requires Agrees(s.content, dir) && EventsOk(dir, s.outbox, s.events) && !Contributed(s.events, id)
    requires MembershipsResolve(s.content) && SingleContext(s.content)
    requires id in s.outbox && s.outbox[id].state == Processing && s.outbox[id].ownerToken == Some(token)
    requires s.outbox[id].ownerExpiresAt.Some? && commitAt < s.outbox[id].ownerExpiresAt.value
    requires Deliverable(s.content, s.outbox[id].intent)
    ensures var s' := ProjectTx(s, id, token, commitAt, inboxId);
      exists e :: && e !in s.events && s'.events == s.events + {e} && e.eventId == id && e.group in s'.inbox
                  && Tells(s.content, s.outbox[id].intent, e)
                  && s'.inbox == s.inbox[e.group := s'.inbox[e.group]] && s'.inbox[e.group].visible
                  && (if e.group in s.inbox then Advanced(s.inbox[e.group], s'.inbox[e.group])
                      else Opened(e, inboxId, s'.inbox[e.group]))
  {
    var intent := s.outbox[id].intent;
    DeliveredExactlyWhen(s.content, id, intent);
    DeliveredAs(s.content, id, intent);
    var e := Resolve(s.content, id, intent).row;
    var s' := ProjectTx(s, id, token, commitAt, inboxId);
    assert !Recorded(s.events, id, e.recipient);
    assert s'.events == s.events + {e} && e !in s.events;
    assert s'.inbox == s.inbox[e.group := s'.inbox[e.group]];
  }
}
