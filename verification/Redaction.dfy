/** Deleted comments and hidden content: what readers can still see, over every run without profile removal. */
module Redaction {
  import opened Prelude
  import opened Content
  import opened Outbox
  import opened Inbox
  import opened Projection
  import opened Protocol

  predicate ActiveIn(events: set<EventRow>, g: GroupKey, t: Tables) {
    exists e :: e in GroupRows(events, g) && TriggerStored(t, e)
  }

  /** A visible redacted item has a contribution whose trigger comment is still stored, unless its root is in `lost`. */
  predicate RedactedActive(events: set<EventRow>, inbox: map<GroupKey, InboxRow>, t: Tables, lost: set<Root>) {
    forall g :: g in inbox && inbox[g].visible && inbox[g].redacted && !RootedIn(inbox[g], lost) ==>
        ActiveIn(events, g, t)
  }

  predicate RootedIn(item: InboxRow, roots: set<Root>) {
    item.root.Some? && item.root.value in roots
  }

  lemma RootIsPermanent(dir: Directory, t: Tables, t': Tables, c: CommentId)
    requires Agrees(t, dir) && Agrees(t', dir) && c in t.comments && c in t'.comments
    ensures t.comments[c].root == t'.comments[c].root
  {
    assert dir.comments[c].root == t.comments[c].root && dir.comments[c].root == t'.comments[c].root;
  }

  /** Comments that survive a content change still back the rows they triggered. */
  lemma ActivitySurvives(dir: Directory, t: Tables, t': Tables, events: set<EventRow>, g: GroupKey)
    requires Agrees(t, dir) && Agrees(t', dir) && ActiveIn(events, g, t)
    requires forall e :: e in GroupRows(events, g) && TriggerStored(t, e) ==> e.trigger.value in t'.comments
    ensures ActiveIn(events, g, t')
  {
    var e :| e in GroupRows(events, g) && TriggerStored(t, e);
    RootIsPermanent(dir, t, t', e.trigger.value);
    assert TriggerStored(t', e);
  }

  /** An item whose root keeps its comments stays backed. */
  lemma BackingSurvives(dir: Directory, t: Tables, t': Tables, events: set<EventRow>, item: InboxRow, g: GroupKey,
                        gone: set<Root>)
    requires Agrees(t, dir) && Agrees(t', dir) && KeepsComments(t, t', gone) && !RootedIn(item, gone)
    requires forall e :: e in GroupRows(events, g) ==> SameShape(item, e)
    requires ActiveIn(events, g, t)
    ensures ActiveIn(events, g, t')
  {
    forall e | e in GroupRows(events, g) && TriggerStored(t, e) ensures e.trigger.value in t'.comments {
      assert SameShape(item, e);
      var c := e.trigger.value;
      assert c in t.comments && t.comments[c].root == item.root.value;
    }
    ActivitySurvives(dir, t, t', events, g);
  }

  lemma EditKeepsActive(dir: Directory, t: Tables, t': Tables, events: set<EventRow>, inbox: map<GroupKey, InboxRow>,
                        lost: set<Root>, gone: set<Root>)
    requires Agrees(t, dir) && Agrees(t', dir) && KeepsComments(t, t', gone)
    requires GroupsOk(events, inbox) && RedactedActive(events, inbox, t, lost)
    ensures RedactedActive(events, inbox, t', lost + gone)
  {
    forall g | g in inbox && inbox[g].visible && inbox[g].redacted && !RootedIn(inbox[g], lost + gone)
      ensures ActiveIn(events, g, t')
    {
      BackingSurvives(dir, t, t', events, inbox[g], g, gone);
    }
  }

  /**
   When content disappears with its comments and nobody invalidates it, every visible redacted item
   stays backed if and only if none of them is rooted in what disappeared.
   */
  lemma EditBreaksExactly(dir: Directory, t: Tables, t': Tables, events: set<EventRow>, inbox: map<GroupKey, InboxRow>,
                          gone: set<Root>)
    requires Agrees(t, dir) && Agrees(t', dir) && KeepsComments(t, t', gone)
    requires forall c :: c in t'.comments ==> t'.comments[c].root !in gone
    requires GroupsOk(events, inbox) && RedactedActive(events, inbox, t, {})
    ensures RedactedActive(events, inbox, t', {}) <==>
            forall g :: g in inbox && inbox[g].visible && inbox[g].redacted ==> !RootedIn(inbox[g], gone)
  {
    EditKeepsActive(dir, t, t', events, inbox, {}, gone);
    assert {} + gone == gone;
    forall g | g in inbox && RootedIn(inbox[g], gone) ensures !ActiveIn(events, g, t') {
      GoneIsNotActive(t', events, inbox[g], g, gone);
    }
  }

  /**
   An instance: two comments on a follow activity were delivered and the newer one was deleted; when
   the activity then goes away with the other comment, the visible redacted item is backed by nothing.
   */
  lemma DroppedActivityExample()
    returns (dir: Directory, t: Tables, t': Tables, events: set<EventRow>, inbox: map<GroupKey, InboxRow>,
        gone: set<Root>)
    ensures Agrees(t, dir) && Agrees(t', dir) && KeepsComments(t, t', gone)
    ensures forall r :: r in gone ==> !RootStored(t', r)
    ensures forall c :: c in t'.comments ==> t'.comments[c].root !in gone
    ensures GroupsOk(events, inbox) && RedactedActive(events, inbox, t, {}) && !RedactedActive(events, inbox, t', {})
  {
    var root, reader := Root(Activity, 7), 9;
    var g := ByRoot(reader, root, 0);
    var row := EventRow(1, Created, reader, g, None, OnRoot(root), Some(root), Some(1), CommentText(1),
                        Target(OnRoot(root), Some(1)), 10);
    var deleted := row.(eventId := 2, trigger := Some(2), target := Target(OnRoot(root), Some(2)), occurredAt := 20);
    var item := InboxRow(1, Created, OnRoot(root), Some(root), None, Some(CommentDeleted),
                         Some(Target(OnRoot(root), None)), [], 2, 0, 20, 2, 0, true, true);
    dir := Directory(map[root := reader], map[1 := CommentFacts(5, root, None)], map[]);
    t' := Tables(map[], map[], map[], map[], {}, {}, map[], map[], map[], map[]);
    t := t'.(activities := map[7 := ActivityRow(reader, None, None, None, None)],
        comments := map[1 := CommentRow(5, root, None, 1)]);
    events, inbox, gone := {row, deleted}, map[g := item], {root};
    assert GroupRows(events, g) == {row, deleted};
    assert Actors({row, deleted}) == {};
    assert forall e :: IsLatest({row, deleted}, e) ==> e == deleted by {
      assert row in {row, deleted} - {deleted} && deleted in {row, deleted} - {row};
    }
    assert TriggerStored(t, row);
    assert inbox[g].redacted && !ActiveIn(events, g, t');
  }

  lemma GoneIsNotActive(t: Tables, events: set<EventRow>, item: InboxRow, g: GroupKey, gone: set<Root>)
    requires forall c :: c in t.comments ==> t.comments[c].root !in gone
    requires (forall e :: e in GroupRows(events, g) ==> SameShape(item, e)) && RootedIn(item, gone)
    ensures !ActiveIn(events, g, t)
  {
    forall e | e in GroupRows(events, g) ensures !TriggerStored(t, e) {
      assert SameShape(item, e);
      if e.trigger.Some? {
        var c := e.trigger.value;
        assert c in t.comments ==> t.comments[c].root !in gone;
      }
    }
  }

  /** Hiding takes the item away with the comments of its root. */
  lemma InvalidateKeepsActive(dir: Directory, t: Tables, t': Tables, events: set<EventRow>,
                              inbox: map<GroupKey, InboxRow>, lost: set<Root>, gone: set<Root>)
    requires Agrees(t, dir) && Agrees(t', dir) && KeepsComments(t, t', gone)
    requires GroupsOk(events, inbox) && RedactedActive(events, inbox, t, lost)
    ensures RedactedActive(events, HideRoots(inbox, gone), t', lost)
  {
    var inbox' := HideRoots(inbox, gone);
    forall g | g in inbox' && inbox'[g].visible && inbox'[g].redacted && !RootedIn(inbox'[g], lost)
      ensures ActiveIn(events, g, t')
    {
      assert inbox'[g] == HideItem(inbox[g], gone) == inbox[g];
      BackingSurvives(dir, t, t', events, inbox[g], g, gone);
    }
  }

  /** Rows of a group whose item is not about the deleted comment do not lose another comment to the cascade. */
  lemma CascadeStaysInGroup(dir: Directory, outbox: map<EventId, OutboxRow>, events: set<EventRow>, t: Tables,
                            c: CommentId, e: EventRow)
    requires EventsOk(dir, outbox, events) && e in events && Agrees(t, dir) && OneLevel(dir)
    requires e.kind == Created || e.kind == Replied
    requires e.subject != OnComment(c) && e.trigger != Some(c) && TriggerStored(t, e)
    ensures TriggerStored(WithoutComment(t, c), e)
  {
    var x := e.trigger.value;
    var b := Blueprint(dir, e.eventId, outbox[e.eventId].intent).value;
    assert b.trigger == e.trigger && b.subject == e.subject && b.kind == e.kind;
    assert dir.comments[x].parent == t.comments[x].parent;
    assert t.comments[x].parent != Some(c);
  }

  lemma DeleteKeepsActive(dir: Directory, s: State, c: CommentId, lost: set<Root>)
    requires OneLevel(dir) && Agrees(s.content, dir) && EventsOk(dir, s.outbox, s.events)
    requires ShapesOk(s.events, s.inbox) && RedactionShape(s.inbox)
    requires RedactedActive(s.events, s.inbox, s.content, lost)
    requires c in s.content.comments
    ensures var t := WithoutComment(s.content, c);
      RedactedActive(s.events, RedactComment(s.inbox, s.events, t, c), t, lost)
  {
    var t := WithoutComment(s.content, c);
    var inbox' := RedactComment(s.inbox, s.events, t, c);
    forall g | g in inbox' && inbox'[g].visible && inbox'[g].redacted && !RootedIn(inbox'[g], lost)
      ensures ActiveIn(s.events, g, t)
    {
      var item, rows := s.inbox[g], GroupRows(s.events, g);
      assert inbox'[g] == RedactItem(item, rows, t, c);
      if !Touched(item, rows, c) {
        assert item == inbox'[g];
        UntouchedStaysActive(dir, s, c, g);
      }
    }
  }

  /** A redacted item no event of which mentions the deleted comment keeps what backs it. */
  lemma UntouchedStaysActive(dir: Directory, s: State, c: CommentId, g: GroupKey)
    requires OneLevel(dir) && Agrees(s.content, dir) && EventsOk(dir, s.outbox, s.events) && ShapesOk(s.events, s.inbox)
    requires g in s.inbox && (s.inbox[g].kind == Created || s.inbox[g].kind == Replied)
    requires !Touched(s.inbox[g], GroupRows(s.events, g), c) && ActiveIn(s.events, g, s.content)
    ensures ActiveIn(s.events, g, WithoutComment(s.content, c))
  {
    var e :| e in GroupRows(s.events, g) && TriggerStored(s.content, e);
    assert SameShape(s.inbox[g], e) && !Mentions(e, c);
    CascadeStaysInGroup(dir, s.outbox, s.events, s.content, c, e);
  }

  lemma ContributionKeepsActive(s: State, e: EventRow, inboxId: int, lost: set<Root>)
    requires RedactedActive(s.events, s.inbox, s.content, lost) && RedactionShape(s.inbox)
    requires e.group in s.inbox ==> SameShape(s.inbox[e.group], e)
    requires e.kind == Created || e.kind == Replied ==> TriggerStored(s.content, e)
    ensures var s' := AddContribution(s, e, inboxId); RedactedActive(s'.events, s'.inbox, s.content, lost)
  {
    var s' := AddContribution(s, e, inboxId);
    BumpBookkeeping(ItemFor(s.inbox, e, inboxId), GroupRows(s.events, e.group), e);
    forall g | g in s'.inbox && s'.inbox[g].visible && s'.inbox[g].redacted && !RootedIn(s'.inbox[g], lost)
      ensures ActiveIn(s'.events, g, s.content)
    {
      GroupRowsOfInsert(s.events, e, g);
      if g == e.group {
        assert e in GroupRows(s'.events, g);
      } else {
        var x :| x in GroupRows(s.events, g) && TriggerStored(s.content, x);
        assert x in GroupRows(s'.events, g);
      }
    }
  }

  lemma ProjectKeepsActive(dir: Directory, s: State, id: EventId, token: Token, commitAt: int, inboxId: int,
                           lost: set<Root>)
    requires Inv(dir, s) && RedactedActive(s.events, s.inbox, s.content, lost)
    ensures var s' := ProjectTx(s, id, token, commitAt, inboxId); RedactedActive(s'.events, s'.inbox, s'.content, lost)
  {
    var mid := s.(now := commitAt);
    if id in s.outbox && CanFinish(s.outbox[id], token, commitAt) {
      match Resolve(s.content, id, s.outbox[id].intent)
      case Suppress(_) =>
      case Contribute(e) =>
        if !Recorded(s.events, id, e.recipient) {
          ResolvedContributionFits(dir, mid, id);
          ContributionKeepsActive(mid, e, inboxId, lost);
        }
    }
  }

  lemma ResolvedContributionFits(dir: Directory, s: State, id: EventId)
    requires Inv(dir, s) && id in s.outbox && Resolve(s.content, id, s.outbox[id].intent).Contribute?
    ensures var e := Resolve(s.content, id, s.outbox[id].intent).row;
            && (e.group in s.inbox ==> SameShape(s.inbox[e.group], e))
            && (e.kind == Created || e.kind == Replied ==> TriggerStored(s.content, e))
  {
    var e := Resolve(s.content, id, s.outbox[id].intent).row;
    ResolvedMatchesBlueprint(s.content, dir, id, s.outbox[id].intent);
    ResolvedTriggerExists(s.content, id, s.outbox[id].intent);
    if e.group in s.inbox { ContributionFitsGroup(dir, s, e); }
  }

  /** The roots an edit drops together with their comments, without invalidating them. */
  function LostIn(step: Step): set<Root> {
    if step.EditContent? then step.lost else {}
  }

  function LostRoots(steps: seq<Step>): set<Root> {
    if steps == [] then {} else LostIn(steps[0]) + LostRoots(steps[1..])
  }

  lemma StepKeepsActive(dir: Directory, s: State, step: Step, lost: set<Root>)
    requires Inv(dir, s) && RedactedActive(s.events, s.inbox, s.content, lost)
    ensures Enabled(dir, s, step) && !step.RemoveProfile? ==>
            var s' := Apply(s, step); RedactedActive(s'.events, s'.inbox, s'.content, lost + LostIn(step))
  {
    if !Enabled(dir, s, step) || step.RemoveProfile? { return; }
    assert !step.EditContent? ==> lost + LostIn(step) == lost;
    match step
    case Project(id, token, commitAt, inboxId) => ProjectKeepsActive(dir, s, id, token, commitAt, inboxId, lost);
    case EditContent(t, gone) => EditKeepsActive(dir, s.content, t, s.events, s.inbox, lost, gone);
    case DeleteComment(c) => if c in s.content.comments { DeleteKeepsActive(dir, s, c, lost); }
    case InvalidateContent(roots, t) =>
      InvalidateKeepsActive(dir, s.content, t, s.events, s.inbox, lost, Reached(s.content, roots));
    case _ => OtherStepsKeepActive(s, step, lost);
  }

  lemma OtherStepsKeepActive(s: State, step: Step, lost: set<Root>)
    requires RedactedActive(s.events, s.inbox, s.content, lost)
    requires !step.Project? && !step.EditContent? && !step.DeleteComment? && !step.InvalidateContent?
        && !step.RemoveProfile?
    ensures var s' := Apply(s, step); RedactedActive(s'.events, s'.inbox, s'.content, lost)
  {
  }

  predicate NoProfileRemoval(steps: seq<Step>) {
    forall i :: 0 <= i < |steps| ==> !steps[i].RemoveProfile?
  }

  lemma {:induction false} RunKeepsActive(dir: Directory, s: State, steps: seq<Step>, lost: set<Root>)
    requires Inv(dir, s) && Legal(dir, s, steps) && NoProfileRemoval(steps)
    requires RedactedActive(s.events, s.inbox, s.content, lost)
    ensures var s' := Run(s, steps); RedactedActive(s'.events, s'.inbox, s'.content, lost + LostRoots(steps))
    decreases |steps|
  {
    if steps != [] {
      StepKeepsInv(dir, s, steps[0]);
      StepKeepsActive(dir, s, steps[0], lost);
      RunKeepsActive(dir, Apply(s, steps[0]), steps[1..], lost + LostIn(steps[0]));
      assert lost + LostIn(steps[0]) + LostRoots(steps[1..]) == lost + LostRoots(steps);
    } else {
      assert lost + LostRoots(steps) == lost;
    }
  }

  /**
   Over all runs: a visible redacted item has some event whose trigger comment still exists, unless
   its root was dropped with its comments by an edit that nobody invalidated.
   */
  lemma RedactedItemsStayBacked(dir: Directory, s0: State, steps: seq<Step>, g: GroupKey)
    requires Initial(dir, s0) && Legal(dir, s0, steps) && NoProfileRemoval(steps)
    requires g in Run(s0, steps).inbox && Run(s0, steps).inbox[g].visible && Run(s0, steps).inbox[g].redacted
    requires !RootedIn(Run(s0, steps).inbox[g], LostRoots(steps))
    ensures exists e :: e in GroupRows(Run(s0, steps).events, g) && TriggerStored(Run(s0, steps).content, e)
  {
    InitialInv(dir, s0);
    RunKeepsActive(dir, s0, steps, {});
    assert {} + LostRoots(steps) == LostRoots(steps);
    assert ActiveIn(Run(s0, steps).events, g, Run(s0, steps).content);
  }

  /** Comments hang under stored roots, and no id of a dropped root was used again. */
  predicate RootsHold(t: Tables, lost: set<Root>) {
    && (forall c :: c in t.comments ==> RootStored(t, t.comments[c].root))
    && (forall r :: r in lost ==> !RootStored(t, r))
  }

  /** So in every run such an item is backed if and only if its root was not dropped that way. */
  lemma RedactedItemsBackedExactly(dir: Directory, s0: State, steps: seq<Step>, g: GroupKey)
    requires Initial(dir, s0) && Legal(dir, s0, steps) && NoProfileRemoval(steps)
    requires g in Run(s0, steps).inbox && Run(s0, steps).inbox[g].visible && Run(s0, steps).inbox[g].redacted
    requires RootsHold(Run(s0, steps).content, LostRoots(steps))
    ensures var s := Run(s0, steps); ActiveIn(s.events, g, s.content) <==> !RootedIn(s.inbox[g], LostRoots(steps))
  {
    var s := Run(s0, steps);
    if RootedIn(s.inbox[g], LostRoots(steps)) {
      InitialInv(dir, s0);
      RunKeepsInv(dir, s0, steps);
      GoneIsNotActive(s.content, s.events, s.inbox[g], g, LostRoots(steps));
    } else {
      RedactedItemsStayBacked(dir, s0, steps, g);
    }
  }

  /** A reader is not shown the exception: an eligible item's root is stored, so a visible redacted one is backed. */
  lemma ShownRedactedItemsAreBacked(dir: Directory, s0: State, steps: seq<Step>, g: GroupKey)
    requires Initial(dir, s0) && Legal(dir, s0, steps) && NoProfileRemoval(steps)
    requires g in Run(s0, steps).inbox && Run(s0, steps).inbox[g].visible && Run(s0, steps).inbox[g].redacted
    requires Eligible(Run(s0, steps).content, Run(s0, steps).inbox[g])
    requires forall r :: r in LostRoots(steps) ==> !RootStored(Run(s0, steps).content, r)
    ensures ActiveIn(Run(s0, steps).events, g, Run(s0, steps).content)
  {
    var item := Run(s0, steps).inbox[g];
    if item.root.Some? { assert RootStored(Run(s0, steps).content, item.root.value); }
    RedactedItemsStayBacked(dir, s0, steps, g);
  }

  // ----- profile removal -----

  /** A comment that outlives a profile: by someone else, not a reply to the user, and not on content that goes. */
  predicate Outlives(t: Tables, user: UserId, gone: set<Root>, c: CommentId)
    requires c in t.comments
  {
    && t.comments[c].owner != user && t.comments[c].root !in gone
    && match t.comments[c].parent
       case None => true
       case Some(p) => p in t.comments ==> t.comments[p].owner != user
  }

  /** Some stored trigger comment of the group was written by someone other than the user. */
  predicate BackedByOther(events: set<EventRow>, g: GroupKey, t: Tables, user: UserId) {
    exists e :: e in GroupRows(events, g) && TriggerStored(t, e) && t.comments[e.trigger.value].owner != user
  }

  /** In another reader's group the trigger comments the user did not write do not hang under one they did. */
  lemma OthersOutlive(dir: Directory, s: State, user: UserId, gone: set<Root>, g: GroupKey, e: EventRow)
    requires OneLevel(dir) && Agrees(s.content, dir) && EventsOk(dir, s.outbox, s.events)
    requires e in GroupRows(s.events, g) && (e.kind == Created || e.kind == Replied) && g.recipient != user
    requires TriggerStored(s.content, e) && e.root.value !in gone
    ensures Outlives(s.content, user, gone, e.trigger.value) <==> s.content.comments[e.trigger.value].owner != user
  {
    var c := e.trigger.value;
    var b := Blueprint(dir, e.eventId, s.outbox[e.eventId].intent).value;
    assert b.trigger == e.trigger && b.kind == e.kind && b.recipient == e.recipient && b.group == e.group;
    assert dir.comments[c].parent == s.content.comments[c].parent;
  }

  /**
   Deleting a profile takes the user's comments on other people's content along without invalidating
   them. Every item still shown as redacted stays backed if and only if its root stays and someone
   else wrote one of its stored trigger comments.
   */
  lemma RemovalBreaksExactly(dir: Directory, s: State, user: UserId, t': Tables, gone: set<Root>)
    requires Inv(dir, s) && Agrees(t', dir)
    requires forall c :: c in t'.comments <==> c in s.content.comments && Outlives(s.content, user, gone, c)
    ensures var inbox' := Apply(s, RemoveProfile(user, t')).inbox;
      RedactedActive(s.events, inbox', t', {}) <==>
      forall g :: g in inbox' && inbox'[g].visible && inbox'[g].redacted ==>
        !RootedIn(inbox'[g], gone) && BackedByOther(s.events, g, s.content, user)
  {
    var inbox' := Apply(s, RemoveProfile(user, t')).inbox;
    LeftVisible(s.inbox, user, Reached(s.content, OwnedRoots(s.content, user)));
    forall g | g in inbox' && inbox'[g].visible && inbox'[g].redacted
      ensures ActiveIn(s.events, g, t') <==>
              !RootedIn(inbox'[g], gone) && BackedByOther(s.events, g, s.content, user)
    {
      BackedAfterRemoval(dir, s, user, t', gone, g);
    }
  }

  lemma LeftVisible(inbox: map<GroupKey, InboxRow>, user: UserId, roots: set<Root>)
    ensures var inbox' := HideRecipient(HideRoots(inbox, roots), user);
      forall g :: g in inbox' && inbox'[g].visible ==> g.recipient != user && inbox'[g] == inbox[g]
  {
  }

  lemma BackedAfterRemoval(dir: Directory, s: State, user: UserId, t': Tables, gone: set<Root>, g: GroupKey)
    requires OneLevel(dir) && Agrees(s.content, dir) && Agrees(t', dir) && EventsOk(dir, s.outbox, s.events)
    requires ShapesOk(s.events, s.inbox) && RedactionShape(s.inbox)
    requires forall c :: c in t'.comments <==> c in s.content.comments && Outlives(s.content, user, gone, c)
    requires g in s.inbox && s.inbox[g].redacted && g.recipient != user
    ensures ActiveIn(s.events, g, t') <==> !RootedIn(s.inbox[g], gone) && BackedByOther(s.events, g, s.content, user)
  {
    forall e | e in GroupRows(s.events, g)
      ensures TriggerStored(t', e) <==>
              && !RootedIn(s.inbox[g], gone) && TriggerStored(s.content, e)
              && s.content.comments[e.trigger.value].owner != user
    {
      assert SameShape(s.inbox[g], e);
      StoredAfterRemoval(dir, s, user, t', gone, g, e);
    }
  }

  lemma StoredAfterRemoval(dir: Directory, s: State, user: UserId, t': Tables, gone: set<Root>, g: GroupKey,
                           e: EventRow)
    requires OneLevel(dir) && Agrees(s.content, dir) && Agrees(t', dir) && EventsOk(dir, s.outbox, s.events)
    requires forall c :: c in t'.comments <==> c in s.content.comments && Outlives(s.content, user, gone, c)
    requires e in GroupRows(s.events, g) && (e.kind == Created || e.kind == Replied) && g.recipient != user
    ensures TriggerStored(t', e) <==>
            && TriggerStored(s.content, e) && e.root.value !in gone
            && s.content.comments[e.trigger.value].owner != user
  {
    if e.trigger.Some? && e.trigger.value in s.content.comments && e.trigger.value in t'.comments {
      RootIsPermanent(dir, s.content, t', e.trigger.value);
    }
    if TriggerStored(s.content, e) && e.root.value !in gone {
      OthersOutlive(dir, s, user, gone, g, e);
    }
  }

  // ----- what readers see -----

  /**
   Right after a comment is deleted no visible item shows it as subject or trigger, in any inbox;
   versions, read marks and counts are untouched, so unread state survives; and nothing else changes.
   */
  lemma DeletedCommentIsNotShown(s: State, c: CommentId, g: GroupKey)
    requires c in s.content.comments && g in s.inbox
    ensures var before, after := s.inbox[g], Apply(s, DeleteComment(c)).inbox[g];
            && (after.visible ==> after.subject != OnComment(c) && after.trigger != Some(c))
            && after.version == before.version && after.readVersion == before.readVersion
            && after.eventCount == before.eventCount && after.actorCount == before.actorCount
            && after.actorIds == before.actorIds && after.lastEventAt == before.lastEventAt
            && (after.visible ==> before.visible)
            && (after != before ==> Touched(before, GroupRows(s.events, g), c))
  {
  }

  /**
   What exactly a deletion does to an item that is about the comment, or quotes it, or is redacted over
   a row that mentions it. Any other item, and any hidden one, stays as it is.
   */
  lemma ExcerptDeletionOutcome(s: State, c: CommentId, g: GroupKey)
    requires c in s.content.comments && g in s.inbox
    ensures var before, after := s.inbox[g], Apply(s, DeleteComment(c)).inbox[g];
      var mentioned := exists e :: e in s.events && e.group == g && (e.subject == OnComment(c) || e.trigger == Some(c));
      if before.visible && before.subject == OnComment(c) then after == before.(visible := false)
      else if before.visible && (before.trigger == Some(c) || (before.redacted && mentioned)) then
        && after == before.(visible := after.visible, redacted := true, preview := Some(CommentDeleted),
                            trigger := None, target := after.target)
        && (after.visible <==> exists e :: e in s.events && e.group == g && e.trigger != Some(c)
                                           && QuotesStored(Apply(s, DeleteComment(c)).content, e))
        && (before.target == None ==> after.target == None)
        && (before.target.Some? ==> after.target == Some(Target(before.target.value.place, None)))
      else after == before
  {
    assert forall e :: e in GroupRows(s.events, g) <==> e in s.events && e.group == g;
  }

  /** The comment the row quotes is stored, under the row's root. */
  predicate QuotesStored(t: Tables, e: EventRow) {
    && e.trigger.Some? && e.trigger.value in t.comments
    && e.root == Some(t.comments[e.trigger.value].root)
  }

  /** A deletion removes the comment and the replies to it, and nothing else. */
  lemma DeletionCascades(s: State, c: CommentId)
    requires c in s.content.comments
    ensures var after := Apply(s, DeleteComment(c)).content;
      && after == s.content.(comments := after.comments)
      && (forall x :: x in after.comments <==>
            x in s.content.comments && x != c && s.content.comments[x].parent != Some(c))
      && (forall x :: x in after.comments ==> after.comments[x] == s.content.comments[x])
  {
  }

  /** The item is about the content, or rooted in it. */
  predicate About(item: InboxRow, r: Root) {
    item.subject == OnRoot(r) || item.root == Some(r)
  }

  /** About the content itself, or about an activity that refers to it as its post or its review. */
  predicate Concerns(t: Tables, item: InboxRow, r: Root) {
    || About(item, r)
    || exists a :: && a in t.activities && About(item, Root(Activity, a))
                   && (|| (r.kind == Post && t.activities[a].post == Some(r.id))
                       || (r.kind == Review && t.activities[a].review == Some(r.id)))
  }

  lemma ReachedConcerns(t: Tables, item: InboxRow, roots: set<Root>)
    ensures HideItem(item, Reached(t, roots)).visible <==>
            item.visible && !exists r :: r in roots && Concerns(t, item, r)
  {
    var reached := Reached(t, roots);
    if d :| d in reached && About(item, d) {
      if d !in roots {
        var r :| r in roots && d in DerivedRoots(t, r);
        assert d == Root(Activity, d.id);
        assert Concerns(t, item, r);
      } else {
        assert Concerns(t, item, d);
      }
    }
    if r :| r in roots && Concerns(t, item, r) {
      if !About(item, r) {
        var a :| && a in t.activities && About(item, Root(Activity, a))
                 && ((r.kind == Post && t.activities[a].post == Some(r.id))
                     || (r.kind == Review && t.activities[a].review == Some(r.id)));
        assert Root(Activity, a) in DerivedRoots(t, r);
        assert Root(Activity, a) in reached;
      }
    }
  }

  /** Right after content is invalidated exactly the visible items that do not concern it are visible still. */
  lemma InvalidatedContentIsNotShown(s: State, roots: set<Root>, t: Tables, g: GroupKey)
    requires g in s.inbox
    ensures var before, after := s.inbox[g], Apply(s, InvalidateContent(roots, t)).inbox[g];
            && after == before.(visible := after.visible)
            && (after.visible <==> before.visible && !exists r :: r in roots && Concerns(s.content, before, r))
  {
    ReachedConcerns(s.content, s.inbox[g], roots);
  }

  predicate Owns(t: Tables, user: UserId, r: Root) {
    match r.kind
    case Post => r.id in t.posts && t.posts[r.id].owner == user
    case Review => r.id in t.reviews && t.reviews[r.id].owner == user
    case Activity => r.id in t.activities && t.activities[r.id].owner == user
  }

  lemma OwnedRootsAreOwned(t: Tables, user: UserId, r: Root)
    ensures r in OwnedRoots(t, user) <==> Owns(t, user, r)
  {
    assert r == Root(r.kind, r.id);
  }

  /**
   Right after a profile is removed nothing addressed to it is visible, nothing that concerns its content
   is visible to anyone, and everything else is as visible as before. Its unfinished deliveries are off.
   */
  lemma RemovedProfileIsNotShown(s: State, user: UserId, t: Tables, g: GroupKey)
    requires g in s.inbox
    ensures var before, after := s.inbox[g], Apply(s, RemoveProfile(user, t)).inbox[g];
            && after == before.(visible := after.visible)
            && (after.visible <==>
                  && before.visible && g.recipient != user
                  && !exists r :: Owns(s.content, user, r) && Concerns(s.content, before, r))
  {
    var owned := OwnedRoots(s.content, user);
    ReachedConcerns(s.content, s.inbox[g], owned);
    forall r ensures r in owned <==> Owns(s.content, user, r) {
      OwnedRootsAreOwned(s.content, user, r);
    }
  }

  lemma RemovedProfileIsNotTold(s: State, user: UserId, t: Tables, id: EventId)
    requires id in s.outbox
    ensures var before, after := s.outbox[id], Apply(s, RemoveProfile(user, t)).outbox[id];
      if before.intent.recipient == Some(user) && (before.state == Pending || before.state == Processing)
      then Closed(before, after, s.now) && after.state == Suppressed && after.lastError == Some(RecipientRemoved)
      else after == before
  {
  }

  lemma FocusIsTrigger(dir: Directory, intent: Intent, e: EventRow)
    requires FollowsBlueprint(dir, intent, e)
    ensures e.target.focus == e.trigger
  {
    assert Anonymous(e).target == e.target && Anonymous(e).trigger == e.trigger;
  }

  lemma ShownExcerptIsAlive(dir: Directory, outbox: map<EventId, OutboxRow>, t: Tables, item: InboxRow,
                            rows: set<EventRow>)
    requires EventsOk(dir, outbox, rows) && rows != {} && Summarises(item, rows)
    requires item.redacted ==> item.preview == Some(CommentDeleted)
    requires Eligible(t, item) && item.preview.Some? && item.preview.value.CommentText?
    ensures !item.redacted && item.trigger.Some? && StoredUnder(t, item.trigger.value, item.root)
  {
    var latest := LatestExists(rows);
    assert ShowsLatest(item, latest);
    FocusIsTrigger(dir, outbox[latest.eventId].intent, latest);
  }

  /**
   In every run, an item a reader is shown with a comment's text still has that comment stored under
   its root, even when a late delivery made a hidden item visible again after the deletion.
   */
  lemma ShownExcerptsAreAlive(dir: Directory, s0: State, steps: seq<Step>, g: GroupKey)
    requires Initial(dir, s0) && Legal(dir, s0, steps) && g in Run(s0, steps).inbox
    requires var s := Run(s0, steps);
             Eligible(s.content, s.inbox[g]) && s.inbox[g].preview.Some? && s.inbox[g].preview.value.CommentText?
    ensures var s := Run(s0, steps);
            && !s.inbox[g].redacted && s.inbox[g].trigger.Some?
            && StoredUnder(s.content, s.inbox[g].trigger.value, s.inbox[g].root)
  {
    InitialInv(dir, s0);
    RunKeepsInv(dir, s0, steps);
    var s := Run(s0, steps);
    ExcerptFacts(dir, s, g);
    ShownExcerptIsAlive(dir, s.outbox, s.content, s.inbox[g], GroupRows(s.events, g));
  }

  lemma ExcerptFacts(dir: Directory, s: State, g: GroupKey)
    requires Inv(dir, s) && g in s.inbox
    ensures EventsOk(dir, s.outbox, GroupRows(s.events, g))
    ensures GroupRows(s.events, g) != {} && Summarises(s.inbox[g], GroupRows(s.events, g))
    ensures s.inbox[g].redacted ==> s.inbox[g].preview == Some(CommentDeleted)
  {
  }
}
