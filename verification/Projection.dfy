/**
 From an outbox intent to a contribution: resolveEventDetails, self suppression and the grouping
 key of projectEvent, and the eligibility test readers apply. A `Directory` holds the facts
 about content that never change: who owns a root, and who owns a comment and where it hangs.
 */
module Projection {
  import opened Prelude
  import opened Content
  import opened Outbox
  import opened Inbox

  const DAY_MS := 86400000

  datatype CommentFacts = CommentFacts(owner: UserId, root: Root, parent: Option<CommentId>)

  datatype Directory = Directory(
    roots: map<Root, UserId>,
    comments: map<CommentId, CommentFacts>,
    follows: map<int, UserId>)

  /** Comments hang under a top-level comment of the same root: replies to replies are refused on creation. */
  predicate OneLevel(dir: Directory) {
    forall c :: c in dir.comments && dir.comments[c].parent.Some? ==>
      var p := dir.comments[c].parent.value;
      p in dir.comments && dir.comments[p].parent.None? && dir.comments[p].root == dir.comments[c].root
  }

  /** Every stored row tells the facts of the directory. */
  predicate Agrees(t: Tables, dir: Directory) {
    && (forall id :: id in t.posts ==> (var k := Root(Post, id); k in dir.roots && dir.roots[k] == t.posts[id].owner))
    && (forall id :: id in t.reviews ==>
         (var k := Root(Review, id); k in dir.roots && dir.roots[k] == t.reviews[id].owner))
    && (forall id :: id in t.activities ==>
         (var k := Root(Activity, id); k in dir.roots && dir.roots[k] == t.activities[id].owner))
    && (forall c :: c in t.comments ==>
          c in dir.comments &&
          dir.comments[c] == CommentFacts(t.comments[c].owner, t.comments[c].root, t.comments[c].parent))
    && (forall f :: f in t.follows ==> f in dir.follows && dir.follows[f] == t.follows[f])
  }

  datatype Resolution = Suppress(reason: Note) | Contribute(row: EventRow)

  function Group(kind: Kind, recipient: UserId, subject: Subject, root: Option<Root>, occurredAt: int,
                 id: EventId): GroupKey {
    var day := occurredAt / DAY_MS;
    if kind == Liked then ByLike(recipient, subject, day)
    else if kind == Created && root.Some? then ByRoot(recipient, root.value, day)
    else if kind == Replied && subject.OnComment? then ByParent(recipient, subject.comment, day)
    else Alone(recipient, kind, id)
  }

  function Row(id: EventId, intent: Intent, kind: Kind, recipient: UserId, actor: Option<UserId>,
               subject: Subject, root: Option<Root>, focus: Option<CommentId>, preview: Preview): EventRow
  {
    var place := if root.Some? then OnRoot(root.value) else subject;
    EventRow(id, kind, recipient, Group(kind, recipient, subject, root, intent.occurredAt, id), actor,
             subject, root, focus, preview, Target(place, focus), intent.occurredAt)
  }

  /** Self notifications are suppressed after the details are resolved. */
  function Deliver(row: EventRow): Resolution {
    if row.actor == Some(row.recipient) then Suppress(SelfNotification) else Contribute(row)
  }

  function Personal(id: EventId, intent: Intent, kind: Kind, reference: int): Resolution {
    if intent.recipient.None? then Suppress(NoRecipient)
    else Deliver(Row(id, intent, kind, intent.recipient.value, None, OnOther(reference), None, None, Notice(kind)))
  }

  function Resolve(t: Tables, id: EventId, intent: Intent): Resolution {
    match intent.payload
    case ContentLiked(LikedGame) => Suppress(GameLike)
    case ContentLiked(LikedRoot(root)) =>
      var owner := LockRoot(t, root);
      if owner.None? then Suppress(SourceInaccessible)
      else Deliver(Row(id, intent, Liked, owner.value, intent.actor, OnRoot(root), Some(root), None, LikedYours))
    case ContentLiked(LikedComment(c)) =>
      if c !in t.comments || LockComment(t, t.comments[c].root, c).None? then Suppress(SourceInaccessible)
      else
        var comment := t.comments[c];
        Deliver(Row(id, intent, Liked, comment.owner, intent.actor, OnComment(c), Some(comment.root), Some(c),
            LikedYours))
    case CommentCreated(c, root) =>
      var comment := LockComment(t, root, c);
      if comment.None? then Suppress(SourceInaccessible)
      else if comment.value.parent.Some? then Suppress(InvalidCommentKind)
      else
        Deliver(Row(id, intent, Created, LockRoot(t, root).value, intent.actor, OnRoot(root), Some(root), Some(c),
                    CommentText(comment.value.text)))
    case CommentReplied(c, p, root) =>
      var comment := LockComment(t, root, c);
      if comment.None? then Suppress(SourceInaccessible)
      else if comment.value.parent != Some(p) then Suppress(InvalidReplyParent)
      else
        var parent := LockComment(t, root, p);
        if parent.None? then Suppress(SourceInaccessible)
        else
          Deliver(Row(id, intent, Replied, parent.value.owner, intent.actor, OnComment(p), Some(root), Some(c),
                      CommentText(comment.value.text)))
    case ProfileFollowed(f) =>
      if intent.recipient.None? && f !in t.follows then Suppress(NoRecipient)
      else
        var followed := if intent.recipient.Some? then intent.recipient.value else t.follows[f];
        Deliver(Row(id, intent, Followed, followed, intent.actor, OnOther(followed), None, None, Notice(Followed)))
    case ImportCompleted(d) => Personal(id, intent, Imported, d)
    case ReauthRequired(c) =>
      if c !in t.connections || intent.recipient != Some(t.connections[c]) then Suppress(RecordNotFound)
      else Personal(id, intent, Reauth, c)
    case ModerationApplied(r) => Personal(id, intent, Moderated, r)
    case AchievementUnlocked(o, a) =>
      if o !in t.obtained || intent.recipient != Some(t.obtained[o]) then Suppress(RecordNotFound)
      else Personal(id, intent, Unlocked, a)
  }

  // ----- what a contribution can be, whatever the content tables hold when it is made -----

  function Anonymous(e: EventRow): EventRow {
    e.(preview := CommentDeleted)
  }

  /** The contribution an event makes if it makes one, up to the excerpt; a function of permanent facts. */
  function Blueprint(dir: Directory, id: EventId, intent: Intent): Option<EventRow> {
    match intent.payload
    case ContentLiked(LikedGame) => None
    case ContentLiked(LikedRoot(root)) =>
      if root !in dir.roots then None
      else Some(Row(id, intent, Liked, dir.roots[root], intent.actor, OnRoot(root), Some(root), None, CommentDeleted))
    case ContentLiked(LikedComment(c)) =>
      if c !in dir.comments then None
      else
        var facts := dir.comments[c];
        Some(Row(id, intent, Liked, facts.owner, intent.actor, OnComment(c), Some(facts.root), Some(c), CommentDeleted))
    case CommentCreated(c, root) =>
      if c !in dir.comments || dir.comments[c].parent.Some? || dir.comments[c].root != root
          || root !in dir.roots then None
      else Some(Row(id, intent, Created, dir.roots[root], intent.actor, OnRoot(root), Some(root), Some(c),
          CommentDeleted))
    case CommentReplied(c, p, root) =>
      if c !in dir.comments || dir.comments[c].parent != Some(p) || dir.comments[c].root != root
          || p !in dir.comments then None
      else if dir.comments[p].root != root then None
      else Some(Row(id, intent, Replied, dir.comments[p].owner, intent.actor, OnComment(p), Some(root), Some(c),
          CommentDeleted))
    case ProfileFollowed(f) =>
      if intent.recipient.None? && f !in dir.follows then None
      else
        var followed := if intent.recipient.Some? then intent.recipient.value else dir.follows[f];
        Some(Row(id, intent, Followed, followed, intent.actor, OnOther(followed), None, None, CommentDeleted))
    case ImportCompleted(d) => PersonalBlueprint(id, intent, Imported, d)
    case ReauthRequired(c) => PersonalBlueprint(id, intent, Reauth, c)
    case ModerationApplied(r) => PersonalBlueprint(id, intent, Moderated, r)
    case AchievementUnlocked(o, a) => PersonalBlueprint(id, intent, Unlocked, a)
  }

  function PersonalBlueprint(id: EventId, intent: Intent, kind: Kind, reference: int): Option<EventRow> {
    if intent.recipient.None? then None
    else Some(Row(id, intent, kind, intent.recipient.value, None, OnOther(reference), None, None, CommentDeleted))
  }

  /** The row is the one its intent determines, and only rows with a trigger carry a comment's text. */
  predicate FollowsBlueprint(dir: Directory, intent: Intent, e: EventRow) {
    && Blueprint(dir, e.eventId, intent) == Some(Anonymous(e))
    && (e.preview.CommentText? ==> e.trigger.Some?)
  }

  lemma LockedOwnerIsPermanent(t: Tables, dir: Directory, root: Root)
    requires Agrees(t, dir) && LockRoot(t, root).Some?
    ensures root in dir.roots && dir.roots[root] == LockRoot(t, root).value
  {
    match root.kind
    case Post => assert root == Root(Post, root.id);
    case Review => assert root == Root(Review, root.id);
    case Activity => assert root == Root(Activity, root.id);
  }

  /** Whenever projection contributes, recipient, group, subject and trigger are the permanent ones. */
  lemma ResolvedMatchesBlueprint(t: Tables, dir: Directory, id: EventId, intent: Intent)
    requires Agrees(t, dir)
    requires Resolve(t, id, intent).Contribute?
    ensures Resolve(t, id, intent).row.eventId == id
    ensures FollowsBlueprint(dir, intent, Resolve(t, id, intent).row)
  {
    match intent.payload
    case ContentLiked(LikedRoot(root)) => LockedOwnerIsPermanent(t, dir, root);
    case CommentCreated(c, root) => LockedOwnerIsPermanent(t, dir, root);
    case _ =>
  }

  /** The comment a contribution focuses on was stored under the contribution's root when it was made. */
  lemma ResolvedTriggerExists(t: Tables, id: EventId, intent: Intent)
    requires Resolve(t, id, intent).Contribute?
    ensures var e := Resolve(t, id, intent).row;
            && (e.trigger.Some? ==> TriggerStored(t, e))
            && (e.kind == Created || e.kind == Replied ==> e.trigger.Some?)
  {
  }

  /** The EXISTS clause of invalidateComment: the trigger comment is stored under the row's root. */
  predicate TriggerStored(t: Tables, e: EventRow) {
    && e.trigger.Some? && e.root.Some?
    && e.trigger.value in t.comments
    && t.comments[e.trigger.value].root == e.root.value
  }

  /** Rows of one group agree on everything the group's item copies from its first row. */
  lemma GroupFixesSubject(dir: Directory, a: EventRow, b: EventRow, ia: Intent, ib: Intent)
    requires OneLevel(dir)
    requires FollowsBlueprint(dir, ia, a) && FollowsBlueprint(dir, ib, b)
    requires a.eventId == b.eventId ==> ia == ib
    requires a.group == b.group
    ensures a.kind == b.kind && a.subject == b.subject && a.root == b.root && a.recipient == b.recipient
    ensures a.group.Alone? ==> a.eventId == b.eventId
  {
    KeyTells(dir, a, ia);
    KeyTells(dir, b, ib);
  }

  /** What a grouping key tells about a row that has it. */
  predicate KeyFits(dir: Directory, e: EventRow) {
    match e.group
    case ByLike(r, subject, _) =>
      && e.kind == Liked && e.recipient == r && e.subject == subject
      && (subject.OnRoot? ==> e.root == Some(subject.root))
      && (subject.OnComment? ==> subject.comment in dir.comments && e.root == Some(dir.comments[subject.comment].root))
      && !subject.OnOther?
    case ByRoot(r, root, _) => e.kind == Created && e.recipient == r && e.subject == OnRoot(root)
        && e.root == Some(root)
    case ByParent(r, p, _) =>
      && e.kind == Replied && e.recipient == r && e.subject == OnComment(p)
      && p in dir.comments && e.root == Some(dir.comments[p].root)
    case Alone(r, kind, id) => e.kind == kind && e.recipient == r && e.eventId == id
  }

  lemma KeyTells(dir: Directory, e: EventRow, intent: Intent)
    requires FollowsBlueprint(dir, intent, e)
    ensures KeyFits(dir, e)
  {
    var plain := Anonymous(e);
    assert plain.group == e.group && plain.kind == e.kind && plain.recipient == e.recipient;
    assert plain.subject == e.subject && plain.root == e.root && plain.eventId == e.eventId;
  }

  // ----- the reader's eligibility test -----

  predicate StoredUnder(t: Tables, c: CommentId, root: Option<Root>) {
    root.Some? && c in t.comments && t.comments[c].root == root.value
  }

  /** NOTIFICATION_ELIGIBILITY_SQL over one item. */
  predicate Eligible(t: Tables, item: InboxRow) {
    && (item.root.Some? ==> RootClause(t, item.root.value))
    && (item.subject.OnComment? ==> StoredUnder(t, item.subject.comment, item.root))
    && (item.target.Some? && item.target.value.focus.Some? ==> StoredUnder(t, item.target.value.focus.value, item.root))
  }

  /** A contribution that is the newest of its group leaves an item that readers are shown. */
  lemma NewestContributionIsEligible(t: Tables, id: EventId, intent: Intent, item: InboxRow, prior: set<EventRow>)
    requires MembershipsResolve(t) && SingleContext(t)
    requires Resolve(t, id, intent).Contribute?
    requires var e := Resolve(t, id, intent).row;
             item.subject == e.subject && item.root == e.root && NewerThanAll(e, prior)
    ensures Eligible(t, Bump(item, prior, Resolve(t, id, intent).row))
  {
    ResolvedIsEligible(t, id, intent);
  }

  /** What resolving a contribution found is what the eligibility test asks for. */
  lemma ResolvedIsEligible(t: Tables, id: EventId, intent: Intent)
    requires MembershipsResolve(t) && SingleContext(t) && Resolve(t, id, intent).Contribute?
    ensures var e := Resolve(t, id, intent).row;
            && (e.root.Some? ==> RootClause(t, e.root.value))
            && (e.subject.OnComment? ==> StoredUnder(t, e.subject.comment, e.root))
            && (e.target.focus.Some? ==> StoredUnder(t, e.target.focus.value, e.root))
  {
    var e := Resolve(t, id, intent).row;
    if e.root.Some? { LockExactlyWhenClause(t, e.root.value); }
    ResolvedTriggerExists(t, id, intent);
  }

  // ----- when an event is delivered, and as what -----

  function RootOwner(t: Tables, root: Root): Option<UserId> {
    match root.kind
    case Post => if root.id in t.posts then Some(t.posts[root.id].owner) else None
    case Review => if root.id in t.reviews then Some(t.reviews[root.id].owner) else None
    case Activity => if root.id in t.activities then Some(t.activities[root.id].owner) else None
  }

  /**
   Content is public in the readers' sense, hangs where the intent says, and belongs to someone other
   than the actor; a follow has a followed user other than the actor; a personal event has a
   recipient, whose record it is about if it is about a stored one.
   */
  predicate Deliverable(t: Tables, intent: Intent) {
    match intent.payload
    case ContentLiked(LikedRoot(root)) => RootClause(t, root) && intent.actor != RootOwner(t, root)
    case ContentLiked(LikedComment(c)) =>
      c in t.comments && RootClause(t, t.comments[c].root) && intent.actor != Some(t.comments[c].owner)
    case CommentCreated(c, root) =>
      && StoredUnder(t, c, Some(root)) && RootClause(t, root) && t.comments[c].parent.None?
      && intent.actor != RootOwner(t, root)
    case CommentReplied(c, p, root) =>
      && StoredUnder(t, c, Some(root)) && StoredUnder(t, p, Some(root)) && RootClause(t, root)
      && t.comments[c].parent == Some(p) && intent.actor != Some(t.comments[p].owner)
    case ContentLiked(LikedGame) => false
    case ProfileFollowed(f) =>
      if intent.recipient.Some? then intent.actor != intent.recipient
      else f in t.follows && intent.actor != Some(t.follows[f])
    case ImportCompleted(_) => intent.recipient.Some?
    case ReauthRequired(c) => c in t.connections && intent.recipient == Some(t.connections[c])
    case ModerationApplied(_) => intent.recipient.Some?
    case AchievementUnlocked(o, _) => o in t.obtained && intent.recipient == Some(t.obtained[o])
  }

  /** What a delivered event tells its recipient, apart from the excerpt: column by column, for each payload. */
  predicate Tells(t: Tables, intent: Intent, e: EventRow) {
    match intent.payload
    case ContentLiked(LikedRoot(root)) =>
      && e.kind == Liked && Some(e.recipient) == RootOwner(t, root) && e.actor == intent.actor
      && e.subject == OnRoot(root) && e.root == Some(root) && e.trigger == None
    case ContentLiked(LikedComment(c)) =>
      && c in t.comments && e.kind == Liked && e.recipient == t.comments[c].owner && e.actor == intent.actor
      && e.subject == OnComment(c) && e.root == Some(t.comments[c].root) && e.trigger == Some(c)
    case CommentCreated(c, root) =>
      && e.kind == Created && Some(e.recipient) == RootOwner(t, root) && e.actor == intent.actor
      && e.subject == OnRoot(root) && e.root == Some(root) && e.trigger == Some(c)
    case CommentReplied(c, p, root) =>
      && p in t.comments && e.kind == Replied && e.recipient == t.comments[p].owner && e.actor == intent.actor
      && e.subject == OnComment(p) && e.root == Some(root) && e.trigger == Some(c)
    case ContentLiked(LikedGame) => false
    case ProfileFollowed(f) =>
      && e.kind == Followed && e.actor == intent.actor && e.subject == OnOther(e.recipient)
      && (if intent.recipient.Some? then intent.recipient == Some(e.recipient)
          else f in t.follows && t.follows[f] == e.recipient)
      && e.root == None && e.trigger == None
    case ImportCompleted(d) => TellsOwner(intent, e, Imported, d)
    case ReauthRequired(c) => TellsOwner(intent, e, Reauth, c)
    case ModerationApplied(r) => TellsOwner(intent, e, Moderated, r)
    case AchievementUnlocked(_, a) => TellsOwner(intent, e, Unlocked, a)
  }

  /** A personal event: addressed to the intent's recipient, from nobody, about one reference. */
  predicate TellsOwner(intent: Intent, e: EventRow, kind: Kind, reference: int) {
    && e.kind == kind && intent.recipient == Some(e.recipient) && e.actor == None
    && e.subject == OnOther(reference) && e.root == None && e.trigger == None
  }

  /** An event is delivered exactly when it is deliverable, whatever its payload. */
  lemma DeliveredExactlyWhen(t: Tables, id: EventId, intent: Intent)
    requires MembershipsResolve(t) && SingleContext(t)
    ensures Resolve(t, id, intent).Contribute? <==> Deliverable(t, intent)
  {
    match intent.payload
    case ContentLiked(LikedGame) =>
    case ContentLiked(LikedRoot(root)) => LockedIsPublic(t, root);
    case ContentLiked(LikedComment(c)) => if c in t.comments { LockedIsPublic(t, t.comments[c].root); }
    case CommentCreated(c, root) => LockedIsPublic(t, root);
    case CommentReplied(c, p, root) => LockedIsPublic(t, root);
    case _ =>
  }

  /** A delivered event says who did what to which subject, and quotes the comment as it is stored now. */
  lemma DeliveredAs(t: Tables, id: EventId, intent: Intent)
    requires MembershipsResolve(t) && SingleContext(t)
    requires Resolve(t, id, intent).Contribute?
    ensures var e := Resolve(t, id, intent).row;
            && e.eventId == id && e.occurredAt == intent.occurredAt && Tells(t, intent, e)
            && e.target.focus == e.trigger && (e.root.Some? ==> e.target.place == OnRoot(e.root.value))
            && (e.kind == Created || e.kind == Replied ==>
                  e.preview == CommentText(t.comments[e.trigger.value].text))
            && (e.preview.CommentText? ==> e.kind == Created || e.kind == Replied)
  {
    match intent.payload
    case ContentLiked(LikedRoot(root)) => LockedIsPublic(t, root);
    case CommentCreated(c, root) => LockedIsPublic(t, root);
    case _ =>
  }

  /** Why an event that is not deliverable is suppressed: it is about the actor's own unless something is missing. */
  function WhyNot(t: Tables, intent: Intent): Note {
    match intent.payload
    case ContentLiked(LikedGame) => GameLike
    case ContentLiked(LikedRoot(root)) => if RootClause(t, root) then SelfNotification else SourceInaccessible
    case ContentLiked(LikedComment(c)) =>
      if c in t.comments && RootClause(t, t.comments[c].root) then SelfNotification else SourceInaccessible
    case CommentCreated(c, root) =>
      if !StoredUnder(t, c, Some(root)) || !RootClause(t, root) then SourceInaccessible
      else if t.comments[c].parent.Some? then InvalidCommentKind
      else SelfNotification
    case CommentReplied(c, p, root) =>
      if !StoredUnder(t, c, Some(root)) || !RootClause(t, root) then SourceInaccessible
      else if t.comments[c].parent != Some(p) then InvalidReplyParent
      else if !StoredUnder(t, p, Some(root)) then SourceInaccessible
      else SelfNotification
    case ProfileFollowed(f) => if intent.recipient.None? && f !in t.follows then NoRecipient else SelfNotification
    case ImportCompleted(_) => NoRecipient
    case ModerationApplied(_) => NoRecipient
    case ReauthRequired(_) => RecordNotFound
    case AchievementUnlocked(_, _) => RecordNotFound
  }

  lemma SuppressedBecause(t: Tables, id: EventId, intent: Intent)
    requires MembershipsResolve(t) && SingleContext(t) && !Deliverable(t, intent)
    ensures Resolve(t, id, intent) == Suppress(WhyNot(t, intent))
  {
    match intent.payload
    case ContentLiked(LikedRoot(root)) => LockedIsPublic(t, root);
    case ContentLiked(LikedComment(c)) => if c in t.comments { LockedIsPublic(t, t.comments[c].root); }
    case CommentCreated(c, root) => LockedIsPublic(t, root);
    case CommentReplied(c, p, root) => LockedIsPublic(t, root);
    case _ =>
  }

  /** Both instants fall on the UTC day that starts `day` times 24 hours after the epoch. */
  predicate OnDay(day: int, a: int, b: int) {
    var start := day * 24 * 3600 * 1000;
    start <= a < start + 24 * 3600 * 1000 && start <= b < start + 24 * 3600 * 1000
  }

  /**
   Two contributions share an item exactly when they tell the same recipient the same kind of thing
   on the same UTC day: likes of one subject, comments on one root, replies to one comment. Every
   other event has an item of its own.
   */
  lemma GroupedTogetherExactly(dir: Directory, a: EventRow, b: EventRow, ia: Intent, ib: Intent)
    requires FollowsBlueprint(dir, ia, a) && FollowsBlueprint(dir, ib, b)
    ensures a.occurredAt == ia.occurredAt && b.occurredAt == ib.occurredAt
    ensures a.group == b.group <==>
      && a.recipient == b.recipient && a.kind == b.kind
      && match a.kind
         case Liked => a.subject == b.subject && exists day :: OnDay(day, a.occurredAt, b.occurredAt)
         case Created => a.root == b.root && exists day :: OnDay(day, a.occurredAt, b.occurredAt)
         case Replied => a.subject == b.subject && exists day :: OnDay(day, a.occurredAt, b.occurredAt)
         case _ => a.eventId == b.eventId
  {
    KeyOf(dir, a, ia);
    KeyOf(dir, b, ib);
    SameDay(a.occurredAt, b.occurredAt);
  }

  lemma KeyOf(dir: Directory, e: EventRow, intent: Intent)
    requires FollowsBlueprint(dir, intent, e)
    ensures e.occurredAt == intent.occurredAt
    ensures e.group == Group(e.kind, e.recipient, e.subject, e.root, e.occurredAt, e.eventId)
    ensures (e.kind == Created ==> e.root.Some?) && (e.kind == Replied ==> e.subject.OnComment?)
  {
    var plain := Anonymous(e);
    assert plain.group == e.group && plain.kind == e.kind && plain.recipient == e.recipient;
    assert plain.subject == e.subject && plain.root == e.root && plain.eventId == e.eventId;
    assert plain.occurredAt == e.occurredAt;
  }

  lemma SameDay(a: int, b: int)
    ensures a / DAY_MS == b / DAY_MS <==> exists day :: OnDay(day, a, b)
  {
    if a / DAY_MS == b / DAY_MS {
      DayOf(a / DAY_MS, a);
      DayOf(a / DAY_MS, b);
      assert OnDay(a / DAY_MS, a, b);
    } else {
      forall day ensures !OnDay(day, a, b) {
        DayOf(day, a);
        DayOf(day, b);
      }
    }
  }

  lemma DayOf(day: int, a: int)
    ensures day * 86400000 <= a < day * 86400000 + 86400000 <==> a / DAY_MS == day
  {
  }

  lemma LockedIsPublic(t: Tables, root: Root)
    requires MembershipsResolve(t) && SingleContext(t)
    ensures LockRoot(t, root) == if RootClause(t, root) then RootOwner(t, root) else None
  {
    LockExactlyWhenClause(t, root);
  }

  /** Whatever is contributed, nobody is notified of their own action. */
  lemma NeverNotifiesActor(t: Tables, id: EventId, intent: Intent)
    requires Resolve(t, id, intent).Contribute?
    ensures Resolve(t, id, intent).row.actor != Some(Resolve(t, id, intent).row.recipient)
  {
  }
}
