/**
 The whole notification protocol as a state machine. One transaction is one step; recordFailure
 and acknowledgeRead are two steps each (a read that leaves a report or an acknowledgement
 behind, and a later write), so anything may happen in between. Workers, their crashes and
 duplicate deliveries need no state of their own: every step may be taken at any time, any
 number of times, with any token.
 */
module Protocol {
  import opened Prelude
  import opened Content
  import opened Outbox
  import opened Inbox
  import opened Projection

  datatype Ack = Ack(user: UserId, group: GroupKey, version: int)

  datatype State = State(
    now: int,
    content: Tables,
    outbox: map<EventId, OutboxRow>,
    events: set<EventRow>,
    inbox: map<GroupKey, InboxRow>,
    tokens: set<Token>,
    reports: set<FailureReport>,
    acks: set<Ack>)

  datatype Step =
    | Append(id: EventId, intent: Intent)
    | Claim(picks: map<EventId, Token>, leaseMs: int)
    | Project(id: EventId, token: Token, commitAt: int, inboxId: int)
    | ReadFailure(id: EventId, token: Token, kind: FailureKind)
    | WriteFailure(report: FailureReport)
    | Rearm(id: EventId)
    | ReadAck(ack: Ack)
    | WriteAck(ack: Ack)
    | Wait(until: int)
    | EditContent(content: Tables, lost: set<Root>)
    | DeleteComment(comment: CommentId)
    | InvalidateContent(roots: set<Root>, content: Tables)
    | RemoveProfile(user: UserId, content: Tables)

  // ----- content changes -----

  /** Deleting a comment cascades to its replies. */
  function WithoutComment(t: Tables, c: CommentId): Tables {
    t.(comments := map x | x in t.comments && x != c && t.comments[x].parent != Some(c) :: t.comments[x])
  }

  predicate KeepsComments(t: Tables, t': Tables, gone: set<Root>) {
    forall c :: c in t.comments && t.comments[c].root !in gone ==> c in t'.comments
  }

  predicate RootStored(t: Tables, root: Root) {
    match root.kind
    case Post => root.id in t.posts
    case Review => root.id in t.reviews
    case Activity => root.id in t.activities
  }

  /** The roots invalidateContent visits: the content and the activities derived from it. */
  function DerivedRoots(t: Tables, root: Root): set<Root> {
    if root.kind == Activity then {}
    else if root.kind == Post then
      set a | a in t.activities && t.activities[a].post == Some(root.id) :: Root(Activity, a)
    else
      set a | a in t.activities && t.activities[a].review == Some(root.id) :: Root(Activity, a)
  }

  function Reached(t: Tables, roots: set<Root>): set<Root> {
    roots + set r, d | r in roots && d in DerivedRoots(t, r) :: d
  }

  function HideItem(item: InboxRow, roots: set<Root>): InboxRow {
    if (item.subject.OnRoot? && item.subject.root in roots) || (item.root.Some? && item.root.value in roots)
    then item.(visible := false) else item
  }

  function HideRoots(inbox: map<GroupKey, InboxRow>, roots: set<Root>): map<GroupKey, InboxRow> {
    map g | g in inbox :: HideItem(inbox[g], roots)
  }

  function HideRecipient(inbox: map<GroupKey, InboxRow>, user: UserId): map<GroupKey, InboxRow> {
    map g | g in inbox :: if g.recipient == user then inbox[g].(visible := false) else inbox[g]
  }

  function MarkRead(item: InboxRow, version: int): InboxRow {
    item.(readVersion := Max(item.readVersion, version))
  }

  predicate Mentions(e: EventRow, c: CommentId) {
    e.subject == OnComment(c) || e.trigger == Some(c)
  }

  /** The groups invalidateComment collects before it looks at any item. */
  predicate Touched(item: InboxRow, rows: set<EventRow>, c: CommentId) {
    || item.subject == OnComment(c)
    || item.trigger == Some(c)
    || exists e :: e in rows && Mentions(e, c)
  }

  predicate HasActive(rows: set<EventRow>, t: Tables, c: CommentId) {
    exists e :: e in rows && e.trigger != Some(c) && TriggerStored(t, e)
  }

  function Unfocused(target: Option<Target>): Option<Target> {
    if target.Some? then Some(target.value.(focus := None)) else None
  }

  function RedactItem(item: InboxRow, rows: set<EventRow>, t: Tables, c: CommentId): InboxRow {
    if !Touched(item, rows, c) || !item.visible then item
    else if item.subject == OnComment(c) then item.(visible := false)
    else if item.trigger != Some(c) && !item.redacted then item
    else item.(visible := HasActive(rows, t, c), redacted := true, preview := Some(CommentDeleted),
               target := Unfocused(item.target), trigger := None)
  }

  /** invalidateComment, run on tables `t` in which the comment is already deleted. */
  function RedactComment(inbox: map<GroupKey, InboxRow>, events: set<EventRow>, t: Tables, c: CommentId)
    : map<GroupKey, InboxRow>
  {
    map g | g in inbox :: RedactItem(inbox[g], GroupRows(events, g), t, c)
  }

  // ----- steps -----

  predicate Recorded(events: set<EventRow>, id: EventId, recipient: UserId) {
    exists e :: e in events && e.eventId == id && e.recipient == recipient
  }

  function ItemFor(inbox: map<GroupKey, InboxRow>, e: EventRow, inboxId: int): InboxRow {
    if e.group in inbox then inbox[e.group] else NewItem(e, inboxId)
  }

  ghost function AddContribution(s: State, e: EventRow, inboxId: int): State {
    s.(events := s.events + {e},
       inbox := s.inbox[e.group := Bump(ItemFor(s.inbox, e, inboxId), GroupRows(s.events, e.group), e)])
  }

  function ClaimAll(outbox: map<EventId, OutboxRow>, picks: map<EventId, Token>, now: int,
                    leaseMs: int): map<EventId, OutboxRow> {
    map id | id in outbox :: if id in picks then ClaimRow(outbox[id], picks[id], now, leaseMs) else outbox[id]
  }

  function FinishOutbox(s: State, id: EventId, state: OutboxState, reason: Option<Note>): State
    requires id in s.outbox
  {
    s.(outbox := s.outbox[id := FinishRow(s.outbox[id], state, reason, s.now)])
  }

  /** projectEvent: all of it takes effect at `commitAt`, or nothing does. */
  ghost function ProjectTx(before: State, id: EventId, token: Token, commitAt: int, inboxId: int): State {
    var s := before.(now := commitAt);
    if id !in s.outbox || !CanFinish(s.outbox[id], token, commitAt) then s
    else match Resolve(s.content, id, s.outbox[id].intent)
      case Suppress(reason) => FinishOutbox(s, id, Suppressed, Some(reason))
      case Contribute(e) =>
        var added := if Recorded(s.events, id, e.recipient) then s else AddContribution(s, e, inboxId);
        FinishOutbox(added, id, Completed, None)
  }

  predicate AckAccepted(s: State, ack: Ack) {
    ack.group in s.inbox && ack.group.recipient == ack.user && ack.version <= s.inbox[ack.group].version
  }

  predicate Injective(picks: map<EventId, Token>) {
    forall a, b :: a in picks && b in picks && picks[a] == picks[b] ==> a == b
  }

  predicate Enabled(dir: Directory, s: State, step: Step) {
    match step
    case Append(id, _) => id !in s.outbox
    case Claim(picks, leaseMs) =>
      && |picks| <= CLAIM_LIMIT && 1000 <= leaseMs <= MAX_LEASE_MS
      && Injective(picks) && picks.Values !! s.tokens
      && (forall id :: id in picks ==> id in s.outbox && Due(s.outbox[id], s.now))
    case Project(_, _, commitAt, inboxId) =>
      s.now <= commitAt && (forall g :: g in s.inbox ==> s.inbox[g].id != inboxId)
    case WriteFailure(report) => report in s.reports
    case WriteAck(ack) => ack in s.acks
    case Wait(until) => s.now <= until
    case EditContent(t, lost) =>
      Agrees(t, dir) && KeepsComments(s.content, t, lost) && (forall r :: r in lost ==> !RootStored(t, r))
    case InvalidateContent(roots, t) => Agrees(t, dir) && KeepsComments(s.content, t, Reached(s.content, roots))
    case RemoveProfile(_, t) => Agrees(t, dir)
    case _ => true
  }

  ghost function Apply(s: State, step: Step): State {
    match step
    case Append(id, intent) => s.(outbox := s.outbox[id := NewRow(intent, s.now)])
    case Claim(picks, leaseMs) =>
      s.(outbox := ClaimAll(s.outbox, picks, s.now, leaseMs), tokens := s.tokens + picks.Values)
    case Project(id, token, commitAt, inboxId) => ProjectTx(s, id, token, commitAt, inboxId)
    case ReadFailure(id, token, kind) =>
      if id in s.outbox && OwnedBy(s.outbox[id], token)
      then s.(reports := s.reports + {FailureReport(id, token, s.outbox[id].attempts, kind)}) else s
    case WriteFailure(report) =>
      if report.id in s.outbox
      then s.(outbox := s.outbox[report.id := FailRow(s.outbox[report.id], report, s.now)]) else s
    case Rearm(id) =>
      if id in s.outbox then s.(outbox := s.outbox[id := RearmRow(s.outbox[id], s.now)]) else s
    case ReadAck(ack) => if AckAccepted(s, ack) then s.(acks := s.acks + {ack}) else s
    case WriteAck(ack) =>
      if ack.group in s.inbox
      then s.(inbox := s.inbox[ack.group := MarkRead(s.inbox[ack.group], ack.version)])
      else s
    case Wait(until) => s.(now := until)
    case EditContent(t, _) => s.(content := t)
    case DeleteComment(c) =>
      if c !in s.content.comments then s
      else
        var t := WithoutComment(s.content, c);
        s.(content := t, inbox := RedactComment(s.inbox, s.events, t, c))
    case InvalidateContent(roots, t) =>
      s.(content := t, inbox := HideRoots(s.inbox, Reached(s.content, roots)))
    case RemoveProfile(user, t) =>
      s.(content := t,
         outbox := map id | id in s.outbox :: RemoveRecipient(s.outbox[id], user, s.now),
         inbox := HideRecipient(HideRoots(s.inbox, Reached(s.content, OwnedRoots(s.content, user))), user))
  }

  function OwnedRoots(t: Tables, user: UserId): set<Root> {
    (set id | id in t.posts && t.posts[id].owner == user :: Root(Post, id))
    + (set id | id in t.reviews && t.reviews[id].owner == user :: Root(Review, id))
    + (set id | id in t.activities && t.activities[id].owner == user :: Root(Activity, id))
  }

  // ----- runs -----

  ghost predicate Initial(dir: Directory, s: State) {
    && OneLevel(dir) && Agrees(s.content, dir)
    && s.outbox == map[] && s.events == {} && s.inbox == map[] && s.tokens == {} && s.reports == {} && s.acks == {}
  }

  ghost predicate Legal(dir: Directory, s: State, steps: seq<Step>)
    decreases |steps|
  {
    steps == [] || (Enabled(dir, s, steps[0]) && Legal(dir, Apply(s, steps[0]), steps[1..]))
  }

  ghost function Run(s: State, steps: seq<Step>): State
    decreases |steps|
  {
    if steps == [] then s else Run(Apply(s, steps[0]), steps[1..])
  }

  // ----- invariants -----

  predicate RowsOk(outbox: map<EventId, OutboxRow>) {
    forall id :: id in outbox ==> RowOk(outbox[id])
  }

  /** Tokens in use were issued, and a report whose token still owns its row knows the row's attempts. */
  predicate Fenced(outbox: map<EventId, OutboxRow>, tokens: set<Token>, reports: set<FailureReport>) {
    && (forall id :: id in outbox && outbox[id].ownerToken.Some? ==> outbox[id].ownerToken.value in tokens)
    && (forall f :: f in reports ==> f.token in tokens)
    && (forall f :: f in reports && f.id in outbox && OwnedBy(outbox[f.id], f.token) ==>
          outbox[f.id].attempts == f.attempts)
  }

  /** Each event contributed at most one row, and that row is the one its intent determines. */
  predicate EventsOk(dir: Directory, outbox: map<EventId, OutboxRow>, events: set<EventRow>) {
    && (forall e :: e in events ==>
          && e.eventId in outbox
          && FollowsBlueprint(dir, outbox[e.eventId].intent, e))
    && DistinctIds(events)
  }

  predicate Contributed(events: set<EventRow>, id: EventId) {
    exists e :: e in events && e.eventId == id
  }

  predicate CompletedContributed(outbox: map<EventId, OutboxRow>, events: set<EventRow>) {
    forall id :: id in outbox && outbox[id].state == Completed ==> Contributed(events, id)
  }

  predicate SameShape(item: InboxRow, e: EventRow) {
    item.kind == e.kind && item.subject == e.subject && item.root == e.root
  }

  predicate ShapesOk(events: set<EventRow>, inbox: map<GroupKey, InboxRow>) {
    forall e :: e in events ==> e.group in inbox && SameShape(inbox[e.group], e)
  }

  /** Items exist exactly for the groups that have contributions, and each is their aggregate. */
  ghost predicate GroupsOk(events: set<EventRow>, inbox: map<GroupKey, InboxRow>) {
    && ShapesOk(events, inbox)
    && (forall g :: g in inbox ==> GroupRows(events, g) != {} && Summarises(inbox[g], GroupRows(events, g)))
  }

  predicate ItemIdsDistinct(inbox: map<GroupKey, InboxRow>) {
    forall g, h :: g in inbox && h in inbox && inbox[g].id == inbox[h].id ==> g == h
  }

  predicate ReadsOk(inbox: map<GroupKey, InboxRow>, acks: set<Ack>) {
    && (forall g :: g in inbox ==> 0 <= inbox[g].readVersion <= inbox[g].version)
    && (forall a :: a in acks ==> a.group in inbox && a.version <= inbox[a.group].version)
  }

  /** Only comment groups are ever redacted; a redacted item names no trigger and shows no excerpt. */
  predicate RedactionShape(inbox: map<GroupKey, InboxRow>) {
    forall g :: g in inbox && inbox[g].redacted ==>
      inbox[g].trigger.None? && inbox[g].preview == Some(CommentDeleted)
          && (inbox[g].kind == Created || inbox[g].kind == Replied)
  }

  predicate OutboxInv(dir: Directory, outbox: map<EventId, OutboxRow>, events: set<EventRow>,
                      tokens: set<Token>, reports: set<FailureReport>)
  {
    RowsOk(outbox) && Fenced(outbox, tokens, reports) && EventsOk(dir, outbox, events)
        && CompletedContributed(outbox, events)
  }

  ghost predicate InboxInv(events: set<EventRow>, inbox: map<GroupKey, InboxRow>, acks: set<Ack>) {
    GroupsOk(events, inbox) && ItemIdsDistinct(inbox) && ReadsOk(inbox, acks) && RedactionShape(inbox)
  }

  ghost predicate Inv(dir: Directory, s: State) {
    && OneLevel(dir) && Agrees(s.content, dir)
    && OutboxInv(dir, s.outbox, s.events, s.tokens, s.reports)
    && InboxInv(s.events, s.inbox, s.acks)
  }

  // ----- outbox steps -----

  lemma ClaimKeepsOutbox(dir: Directory, s: State, picks: map<EventId, Token>, leaseMs: int)
    requires OutboxInv(dir, s.outbox, s.events, s.tokens, s.reports) && Enabled(dir, s, Claim(picks, leaseMs))
    ensures var s' := Apply(s, Claim(picks, leaseMs)); OutboxInv(dir, s'.outbox, s.events, s'.tokens, s.reports)
  {
    forall id | id in s.outbox && id in picks
      ensures RowOk(s.outbox[id]) && Due(s.outbox[id], s.now)
    {
    }
    var outbox' := ClaimAll(s.outbox, picks, s.now, leaseMs);
    ClaimKeepsRows(s.outbox, picks, s.now, leaseMs);
    ClaimKeepsFence(s.outbox, picks, s.now, leaseMs, s.tokens, s.reports);
    IntentsKeepEvents(dir, s.outbox, outbox', s.events);
  }

  lemma ClaimKeepsRows(outbox: map<EventId, OutboxRow>, picks: map<EventId, Token>, now: int, leaseMs: int)
    requires RowsOk(outbox) && forall id :: id in picks ==> id in outbox && Due(outbox[id], now)
    ensures var outbox' := ClaimAll(outbox, picks, now, leaseMs);
      RowsOk(outbox') && SameIntents(outbox, outbox')
      && forall id :: id in outbox' && outbox'[id].state == Completed ==> outbox[id].state == Completed
  {
    forall id | id in outbox && id in picks ensures RowOk(ClaimRow(outbox[id], picks[id], now, leaseMs)) {
      ClaimOutcome(outbox[id], picks[id], now, leaseMs);
    }
  }

  predicate SameIntents(outbox: map<EventId, OutboxRow>, outbox': map<EventId, OutboxRow>) {
    outbox'.Keys == outbox.Keys && forall id :: id in outbox ==> outbox'[id].intent == outbox[id].intent
  }

  lemma ClaimKeepsFence(outbox: map<EventId, OutboxRow>, picks: map<EventId, Token>, now: int, leaseMs: int,
                        tokens: set<Token>, reports: set<FailureReport>)
    requires Fenced(outbox, tokens, reports) && picks.Values !! tokens
    ensures Fenced(ClaimAll(outbox, picks, now, leaseMs), tokens + picks.Values, reports)
  {
    assert forall id :: id in picks ==> picks[id] in picks.Values;
  }

  lemma IntentsKeepEvents(dir: Directory, outbox: map<EventId, OutboxRow>, outbox': map<EventId, OutboxRow>,
                          events: set<EventRow>)
    requires EventsOk(dir, outbox, events) && SameIntents(outbox, outbox')
    ensures EventsOk(dir, outbox', events)
  {
  }

  lemma WriteRowKeepsOutbox(dir: Directory, s: State, id: EventId, row: OutboxRow)
    requires OutboxInv(dir, s.outbox, s.events, s.tokens, s.reports) && id in s.outbox
    requires RowOk(row) && row.intent == s.outbox[id].intent
    requires row.ownerToken.None? || row == s.outbox[id]
    requires row.state == Completed ==> Contributed(s.events, id)
    ensures OutboxInv(dir, s.outbox[id := row], s.events, s.tokens, s.reports)
  {
  }

  lemma WriteFailureKeepsOutbox(dir: Directory, s: State, f: FailureReport)
    requires OutboxInv(dir, s.outbox, s.events, s.tokens, s.reports) && f in s.reports && f.id in s.outbox
    ensures OutboxInv(dir, s.outbox[f.id := FailRow(s.outbox[f.id], f, s.now)], s.events, s.tokens, s.reports)
  {
    FailureOutcome(s.outbox[f.id], f, s.now);
    WriteRowKeepsOutbox(dir, s, f.id, FailRow(s.outbox[f.id], f, s.now));
  }

  lemma RemoveRecipientKeepsOutbox(dir: Directory, s: State, user: UserId)
    requires OutboxInv(dir, s.outbox, s.events, s.tokens, s.reports)
    ensures OutboxInv(dir, map id | id in s.outbox :: RemoveRecipient(s.outbox[id], user, s.now), s.events, s.tokens,
        s.reports)
  {
  }

  lemma AppendKeepsOutbox(dir: Directory, s: State, id: EventId, intent: Intent)
    requires OutboxInv(dir, s.outbox, s.events, s.tokens, s.reports) && id !in s.outbox
    ensures OutboxInv(dir, s.outbox[id := NewRow(intent, s.now)], s.events, s.tokens, s.reports)
  {
  }

  lemma ReadFailureKeepsOutbox(dir: Directory, s: State, id: EventId, token: Token, kind: FailureKind)
    requires OutboxInv(dir, s.outbox, s.events, s.tokens, s.reports)
    requires id in s.outbox && OwnedBy(s.outbox[id], token)
    ensures OutboxInv(dir, s.outbox, s.events, s.tokens,
        s.reports + {FailureReport(id, token, s.outbox[id].attempts, kind)})
  {
  }

  // ----- inbox rewrites -----

  /** Writes that leave the aggregated columns of an item as they are. */
  predicate SameAggregate(a: InboxRow, b: InboxRow) {
    && a.id == b.id && a.kind == b.kind && a.subject == b.subject && a.root == b.root
    && a.actorIds == b.actorIds && a.eventCount == b.eventCount && a.actorCount == b.actorCount
    && a.lastEventAt == b.lastEventAt && a.version == b.version
    && (b.redacted || (!a.redacted && a.preview == b.preview && a.target == b.target && a.trigger == b.trigger))
  }

  predicate Rewrites(inbox: map<GroupKey, InboxRow>, inbox': map<GroupKey, InboxRow>) {
    && inbox'.Keys == inbox.Keys
    && forall g :: g in inbox ==>
         SameAggregate(inbox[g], inbox'[g]) && inbox[g].readVersion <= inbox'[g].readVersion <= inbox'[g].version
  }

  lemma RewriteKeepsInbox(events: set<EventRow>, inbox: map<GroupKey, InboxRow>, inbox': map<GroupKey, InboxRow>,
                          acks: set<Ack>)
    requires InboxInv(events, inbox, acks) && Rewrites(inbox, inbox') && RedactionShape(inbox')
    ensures InboxInv(events, inbox', acks)
  {
    forall g | g in inbox' ensures Summarises(inbox'[g], GroupRows(events, g)) {
      assert SameAggregate(inbox[g], inbox'[g]);
    }
  }

  lemma HideKeepsInbox(events: set<EventRow>, inbox: map<GroupKey, InboxRow>, acks: set<Ack>, roots: set<Root>)
    requires InboxInv(events, inbox, acks)
    ensures InboxInv(events, HideRoots(inbox, roots), acks)
  {
    RewriteKeepsInbox(events, inbox, HideRoots(inbox, roots), acks);
  }

  lemma HideRecipientKeepsInbox(events: set<EventRow>, inbox: map<GroupKey, InboxRow>, acks: set<Ack>, user: UserId)
    requires InboxInv(events, inbox, acks)
    ensures InboxInv(events, HideRecipient(inbox, user), acks)
  {
    RewriteKeepsInbox(events, inbox, HideRecipient(inbox, user), acks);
  }

  lemma AckKeepsInbox(events: set<EventRow>, inbox: map<GroupKey, InboxRow>, acks: set<Ack>, ack: Ack)
    requires InboxInv(events, inbox, acks) && ack in acks
    ensures InboxInv(events, inbox[ack.group := MarkRead(inbox[ack.group], ack.version)], acks)
  {
    RewriteKeepsInbox(events, inbox, inbox[ack.group := MarkRead(inbox[ack.group], ack.version)], acks);
  }

  /** Like groups and personal groups never lose their excerpt to a comment deletion. */
  predicate TriggerFixed(rows: set<EventRow>) {
    forall e :: e in rows && e.trigger.Some? && e.kind != Created && e.kind != Replied ==>
      e.subject == OnComment(e.trigger.value)
  }

  lemma OnlyCommentGroupsAreRedacted(item: InboxRow, rows: set<EventRow>, t: Tables, c: CommentId)
    requires DistinctIds(rows) && rows != {} && Summarises(item, rows) && TriggerFixed(rows)
    requires forall e :: e in rows ==> SameShape(item, e)
    requires !item.redacted && RedactItem(item, rows, t, c).redacted
    ensures item.kind == Created || item.kind == Replied
  {
    var latest := LatestExists(rows);
    assert ShowsLatest(item, latest);
  }

  lemma EventsFixTriggers(dir: Directory, outbox: map<EventId, OutboxRow>, events: set<EventRow>)
    requires EventsOk(dir, outbox, events)
    ensures TriggerFixed(events)
  {
    forall e | e in events && e.trigger.Some? && e.kind != Created && e.kind != Replied
      ensures e.subject == OnComment(e.trigger.value)
    {
      assert Anonymous(e).trigger == e.trigger && Anonymous(e).subject == e.subject && Anonymous(e).kind == e.kind;
    }
  }

  lemma RedactItemRewrites(item: InboxRow, rows: set<EventRow>, t: Tables, c: CommentId)
    ensures var item' := RedactItem(item, rows, t, c);
            && SameAggregate(item, item') && item'.readVersion == item.readVersion
            && (item'.redacted && !item.redacted ==> item'.trigger.None? && item'.preview == Some(CommentDeleted))
            && (item.redacted ==> item'.redacted)
            && (item.trigger.None? && item.preview == Some(CommentDeleted) ==>
                 item'.trigger.None? && item'.preview == Some(CommentDeleted))
  {
  }

  lemma RedactRewrites(events: set<EventRow>, inbox: map<GroupKey, InboxRow>, t: Tables, c: CommentId)
    requires forall g :: g in inbox ==> inbox[g].readVersion <= inbox[g].version
    ensures Rewrites(inbox, RedactComment(inbox, events, t, c))
  {
    forall g | g in inbox {
      RedactItemRewrites(inbox[g], GroupRows(events, g), t, c);
    }
  }

  lemma RedactKeepsShape(events: set<EventRow>, inbox: map<GroupKey, InboxRow>, t: Tables, c: CommentId)
    requires GroupsOk(events, inbox) && RedactionShape(inbox) && TriggerFixed(events) && DistinctIds(events)
    ensures RedactionShape(RedactComment(inbox, events, t, c))
  {
    var inbox' := RedactComment(inbox, events, t, c);
    forall g | g in inbox' && inbox'[g].redacted
      ensures inbox'[g].trigger.None? && inbox'[g].preview == Some(CommentDeleted)
      ensures inbox'[g].kind == Created || inbox'[g].kind == Replied
    {
      var rows := GroupRows(events, g);
      RedactItemRewrites(inbox[g], rows, t, c);
      if !inbox[g].redacted {
        assert TriggerFixed(rows) && DistinctIds(rows);
        OnlyCommentGroupsAreRedacted(inbox[g], rows, t, c);
      }
    }
  }

  lemma RedactKeepsInbox(events: set<EventRow>, inbox: map<GroupKey, InboxRow>, acks: set<Ack>, t: Tables, c: CommentId)
    requires InboxInv(events, inbox, acks) && TriggerFixed(events) && DistinctIds(events)
    ensures InboxInv(events, RedactComment(inbox, events, t, c), acks)
  {
    RedactKeepsShape(events, inbox, t, c);
    RedactRewrites(events, inbox, t, c);
    RewriteKeepsInbox(events, inbox, RedactComment(inbox, events, t, c), acks);
  }

  // ----- projection -----

  lemma GroupRowsOfInsert(events: set<EventRow>, e: EventRow, g: GroupKey)
    ensures GroupRows(events + {e}, g) == GroupRows(events, g) + (if e.group == g then {e} else {})
  {
  }

  lemma BumpedGroup(events: set<EventRow>, inbox: map<GroupKey, InboxRow>, e: EventRow, inboxId: int)
    requires GroupsOk(events, inbox) && DistinctIds(events + {e}) && e !in events
    ensures Summarises(Bump(ItemFor(inbox, e, inboxId), GroupRows(events, e.group), e),
        GroupRows(events + {e}, e.group))
  {
    var rows := GroupRows(events, e.group);
    GroupRowsOfInsert(events, e, e.group);
    if e.group !in inbox {
      assert rows == {};
      NewItemSummarisesNothing(e, inboxId);
    }
    assert DistinctIds(rows + {e});
    BumpKeepsSummary(ItemFor(inbox, e, inboxId), rows, e);
  }

  lemma ContributionKeepsGroups(events: set<EventRow>, inbox: map<GroupKey, InboxRow>, e: EventRow, item: InboxRow)
    requires GroupsOk(events, inbox)
    requires e.group in inbox ==>
      item.kind == inbox[e.group].kind && item.subject == inbox[e.group].subject && item.root == inbox[e.group].root
    requires SameShape(item, e) && Summarises(item, GroupRows(events + {e}, e.group))
    ensures GroupsOk(events + {e}, inbox[e.group := item])
  {
    var inbox' := inbox[e.group := item];
    assert e in GroupRows(events + {e}, e.group);
    forall g | g in inbox'
      ensures GroupRows(events + {e}, g) != {} && Summarises(inbox'[g], GroupRows(events + {e}, g))
    {
      OtherGroupsKept(events, e, g);
    }
    forall x | x in events + {e} ensures x.group in inbox' && SameShape(inbox'[x.group], x) {
    }
  }

  lemma OtherGroupsKept(events: set<EventRow>, e: EventRow, g: GroupKey)
    ensures g != e.group ==> GroupRows(events + {e}, g) == GroupRows(events, g)
  {
    GroupRowsOfInsert(events, e, g);
  }

  /** Bookkeeping columns after a contribution, against the item it starts from. */
  lemma BumpBookkeeping(item: InboxRow, rows: set<EventRow>, e: EventRow)
    ensures var item' := Bump(item, rows, e);
            && item'.id == item.id && item'.kind == item.kind && item'.subject == item.subject
                 && item'.root == item.root
            && item'.version == item.version + 1 && item'.readVersion == item.readVersion
            && (item'.redacted ==> item.redacted && item'.trigger == item.trigger && item'.preview == item.preview)
  {
  }

  lemma PutItemKeepsBookkeeping(inbox: map<GroupKey, InboxRow>, acks: set<Ack>, g: GroupKey, item: InboxRow)
    requires ItemIdsDistinct(inbox) && ReadsOk(inbox, acks) && RedactionShape(inbox)
    requires if g in inbox then item.id == inbox[g].id && inbox[g].version <= item.version
             else forall h :: h in inbox ==> inbox[h].id != item.id
    requires 0 <= item.readVersion <= item.version
    requires item.redacted ==>
      item.trigger.None? && item.preview == Some(CommentDeleted) && (item.kind == Created || item.kind == Replied)
    ensures ItemIdsDistinct(inbox[g := item]) && ReadsOk(inbox[g := item], acks) && RedactionShape(inbox[g := item])
  {
  }

  lemma ContributionKeepsInbox(events: set<EventRow>, inbox: map<GroupKey, InboxRow>, acks: set<Ack>, e: EventRow,
                               inboxId: int)
    requires InboxInv(events, inbox, acks)
    requires DistinctIds(events + {e}) && e !in events
    requires e.group in inbox ==> SameShape(inbox[e.group], e)
    requires forall g :: g in inbox ==> inbox[g].id != inboxId
    ensures InboxInv(events + {e}, inbox[e.group := Bump(ItemFor(inbox, e, inboxId), GroupRows(events, e.group), e)],
        acks)
  {
    var rows := GroupRows(events, e.group);
    var prior := ItemFor(inbox, e, inboxId);
    var item := Bump(prior, rows, e);
    BumpedGroup(events, inbox, e, inboxId);
    BumpBookkeeping(prior, rows, e);
    ContributionKeepsGroups(events, inbox, e, item);
    PutItemKeepsBookkeeping(inbox, acks, e.group, item);
  }

  lemma ContributionFitsGroup(dir: Directory, s: State, e: EventRow)
    requires OneLevel(dir) && EventsOk(dir, s.outbox, s.events) && ShapesOk(s.events, s.inbox)
    requires e.eventId in s.outbox && FollowsBlueprint(dir, s.outbox[e.eventId].intent, e)
    requires e.group in s.inbox && GroupRows(s.events, e.group) != {}
    ensures SameShape(s.inbox[e.group], e)
  {
    var x := Member(GroupRows(s.events, e.group));
    GroupFixesSubject(dir, x, e, s.outbox[x.eventId].intent, s.outbox[e.eventId].intent);
  }

  lemma ContributionKeepsOutbox(dir: Directory, s: State, e: EventRow)
    requires OutboxInv(dir, s.outbox, s.events, s.tokens, s.reports)
    requires e.eventId in s.outbox && !Contributed(s.events, e.eventId)
    requires FollowsBlueprint(dir, s.outbox[e.eventId].intent, e)
    ensures OutboxInv(dir, s.outbox, s.events + {e}, s.tokens, s.reports)
  {
    forall id | Contributed(s.events, id) ensures Contributed(s.events + {e}, id) {
      var x :| x in s.events && x.eventId == id;
      assert x in s.events + {e};
    }
  }

  lemma RecordedMeansContributed(dir: Directory, s: State, id: EventId, e: EventRow)
    requires EventsOk(dir, s.outbox, s.events) && id in s.outbox && e.eventId == id
    requires FollowsBlueprint(dir, s.outbox[id].intent, e)
    ensures Recorded(s.events, id, e.recipient) <==> Contributed(s.events, id)
  {
    if x :| x in s.events && x.eventId == id {
      assert Anonymous(x).recipient == Anonymous(e).recipient;
    }
  }

  /** The outbox part of a projection: a completed row has its contribution, whether new or recorded before. */
  lemma ProjectKeepsOutbox(dir: Directory, s: State, id: EventId, token: Token, commitAt: int, inboxId: int)
    requires OutboxInv(dir, s.outbox, s.events, s.tokens, s.reports) && Agrees(s.content, dir)
    ensures var s' := ProjectTx(s, id, token, commitAt, inboxId);
            OutboxInv(dir, s'.outbox, s'.events, s'.tokens, s'.reports)
  {
    var mid := s.(now := commitAt);
    if id in s.outbox && CanFinish(s.outbox[id], token, commitAt) {
      match Resolve(s.content, id, s.outbox[id].intent)
      case Suppress(reason) =>
        WriteRowKeepsOutbox(dir, mid, id, FinishRow(s.outbox[id], Suppressed, Some(reason), commitAt));
      case Contribute(e) =>
        ResolvedMatchesBlueprint(s.content, dir, id, s.outbox[id].intent);
        RecordedMeansContributed(dir, mid, id, e);
        var row := FinishRow(s.outbox[id], Completed, None, commitAt);
        if Recorded(s.events, id, e.recipient) {
          WriteRowKeepsOutbox(dir, mid, id, row);
        } else {
          ContributionKeepsOutbox(dir, mid, e);
          assert e in s.events + {e};
          WriteRowKeepsOutbox(dir, AddContribution(mid, e, inboxId), id, row);
        }
    }
  }

  /** The inbox part: one more contribution, or nothing. */
  lemma ProjectKeepsInbox(dir: Directory, s: State, id: EventId, token: Token, commitAt: int, inboxId: int)
    requires OneLevel(dir) && Agrees(s.content, dir) && EventsOk(dir, s.outbox, s.events)
    requires InboxInv(s.events, s.inbox, s.acks) && forall g :: g in s.inbox ==> s.inbox[g].id != inboxId
    ensures var s' := ProjectTx(s, id, token, commitAt, inboxId); InboxInv(s'.events, s'.inbox, s'.acks)
  {
    if id in s.outbox && CanFinish(s.outbox[id], token, commitAt) {
      match Resolve(s.content, id, s.outbox[id].intent)
      case Suppress(reason) =>
      case Contribute(e) =>
        ResolvedMatchesBlueprint(s.content, dir, id, s.outbox[id].intent);
        RecordedMeansContributed(dir, s, id, e);
        if !Recorded(s.events, id, e.recipient) {
          if e.group in s.inbox { ContributionFitsGroup(dir, s, e); }
          ContributionKeepsInbox(s.events, s.inbox, s.acks, e, inboxId);
        }
    }
  }

  lemma ProjectKeepsInv(dir: Directory, s: State, id: EventId, token: Token, commitAt: int, inboxId: int)
    requires Inv(dir, s) && Enabled(dir, s, Project(id, token, commitAt, inboxId))
    ensures Inv(dir, ProjectTx(s, id, token, commitAt, inboxId))
  {
    ProjectKeepsOutbox(dir, s, id, token, commitAt, inboxId);
    ProjectKeepsInbox(dir, s, id, token, commitAt, inboxId);
  }

  // ----- every step, every run -----

  lemma StepKeepsOutbox(dir: Directory, s: State, step: Step)
    requires OutboxInv(dir, s.outbox, s.events, s.tokens, s.reports) && Enabled(dir, s, step) && !step.Project?
    ensures var s' := Apply(s, step); OutboxInv(dir, s'.outbox, s'.events, s'.tokens, s'.reports)
  {
    match step
    case Append(id, intent) => AppendKeepsOutbox(dir, s, id, intent);
    case Claim(picks, leaseMs) => ClaimKeepsOutbox(dir, s, picks, leaseMs);
    case ReadFailure(id, token, kind) =>
      if id in s.outbox && OwnedBy(s.outbox[id], token) { ReadFailureKeepsOutbox(dir, s, id, token, kind); }
    case WriteFailure(f) => if f.id in s.outbox { WriteFailureKeepsOutbox(dir, s, f); }
    case Rearm(id) => if id in s.outbox { WriteRowKeepsOutbox(dir, s, id, RearmRow(s.outbox[id], s.now)); }
    case RemoveProfile(user, t) => RemoveRecipientKeepsOutbox(dir, s, user);
    case _ =>
  }

  lemma StepKeepsInbox(dir: Directory, s: State, step: Step)
    requires InboxInv(s.events, s.inbox, s.acks) && EventsOk(dir, s.outbox, s.events)
    requires !step.Project? && (step.WriteAck? ==> step.ack in s.acks)
    ensures var s' := Apply(s, step); InboxInv(s'.events, s'.inbox, s'.acks)
  {
    match step
    case WriteAck(ack) => AckKeepsInbox(s.events, s.inbox, s.acks, ack);
    case DeleteComment(c) =>
      EventsFixTriggers(dir, s.outbox, s.events);
      RedactKeepsInbox(s.events, s.inbox, s.acks, WithoutComment(s.content, c), c);
    case InvalidateContent(roots, t) => HideKeepsInbox(s.events, s.inbox, s.acks, Reached(s.content, roots));
    case RemoveProfile(user, t) =>
      HideKeepsInbox(s.events, s.inbox, s.acks, Reached(s.content, OwnedRoots(s.content, user)));
      HideRecipientKeepsInbox(s.events, HideRoots(s.inbox, Reached(s.content, OwnedRoots(s.content, user))), s.acks,
          user);
    case ReadAck(ack) => if AckAccepted(s, ack) { AckReadKeepsInbox(s.events, s.inbox, s.acks, ack); }
    case _ => InboxUntouched(s, step);
  }

  lemma AckReadKeepsInbox(events: set<EventRow>, inbox: map<GroupKey, InboxRow>, acks: set<Ack>, ack: Ack)
    requires InboxInv(events, inbox, acks) && ack.group in inbox && ack.version <= inbox[ack.group].version
    ensures InboxInv(events, inbox, acks + {ack})
  {
  }

  lemma InboxUntouched(s: State, step: Step)
    requires !step.Project? && !step.WriteAck? && !step.ReadAck?
    requires !step.DeleteComment? && !step.InvalidateContent? && !step.RemoveProfile?
    ensures var s' := Apply(s, step); s'.events == s.events && s'.inbox == s.inbox && s'.acks == s.acks
  {
  }

  lemma StepKeepsContent(dir: Directory, s: State, step: Step)
    requires Agrees(s.content, dir) && Enabled(dir, s, step)
    ensures Agrees(Apply(s, step).content, dir)
  {
  }

  lemma StepKeepsInv(dir: Directory, s: State, step: Step)
    requires Inv(dir, s) && Enabled(dir, s, step)
    ensures Inv(dir, Apply(s, step))
  {
    if step.Project? {
      ProjectKeepsInv(dir, s, step.id, step.token, step.commitAt, step.inboxId);
    } else {
      StepKeepsOutbox(dir, s, step);
      StepKeepsInbox(dir, s, step);
      StepKeepsContent(dir, s, step);
    }
  }

  lemma {:induction false} RunKeepsInv(dir: Directory, s: State, steps: seq<Step>)
    requires Inv(dir, s) && Legal(dir, s, steps)
    ensures Inv(dir, Run(s, steps))
    decreases |steps|
  {
    if steps != [] {
      StepKeepsInv(dir, s, steps[0]);
      RunKeepsInv(dir, Apply(s, steps[0]), steps[1..]);
    }
  }

  lemma InitialInv(dir: Directory, s: State)
    requires Initial(dir, s)
    ensures Inv(dir, s)
  {
  }
}
