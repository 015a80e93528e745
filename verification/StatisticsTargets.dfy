/**
 Statistics targets: which targets a content removal deactivates, and the batched removal of a
 profile's engagement with the active-like gauge kept exact.
 */
module StatisticsTargets {
  import opened Prelude

  type Id = int
  type UserId = int
  type TargetId = int

  const BATCH := 500

  datatype ContentKind = Review | Activity | Post

  datatype Content = Content(kind: ContentKind, id: Id)

  /** `post` and `review` are the references an activity derives from. */
  datatype ContentRow = ContentRow(owner: UserId, target: Option<TargetId>, post: Option<Id>, review: Option<Id>)

  /** A comment lives in the table of its root's kind. */
  datatype Comment = Comment(kind: ContentKind, id: Id)

  datatype CommentRow = CommentRow(owner: UserId, root: Id, parent: Option<Id>, target: Option<TargetId>)

  datatype Sources = Sources(contents: map<Content, ContentRow>, comments: map<Comment, CommentRow>)

  // ----- which targets go inactive -----

  function Deactivated(active: map<TargetId, bool>, ids: set<TargetId>): map<TargetId, bool> {
    map t | t in active :: active[t] && t !in ids
  }

  lemma DeactivatedTwice(active: map<TargetId, bool>, a: set<TargetId>, b: set<TargetId>)
    ensures Deactivated(Deactivated(active, a), b) == Deactivated(active, a + b)
  {
  }

  function ContentTarget(s: Sources, c: Content): set<TargetId> {
    if c in s.contents && s.contents[c].target.Some? then {s.contents[c].target.value} else {}
  }

  /** WHERE id = ? OR childOfId = ? */
  predicate Selected(s: Sources, c: Comment, x: Comment) {
    x in s.comments && x.kind == c.kind && (x.id == c.id || s.comments[x].parent == Some(c.id))
  }

  function CommentTargets(s: Sources, c: Comment): set<TargetId> {
    set x | x in s.comments && Selected(s, c, x) && s.comments[x].target.Some? :: s.comments[x].target.value
  }

  function CommentsOf(s: Sources, c: Content): set<Comment> {
    set x | x in s.comments && x.kind == c.kind && s.comments[x].root == c.id
  }

  function DerivedActivities(s: Sources, c: Content): set<Content> {
    if c.kind == Activity then {}
    else set a | a in s.contents && a.kind == Activity
               && (if c.kind == Post then s.contents[a].post else s.contents[a].review) == Some(c.id)
  }

  /** A comment of the content, or a reply to one. */
  predicate InThread(s: Sources, c: Content, x: Comment) {
    && x in s.comments && x.kind == c.kind
    && (|| s.comments[x].root == c.id
        || (s.comments[x].parent.Some?
            && var p := Comment(c.kind, s.comments[x].parent.value); p in s.comments && s.comments[p].root == c.id))
  }

  function ThreadTargets(s: Sources, c: Content): set<TargetId> {
    set x | x in s.comments && InThread(s, c, x) && s.comments[x].target.Some? :: s.comments[x].target.value
  }

  /** The targets of one content and its thread, without derived activities. */
  function OwnTargets(s: Sources, c: Content): set<TargetId> {
    ContentTarget(s, c) + ThreadTargets(s, c)
  }

  function VisitedTargets(s: Sources, comments: set<Comment>): set<TargetId> {
    set x, t | x in comments && t in CommentTargets(s, x) :: t
  }

  function ActivityTargets(s: Sources, activities: set<Content>): set<TargetId> {
    set a, t | a in activities && t in OwnTargets(s, a) :: t
  }

  /** The closure: the content and its thread, and the same for every activity derived from it. */
  function ClosureTargets(s: Sources, c: Content): set<TargetId> {
    OwnTargets(s, c) + ActivityTargets(s, DerivedActivities(s, c))
  }

  /** Replies share their parent's root. */
  predicate RepliesShareRoot(s: Sources) {
    forall x :: x in s.comments && s.comments[x].parent.Some? ==>
      var p := Comment(x.kind, s.comments[x].parent.value);
      p in s.comments ==> s.comments[p].root == s.comments[x].root
  }

  /** The activity exists because of the content: it refers to it as its post or its review. */
  predicate DerivedFrom(s: Sources, c: Content, a: Content) {
    && a in s.contents && a.kind == Activity
    && (|| (c.kind == Post && s.contents[a].post == Some(c.id))
        || (c.kind == Review && s.contents[a].review == Some(c.id)))
  }

  /** The content's own target, or one of a comment or reply in its thread. */
  predicate Under(s: Sources, c: Content, t: TargetId) {
    || (c in s.contents && s.contents[c].target == Some(t))
    || exists x :: x in s.comments && InThread(s, c, x) && s.comments[x].target == Some(t)
  }

  /** The target is under the content, or under an activity derived from it. */
  predicate ContentReaches(s: Sources, c: Content, t: TargetId) {
    Under(s, c, t) || exists a :: a in s.contents && DerivedFrom(s, c, a) && Under(s, a, t)
  }

  /** The target of the comment or of a reply to it. */
  predicate CommentReaches(s: Sources, c: Comment, t: TargetId) {
    exists x :: && x in s.comments && x.kind == c.kind && (x.id == c.id || s.comments[x].parent == Some(c.id))
                && s.comments[x].target == Some(t)
  }

  /** Some content or comment of the user reaches the target. */
  predicate UserReaches(s: Sources, user: UserId, t: TargetId) {
    || (exists c :: c in s.contents && s.contents[c].owner == user && ContentReaches(s, c, t))
    || (exists c :: c in s.comments && s.comments[c].owner == user && CommentReaches(s, c, t))
  }

  lemma OwnIsUnder(s: Sources, c: Content, t: TargetId)
    ensures t in OwnTargets(s, c) <==> Under(s, c, t)
  {
  }

  lemma DerivedIsDerived(s: Sources, c: Content, a: Content)
    ensures a in DerivedActivities(s, c) <==> DerivedFrom(s, c, a)
  {
  }

  /** The closure is what the content reaches. */
  lemma ClosureIsReached(s: Sources, c: Content, t: TargetId)
    ensures t in ClosureTargets(s, c) <==> ContentReaches(s, c, t)
  {
    OwnIsUnder(s, c, t);
    forall a: Content
      ensures a in DerivedActivities(s, c) && t in OwnTargets(s, a) <==> DerivedFrom(s, c, a) && Under(s, a, t)
    {
      DerivedIsDerived(s, c, a);
      OwnIsUnder(s, a, t);
    }
    if a :| a in s.contents && DerivedFrom(s, c, a) && Under(s, a, t) {
      assert a in DerivedActivities(s, c) && t in OwnTargets(s, a);
    }
    if t in ActivityTargets(s, DerivedActivities(s, c)) {
      var a :| a in DerivedActivities(s, c) && t in OwnTargets(s, a);
      assert DerivedFrom(s, c, a) && Under(s, a, t);
    }
  }

  /**
   When replies share their parent's root, the closure is plainly the targets of the content, of the
   activities derived from it, and of every comment or reply rooted in one of those.
   */
  lemma ClosureMeaning(s: Sources, c: Content, t: TargetId)
    requires RepliesShareRoot(s)
    ensures t in ClosureTargets(s, c) <==>
            exists d: Content :: (d == c || DerivedFrom(s, c, d)) && RootedTarget(s, d, t)
  {
    ClosureIsReached(s, c, t);
    forall d: Content ensures Under(s, d, t) <==> RootedTarget(s, d, t) {
      ThreadIsRooted(s, d, t);
    }
  }

  /** The content's own target, or one of a comment whose root it is. */
  predicate RootedTarget(s: Sources, d: Content, t: TargetId) {
    || (d in s.contents && s.contents[d].target == Some(t))
    || exists x :: x in s.comments && x.kind == d.kind && s.comments[x].root == d.id && s.comments[x].target == Some(t)
  }

  lemma ThreadIsRooted(s: Sources, d: Content, t: TargetId)
    requires RepliesShareRoot(s)
    ensures Under(s, d, t) <==> RootedTarget(s, d, t)
  {
    forall x | x in s.comments ensures InThread(s, d, x) <==> x.kind == d.kind && s.comments[x].root == d.id {
    }
  }

  /** Visiting each comment with its replies reaches the thread, no more and no less. */
  lemma CommentVisitsCoverThread(s: Sources, c: Content)
    ensures ThreadTargets(s, c) == VisitedTargets(s, CommentsOf(s, c))
  {
    var visits := VisitedTargets(s, CommentsOf(s, c));
    forall t | t in ThreadTargets(s, c) ensures t in visits {
      var x :| x in s.comments && InThread(s, c, x) && s.comments[x].target == Some(t);
      var top := if s.comments[x].root == c.id then x else Comment(c.kind, s.comments[x].parent.value);
      assert Selected(s, top, x);
      assert top in CommentsOf(s, c) && t in CommentTargets(s, top);
    }
    forall t | t in visits ensures t in ThreadTargets(s, c) {
      var x :| x in CommentsOf(s, c) && t in CommentTargets(s, x);
      var y :| y in s.comments && Selected(s, x, y) && s.comments[y].target == Some(t);
      if y.id == x.id { assert y == x; }
      assert InThread(s, c, y);
    }
  }

  // ----- the gauge -----

  datatype Engagement = Engagement(target: TargetId, user: UserId)

  datatype ReactionError = MissingGauge | InconsistentGauge

  datatype Event = Event(actor: Option<UserId>, fact: int)

  function Likers(states: map<Engagement, bool>, t: TargetId): set<UserId> {
    set e | e in states && e.target == t && states[e] :: e.user
  }

  /** likes_current(t) is the number of engagement rows of t with likedAt set. */
  ghost predicate GaugeExact(states: map<Engagement, bool>, gauges: map<TargetId, int>) {
    && (forall t :: t in gauges ==> gauges[t] == |Likers(states, t)|)
    && (forall e :: e in states && states[e] ==> e.target in gauges)
  }

  predicate Likes(states: map<Engagement, bool>, user: UserId, t: TargetId) {
    Engagement(t, user) in states && states[Engagement(t, user)]
  }

  lemma LikedMeansLikes(states: map<Engagement, bool>, user: UserId, t: TargetId)
    ensures t in LikedBy(states, user) <==> Likes(states, user, t)
  {
  }

  function TargetsOf(states: map<Engagement, bool>, user: UserId): set<TargetId> {
    set e | e in states && e.user == user :: e.target
  }

  function LikedBy(states: map<Engagement, bool>, user: UserId): set<TargetId> {
    set e | e in states && e.user == user && states[e] :: e.target
  }

  predicate Covers(gauges: map<TargetId, int>, targets: set<TargetId>) {
    forall t :: t in targets ==> t in gauges && gauges[t] >= 1
  }

  /** Every gauge the user's likes are subtracted from exists and is positive. */
  predicate Subtractable(states: map<Engagement, bool>, gauges: map<TargetId, int>, user: UserId) {
    Covers(gauges, LikedBy(states, user))
  }

  function WithoutRows(states: map<Engagement, bool>, user: UserId, targets: set<TargetId>): map<Engagement, bool> {
    map e | e in states && !(e.user == user && e.target in targets) :: states[e]
  }

  function Lowered(gauges: map<TargetId, int>, targets: set<TargetId>): map<TargetId, int> {
    map t | t in gauges :: if t in targets then gauges[t] - 1 else gauges[t]
  }

  /** An exact gauge never makes the cleanup throw. */
  lemma ExactGaugeIsSubtractable(states: map<Engagement, bool>, gauges: map<TargetId, int>, user: UserId)
    requires GaugeExact(states, gauges)
    ensures Subtractable(states, gauges, user)
  {
    forall t | t in LikedBy(states, user) ensures t in gauges && gauges[t] >= 1 {
      assert Engagement(t, user) in states && states[Engagement(t, user)];
      assert user in Likers(states, t);
    }
  }

  lemma LikersWithoutRows(states: map<Engagement, bool>, user: UserId, targets: set<TargetId>, t: TargetId)
    ensures Likers(WithoutRows(states, user, targets), t)
         == if t in targets then Likers(states, t) - {user} else Likers(states, t)
  {
    var rest := WithoutRows(states, user, targets);
    forall u | u in (if t in targets then Likers(states, t) - {user} else Likers(states, t))
      ensures u in Likers(rest, t)
    {
      assert Engagement(t, u) in states && Engagement(t, u) in rest;
    }
  }

  /** Removing a user's rows of some targets and lowering those gauges keeps every gauge exact. */
  lemma RemovalKeepsGauge(states: map<Engagement, bool>, gauges: map<TargetId, int>, user: UserId,
                          targets: set<TargetId>)
    requires GaugeExact(states, gauges) && targets <= TargetsOf(states, user)
    ensures GaugeExact(WithoutRows(states, user, targets), Lowered(gauges, targets * LikedBy(states, user)))
  {
    forall t | t in gauges
      ensures Lowered(gauges, targets * LikedBy(states, user))[t] == |Likers(WithoutRows(states, user, targets), t)|
    {
      LikersWithoutRows(states, user, targets, t);
      if t in targets {
        assert user in Likers(states, t) <==> t in LikedBy(states, user) by {
          if user in Likers(states, t) { assert Engagement(t, user) in states && states[Engagement(t, user)]; }
          if t in LikedBy(states, user) { assert Engagement(t, user) in states && states[Engagement(t, user)]; }
        }
      }
    }
  }

  /** A new target starts with a zero gauge. */
  lemma NewTargetKeepsGauge(states: map<Engagement, bool>, gauges: map<TargetId, int>, t: TargetId)
    requires GaugeExact(states, gauges) && t !in gauges
    ensures GaugeExact(states, gauges[t := 0])
  {
    assert Likers(states, t) == {};
  }

  lemma LikersAfterReaction(states: map<Engagement, bool>, e: Engagement, like: bool, t: TargetId)
    ensures Likers(states[e := like], t)
         == if t != e.target then Likers(states, t)
            else if like then Likers(states, t) + {e.user}
            else Likers(states, t) - {e.user}
  {
    var after := states[e := like];
    assert e == Engagement(e.target, e.user);
    forall u ensures u in Likers(states, t) <==> Engagement(t, u) in states && states[Engagement(t, u)] {
      LikerRow(states, t, u);
    }
    forall u ensures u in Likers(after, t) <==> Engagement(t, u) in after && after[Engagement(t, u)] {
      LikerRow(after, t, u);
    }
  }

  lemma LikerRow(states: map<Engagement, bool>, t: TargetId, u: UserId)
    ensures u in Likers(states, t) <==> Engagement(t, u) in states && states[Engagement(t, u)]
  {
    if u in Likers(states, t) {
      var x :| x in states && x.target == t && states[x] && x.user == u;
      assert x == Engagement(t, u);
    }
  }

  lemma ReactionCount(states: map<Engagement, bool>, e: Engagement, like: bool, t: TargetId)
    requires like != (e in states && states[e])
    ensures |Likers(states[e := like], t)| == |Likers(states, t)|
        + (if t != e.target then 0 else if like then 1 else -1)
  {
    LikersAfterReaction(states, e, like, t);
    LikerRow(states, e.target, e.user);
    assert e == Engagement(e.target, e.user);
  }

  /** Liking and unliking move one row and the gauge together. */
  lemma ReactionKeepsGauge(states: map<Engagement, bool>, gauges: map<TargetId, int>, e: Engagement, like: bool)
    requires GaugeExact(states, gauges) && e.target in gauges
    requires like != (e in states && states[e])
    ensures GaugeExact(states[e := like], gauges[e.target := gauges[e.target] + (if like then 1 else -1)])
  {
    forall t | t in gauges
      ensures |Likers(states[e := like], t)| == gauges[t] + (if t != e.target then 0 else if like then 1 else -1)
    {
      ReactionCount(states, e, like, t);
    }
  }

  // ----- ordered batches -----

  /** ORDER BY id LIMIT n over the ids of `pool`. */
  predicate IsBatch(pool: set<int>, n: nat, batch: set<int>) {
    batch <= pool && |batch| == Min(n, |pool|) && forall x, y :: x in batch && y in pool - batch ==> x < y
  }

  predicate IsLeast(pool: set<int>, x: int) {
    x in pool && forall y :: y in pool && y != x ==> x < y
  }

  lemma {:induction false} LeastExists(pool: set<int>) returns (x: int)
    requires pool != {}
    ensures IsLeast(pool, x)
    decreases |pool|
  {
    var m := Member(pool);
    var rest := pool - {m};
    x := m;
    assert forall y :: y in pool ==> y == m || y in rest;
    if rest != {} {
      var n := LeastExists(rest);
      if n < m { x := n; }
    }
  }

  lemma BatchOneMore(pool: set<int>, batch: set<int>, x: int)
    requires IsBatch(pool, |batch|, batch) && IsLeast(pool - batch, x)
    ensures IsBatch(pool, |batch + {x}|, batch + {x})
  {
    assert batch + {x} <= pool;
    SubsetCard(batch + {x}, pool);
    forall a, y | a in batch + {x} && y in pool - (batch + {x}) ensures a < y {
      assert y in pool - batch;
    }
  }

  lemma {:induction false} SubsetCard(a: set<int>, b: set<int>)
    requires a <= b
    ensures |a| <= |b|
  {
    assert b == a + (b - a);
  }

  method SelectBatch(pool: set<int>, n: nat) returns (batch: set<int>)
    ensures IsBatch(pool, n, batch)
    ensures n > 0 && pool != {} ==> batch != {}
  {
    batch := {};
    var rest := pool;
    while |batch| < n && rest != {}
      invariant rest == pool - batch && |batch| <= n && IsBatch(pool, |batch|, batch)
      decreases |rest|
    {
      ghost var least := LeastExists(rest);
      var x :| x in rest && IsLeast(rest, x);
      BatchOneMore(pool, batch, x);
      batch, rest := batch + {x}, rest - {x};
    }
  }

  /** WHERE id > cursor; every id is beyond the empty cursor. */
  function Beyond(ids: set<Id>, cursor: Option<Id>): set<Id> {
    set x | x in ids && (cursor.None? || x > cursor.value)
  }

  /** After a batch, the ids beyond its largest one are exactly those not yet visited. */
  lemma CursorSkipsBatch(ids: set<Id>, cursor: Option<Id>, n: nat, batch: set<Id>)
    requires IsBatch(Beyond(ids, cursor), n, batch) && batch != {}
    ensures Beyond(ids, Some(MaxOf(batch))) == Beyond(ids, cursor) - batch && batch <= ids
    ensures |Beyond(ids, Some(MaxOf(batch)))| < |Beyond(ids, cursor)|
  {
    BatchShrinks(Beyond(ids, cursor), batch);
  }

  lemma BatchShrinks(pending: set<Id>, batch: set<Id>)
    requires batch <= pending && batch != {}
    ensures |pending - batch| < |pending|
  {
    assert pending == batch + (pending - batch);
    assert |batch| > 0;
  }

  // ----- the repository functions over the tables -----

  /** The source types a profile removal walks through; games have no owner. */
  datatype SourceType = ContentSource(kind: ContentKind) | CommentSource(kind: ContentKind)

  function OwnedIds(s: Sources, user: UserId, source: SourceType): set<Id> {
    if source.ContentSource?
    then set c | c in s.contents && c.kind == source.kind && s.contents[c].owner == user :: c.id
    else set c | c in s.comments && c.kind == source.kind && s.comments[c].owner == user :: c.id
  }

  function IdTargets(s: Sources, source: SourceType, id: Id): set<TargetId> {
    if source.ContentSource? then ClosureTargets(s, Content(source.kind, id))
        else CommentTargets(s, Comment(source.kind, id))
  }

  function SourceTargets(s: Sources, source: SourceType, ids: set<Id>): set<TargetId> {
    set id, t | id in ids && t in IdTargets(s, source, id) :: t
  }

  const SOURCE_TYPES := [ContentSource(Review), ContentSource(Activity), ContentSource(Post),
                         CommentSource(Review), CommentSource(Activity), CommentSource(Post)]

  /** Every target some source of the user reaches. */
  function ProfileTargets(s: Sources, user: UserId, sources: seq<SourceType>): set<TargetId> {
    if sources == [] then {}
    else ProfileTargets(s, user, sources[..|sources| - 1])
         + SourceTargets(s, sources[|sources| - 1], OwnedIds(s, user, sources[|sources| - 1]))
  }

  /** Walking all source types reaches exactly what some content or comment of the user reaches. */
  lemma ProfileTargetsMeaning(s: Sources, user: UserId, t: TargetId)
    ensures t in ProfileTargets(s, user, SOURCE_TYPES) <==> UserReaches(s, user, t)
  {
    forall source: SourceType
      ensures t in SourceTargets(s, source, OwnedIds(s, user, source)) <==> TypeReaches(s, user, source, t)
    {
      SourceTargetsMeaning(s, user, source, t);
    }
    ProfileIsUnion(s, user, SOURCE_TYPES, t);
    forall source: SourceType ensures source in SOURCE_TYPES {
      SomeKind(source);
    }
    if UserReaches(s, user, t) {
      if c :| c in s.contents && s.contents[c].owner == user && ContentReaches(s, c, t) {
        assert TypeReaches(s, user, ContentSource(c.kind), t);
      } else {
        var c :| c in s.comments && s.comments[c].owner == user && CommentReaches(s, c, t);
        assert TypeReaches(s, user, CommentSource(c.kind), t);
      }
    }
  }

  /** Every kind of content, and of comment, is among the source types. */
  lemma SomeKind(source: SourceType)
    ensures source in SOURCE_TYPES
  {
    match source.kind
    case Review => assert source == ContentSource(Review) || source == CommentSource(Review);
    case Activity => assert source == ContentSource(Activity) || source == CommentSource(Activity);
    case Post => assert source == ContentSource(Post) || source == CommentSource(Post);
  }

  /** Some source of the type, of the user, reaches the target. */
  predicate TypeReaches(s: Sources, user: UserId, source: SourceType, t: TargetId) {
    if source.ContentSource?
    then exists c :: c in s.contents && c.kind == source.kind && s.contents[c].owner == user && ContentReaches(s, c, t)
    else exists c :: c in s.comments && c.kind == source.kind && s.comments[c].owner == user && CommentReaches(s, c, t)
  }

  lemma SourceTargetsMeaning(s: Sources, user: UserId, source: SourceType, t: TargetId)
    ensures t in SourceTargets(s, source, OwnedIds(s, user, source)) <==> TypeReaches(s, user, source, t)
  {
    var owned := OwnedIds(s, user, source);
    if t in SourceTargets(s, source, owned) {
      var id :| id in owned && t in IdTargets(s, source, id);
      if source.ContentSource? { ClosureIsReached(s, Content(source.kind, id), t); }
    }
    if TypeReaches(s, user, source, t) {
      if source.ContentSource? {
        var c :| c in s.contents && c.kind == source.kind && s.contents[c].owner == user && ContentReaches(s, c, t);
        ClosureIsReached(s, c, t);
        assert c == Content(source.kind, c.id) && c.id in owned && t in IdTargets(s, source, c.id);
      } else {
        var c :| c in s.comments && c.kind == source.kind && s.comments[c].owner == user && CommentReaches(s, c, t);
        assert c == Comment(source.kind, c.id) && c.id in owned && t in IdTargets(s, source, c.id);
      }
    }
  }

  lemma {:induction false} ProfileIsUnion(s: Sources, user: UserId, sources: seq<SourceType>, t: TargetId)
    ensures t in ProfileTargets(s, user, sources) <==>
            exists source :: source in sources && t in SourceTargets(s, source, OwnedIds(s, user, source))
  {
    if sources != [] {
      var init, last := sources[..|sources| - 1], sources[|sources| - 1];
      ProfileIsUnion(s, user, init, t);
      assert sources == init + [last];
    }
  }

  lemma SourceOneMore(s: Sources, source: SourceType, done: set<Id>, id: Id)
    ensures SourceTargets(s, source, done + {id}) == SourceTargets(s, source, done) + IdTargets(s, source, id)
  {
    forall t | t in IdTargets(s, source, id) ensures t in SourceTargets(s, source, done + {id}) {
      assert id in done + {id};
    }
    forall t | t in SourceTargets(s, source, done) ensures t in SourceTargets(s, source, done + {id}) {
      var y :| y in done && t in IdTargets(s, source, y);
      assert y in done + {id};
    }
  }

  function Anonymised(events: map<int, Event>, ids: set<int>): map<int, Event> {
    map id | id in events :: if id in ids then events[id].(actor := None) else events[id]
  }

  function EventsBy(events: map<int, Event>, user: UserId): set<int> {
    set id | id in events && events[id].actor == Some(user)
  }

  class TargetStore {
    const sources: Sources
    var active: map<TargetId, bool>
    var states: map<Engagement, bool>
    var gauges: map<TargetId, int>
    var events: map<int, Event>

    constructor (sources: Sources, active: map<TargetId, bool>, states: map<Engagement, bool>,
                 gauges: map<TargetId, int>, events: map<int, Event>)
      ensures this.sources == sources && this.active == active && this.states == states
      ensures this.gauges == gauges && this.events == events
    {
      this.sources, this.active, this.states, this.gauges, this.events := sources, active, states, gauges, events;
    }

    /** createStatisticsTarget: a fresh id, active, with a zero gauge. */
    method CreateTarget(id: TargetId)
      requires id !in active && id !in gauges
      modifies this`active, this`gauges
      ensures active == old(active)[id := true] && gauges == old(gauges)[id := 0]
      ensures GaugeExact(states, old(gauges)) ==> GaugeExact(states, gauges)
    {
      if GaugeExact(states, gauges) { NewTargetKeepsGauge(states, gauges, id); }
      active := active[id := true];
      gauges := gauges[id := 0];
    }

    /**
     applyReaction, on the tables: a repeated reaction changes nothing, another moves the row and the
     gauge by one and appends a fact. The answer is the number of active likes.
     */
    method ApplyReaction(e: Engagement, isLike: bool, factId: int, fact: int)
      returns (likes: Result<int, ReactionError>)
      requires factId !in events
      modifies this`states, this`gauges, this`events
      ensures likes.Err? ==> states == old(states) && gauges == old(gauges) && events == old(events)
      ensures likes == Err(MissingGauge) <==> e.target !in old(gauges)
      ensures likes.Ok? && isLike == (e in old(states) && old(states)[e]) ==>
                states == old(states) && gauges == old(gauges) && events == old(events)
      ensures likes.Ok? && isLike != (e in old(states) && old(states)[e]) ==>
                states == old(states)[e := isLike] && events == old(events)[factId := Event(Some(e.user), fact)]
                && gauges == old(gauges)[e.target := likes.value]
      ensures GaugeExact(old(states), old(gauges)) && e.target in old(gauges) ==>
                likes.Ok? && GaugeExact(states, gauges) && likes.value == |Likers(states, e.target)|
                && (e.user in Likers(states, e.target) <==> isLike)
    {
      LikerRow(states, e.target, e.user);
      assert e == Engagement(e.target, e.user);
      if e.target !in gauges { return Err(MissingGauge); }
      var currentlyLiked := e in states && states[e];
      var currentCount := gauges[e.target];
      if currentlyLiked == isLike { return Ok(currentCount); }
      if !isLike && currentCount < 1 { return Err(InconsistentGauge); }
      if GaugeExact(states, gauges) { ReactionKeepsGauge(states, gauges, e, isLike); }
      states := states[e := isLike];
      var likesCount := currentCount + (if isLike then 1 else -1);
      gauges := gauges[e.target := likesCount];
      events := events[factId := Event(Some(e.user), fact)];
      LikerRow(states, e.target, e.user);
      likes := Ok(likesCount);
    }

    method DeactivateIds(ids: set<TargetId>)
      modifies this`active
      ensures active == Deactivated(old(active), ids)
    {
      active := map t | t in active :: if t in ids then false else active[t];
    }

    /** deactivateStatisticsSource for a comment: the comment and its replies. */
    method DeactivateComment(c: Comment)
      modifies this`active
      ensures active == Deactivated(old(active), CommentTargets(sources, c))
      ensures active.Keys == old(active).Keys
      ensures forall t :: t in active ==> (active[t] <==> old(active)[t] && !CommentReaches(sources, c, t))
    {
      var rows := set x | x in sources.comments && x.kind == c.kind
                       && (x.id == c.id || sources.comments[x].parent == Some(c.id));
      var ids := set x | x in rows && sources.comments[x].target.Some? :: sources.comments[x].target.value;
      assert ids == CommentTargets(sources, c);
      DeactivateIds(ids);
    }

    /** The loop of deactivateStatisticsContent over the comments of one content. */
    method DeactivateThread(c: Content)
      modifies this`active
      ensures active == Deactivated(old(active), ThreadTargets(sources, c))
    {
      var todo := CommentsOf(sources, c);
      ghost var done: set<Comment> := {};
      assert active == Deactivated(active, {});
      while todo != {}
        invariant done + todo == CommentsOf(sources, c)
        invariant active == Deactivated(old(active), VisitedTargets(sources, done))
        decreases |todo|
      {
        var x :| x in todo;
        DeactivatedTwice(old(active), VisitedTargets(sources, done), CommentTargets(sources, x));
        VisitOneMore(sources, done, x);
        DeactivateComment(x);
        todo, done := todo - {x}, done + {x};
      }
      CommentVisitsCoverThread(sources, c);
    }

    /** deactivateStatisticsContent: exactly the closure goes inactive. */
    method DeactivateContent(c: Content)
      modifies this`active
      ensures active == Deactivated(old(active), ClosureTargets(sources, c))
      decreases c.kind != Activity
    {
      DeactivateIds(ContentTarget(sources, c));
      DeactivateThread(c);
      DeactivatedTwice(old(active), ContentTarget(sources, c), ThreadTargets(sources, c));
      if c.kind == Activity {
        assert ClosureTargets(sources, c) == OwnTargets(sources, c);
        return;
      }
      DeactivatedTwice(old(active), OwnTargets(sources, c), ActivityTargets(sources, DerivedActivities(sources, c)));
      DeactivateDerived(c);
    }

    /** The recursion of deactivateStatisticsContent into the derived activities. */
    method DeactivateDerived(c: Content)
      requires c.kind != Activity
      modifies this`active
      ensures active == Deactivated(old(active), ActivityTargets(sources, DerivedActivities(sources, c)))
      decreases c.kind != Activity, 0
    {
      var todo := DerivedActivities(sources, c);
      ghost var done: set<Content> := {};
      assert active == Deactivated(active, {});
      while todo != {}
        invariant done + todo == DerivedActivities(sources, c)
        invariant active == Deactivated(old(active), ActivityTargets(sources, done))
        decreases |todo|
      {
        var a :| a in todo;
        ActivityClosure(sources, a);
        DeactivatedTwice(old(active), ActivityTargets(sources, done), OwnTargets(sources, a));
        DeriveOneMore(sources, done, a);
        DeactivateContent(a);
        todo, done := todo - {a}, done + {a};
      }
    }

    /** One source row, by its type. */
    method DeactivateSourceRow(source: SourceType, id: Id)
      modifies this`active
      ensures active == Deactivated(old(active), IdTargets(sources, source, id))
    {
      if source.CommentSource? {
        DeactivateComment(Comment(source.kind, id));
      } else {
        DeactivateContent(Content(source.kind, id));
      }
    }

    /** The inner loop over one batch; each of its sources is visited once. */
    method DeactivateBatch(source: SourceType, batch: set<Id>) returns (ghost visits: seq<Id>)
      modifies this`active
      ensures active == Deactivated(old(active), SourceTargets(sources, source, batch))
      ensures VisitsOnce(visits, batch)
    {
      var todo := batch;
      ghost var done: set<Id> := {};
      visits := [];
      NoSourceTargets(sources, source, active);
      while todo != {}
        invariant done <= batch && todo == batch - done && VisitsOnce(visits, done)
        invariant active == Deactivated(old(active), SourceTargets(sources, source, done))
        decreases |todo|
      {
        ghost var some := Member(todo);
        var id :| id in todo;
        DeactivateNext(old(active), source, done, id);
        VisitOneId(visits, done, id);
        todo, done, visits := todo - {id}, done + {id}, visits + [id];
      }
      assert done == batch;
    }

    method DeactivateNext(ghost first: map<TargetId, bool>, source: SourceType, ghost done: set<Id>, id: Id)
      requires active == Deactivated(first, SourceTargets(sources, source, done))
      modifies this`active
      ensures active == Deactivated(first, SourceTargets(sources, source, done + {id}))
    {
      DeactivatedTwice(first, SourceTargets(sources, source, done), IdTargets(sources, source, id));
      SourceOneMore(sources, source, done, id);
      DeactivateSourceRow(source, id);
    }

    /** One more batch after the ids in `done`. */
    method DeactivateMore(ghost first: map<TargetId, bool>, source: SourceType, ghost done: set<Id>, batch: set<Id>)
      returns (ghost visits: seq<Id>)
      requires active == Deactivated(first, SourceTargets(sources, source, done))
      modifies this`active
      ensures active == Deactivated(first, SourceTargets(sources, source, done + batch))
      ensures VisitsOnce(visits, batch)
    {
      DeactivatedTwice(first, SourceTargets(sources, source, done), SourceTargets(sources, source, batch));
      SourceUnion(sources, source, done, batch);
      visits := DeactivateBatch(source, batch);
    }

    /** The keyset loop over the user's sources of one type, a batch at a time: each is visited exactly once. */
    method DeactivateOwned(user: UserId, source: SourceType) returns (ghost visits: seq<Id>)
      modifies this`active
      ensures VisitsOnce(visits, OwnedIds(sources, user, source))
      ensures active == Deactivated(old(active), SourceTargets(sources, source, OwnedIds(sources, user, source)))
    {
      visits := DeactivateEach(source, OwnedIds(sources, user, source));
    }

    method DeactivateEach(source: SourceType, owned: set<Id>) returns (ghost visits: seq<Id>)
      modifies this`active
      ensures VisitsOnce(visits, owned)
      ensures active == Deactivated(old(active), SourceTargets(sources, source, owned))
    {
      var cursor: Option<Id> := None;
      ghost var done: set<Id> := {};
      visits := [];
      NoSourceTargets(sources, source, active);
      while true
        invariant Beyond(owned, cursor) == owned - done && done <= owned && VisitsOnce(visits, done)
        invariant active == Deactivated(old(active), SourceTargets(sources, source, done))
        decreases |owned - done|
      {
        var batch := SelectBatch(Beyond(owned, cursor), BATCH);
        if batch == {} { break; }
        ghost var more := DeactivateMore(old(active), source, done, batch);
        cursor := Some(MaxOf(batch));
        visits := AdvanceCursor(owned, done, batch, cursor, visits, more);
        done := done + batch;
      }
      assert done == owned;
    }

    /** The loop over the source types. */
    method DeactivateProfile(user: UserId)
      modifies this`active
      ensures active == Deactivated(old(active), ProfileTargets(sources, user, SOURCE_TYPES))
      ensures active.Keys == old(active).Keys
      ensures forall t :: t in active ==> (active[t] <==> old(active)[t] && !UserReaches(sources, user, t))
    {
      forall t ensures t in ProfileTargets(sources, user, SOURCE_TYPES) <==> UserReaches(sources, user, t) {
        ProfileTargetsMeaning(sources, user, t);
      }
      assert active == Deactivated(active, {});
      for i := 0 to |SOURCE_TYPES|
        invariant active == Deactivated(old(active), ProfileTargets(sources, user, SOURCE_TYPES[..i]))
      {
        var source := SOURCE_TYPES[i];
        assert SOURCE_TYPES[..i + 1][..i] == SOURCE_TYPES[..i];
        DeactivatedTwice(old(active), ProfileTargets(sources, user, SOURCE_TYPES[..i]),
                         SourceTargets(sources, source, OwnedIds(sources, user, source)));
        ghost var visits := DeactivateOwned(user, source);
      }
      assert SOURCE_TYPES[..|SOURCE_TYPES|] == SOURCE_TYPES;
    }

    /**
     The gauge updates of one batch. Engagement rows are unique per (target, user), so each liked
     target is lowered by one; a gauge that is missing or too small throws.
     */
    method LowerGauges(liked: set<TargetId>) returns (ok: bool)
      modifies this`gauges
      ensures ok <==> Covers(old(gauges), liked)
      ensures ok ==> gauges == Lowered(old(gauges), liked)
    {
      var todo := liked;
      ghost var done: set<TargetId> := {};
      while todo != {}
        invariant done + todo == liked && done !! todo
        invariant gauges == Lowered(old(gauges), done)
        invariant Covers(old(gauges), done)
        decreases |todo|
      {
        ghost var some := Member(todo);
        var t :| t in todo;
        if t !in gauges || gauges[t] < 1 {
          assert t in liked;
          return false;
        }
        gauges := gauges[t := gauges[t] - 1];
        todo, done := todo - {t}, done + {t};
      }
      ok := true;
    }

    /** One batch: the gauges of its liked targets are lowered, then its rows are deleted. */
    method RemoveBatch(user: UserId, batch: set<TargetId>) returns (ok: bool)
      modifies this`states, this`gauges
      ensures ok <==> Covers(old(gauges), batch * LikedBy(old(states), user))
      ensures ok ==> states == WithoutRows(old(states), user, batch)
      ensures ok ==> gauges == Lowered(old(gauges), batch * LikedBy(old(states), user))
    {
      ok := LowerGauges(batch * LikedBy(states, user));
      if ok {
        states := map e | e in states && !(e.user == user && e.target in batch) :: states[e];
      }
    }

    /**
     One round of the loop after the targets in `done`: nothing is left, or a batch is removed, or it
     throws because the whole removal cannot succeed.
     */
    method RemoveNext(ghost first: map<Engagement, bool>, ghost firstGauges: map<TargetId, int>, user: UserId,
                      ghost done: set<TargetId>, ghost all: set<TargetId>) returns (batch: set<TargetId>, ok: bool)
      requires Removed(first, firstGauges, states, gauges, user, done) && all == TargetsOf(first, user)
      modifies this`states, this`gauges
      ensures batch <= all - done && (batch == {} ==> ok && all <= done)
      ensures ok ==> Removed(first, firstGauges, states, gauges, user, done + batch)
      ensures !ok ==> !Subtractable(first, firstGauges, user)
    {
      RemainingRows(first, user, done);
      batch := SelectBatch(TargetsOf(states, user), BATCH);
      ok := true;
      if batch == {} {
        assert done + batch == done;
        return;
      }
      RemoveMore(first, firstGauges, user, done, batch);
      ok := RemoveBatch(user, batch);
    }

    /** The batched removal of a user's engagement rows; a throw rolls both tables back. */
    method RemoveEngagement(user: UserId) returns (ok: bool)
      modifies this`states, this`gauges
      ensures ok <==> Subtractable(old(states), old(gauges), user)
      ensures ok ==> states == WithoutRows(old(states), user, TargetsOf(old(states), user))
      ensures ok ==> gauges == Lowered(old(gauges), LikedBy(old(states), user))
      ensures !ok ==> states == old(states) && gauges == old(gauges)
    {
      var savedStates, savedGauges := states, gauges;
      NothingRemoved(states, gauges, user);
      ok := RemoveAll(savedStates, savedGauges, user, TargetsOf(states, user));
      if ok {
        AllRemoved(savedStates, savedGauges, states, gauges, user);
      } else {
        states, gauges := savedStates, savedGauges;
      }
    }

    /** The loop itself. */
    method RemoveAll(ghost first: map<Engagement, bool>, ghost firstGauges: map<TargetId, int>, user: UserId,
                     ghost all: set<TargetId>) returns (ok: bool)
      requires Removed(first, firstGauges, states, gauges, user, {}) && all == TargetsOf(first, user)
      modifies this`states, this`gauges
      ensures ok ==> Removed(first, firstGauges, states, gauges, user, all)
      ensures !ok ==> !Subtractable(first, firstGauges, user)
    {
      ghost var done: set<TargetId> := {};
      while true
        invariant done <= all && Removed(first, firstGauges, states, gauges, user, done)
        decreases |all - done|
      {
        var batch, removed := RemoveNext(first, firstGauges, user, done, all);
        if !removed { return false; }
        if batch == {} { break; }
        BatchShrinks(all - done, batch);
        assert all - done - batch == all - (done + batch);
        done := done + batch;
      }
      assert done == all;
      ok := true;
    }

    /** One UPDATE ... LIMIT of the loop; the batch is empty only when nothing is left. */
    method ForgetNext(ghost first: map<int, Event>, user: UserId, ghost done: set<int>, ghost all: set<int>)
      returns (batch: set<int>)
      requires events == Anonymised(first, done) && all == EventsBy(first, user)
      modifies this`events
      ensures events == Anonymised(first, done + batch)
      ensures batch <= all - done && (batch == {} ==> all <= done)
    {
      EventsLeft(first, user, done, all);
      batch := SelectBatch(EventsBy(events, user), BATCH);
      AnonymisedMore(first, done, batch);
      events := Anonymised(events, batch);
    }

    /** Facts stay, their actor is forgotten, a batch at a time until no row is affected. */
    method ForgetActor(user: UserId)
      modifies this`events
      ensures events == Anonymised(old(events), EventsBy(old(events), user))
    {
      ghost var all := EventsBy(events, user);
      ghost var done: set<int> := {};
      NothingAnonymised(events);
      while true
        invariant done <= all
        invariant events == Anonymised(old(events), done)
        decreases |all - done|
      {
        var batch := ForgetNext(old(events), user, done, all);
        if batch == {} { break; }
        BatchShrinks(all - done, batch);
        assert all - done - batch == all - (done + batch);
        done := done + batch;
      }
      assert done == all;
    }

    /** cleanupStatisticsProfile; a throw rolls the caller's transaction back. */
    method CleanupProfile(user: UserId) returns (ok: bool)
      modifies this
      ensures ok <==> forall e :: e in old(states) && e.user == user && old(states)[e] ==>
                e.target in old(gauges) && old(gauges)[e.target] >= 1
      ensures GaugeExact(old(states), old(gauges)) ==> ok && GaugeExact(states, gauges)
      ensures ok ==> states == map e | e in old(states) && e.user != user :: old(states)[e]
      ensures ok ==> gauges.Keys == old(gauges).Keys && forall t :: t in gauges ==>
                gauges[t] == old(gauges)[t] - (if Likes(old(states), user, t) then 1 else 0)
      ensures ok ==> active.Keys == old(active).Keys && forall t :: t in active ==>
                (active[t] <==> old(active)[t] && !UserReaches(sources, user, t))
      ensures ok ==> events.Keys == old(events).Keys && forall id :: id in events ==>
                events[id].fact == old(events)[id].fact
                && events[id].actor == (if old(events)[id].actor == Some(user) then None else old(events)[id].actor)
      ensures !ok ==> active == old(active) && states == old(states) && gauges == old(gauges) && events == old(events)
    {
      var savedActive := active;
      forall t ensures t in LikedBy(old(states), user) <==> Likes(old(states), user, t) {
        LikedMeansLikes(old(states), user, t);
      }
      SubtractableMeans(states, gauges, user);
      DeactivateProfile(user);
      ok := RemoveEngagement(user);
      if GaugeExact(old(states), old(gauges)) {
        ExactGaugeIsSubtractable(old(states), old(gauges), user);
        RemovalKeepsGauge(old(states), old(gauges), user, TargetsOf(old(states), user));
        LikedIsEngaged(old(states), user);
      }
      if ok {
        AllRowsGone(old(states), user);
        ForgetActor(user);
      } else {
        active := savedActive;
      }
    }
  }

  /** The tables after removing the user's rows of the targets in `done`. */
  predicate Removed(first: map<Engagement, bool>, firstGauges: map<TargetId, int>, states: map<Engagement, bool>,
                    gauges: map<TargetId, int>, user: UserId, done: set<TargetId>)
  {
    && states == WithoutRows(first, user, done)
    && gauges == Lowered(firstGauges, done * LikedBy(first, user))
    && Covers(firstGauges, done * LikedBy(first, user))
  }

  lemma AllRemoved(first: map<Engagement, bool>, firstGauges: map<TargetId, int>, states: map<Engagement, bool>,
                   gauges: map<TargetId, int>, user: UserId)
    requires Removed(first, firstGauges, states, gauges, user, TargetsOf(first, user))
    ensures gauges == Lowered(firstGauges, LikedBy(first, user)) && Subtractable(first, firstGauges, user)
  {
    LikedIsEngaged(first, user);
  }

  lemma SubtractableMeans(states: map<Engagement, bool>, gauges: map<TargetId, int>, user: UserId)
    ensures Subtractable(states, gauges, user) <==>
            forall e :: e in states && e.user == user && states[e] ==> e.target in gauges && gauges[e.target] >= 1
  {
    forall e | e in states && e.user == user && states[e] ensures e.target in LikedBy(states, user) {
    }
  }

  lemma NothingRemoved(states: map<Engagement, bool>, gauges: map<TargetId, int>, user: UserId)
    ensures Removed(states, gauges, states, gauges, user, {})
  {
  }

  lemma AllRowsGone(states: map<Engagement, bool>, user: UserId)
    ensures WithoutRows(states, user, TargetsOf(states, user)) == map e | e in states && e.user != user :: states[e]
  {
    forall e | e in states && e.user == user ensures e.target in TargetsOf(states, user) {
    }
  }

  /** What is left to remove after the targets in `done`. */
  lemma RemainingRows(states: map<Engagement, bool>, user: UserId, done: set<TargetId>)
    ensures TargetsOf(WithoutRows(states, user, done), user) == TargetsOf(states, user) - done
    ensures LikedBy(WithoutRows(states, user, done), user) == LikedBy(states, user) - done
  {
    var rest := WithoutRows(states, user, done);
    forall t | t in TargetsOf(states, user) - done ensures t in TargetsOf(rest, user) {
      var e :| e in states && e.user == user && e.target == t;
      assert e in rest;
    }
    forall t | t in LikedBy(states, user) - done ensures t in LikedBy(rest, user) {
      var e :| e in states && e.user == user && states[e] && e.target == t;
      assert e in rest && rest[e];
    }
  }

  lemma NothingAnonymised(events: map<int, Event>)
    ensures Anonymised(events, {}) == events
  {
  }

  lemma EventsLeft(events: map<int, Event>, user: UserId, done: set<int>, all: set<int>)
    requires all == EventsBy(events, user)
    ensures EventsBy(Anonymised(events, done), user) == all - done
  {
  }

  lemma AnonymisedMore(events: map<int, Event>, done: set<int>, batch: set<int>)
    ensures Anonymised(Anonymised(events, done), batch) == Anonymised(events, done + batch)
  {
  }

  lemma LikedIsEngaged(states: map<Engagement, bool>, user: UserId)
    ensures TargetsOf(states, user) * LikedBy(states, user) == LikedBy(states, user)
  {
  }

  /** One more batch after the targets in `done`: what it removes, and when it throws. */
  lemma RemoveMore(states: map<Engagement, bool>, gauges: map<TargetId, int>, user: UserId, done: set<TargetId>,
                   batch: set<TargetId>)
    requires batch !! done && Covers(gauges, done * LikedBy(states, user))
    ensures var rest, liked := WithoutRows(states, user, done), LikedBy(states, user);
            var lowered, next := Lowered(gauges, done * liked), batch * LikedBy(rest, user);
            && WithoutRows(rest, user, batch) == WithoutRows(states, user, done + batch)
            && Lowered(lowered, next) == Lowered(gauges, (done + batch) * liked)
            && (Covers(lowered, next) <==> Covers(gauges, (done + batch) * liked))
            && (!Covers(lowered, next) ==> !Subtractable(states, gauges, user))
  {
    RemainingRows(states, user, done);
    var liked := LikedBy(states, user);
    var lowered, next := Lowered(gauges, done * liked), batch * (liked - done);
    assert (done + batch) * liked == done * liked + next;
    assert forall t :: t in next ==> t !in done * liked;
    assert Covers(lowered, next) <==> Covers(gauges, next);
    assert next <= liked;
  }

  /** The ids in the order they were visited: all of them, none twice. */
  ghost predicate VisitsOnce(visits: seq<Id>, ids: set<Id>) {
    && (forall i, j :: 0 <= i < j < |visits| ==> visits[i] != visits[j])
    && (forall id :: id in visits <==> id in ids)
  }

  /** After a batch the cursor stands behind everything visited, and less is left. */
  lemma AdvanceCursor(owned: set<Id>, done: set<Id>, batch: set<Id>, cursor: Option<Id>, visits: seq<Id>, more: seq<Id>)
    returns (both: seq<Id>)
    requires batch <= owned - done && done <= owned && batch != {} && cursor == Some(MaxOf(batch))
    requires forall x, y :: x in batch && y in owned - done - batch ==> x < y
    requires forall x, y :: x in done && y in batch ==> x < y
    requires VisitsOnce(visits, done) && VisitsOnce(more, batch)
    ensures Beyond(owned, cursor) == owned - (done + batch)
    ensures VisitsOnce(both, done + batch) && |owned - (done + batch)| < |owned - done|
  {
    both := visits + more;
    VisitAllIds(visits, done, more, batch);
    BatchShrinks(owned - done, batch);
    assert owned - done - batch == owned - (done + batch);
  }

  lemma VisitOneId(visits: seq<Id>, ids: set<Id>, id: Id)
    requires VisitsOnce(visits, ids) && id !in ids
    ensures VisitsOnce(visits + [id], ids + {id})
  {
    VisitAllIds(visits, ids, [id], {id});
  }

  lemma VisitAllIds(visits: seq<Id>, ids: set<Id>, more: seq<Id>, others: set<Id>)
    requires VisitsOnce(visits, ids) && VisitsOnce(more, others) && ids !! others
    ensures VisitsOnce(visits + more, ids + others)
  {
    var both := visits + more;
    forall i, j | 0 <= i < j < |both| ensures both[i] != both[j] {
      assert i < |visits| ==> both[i] in visits;
      assert j >= |visits| ==> both[j] in more;
    }
  }

  lemma NoSourceTargets(s: Sources, source: SourceType, active: map<TargetId, bool>)
    ensures active == Deactivated(active, SourceTargets(s, source, {}))
  {
  }

  lemma SourceUnion(s: Sources, source: SourceType, a: set<Id>, b: set<Id>)
    ensures SourceTargets(s, source, a + b) == SourceTargets(s, source, a) + SourceTargets(s, source, b)
  {
    forall t | t in SourceTargets(s, source, a) + SourceTargets(s, source, b)
      ensures t in SourceTargets(s, source, a + b)
    {
      if t in SourceTargets(s, source, a) {
        var y :| y in a && t in IdTargets(s, source, y);
        assert y in a + b;
      } else {
        var y :| y in b && t in IdTargets(s, source, y);
        assert y in a + b;
      }
    }
  }

  lemma VisitOneMore(s: Sources, done: set<Comment>, x: Comment)
    ensures VisitedTargets(s, done + {x}) == VisitedTargets(s, done) + CommentTargets(s, x)
  {
    forall t | t in CommentTargets(s, x) ensures t in VisitedTargets(s, done + {x}) {
      assert x in done + {x};
    }
    forall t | t in VisitedTargets(s, done) ensures t in VisitedTargets(s, done + {x}) {
      var y :| y in done && t in CommentTargets(s, y);
      assert y in done + {x};
    }
  }

  lemma DeriveOneMore(s: Sources, done: set<Content>, a: Content)
    ensures ActivityTargets(s, done + {a}) == ActivityTargets(s, done) + OwnTargets(s, a)
  {
    forall t | t in OwnTargets(s, a) ensures t in ActivityTargets(s, done + {a}) {
      assert a in done + {a};
    }
    forall t | t in ActivityTargets(s, done) ensures t in ActivityTargets(s, done + {a}) {
      var y :| y in done && t in OwnTargets(s, y);
      assert y in done + {a};
    }
  }

  lemma ActivityClosure(s: Sources, a: Content)
    requires a.kind == Activity
    ensures ClosureTargets(s, a) == OwnTargets(s, a)
  {
  }
}
