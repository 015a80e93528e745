/**
 The content tables that notifications consult: posts, reviews, activities, comments and the
 collections that decide whether a review or an activity is public. `LockRoot` follows the
 queries and branches of lockNotificationRoot; `RootClause` follows the nested EXISTS clauses
 of NOTIFICATION_ELIGIBILITY_SQL. The two are written separately and compared by lemmas.
 */
module Content {
  import opened Prelude

  type UserId = int
  type ContentId = int
  type CommentId = int

  datatype RootKind = Post | Review | Activity

  datatype Root = Root(kind: RootKind, id: ContentId)

  datatype PostRow = PostRow(owner: UserId, deleted: bool)

  datatype ReviewRow = ReviewRow(owner: UserId, entry: Option<ContentId>)

  datatype ActivityRow = ActivityRow(
    owner: UserId,
    post: Option<ContentId>,
    review: Option<ContentId>,
    collection: Option<ContentId>,
    entry: Option<ContentId>)

  datatype CommentRow = CommentRow(owner: UserId, root: Root, parent: Option<CommentId>, text: int)

  /** `shelved` is the join table collection_entry_collections_collection as (entry, collection) pairs. */
  datatype Tables = Tables(
    posts: map<ContentId, PostRow>,
    reviews: map<ContentId, ReviewRow>,
    activities: map<ContentId, ActivityRow>,
    collections: map<ContentId, bool>,
    entries: set<ContentId>,
    shelved: set<(ContentId, ContentId)>,
    comments: map<CommentId, CommentRow>,
    follows: map<int, UserId>,
    connections: map<int, UserId>,
    obtained: map<int, UserId>)

  /** The collections joined to an entry; a null entry joins to nothing. */
  function JoinedCollections(t: Tables, entry: Option<ContentId>): set<ContentId> {
    set m | m in t.shelved && Some(m.0) == entry && m.1 in t.collections :: m.1
  }

  /** The application-side test: no joined collection at all, or some public one. */
  predicate EntryOpen(t: Tables, entry: Option<ContentId>) {
    || JoinedCollections(t, entry) == {}
    || exists c :: c in JoinedCollections(t, entry) && t.collections[c]
  }

  /** The owner of the root when the locking reads would return a row, else None. */
  function LockRoot(t: Tables, root: Root): Option<UserId>
    decreases root.kind.Activity?
  {
    match root.kind
    case Post =>
      if root.id in t.posts && !t.posts[root.id].deleted then Some(t.posts[root.id].owner) else None
    case Review =>
      if root.id !in t.reviews || !EntryOpen(t, t.reviews[root.id].entry) then None
      else Some(t.reviews[root.id].owner)
    case Activity =>
      if root.id !in t.activities then None else
      var a := t.activities[root.id];
      var blocked :=
        if a.post.Some? then LockRoot(t, Root(Post, a.post.value)).None?
        else if a.review.Some? then LockRoot(t, Root(Review, a.review.value)).None?
        else if a.collection.Some? then
          a.collection.value !in t.collections || !t.collections[a.collection.value]
        else false;
      if blocked then None
      else if a.entry.Some? && (a.entry.value !in t.entries || !EntryOpen(t, a.entry)) then None
      else Some(a.owner)
  }

  function LockComment(t: Tables, root: Root, id: CommentId): Option<CommentRow> {
    if LockRoot(t, root).None? then None
    else if id in t.comments && t.comments[id].root == root then Some(t.comments[id])
    else None
  }

  // ----- the eligibility SQL -----

  /** NOT EXISTS (membership row) OR EXISTS (membership row JOIN public collection). */
  predicate EntryClause(t: Tables, entry: Option<ContentId>) {
    || !(exists m :: m in t.shelved && Some(m.0) == entry)
    || (exists m :: m in t.shelved && Some(m.0) == entry && m.1 in t.collections && t.collections[m.1])
  }

  predicate PostClause(t: Tables, id: ContentId) {
    id in t.posts && !t.posts[id].deleted
  }

  predicate ReviewClause(t: Tables, id: ContentId) {
    id in t.reviews && EntryClause(t, t.reviews[id].entry)
  }

  predicate ActivityClause(t: Tables, id: ContentId) {
    && id in t.activities
    && var a := t.activities[id];
    && (a.post.None? || PostClause(t, a.post.value))
    && (a.review.None? || ReviewClause(t, a.review.value))
    && (a.collection.None? || (a.collection.value in t.collections && t.collections[a.collection.value]))
    && (a.entry.None? || (a.entry.value in t.entries && EntryClause(t, a.entry)))
  }

  predicate RootClause(t: Tables, root: Root) {
    match root.kind
    case Post => PostClause(t, root.id)
    case Review => ReviewClause(t, root.id)
    case Activity => ActivityClause(t, root.id)
  }

  /** The foreign key of the join table: every membership names an existing collection. */
  predicate MembershipsResolve(t: Tables) {
    forall m :: m in t.shelved ==> m.1 in t.collections
  }

  /** An activity names at most one of post, review and collection. */
  predicate SingleContext(t: Tables) {
    forall id :: id in t.activities ==>
      var a := t.activities[id];
      && !(a.post.Some? && a.review.Some?)
      && !(a.post.Some? && a.collection.Some?)
      && !(a.review.Some? && a.collection.Some?)
  }

  lemma EntryTestsAgree(t: Tables, entry: Option<ContentId>)
    requires MembershipsResolve(t)
    ensures EntryOpen(t, entry) <==> EntryClause(t, entry)
  {
    var joined := JoinedCollections(t, entry);
    if m :| m in t.shelved && Some(m.0) == entry {
      assert m.1 in joined;
    }
    if EntryOpen(t, entry) && joined != {} {
      var c :| c in joined && t.collections[c];
      var m :| m in t.shelved && Some(m.0) == entry && m.1 == c;
    }
    if m :| m in t.shelved && Some(m.0) == entry && m.1 in t.collections && t.collections[m.1] {
      var c := m.1;
      assert c in JoinedCollections(t, entry) && t.collections[c];
    }
  }

  /** Every context a locking read reaches, so both directions can use the entry comparison at once. */
  lemma AllEntryTestsAgree(t: Tables)
    requires MembershipsResolve(t)
    ensures forall entry :: EntryOpen(t, entry) <==> EntryClause(t, entry)
  {
    forall entry ensures EntryOpen(t, entry) <==> EntryClause(t, entry) {
      EntryTestsAgree(t, entry);
    }
  }

  /** Without any restriction on activities the clause still guarantees a locked row. */
  lemma ClauseImpliesLock(t: Tables, root: Root)
    requires MembershipsResolve(t)
    requires RootClause(t, root)
    ensures LockRoot(t, root).Some?
  {
    AllEntryTestsAgree(t);
  }

  /** The locking reads and the eligibility SQL accept exactly the same roots. */
  lemma LockExactlyWhenClause(t: Tables, root: Root)
    requires MembershipsResolve(t) && SingleContext(t)
    ensures LockRoot(t, root).Some? <==> RootClause(t, root)
  {
    AllEntryTestsAgree(t);
  }

  /** A post the activity names before a private collection: lock succeeds, clause fails. */
  lemma ShadowedContextBreaksAgreement() returns (t: Tables, root: Root)
    ensures MembershipsResolve(t) && !SingleContext(t)
    ensures LockRoot(t, root).Some? && !RootClause(t, root)
  {
    t := Tables(
      map[1 := PostRow(9, false)], map[], map[2 := ActivityRow(9, Some(1), None, Some(3), None)],
      map[3 := false], {}, {}, map[], map[], map[], map[]);
    root := Root(Activity, 2);
    assert 2 in t.activities;
  }

  /** The contexts of an activity that the else-if chain never looks at are all accessible. */
  predicate ShadowedContextsOpen(t: Tables, a: ActivityRow) {
    && (a.post.Some? && a.review.Some? ==> ReviewClause(t, a.review.value))
    && ((a.post.Some? || a.review.Some?) && a.collection.Some? ==>
          a.collection.value in t.collections && t.collections[a.collection.value])
  }

  /** Exactly when agreement holds for an activity the lock accepts, with no restriction on it. */
  lemma AgreementForAnyActivity(t: Tables, id: ContentId)
    requires MembershipsResolve(t)
    requires LockRoot(t, Root(Activity, id)).Some?
    ensures RootClause(t, Root(Activity, id)) <==> ShadowedContextsOpen(t, t.activities[id])
  {
    AllEntryTestsAgree(t);
  }
}
