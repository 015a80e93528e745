/**
 One row of the notification outbox and every write the relay and the projector make to it.
 Instants are milliseconds; the current time is always a parameter.
 */
module Outbox {
  import opened Prelude
  import opened Content

  type EventId = int
  type Token = int

  const MAX_ATTEMPTS := 5
  const BASE_BACKOFF_MS := 1000
  const MAX_BACKOFF_MS := 60000
  const CLAIM_LIMIT := 100
  const MAX_LEASE_MS := 30000

  datatype LikedSubject = LikedGame | LikedRoot(root: Root) | LikedComment(comment: CommentId)

  /** The payload of each supported event type, reduced to the references the projector follows. */
  datatype Payload =
    | ContentLiked(subject: LikedSubject)
    | CommentCreated(comment: CommentId, root: Root)
    | CommentReplied(comment: CommentId, parent: CommentId, root: Root)
    | ProfileFollowed(follow: int)
    | ImportCompleted(discovery: int)
    | ReauthRequired(connection: int)
    | ModerationApplied(report: int)
    | AchievementUnlocked(obtained: int, achievement: int)

  datatype Intent = Intent(
    payload: Payload,
    recipient: Option<UserId>,
    actor: Option<UserId>,
    occurredAt: int)

  datatype OutboxState = Pending | Processing | Completed | Failed | Suppressed

  datatype Note =
    | OwnerExpired | AttemptsExhausted | TransportUnavailable | DeliveryFailed | InvalidEvent | RecipientRemoved
    | GameLike | SourceInaccessible | InvalidReplyParent | InvalidCommentKind | SelfNotification
    | NoRecipient | RecordNotFound

  datatype OutboxRow = OutboxRow(
    intent: Intent,
    state: OutboxState,
    ownerToken: Option<Token>,
    ownerExpiresAt: Option<int>,
    attempts: int,
    nextAttemptAt: int,
    completedAt: Option<int>,
    lastError: Option<Note>)

  /** Why a delivery failed: the queue refused the job, projection threw, or the intent is invalid. */
  datatype FailureKind = Transport | Delivery | Poison

  /** What recordFailure read before it writes: the row's attempts, with the kind of error. */
  datatype FailureReport = FailureReport(id: EventId, token: Token, attempts: int, kind: FailureKind)

  function FailureNote(kind: FailureKind): Note {
    match kind
    case Transport => TransportUnavailable
    case Delivery => DeliveryFailed
    case Poison => InvalidEvent
  }

  function Backoff(attempts: int): int {
    Min(MAX_BACKOFF_MS, BASE_BACKOFF_MS * PowerOfTwo(Max(0, attempts - 1)))
  }

  function NewRow(intent: Intent, now: int): OutboxRow {
    OutboxRow(intent, Pending, None, None, 0, now, None, None)
  }

  predicate Due(row: OutboxRow, now: int) {
    || (row.state == Pending && row.nextAttemptAt <= now)
    || (row.state == Processing && row.ownerExpiresAt.Some? && row.ownerExpiresAt.value <= now)
  }

  /** One iteration of the claim loop over a due row. */
  function ClaimRow(row: OutboxRow, token: Token, now: int, leaseMs: int): OutboxRow {
    if row.state == Processing || row.attempts >= MAX_ATTEMPTS then
      row.(state := if row.attempts >= MAX_ATTEMPTS then Failed else Pending,
           ownerToken := None,
           ownerExpiresAt := None,
           nextAttemptAt := now + Backoff(row.attempts),
           lastError := Some(if row.state == Processing then OwnerExpired else AttemptsExhausted))
    else
      row.(state := Processing,
           ownerToken := Some(token),
           ownerExpiresAt := Some(now + leaseMs),
           attempts := row.attempts + 1)
  }

  /** The WHERE clause shared by every fenced write. */
  predicate OwnedBy(row: OutboxRow, token: Token) {
    row.state == Processing && row.ownerToken == Some(token)
  }

  /** The conditional UPDATE at the end of recordFailure, with the values read earlier. */
  function FailRow(row: OutboxRow, report: FailureReport, now: int): OutboxRow {
    if !OwnedBy(row, report.token) then row
    else
      var note := Some(FailureNote(report.kind));
      if report.kind == Poison || report.attempts >= MAX_ATTEMPTS then
        row.(state := Failed, ownerToken := None, ownerExpiresAt := None, lastError := note)
      else
        row.(state := Pending, ownerToken := None, ownerExpiresAt := None,
             nextAttemptAt := now + Backoff(report.attempts), lastError := note)
  }

  function RearmRow(row: OutboxRow, now: int): OutboxRow {
    row.(state := Pending, attempts := 0, ownerToken := None, ownerExpiresAt := None,
         nextAttemptAt := now, lastError := None, completedAt := None)
  }

  /** The guard of completeOwnedOutbox: still owned, and the lease has not run out. */
  predicate CanFinish(row: OutboxRow, token: Token, now: int) {
    OwnedBy(row, token) && row.ownerExpiresAt.Some? && row.ownerExpiresAt.value > now
  }

  function FinishRow(row: OutboxRow, state: OutboxState, reason: Option<Note>, now: int): OutboxRow {
    row.(state := state, completedAt := Some(now), ownerToken := None, ownerExpiresAt := None, lastError := reason)
  }

  /** The row is finished: nobody holds it, and only state, instant and note say how it ended. */
  predicate Closed(before: OutboxRow, after: OutboxRow, at: int) {
    && after.intent == before.intent && after.attempts == before.attempts && after.nextAttemptAt == before.nextAttemptAt
    && after.ownerToken == None && after.ownerExpiresAt == None && after.completedAt == Some(at)
  }

  /** A profile removal suppresses the unfinished rows addressed to the profile. */
  function RemoveRecipient(row: OutboxRow, user: UserId, now: int): OutboxRow {
    if row.intent.recipient == Some(user) && (row.state == Pending || row.state == Processing)
    then FinishRow(row, Suppressed, Some(RecipientRemoved), now)
    else row
  }

  // ----- the lease state machine of one row -----

  predicate RowOk(row: OutboxRow) {
    && 0 <= row.attempts <= MAX_ATTEMPTS
    && (row.state == Processing <==> row.ownerToken.Some?)
    && (row.state == Processing <==> row.ownerExpiresAt.Some?)
    && (row.state == Pending ==> row.attempts < MAX_ATTEMPTS)
    && (row.state == Processing ==> 1 <= row.attempts)
  }

  /** Transitions a row can still make without being rearmed. */
  function Remaining(row: OutboxRow): int {
    match row.state
    case Pending => 2 * (MAX_ATTEMPTS - row.attempts)
    case Processing => 2 * (MAX_ATTEMPTS - row.attempts) + 1
    case _ => 0
  }

  /** Claims a row can still receive without being rearmed. */
  function ClaimsLeft(row: OutboxRow): int {
    if row.state == Pending || row.state == Processing then MAX_ATTEMPTS - row.attempts else 0
  }

  predicate IsClaim(before: OutboxRow, after: OutboxRow) {
    before.state == Pending && after.state == Processing
  }

  /** Progress of one write: the row is unchanged, or both measures account for the change. */
  predicate Progress(before: OutboxRow, after: OutboxRow) {
    || after == before
    || (&& Remaining(after) < Remaining(before)
        && ClaimsLeft(after) + (if IsClaim(before, after) then 1 else 0) <= ClaimsLeft(before))
  }

  /** Nobody holds the row and its delay has begun: it is not due now, and it is due once the delay has passed. */
  predicate Backing(row: OutboxRow, now: int) {
    && row.state == Pending && row.ownerToken.None? && row.ownerExpiresAt.None?
    && !Due(row, now) && Due(row, now + Backoff(row.attempts))
  }

  /**
   A claim of a healthy due row counts one more attempt and leases a pending row until the lease ends.
   An expired lease is taken away: the row backs off, or fails at five attempts. The
   attempts_exhausted outcome is never taken.
   */
  lemma ClaimOutcome(row: OutboxRow, token: Token, now: int, leaseMs: int)
    requires RowOk(row) && Due(row, now)
    ensures var after := ClaimRow(row, token, now, leaseMs);
            && RowOk(after) && Progress(row, after) && after != row && after.intent == row.intent
            && (after.lastError == Some(AttemptsExhausted) ==> row.lastError == after.lastError)
            && (row.state == Pending ==> IsClaim(row, after) && after.attempts == row.attempts + 1
                                         && forall t :: CanFinish(after, token, t) <==> t < now + leaseMs)
            && (row.state == Processing ==> after.attempts == row.attempts && after.lastError == Some(OwnerExpired)
                                            && forall t :: !OwnedBy(after, t))
            && (row.state == Processing && row.attempts < MAX_ATTEMPTS ==> Backing(after, now))
            && (row.state == Processing && row.attempts == MAX_ATTEMPTS ==> after.state == Failed)
  {
    BackoffIsPositive(row.attempts);
  }

  lemma BackoffIsPositive(attempts: int)
    ensures Backoff(attempts) > 0
  {
    PowerIsPositive(Max(0, attempts - 1));
  }

  /**
   A failure write by the current owner always ends the lease and keeps the attempts: poison or the
   fifth attempt fails the row, anything else makes it back off. A stale write changes nothing.
   */
  lemma FailureOutcome(row: OutboxRow, report: FailureReport, now: int)
    requires RowOk(row)
    requires OwnedBy(row, report.token) ==> row.attempts == report.attempts
    ensures var after := FailRow(row, report, now);
            && RowOk(after) && Progress(row, after)
            && (!OwnedBy(row, report.token) ==> after == row)
            && (OwnedBy(row, report.token) ==>
                  && after.intent == row.intent && after.attempts == row.attempts && (forall t :: !OwnedBy(after, t))
                  && (if report.kind == Poison || row.attempts == MAX_ATTEMPTS then after.state == Failed
                      else Backing(after, now)))
  {
    BackoffIsPositive(row.attempts);
  }

  /** The retry delays are 1 s, 2 s, 4 s, 8 s, 16 s: the cap is never what stops a retry. */
  lemma BackoffDoubles(attempts: int)
    requires 1 <= attempts <= MAX_ATTEMPTS
    ensures Backoff(attempts) == BASE_BACKOFF_MS * PowerOfTwo(attempts - 1) <= 16000
    ensures attempts < MAX_ATTEMPTS ==> Backoff(attempts + 1) == 2 * Backoff(attempts)
  {
    assert PowerOfTwo(0) == 1 && PowerOfTwo(1) == 2 && PowerOfTwo(2) == 4;
    assert PowerOfTwo(3) == 8 && PowerOfTwo(4) == 16;
  }
}
