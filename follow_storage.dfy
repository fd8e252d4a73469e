/** The Postgres adapter for follow edges (internal/storage/psgr/follow.go).
    Each operation is given the outcome the driver reports for its one
    INSERT or DELETE; the self-reference check comes before it. */
module FollowStorage {
  import opened GoErrors
  import opened Driver
  import opened Models

  const FollowOp := "storage.psgr.follow.FollowByID"
  const UnFollowOp := "storage.psgr.follow.UnFollow"

  /** The server messages the adapter recognises, compared as whole strings. */
  const FollowForeignKeyMessage :=
    "insert or update on table \"follow\" violates foreign key constraint \"follow_follower_id_fkey\""
  const FollowUniqueMessage :=
    "duplicate key value violates unique constraint \"follow_follower_id_following_id_key\""

  /** The `errors.As` and `switch pqErr.Message` both operations apply to a
      failed Exec: the domain error for a recognised message, otherwise the
      driver error. */
  function FollowExecError(d: DbError): (e: Error)
    ensures e == StorageErr(UserNotFound) <==> d == PqError(FollowForeignKeyMessage)
    ensures e == StorageErr(AlreadyFollowed) <==> d == PqError(FollowUniqueMessage)
    ensures e == StorageErr(UserNotFound) || e == StorageErr(AlreadyFollowed) || e == DbErr(d)
  {
    var pqMessage := AsPq(DbErr(d));
    if pqMessage == Some(FollowForeignKeyMessage) then StorageErr(UserNotFound)
    else if pqMessage == Some(FollowUniqueMessage) then StorageErr(AlreadyFollowed)
    else DbErr(d)
  }

  predicate SelfReference(req: FollowRequest)
  {
    req.followerID == req.followingID
  }

  /** FollowStorage.FollowByID: INSERT INTO "follow" (follower_id, following_id). */
  function FollowByID(req: FollowRequest, exec: ExecOutcome): (r: Option<Error>)
    ensures r.None? <==> !SelfReference(req) && exec.Executed?
    ensures r.Some? ==> r.value.Wrapped? && r.value.op == FollowOp
    ensures IsSentinel(r, SelfFollow) <==> SelfReference(req)
    ensures IsSentinel(r, UserNotFound) <==>
      !SelfReference(req) && exec == ExecFailed(PqError(FollowForeignKeyMessage))
    ensures IsSentinel(r, AlreadyFollowed) <==>
      !SelfReference(req) && exec == ExecFailed(PqError(FollowUniqueMessage))
    ensures !SelfReference(req) && exec.ExecFailed? &&
      exec.err != PqError(FollowForeignKeyMessage) && exec.err != PqError(FollowUniqueMessage)
      ==> r == Some(Wrapped(FollowOp, DbErr(exec.err)))
  {
    if SelfReference(req) then Some(Wrapped(FollowOp, StorageErr(SelfFollow)))
    else
      match exec
      case ExecFailed(d) =>
        LeafChain(FollowOp, FollowExecError(d));
        Some(Wrapped(FollowOp, FollowExecError(d)))
      case Executed(_) => None
  }

  /** FollowStorage.UnFollowByID: DELETE FROM "follow"; the Exec result is
      discarded, so no row count is consulted. */
  function UnFollowByID(req: FollowRequest, exec: ExecOutcome): (r: Option<Error>)
    ensures r.None? <==> !SelfReference(req) && exec.Executed?
    ensures r.Some? ==> r.value.Wrapped? && r.value.op == UnFollowOp
    ensures IsSentinel(r, SelfUnFollow) <==> SelfReference(req)
    ensures IsSentinel(r, UserNotFound) <==>
      !SelfReference(req) && exec == ExecFailed(PqError(FollowForeignKeyMessage))
    ensures IsSentinel(r, AlreadyFollowed) <==>
      !SelfReference(req) && exec == ExecFailed(PqError(FollowUniqueMessage))
    ensures !SelfReference(req) && exec.ExecFailed? &&
      exec.err != PqError(FollowForeignKeyMessage) && exec.err != PqError(FollowUniqueMessage)
      ==> r == Some(Wrapped(UnFollowOp, DbErr(exec.err)))
  {
    if SelfReference(req) then Some(Wrapped(UnFollowOp, StorageErr(SelfUnFollow)))
    else
      match exec
      case ExecFailed(d) =>
        LeafChain(UnFollowOp, FollowExecError(d));
        Some(Wrapped(UnFollowOp, FollowExecError(d)))
      case Executed(_) => None
  }

  /** A self-follow or self-unfollow is answered without the database: the
      result is the same whatever the driver would have reported. */
  lemma SelfReferenceIssuesNoExec(req: FollowRequest, a: ExecOutcome, b: ExecOutcome)
    requires SelfReference(req)
    ensures FollowByID(req, a) == FollowByID(req, b)
    ensures UnFollowByID(req, a) == UnFollowByID(req, b)
  {
  }

  /** Deleting an edge that is not there affects zero rows and still succeeds:
      there is no not-found outcome. */
  lemma UnFollowZeroRowsSucceeds(req: FollowRequest, affected: Affected)
    requires !SelfReference(req)
    ensures UnFollowByID(req, Executed(affected)).None?
    ensures FollowByID(req, Executed(affected)).None?
  {
  }

  /** The two operations classify a failed Exec with the same table: only the
      operation name in front differs. */
  lemma UnFollowSharesMessageTable(req: FollowRequest, d: DbError)
    requires !SelfReference(req)
    ensures Unwrap(UnFollowByID(req, ExecFailed(d)).value) == Unwrap(FollowByID(req, ExecFailed(d)).value)
  {
  }

  /** A driver error the table does not recognise stays in the chain: errors.As
      still finds its *pq.Error, in the adapter's result and in any error a
      caller builds around that result with %w. */
  lemma UnrecognisedMessageStaysVisible(req: FollowRequest, m: string, outer: Error)
    requires !SelfReference(req)
    requires m != FollowForeignKeyMessage && m != FollowUniqueMessage
    requires Is(outer, FollowByID(req, ExecFailed(PqError(m))).value)
    ensures AsPq(outer) == Some(m)
  {
    var r := FollowByID(req, ExecFailed(PqError(m))).value;
    assert Is(r, DbErr(PqError(m)));
    IsTransitive(outer, r, DbErr(PqError(m)));
    AsPqThroughChain(outer, DbErr(PqError(m)));
  }
}
