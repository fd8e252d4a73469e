/** The Postgres adapter for likes (internal/storage/psgr/like.go). Both
    operations classify the Exec error first and then the affected-row count. */
module LikeStorage {
  import opened GoErrors
  import opened Driver
  import opened Models

  /** Both operations carry this name in their wrapped errors. */
  const LikeOp := "storage.psgr.like.LikePostByID"

  const LikeUniqueMessage := "duplicate key value violates unique constraint \"like_user_id_post_id_key\""

  /** LikeStorage.UnlikePostByID: DELETE FROM "like". */
  function UnlikePostByID(req: LikeRequest, exec: ExecOutcome): (r: Option<Error>)
    ensures r.None? <==> RowsTouched(exec)
    ensures IsSentinel(r, LikeNotFound) <==> exec == ExecFailed(ErrNoRows) || ZeroRows(exec)
    ensures r == Some(StorageErr(LikeNotFound)) <==> exec == ExecFailed(ErrNoRows)
    ensures ZeroRows(exec) ==> r == Some(Wrapped(LikeOp, StorageErr(LikeNotFound)))
    ensures OutcomeError(exec).Some? && exec != ExecFailed(ErrNoRows) ==>
      r == Some(Wrapped(LikeOp, DbErr(OutcomeError(exec).value)))
  {
    match exec
    case ExecFailed(d) =>
      if d == ErrNoRows then Some(StorageErr(LikeNotFound))
      else LeafChain(LikeOp, DbErr(d)); Some(Wrapped(LikeOp, DbErr(d)))
    case Executed(CountFailed(d)) => LeafChain(LikeOp, DbErr(d)); Some(Wrapped(LikeOp, DbErr(d)))
    case Executed(Count(n)) =>
      if n == 0 then Some(Wrapped(LikeOp, StorageErr(LikeNotFound))) else None
  }

  /** LikeStorage.LikePostByID: INSERT INTO "like" (user_id, post_id). */
  function LikePostByID(req: LikeRequest, exec: ExecOutcome): (r: Option<Error>)
    ensures r.None? <==> RowsTouched(exec)
    ensures r == Some(StorageErr(PostAlreadyLiked)) <==>
      exec == ExecFailed(PqError(LikeUniqueMessage)) || ZeroRows(exec)
    ensures IsSentinel(r, PostAlreadyLiked) ==> r == Some(StorageErr(PostAlreadyLiked))
    ensures OutcomeError(exec).Some? && exec != ExecFailed(PqError(LikeUniqueMessage)) ==>
      r == Some(Wrapped(LikeOp, DbErr(OutcomeError(exec).value)))
  {
    match exec
    case ExecFailed(d) =>
      if AsPq(DbErr(d)) == Some(LikeUniqueMessage) then Some(StorageErr(PostAlreadyLiked))
      else LeafChain(LikeOp, DbErr(d)); Some(Wrapped(LikeOp, DbErr(d)))
    case Executed(CountFailed(d)) => LeafChain(LikeOp, DbErr(d)); Some(Wrapped(LikeOp, DbErr(d)))
    case Executed(Count(n)) =>
      if n == 0 then Some(StorageErr(PostAlreadyLiked)) else None
  }
}
