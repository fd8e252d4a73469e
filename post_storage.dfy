/** The Postgres adapter for posts (internal/storage/psgr/post.go). */
module PostStorage {
  import opened GoErrors
  import opened Driver
  import opened Models

  const DeletePostOp := "storage.psgr.post.DeletePost"
  const GetAllPostsByUserIDOp := "storage.psgr.post.getAllPostsByUserID"
  const CreatePostOp := "storage.psgr.post.CreatePost"
  const GetAllPostsOp := "storage.psgr.post.GetAllPosts"
  const GetPostByIDOp := "storage.psgr.post.GetPostByID"

  /** PostStorage.DeletePost: DELETE FROM post WHERE id=$1. Other errors are
      formatted with %v, so the driver error leaves the chain. */
  function DeletePost(id: int, exec: ExecOutcome): (r: Option<Error>)
    ensures r.None? <==> RowsTouched(exec)
    ensures r == Some(StorageErr(PostNotFound)) <==> exec == ExecFailed(ErrNoRows) || ZeroRows(exec)
    ensures OutcomeError(exec).Some? && exec != ExecFailed(ErrNoRows) ==>
      r == Some(Formatted(DeletePostOp, DbErr(OutcomeError(exec).value)))
  {
    match exec
    case ExecFailed(d) =>
      if d == ErrNoRows then Some(StorageErr(PostNotFound)) else Some(Formatted(DeletePostOp, DbErr(d)))
    case Executed(CountFailed(d)) => Some(Formatted(DeletePostOp, DbErr(d)))
    case Executed(Count(n)) => if n == 0 then Some(StorageErr(PostNotFound)) else None
  }

  /** errors.Is cannot find the driver error in what DeletePost returns. */
  lemma DeletePostHidesDriverError(id: int, exec: ExecOutcome)
    requires OutcomeError(exec).Some? && exec != ExecFailed(ErrNoRows)
    ensures !Is(DeletePost(id, exec).value, DbErr(OutcomeError(exec).value))
    ensures Unwrap(DeletePost(id, exec).value).None?
  {
  }

  /** PostStorage.CreatePost: INSERT INTO "post" (user_id, image_url, caption). */
  function CreatePost(post: CreatePostRequest, exec: ExecOutcome): (r: Option<Error>)
    ensures r.None? <==> RowsTouched(exec)
    ensures r == Some(StorageErr(PostExists)) <==> ZeroRows(exec)
    ensures OutcomeError(exec).Some? ==> r == Some(Wrapped(CreatePostOp, DbErr(OutcomeError(exec).value)))
  {
    match exec
    case ExecFailed(d) => Some(Wrapped(CreatePostOp, DbErr(d)))
    case Executed(CountFailed(d)) => Some(Wrapped(CreatePostOp, DbErr(d)))
    case Executed(Count(n)) => if n == 0 then Some(StorageErr(PostExists)) else None
  }

  /** PostStorage.GetPostByID: SELECT one post and scan it. */
  function GetPostByID(id: int, row: RowOutcome<Post>): (r: Result<Post>)
    ensures r.Ok? <==> row.RowScanned?
    ensures r.Ok? ==> r.value == row.row
    ensures r == Err(StorageErr(PostNotFound)) <==> row == RowFailed(ErrNoRows)
    ensures row.RowFailed? && row.err != ErrNoRows ==> r == Err(Wrapped(GetPostByIDOp, DbErr(row.err)))
  {
    match row
    case RowFailed(d) =>
      if d == ErrNoRows then Err(StorageErr(PostNotFound)) else Err(Wrapped(GetPostByIDOp, DbErr(d)))
    case RowScanned(p) => Ok(p)
  }

  /** The result of GetAllPostsByUserID for one Query outcome: no rows.Err() check. */
  function PostsOfUser(q: QueryOutcome<Post>): (r: Result<seq<Post>>)
  {
    match q
    case QueryFailed(d) =>
      if d == ErrNoRows then Err(StorageErr(PostNotFound)) else Err(Wrapped(GetAllPostsByUserIDOp, DbErr(d)))
    case Queried(rows) => Accumulated(GetAllPostsByUserIDOp, rows, false)
  }

  /** The result of GetAllPosts for one Query outcome: rows.Err() is checked. */
  function AllPosts(q: QueryOutcome<Post>): (r: Result<seq<Post>>)
  {
    match q
    case QueryFailed(d) => Err(Wrapped(GetAllPostsOp, DbErr(d)))
    case Queried(rows) => Accumulated(GetAllPostsOp, rows, true)
  }

  /** PostStorage.GetAllPostsByUserID, given the outcome of its SELECT. */
  method GetAllPostsByUserID(userID: int, q: QueryOutcome<Post>) returns (r: Result<seq<Post>>)
    ensures r == PostsOfUser(q)
  {
    if q.QueryFailed? {
      if q.err == ErrNoRows {
        return Err(StorageErr(PostNotFound));
      }
      return Err(Wrapped(GetAllPostsByUserIDOp, DbErr(q.err)));
    }
    r := CollectRows(GetAllPostsByUserIDOp, q.rows, false);
  }

  /** PostStorage.GetAllPosts, given the outcome of its SELECT. */
  method GetAllPosts(q: QueryOutcome<Post>) returns (r: Result<seq<Post>>)
    ensures r == AllPosts(q)
  {
    if q.QueryFailed? {
      return Err(Wrapped(GetAllPostsOp, DbErr(q.err)));
    }
    r := CollectRows(GetAllPostsOp, q.rows, true);
  }

  /** A user's posts come back in row order; a user without posts gets an
      empty list, not PostNotFound; the first failing scan decides the error. */
  lemma {:induction false} PostsOfUserMeaning(rows: Rows<Post>)
    ensures PostsOfUser(Queried(rows)).Ok? <==>
      forall i :: 0 <= i < |rows.scans| ==> rows.scans[i].Scanned?
    ensures PostsOfUser(Queried(rows)).Ok? ==>
      |PostsOfUser(Queried(rows)).value| == |rows.scans| &&
      forall i :: 0 <= i < |rows.scans| ==> PostsOfUser(Queried(rows)).value[i] == rows.scans[i].row
    ensures rows.scans == [] ==> PostsOfUser(Queried(rows)) == Ok([])
    ensures forall k ::
      (0 <= k < |rows.scans| && rows.scans[k].ScanFailed? &&
       (forall j :: 0 <= j < k ==> rows.scans[j].Scanned?)) ==>
      PostsOfUser(Queried(rows)) == Err(Wrapped(GetAllPostsByUserIDOp, DbErr(rows.scans[k].err)))
  {
    AccumulatedMeaning(GetAllPostsByUserIDOp, rows, false);
    forall k | 0 <= k < |rows.scans| && rows.scans[k].ScanFailed? &&
      (forall j :: 0 <= j < k ==> rows.scans[j].Scanned?)
      ensures PostsOfUser(Queried(rows)) == Err(Wrapped(GetAllPostsByUserIDOp, DbErr(rows.scans[k].err)))
    {
      AccumulatedFirstFailure(GetAllPostsByUserIDOp, rows, false, k);
    }
  }

  /** An iteration error after clean scans: GetAllPosts reports it, while
      GetAllPostsByUserID returns the rows read so far as a success. */
  lemma IterationErrorOnlyInAllPosts(rows: Rows<Post>)
    requires rows.iterErr.Some?
    requires forall i :: 0 <= i < |rows.scans| ==> rows.scans[i].Scanned?
    ensures AllPosts(Queried(rows)) == Err(Wrapped(GetAllPostsOp, DbErr(rows.iterErr.value)))
    ensures PostsOfUser(Queried(rows)).Ok? && |PostsOfUser(Queried(rows)).value| == |rows.scans|
    ensures forall i :: 0 <= i < |rows.scans| ==> PostsOfUser(Queried(rows)).value[i] == rows.scans[i].row
  {
    AccumulatedMeaning(GetAllPostsOp, rows, true);
    AccumulatedMeaning(GetAllPostsByUserIDOp, rows, false);
  }
}
