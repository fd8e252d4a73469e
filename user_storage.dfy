/** The Postgres adapter for users (internal/storage/psgr/user.go). */
module UserStorage {
  import opened GoErrors
  import opened Driver
  import opened Models

  const DeleteUserOp := "storage.psgr.user.DeleteUser"
  const UploadProfilePicOp := "storage.psgr.user.UploadProfilePic"
  const GetByIDOp := "storage.psgr.user.GetUser"
  const UpdateOp := "storage.psgr.user.Update"
  const GetAllFollowersOp := "storage.psgr.user.GetAllFollowers"
  const GetAllFollowingOp := "storage.psgr.user.GetAllFollowing"

  const EmailUniqueMessage := "duplicate key value violates unique constraint \"user_email_key\""
  const UsernameUniqueMessage := "duplicate key value violates unique constraint \"user_username_key\""

  /** The list query both GetAllFollowers and GetAllFollowing run, with its
      whitespace collapsed; the two texts in the source differ only there. */
  const FollowersSql :=
    "SELECT DISTINCT u.username, u.profile_pic FROM \"user\" main_user " +
    "CROSS JOIN LATERAL unnest(main_user.followers) AS follower_id " +
    "JOIN \"user\" u ON u.id = follower_id WHERE main_user.id = $1;"

  /** UserStorage.CreateUser: INSERT INTO "user"; no error is wrapped. */
  function CreateUser(user: CreateUserRequest, exec: ExecOutcome): (r: Option<Error>)
    ensures r.None? <==> RowsTouched(exec)
    ensures r.Some? ==> !r.value.Wrapped?
    ensures r == Some(StorageErr(EmailAlreadyRegistered)) <==> exec == ExecFailed(PqError(EmailUniqueMessage))
    ensures r == Some(StorageErr(UsernameAlreadyRegistered)) <==> exec == ExecFailed(PqError(UsernameUniqueMessage))
    ensures r == Some(StorageErr(UserAlreadyExists)) <==> ZeroRows(exec)
    ensures OutcomeError(exec).Some? &&
      exec != ExecFailed(PqError(EmailUniqueMessage)) && exec != ExecFailed(PqError(UsernameUniqueMessage))
      ==> r == Some(DbErr(OutcomeError(exec).value))
  {
    match exec
    case ExecFailed(d) =>
      if d == PqError(EmailUniqueMessage) then Some(StorageErr(EmailAlreadyRegistered))
      else if d == PqError(UsernameUniqueMessage) then Some(StorageErr(UsernameAlreadyRegistered))
      else Some(DbErr(d))
    case Executed(CountFailed(d)) => Some(DbErr(d))
    case Executed(Count(n)) => if n == 0 then Some(StorageErr(UserAlreadyExists)) else None
  }

  /** UserStorage.DeleteUser: DELETE FROM "user" WHERE id=$1. */
  function DeleteUser(id: int, exec: ExecOutcome): (r: Option<Error>)
    ensures r.None? <==> RowsTouched(exec)
    ensures r == Some(StorageErr(UserNotFound)) <==> exec == ExecFailed(ErrNoRows) || ZeroRows(exec)
    ensures OutcomeError(exec).Some? && exec != ExecFailed(ErrNoRows) ==>
      r == Some(Wrapped(DeleteUserOp, DbErr(OutcomeError(exec).value)))
  {
    match exec
    case ExecFailed(d) =>
      if d == ErrNoRows then Some(StorageErr(UserNotFound)) else Some(Wrapped(DeleteUserOp, DbErr(d)))
    case Executed(CountFailed(d)) => Some(Wrapped(DeleteUserOp, DbErr(d)))
    case Executed(Count(n)) => if n == 0 then Some(StorageErr(UserNotFound)) else None
  }

  const PhotoPrefix := "api/photo/"

  /** fmt.Sprintf("api/photo/%v", filename): the value written to profile_pic.
      It is the prefix followed by exactly the filename, so the filename can be
      read back from it. */
  function ProfilePicPath(filename: string): (path: string)
    ensures |path| == |PhotoPrefix| + |filename|
    ensures path[..|PhotoPrefix|] == PhotoPrefix
    ensures path[|PhotoPrefix|..] == filename
  {
    PhotoPrefix + filename
  }

  /** Distinct filenames give distinct stored paths. */
  lemma ProfilePicPathInjective(a: string, b: string)
    requires ProfilePicPath(a) == ProfilePicPath(b)
    ensures a == b
  {
  }

  /** UserStorage.UploadProfilePic: UPDATE "user" SET profile_pic = $1 WHERE
      id = $2, with $1 the ProfilePicPath of the filename; every error is
      wrapped. `db` answers the statement for the value and id it is given. */
  function UploadProfilePic(userID: int, filename: string, db: (string, int) -> ExecOutcome): (r: Option<Error>)
    ensures var exec := db(ProfilePicPath(filename), userID);
      (r.None? <==> RowsTouched(exec)) &&
      (r == Some(Wrapped(UploadProfilePicOp, StorageErr(UserNotFound))) <==>
        exec == ExecFailed(ErrNoRows) || ZeroRows(exec)) &&
      (OutcomeError(exec).Some? && exec != ExecFailed(ErrNoRows) ==>
        r == Some(Wrapped(UploadProfilePicOp, DbErr(OutcomeError(exec).value))))
    ensures r.Some? ==> r.value.Wrapped? && r.value.op == UploadProfilePicOp
  {
    match db(ProfilePicPath(filename), userID)
    case ExecFailed(d) =>
      if d == ErrNoRows then Some(Wrapped(UploadProfilePicOp, StorageErr(UserNotFound)))
      else Some(Wrapped(UploadProfilePicOp, DbErr(d)))
    case Executed(CountFailed(d)) => Some(Wrapped(UploadProfilePicOp, DbErr(d)))
    case Executed(Count(n)) =>
      if n == 0 then Some(Wrapped(UploadProfilePicOp, StorageErr(UserNotFound))) else None
  }

  /** For a database that touches a row only when it receives
      ProfilePicPath(stored) for this user, the upload succeeds for exactly
      that filename: the value sent determines the filename and back. */
  lemma {:induction false} UploadProfilePicSendsFilename(userID: int, stored: string, filename: string)
    ensures UploadProfilePic(userID, filename,
      (v: string, id: int) => if v == ProfilePicPath(stored) && id == userID then Executed(Count(1))
                              else Executed(Count(0))).None?
      <==> filename == stored
  {
    if ProfilePicPath(filename) == ProfilePicPath(stored) {
      ProfilePicPathInjective(filename, stored);
    }
  }

  /** UserStorage.GetByID: SELECT one user and scan it. */
  function GetByID(id: string, row: RowOutcome<UserProfile>): (r: Result<UserProfile>)
    ensures r.Ok? <==> row.RowScanned?
    ensures r.Ok? ==> r.value == row.row
    ensures r == Err(StorageErr(UserNotFound)) <==> row == RowFailed(ErrNoRows)
    ensures row.RowFailed? && row.err != ErrNoRows ==> r == Err(Wrapped(GetByIDOp, DbErr(row.err)))
  {
    match row
    case RowFailed(d) =>
      if d == ErrNoRows then Err(StorageErr(UserNotFound)) else Err(Wrapped(GetByIDOp, DbErr(d)))
    case RowScanned(u) => Ok(u)
  }

  /** UserStorage.Update: UPDATE "user" SET username, email, bio. A failed
      Exec is wrapped as it is, sql.ErrNoRows included. */
  function Update(req: UpdateUserRequest, exec: ExecOutcome): (r: Option<Error>)
    ensures r.None? <==> RowsTouched(exec)
    ensures r.Some? ==> r.value.Wrapped? && r.value.op == UpdateOp
    ensures IsSentinel(r, UserNotFound) <==> ZeroRows(exec)
    ensures OutcomeError(exec).Some? ==> r == Some(Wrapped(UpdateOp, DbErr(OutcomeError(exec).value)))
  {
    match exec
    case ExecFailed(d) => LeafChain(UpdateOp, DbErr(d)); Some(Wrapped(UpdateOp, DbErr(d)))
    case Executed(CountFailed(d)) => LeafChain(UpdateOp, DbErr(d)); Some(Wrapped(UpdateOp, DbErr(d)))
    case Executed(Count(n)) =>
      if n == 0 then Some(Wrapped(UpdateOp, StorageErr(UserNotFound))) else None
  }

  /** What a list query turns into before and after the row loop: ErrNoRows
      from db.Query is UserNotFound, other Query errors are wrapped. */
  function FollowerList(op: string, q: QueryOutcome<Follower>): (r: Result<seq<Follower>>)
  {
    match q
    case QueryFailed(d) =>
      if d == ErrNoRows then Err(StorageErr(UserNotFound)) else Err(Wrapped(op, DbErr(d)))
    case Queried(rows) => Accumulated(op, rows, true)
  }

  /** UserStorage.GetAllFollowers; `db` answers a query text and argument. */
  method GetAllFollowers(userID: int, db: (string, int) -> QueryOutcome<Follower>)
    returns (r: Result<seq<Follower>>)
    ensures r == FollowerList(GetAllFollowersOp, db(FollowersSql, userID))
  {
    var q := db(FollowersSql, userID);
    if q.QueryFailed? {
      if q.err == ErrNoRows {
        return Err(StorageErr(UserNotFound));
      }
      return Err(Wrapped(GetAllFollowersOp, DbErr(q.err)));
    }
    r := CollectRows(GetAllFollowersOp, q.rows, true);
  }

  /** UserStorage.GetAllFollowing: the same query text as GetAllFollowers. */
  method GetAllFollowing(userID: int, db: (string, int) -> QueryOutcome<Follower>)
    returns (r: Result<seq<Follower>>)
    ensures r == FollowerList(GetAllFollowingOp, db(FollowersSql, userID))
  {
    var q := db(FollowersSql, userID);
    if q.QueryFailed? {
      if q.err == ErrNoRows {
        return Err(StorageErr(UserNotFound));
      }
      return Err(Wrapped(GetAllFollowingOp, DbErr(q.err)));
    }
    r := CollectRows(GetAllFollowingOp, q.rows, true);
  }

  /** The followers list: one entry per scanned row in row order when the
      query, every scan and the iteration succeed; otherwise no list. */
  lemma FollowerListMeaning(op: string, q: QueryOutcome<Follower>)
    ensures FollowerList(op, q).Ok? <==>
      q.Queried? && q.rows.iterErr.None? &&
      forall i :: 0 <= i < |q.rows.scans| ==> q.rows.scans[i].Scanned?
    ensures FollowerList(op, q).Ok? ==>
      |FollowerList(op, q).value| == |q.rows.scans| &&
      forall i :: 0 <= i < |q.rows.scans| ==> FollowerList(op, q).value[i] == q.rows.scans[i].row
    ensures FollowerList(op, q) == Err(StorageErr(UserNotFound)) <==> q == QueryFailed(ErrNoRows)
  {
    if q.Queried? {
      AccumulatedMeaning(op, q.rows, true);
      CollectedOk(q.rows.scans);
    }
  }

  /** For one database state both methods give the same list, or both fail
      the same way up to the operation name in the wrapped error. */
  method FollowingMatchesFollowers(userID: int, db: (string, int) -> QueryOutcome<Follower>)
    returns (followers: Result<seq<Follower>>, following: Result<seq<Follower>>)
    ensures followers.Ok? <==> following.Ok?
    ensures followers.Ok? ==> followers.value == following.value
    ensures followers == Err(StorageErr(UserNotFound)) <==> following == Err(StorageErr(UserNotFound))
    ensures followers.Err? && followers.error.Wrapped? ==>
      following.Err? && following.error == Wrapped(GetAllFollowingOp, followers.error.inner)
  {
    followers := GetAllFollowers(userID, db);
    following := GetAllFollowing(userID, db);
  }
}
