# kirkagram storage and services, modelled in Dafny

kirkagram is a small photo-sharing backend written in Go. A user registers,
uploads a profile picture, follows other users, creates posts and likes
posts. This project models two layers of it:

- the Postgres adapters in `internal/storage/psgr` for follows, likes, users
  and posts;
- the services in `internal/service` that sit between the HTTP handlers and
  those adapters. Some services also hand a JSON copy of the request to a
  Kafka producer.

### How the model is built

- **The database is given, not simulated.** Each adapter is a function of its
  arguments and of what database/sql hands back for its one statement. That
  is an `ExecOutcome` (did Exec fail, and what did RowsAffected report), a
  `RowOutcome` for QueryRow/Scan, or a `QueryOutcome` (the query error, or
  the sequence of row scans plus what `rows.Err()` reports). These live in
  module `Driver`.
  - A guard that returns before the statement, such as the self-follow check,
    is stated as "the result does not depend on the outcome".
- **Error chains are a datatype** (`GoErrors.Error`):
  - `Wrapped` is `fmt.Errorf("%s: %w")`;
  - `Formatted` is `%v`, which keeps only the text;
  - `Plain` is an error that is only a message;
  - `StorageErr` holds the sentinels of package storage;
  - `DbErr` holds the driver's errors;
  - `Foreign` is an error from a collaborator outside the model.

  `Is` is errors.Is and `AsPq` is errors.As into `*pq.Error`. The
  properties that matter to callers are stated with `IsSentinel`, for
  example "the caller can find `ErrUserNotFound` in the result exactly
  when ...".
- **The row loops are imperative.** The list queries share one method,
  `Driver.CollectRows`, with a `while` loop over the scans. It is proved
  equal to the recursive specification `Driver.Accumulated`. Lemmas about
  that specification give the meaning of the result: one entry per row in
  row order, and the first failing scan decides the error.
- **The services have one shared log.** They keep no state of their own, but
  they call storage and the producer in an order that matters. Each service
  method appends what it does to an `Effects.EffectLog` (a class with a
  `seq<Effect>` field) and states the exact events it adds. The answers of
  its collaborators are parameters:
  - the storage reply;
  - `json.Marshal`;
  - bcrypt;
  - the validator;
  - the producer's reply.
- **Postgres behaviour is a separate assumption.** Module `Postgres` is an
  explicitly assumed model of the `follow` and `like` tables, a class whose
  set-valued fields the INSERT and DELETE methods update. Module `Scenarios`
  runs request sequences through the tables, the adapters and the services
  together, for example following twice, or liking and then unliking. The
  repository contains no schema. The constraint names are the ones the
  adapters' messages mention, plus Postgres's default names for the others.

### Behaviour worth knowing

The model keeps each of these as the code has it.

- Both `GetAllFollowers` and `GetAllFollowing` in `internal/storage/psgr/user.go`
  run the followers query. So "following" returns the followers.
  `UserStorage.FollowingMatchesFollowers` proves that both give the same list
  for the same database answer.
- The UPDATE in `UserStorage.Update` filters on `$5` but passes four
  arguments. Postgres then rejects every call. The model keeps the adapter's
  handling of whatever the driver reports and does not model the driver's
  check of placeholders.
- The follow adapter maps only one foreign-key message to `ErrUserNotFound`:
  the one for `follower_id`. Under the assumed schema, following a
  nonexistent user gives a wrapped driver error, not `ErrUserNotFound`
  (`Scenarios.FollowMissingUser`).
- `UnFollowByID` has no not-found outcome: deleting an edge that does not
  exist succeeds and still publishes "unfollow"
  (`Scenarios.UnFollowWithoutEdge`).
- `Like.UnlikePostByID` publishes no event.
- `LikePostByID` and `CreatePost` publish to Kafka before they write. An event
  therefore goes out even for a like or post that storage then rejects
  (`Scenarios.LikeTwice`). A producer error is returned unwrapped, and storage
  is not called.
- `UnlikePostByID` in the like adapter uses the operation name
  `storage.psgr.like.LikePostByID` in its wrapped errors.
- `PostStorage.DeletePost` formats driver errors with `%v`. errors.Is cannot
  find them in its result (`PostStorage.DeletePostHidesDriverError`).
- `GetAllPostsByUserID` does not check `rows.Err()`, but `GetAllPosts` does
  (`PostStorage.IterationErrorOnlyInAllPosts`).
- `SelfFollowError`, `SelfUnFollowError`, `ErrAlreadyFollowed` and
  `ErrLikeNotFound` are used by the adapters but are not declared in
  `internal/storage/storage.go`. They are modelled as sentinels of their own.
- `User.Update` wraps `models.ErrEmailValidate` with `%w`, but that value is a
  string. The result is an error with nothing in its chain
  (`UserService.InvalidEmailError`).

## Model

| member | source | states |
|---|---|---|
| GoErrors.Unwrap | internal/storage/psgr/follow.go:24 | only a `%w` wrapping has an inner error, and it is exactly the error it wraps |
| GoErrors.Is | internal/storage/psgr/like.go:29 | what errors.Is finds is the error itself or one it contains; an error that wraps nothing finds only itself |
| GoErrors.AsPq | internal/storage/psgr/follow.go:36-37 | the `*pq.Error` errors.As reports lies in the chain; on an unwrapped error it finds one iff the error is a `*pq.Error` |
| GoErrors.IsTransitive | internal/service/user.go:91-94 | an error found inside an error found in `e` is found in `e` itself |
| GoErrors.WrappedKeepsChain | internal/storage/psgr/follow.go:40 | wrapping with `%w` adds only the new error and keeps everything errors.Is found before |
| GoErrors.FormattedCutsChain | internal/storage/psgr/post.go:27 | formatting with `%v` leaves nothing for errors.Is but the new error |
| GoErrors.AsPqThroughChain | internal/storage/psgr/follow.go:36-37 | errors.As finds the same `*pq.Error` through any error whose chain contains it |
| GoErrors.LeafChain | internal/storage/psgr/like.go:33 | the chain of an unwrapped error is that error alone; one wrapping adds exactly the wrapper |
| Driver.CollectRows | internal/storage/psgr/user.go:184-196 | the scan loop returns exactly the specification `Accumulated`: all scanned rows or the wrapped first failure, then the optional `rows.Err()` check |
| Driver.CollectedOk | internal/storage/psgr/post.go:55-63 | the rows collect without error iff every scan succeeds, and then one value per row in row order |
| Driver.CollectedFirstFailure | internal/storage/psgr/post.go:58-60 | when a scan fails, the error is that of the first failing scan |
| Driver.CollectedPrefixErr | internal/storage/psgr/post.go:58-60 | a failure in a prefix of the rows is the failure of all of them; later rows are not read |
| Driver.AccumulatedMeaning | internal/storage/psgr/post.go:104-120 | a list succeeds iff every scan succeeds and, when checked, iteration ended cleanly; it then holds each row in order |
| Driver.AccumulatedFirstFailure | internal/storage/psgr/post.go:106-111 | the first failing scan decides the wrapped error whatever follows it |
| FollowStorage.FollowExecError | internal/storage/psgr/follow.go:35-46 | through errors.As, the follower foreign-key message and only it gives UserNotFound; the unique message and only it gives AlreadyFollowed; anything else is the driver error |
| FollowStorage.FollowByID | internal/storage/psgr/follow.go:20-50 | nil iff not a self-follow and Exec succeeded; every error is wrapped with the op; SelfFollow iff self-follow; UserNotFound and AlreadyFollowed iff their messages; other driver errors wrapped as they are |
| FollowStorage.UnFollowByID | internal/storage/psgr/follow.go:52-80 | the same for DELETE with SelfUnFollow and the UnFollow op; the affected count is never consulted |
| FollowStorage.SelfReferenceIssuesNoExec | internal/storage/psgr/follow.go:23-25 | a self-follow or self-unfollow gets the same answer whatever the database would report |
| FollowStorage.UnFollowZeroRowsSucceeds | internal/storage/psgr/follow.go:59-79 | a statement that runs succeeds whatever its row count, so there is no not-found outcome |
| FollowStorage.UnrecognisedMessageStaysVisible | internal/storage/psgr/follow.go:46 | an unrecognised `*pq.Error` stays findable by errors.As in the result and in any `%w` wrapping of it |
| FollowStorage.UnFollowSharesMessageTable | internal/storage/psgr/follow.go:65-76 | follow and unfollow classify a failed Exec identically up to the op name |
| LikeStorage.UnlikePostByID | internal/storage/psgr/like.go:20-45 | nil iff rows were deleted; ErrNoRows gives a bare LikeNotFound, zero rows a wrapped one; every other error is wrapped with the op |
| LikeStorage.LikePostByID | internal/storage/psgr/like.go:47-77 | nil iff a row was inserted; the duplicate message or zero rows give a bare PostAlreadyLiked; any other Exec or count error is wrapped |
| UserStorage.CreateUser | internal/storage/psgr/user.go:20-54 | nil iff a row was inserted; email and username duplicates and zero rows map to their sentinels, each iff its cause; other driver errors come back unwrapped |
| UserStorage.DeleteUser | internal/storage/psgr/user.go:56-81 | nil iff a row was deleted; bare UserNotFound iff ErrNoRows or zero rows; other errors wrapped with the op |
| UserStorage.ProfilePicPath | internal/storage/psgr/user.go:86 | the value written is `api/photo/` followed by exactly the filename, which can be read back from it |
| UserStorage.ProfilePicPathInjective | internal/storage/psgr/user.go:86 | distinct filenames give distinct stored paths |
| UserStorage.UploadProfilePic | internal/storage/psgr/user.go:83-110 | the UPDATE is issued with `api/photo/` + filename and the user id; nil iff it touched a row; every error is wrapped; a wrapped UserNotFound iff ErrNoRows or zero rows |
| UserStorage.UploadProfilePicSendsFilename | internal/storage/psgr/user.go:86-92 | against a row that accepts only the path of one filename, the upload succeeds for exactly that filename |
| UserStorage.GetByID | internal/storage/psgr/user.go:112-131 | the scanned user iff the scan succeeds; bare UserNotFound iff ErrNoRows; other errors wrapped |
| UserStorage.Update | internal/storage/psgr/user.go:133-158 | nil iff a row was updated; every error wrapped; UserNotFound findable iff zero rows (a failed Exec, ErrNoRows included, is wrapped as it is) |
| UserStorage.GetAllFollowers | internal/storage/psgr/user.go:160-199 | result equals the followers list of the answer to the followers query |
| UserStorage.GetAllFollowing | internal/storage/psgr/user.go:201-240 | result equals the followers list of the answer to that same followers query |
| UserStorage.FollowerListMeaning | internal/storage/psgr/user.go:174-198 | a list iff the query, all scans and iteration succeed, holding each row in order; bare UserNotFound iff the query reports ErrNoRows |
| UserStorage.FollowingMatchesFollowers | internal/storage/psgr/user.go:201-240 | for one database answer, followers and following agree: same list, same not-found, same error under the other op |
| PostStorage.DeletePost | internal/storage/psgr/post.go:19-40 | nil iff a row was deleted; bare PostNotFound iff ErrNoRows or zero rows; other errors formatted with `%v` |
| PostStorage.DeletePostHidesDriverError | internal/storage/psgr/post.go:27-32 | errors.Is and errors.Unwrap cannot reach the driver error behind a DeletePost failure |
| PostStorage.CreatePost | internal/storage/psgr/post.go:68-94 | nil iff a row was inserted; PostExists iff zero rows; every driver error wrapped |
| PostStorage.GetPostByID | internal/storage/psgr/post.go:123-141 | the scanned post iff the scan succeeds; bare PostNotFound iff ErrNoRows; other errors wrapped |
| PostStorage.GetAllPostsByUserID | internal/storage/psgr/post.go:42-66 | result equals the user's posts from the SELECT answer, with no `rows.Err()` check |
| PostStorage.GetAllPosts | internal/storage/psgr/post.go:96-121 | result equals all posts from the SELECT answer, with the `rows.Err()` check |
| PostStorage.PostsOfUserMeaning | internal/storage/psgr/post.go:54-65 | a list iff every scan succeeds, holding each row in order; no posts gives an empty list, not PostNotFound; the first failing scan decides the error |
| PostStorage.IterationErrorOnlyInAllPosts | internal/storage/psgr/post.go:116-118 | after clean scans, an iteration error fails GetAllPosts but GetAllPostsByUserID still returns every row scanned |
| Effects.EffectLog.Record | internal/service/follow.go:33 | the log gains exactly the given event at its end |
| FollowService.FollowByID | internal/service/follow.go:30-48 | storage first; its error is returned unchanged with nothing published; then marshal and publish on "follow", errors wrapped with the op |
| FollowService.UnFollowByID | internal/service/follow.go:50-68 | the same sequence for unfollow on topic "unfollow" |
| LikeService.UnlikePostByID | internal/service/like.go:31-33 | one unlike call to storage, whose reply is the result |
| LikeService.GetLikesByID | internal/service/like.go:35-37 | one likes-count call to storage, whose reply is the result |
| LikeService.LikePostByID | internal/service/like.go:39-54 | marshal error wrapped and nothing done; otherwise publish on "like" first; a producer error is returned unwrapped with no storage call; else the storage reply |
| PostService.DeletePost | internal/service/post.go:33-35 | one delete call to storage, whose reply is the result |
| PostService.GetAllPostsByUserID | internal/service/post.go:37-39 | one posts-by-user call to storage, whose reply is the result |
| PostService.CreatePost | internal/service/post.go:41-56 | marshal error wrapped and nothing done; otherwise publish on "post" first; a producer error is returned unwrapped with no storage call; else the storage reply |
| PostService.GetAllPosts | internal/service/post.go:58-60 | one all-posts call to storage, whose reply is the result |
| PostService.GetPostByID | internal/service/post.go:62-64 | one post-by-id call to storage, whose reply is the result |
| UserService.RegisterUser | internal/service/user.go:38-58 | validation and hashing errors are wrapped and storage is not called; otherwise storage gets the request with the password replaced by its hash, and its reply is the result |
| UserService.DeleteUser | internal/service/user.go:60-62 | one delete call to storage, whose reply is the result |
| UserService.UploadProfilePic | internal/service/user.go:64-66 | one profile-picture call with the same arguments, whose reply is the result |
| UserService.GetByID | internal/service/user.go:68-72 | one get-by-id call to storage, whose reply is the result |
| UserService.UpdateReply | internal/service/user.go:89-100 | nil iff storage said nil; every error wrapped with the op; UserNotFound findable in the reply iff findable in storage's; anything else wrapped as it is |
| UserService.UpdateNotFoundVisibleToCallers | internal/service/user.go:91-94 | a storage not-found stays findable by errors.Is in any `%w` wrapping of Update's error |
| UserService.Update | internal/service/user.go:74-101 | a rejected email ends the call with a chainless error before storage; otherwise one update call and its reply as UpdateReply |
| UserService.FollowersReply | internal/service/user.go:103-116 | an error iff storage's error contains UserNotFound, then a fresh wrap of it; a list passes through; any other error is dropped, giving no list and no error |
| UserService.GetAllFollowers | internal/service/user.go:103-116 | one followers call to storage and its reply as FollowersReply |
| UserService.GetAllFollowing | internal/service/user.go:118-131 | one following call to storage and its reply as FollowersReply |
| Postgres.Database.InsertFollow | internal/storage/psgr/follow.go:27-33 | assumed table: a duplicate pair gives the unique message, a missing follower or following user its foreign-key message, else the edge is added with one row affected |
| Postgres.Database.DeleteFollow | internal/storage/psgr/follow.go:59-63 | assumed table: the edge is removed and the count says whether it was there |
| Postgres.Database.InsertLike | internal/storage/psgr/like.go:50-54 | assumed table: a duplicate gives the unique message, a missing user or post a foreign-key message, else the like is added with one row affected |
| Postgres.Database.DeleteLike | internal/storage/psgr/like.go:23-27 | assumed table: the like is removed and the count says whether it was there |
| Scenarios.SelfFollowTouchesNothing | internal/storage/psgr/follow.go:23-25 | a self-follow reports SelfFollow and publishes nothing |
| Scenarios.FollowTwice | internal/service/follow.go:33-35 | the first follow adds the edge and publishes once; the second returns the wrapped AlreadyFollowed unchanged and publishes nothing |
| Scenarios.FollowMissingUser | internal/storage/psgr/follow.go:38-46 | following a missing user leaves the table unchanged and the caller does not see UserNotFound |
| Scenarios.UnFollowWithoutEdge | internal/storage/psgr/follow.go:59-79 | unfollowing an absent edge succeeds and publishes an "unfollow" event |
| Scenarios.LikeTwice | internal/service/like.go:48-53 | both likes publish; the second is rejected with a bare PostAlreadyLiked; the table holds the pair once |
| Scenarios.LikeThenUnlike | internal/storage/psgr/like.go:40-42 | like then unlike restores the table; a second unlike is a wrapped LikeNotFound |

## Left out

- SQL semantics: the adapters are given the driver's outcome for their
  statement, and only module `Postgres` assumes how the follow and like
  tables answer. The user and post tables, the `followers` array column and
  the query texts themselves are not interpreted.
- The driver's check of placeholders against arguments, which decides how
  the `$5` in the user UPDATE fails, is not modelled.
- Driver errors arrive as leaves (`DbError`). So the type assertion to
  `*pq.Error` in `CreateUser` and errors.As elsewhere behave alike here, and
  an error that wraps `sql.ErrNoRows` inside the driver is not modelled.
- `GetLikesByID` of the like storage interface has no implementation in
  `internal/storage/psgr/like.go`. The service passes its reply on, and that
  reply is a parameter.
- The result pointers of the list queries (`*[]T` to a possibly nil slice) are
  modelled as sequences, so a nil slice and an empty one are the same.
- In `UserService.FollowersReply`, Go's nil pointer is `None`.
- JSON encoding, bcrypt and the struct validator are parameters (`marshal`,
  `hash`, `validate`, `isEmail`); their own behaviour is not modelled.
- `hashPassword` and `checkPasswordHash` delegate to bcrypt and are not
  modelled; `checkPasswordHash` has no caller in the core.
- The Kafka producer's delivery is the reply given to the method. `Produce`
  takes a `*string` topic in the like and post services; here a topic is a
  string.
- Logging (`slog`) and the `fmt.Println` in `CreateUser` print and change
  nothing the caller sees, so they are left out.
- Concurrency between requests is not modelled. The scenarios run requests
  one after the other.
- The HTTP handlers, the S3 photo storage and the photo service lie outside
  this model.
- Constructors (`NewFollowStorage` and the rest) only store their
  collaborators. They are replaced by passing the collaborators' answers to
  each operation.
