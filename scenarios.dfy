/** Request sequences run against the assumed tables of module Postgres: each
    storage reply the services see is computed by the adapter from the
    outcome the tables give. What these show holds only under that assumption. */
module Scenarios {
  import opened GoErrors
  import opened Driver
  import opened Models
  import opened Effects
  import Postgres
  import FollowStorage
  import LikeStorage
  import FollowService
  import LikeService

  /** A self-follow fails in the adapter before any statement, so the tables
      stay as they are and nothing is published. */
  method SelfFollowTouchesNothing(log: EffectLog, db: Postgres.Database, id: int,
                                  marshal: FollowRequest -> Result<Bytes>, produced: Option<Error>)
    returns (err: Option<Error>)
    requires db.Valid()
    modifies log
    ensures IsSentinel(err, SelfFollow)
    ensures log.events == old(log.events) + [Store(FollowCall(FollowRequest(id, id)))]
    ensures Silent(log.events[|old(log.events)|..])
  {
    var req := FollowRequest(id, id);
    var stored := FollowStorage.FollowByID(req, Executed(Count(0)));
    err := FollowService.FollowByID(log, req, stored, marshal, produced);
    assert log.events[|old(log.events)|..] == [Store(FollowCall(req))];
  }

  /** The first follow of a pair succeeds and publishes one "follow" event;
      a second one fails with AlreadyFollowed, passed on unchanged, and
      publishes nothing more. */
  method FollowTwice(log: EffectLog, db: Postgres.Database, req: FollowRequest,
                     marshal: FollowRequest -> Result<Bytes>)
    returns (first: Option<Error>, second: Option<Error>)
    requires db.Valid()
    requires req.followerID != req.followingID
    requires req.followerID in db.users && req.followingID in db.users
    requires (req.followerID, req.followingID) !in db.follows
    requires marshal(req).Ok?
    modifies log, db
    ensures db.Valid()
    ensures db.follows == old(db.follows) + {(req.followerID, req.followingID)}
    ensures first.None?
    ensures second == Some(Wrapped(FollowStorage.FollowOp, StorageErr(AlreadyFollowed)))
    ensures log.events == old(log.events) +
      [Store(FollowCall(req)), Publish(FollowService.FollowTopic, marshal(req).value), Store(FollowCall(req))]
  {
    var o1 := db.InsertFollow(req.followerID, req.followingID);
    first := FollowService.FollowByID(log, req, FollowStorage.FollowByID(req, o1), marshal, None);
    var o2 := db.InsertFollow(req.followerID, req.followingID);
    second := FollowService.FollowByID(log, req, FollowStorage.FollowByID(req, o2), marshal, None);
  }

  /** Following an id that is not a user yields the foreign-key message of the
      following_id column, which the adapter does not recognise: the caller
      gets a wrapped driver error, not UserNotFound. */
  method FollowMissingUser(log: EffectLog, db: Postgres.Database, req: FollowRequest,
                           marshal: FollowRequest -> Result<Bytes>, produced: Option<Error>)
    returns (err: Option<Error>)
    requires db.Valid()
    requires req.followerID != req.followingID
    requires req.followerID in db.users && req.followingID !in db.users
    modifies log, db
    ensures db.Valid()
    ensures db.follows == old(db.follows)
    ensures err == Some(Wrapped(FollowStorage.FollowOp, DbErr(PqError(Postgres.FollowingForeignKeyMessage))))
    ensures !IsSentinel(err, UserNotFound)
    ensures log.events == old(log.events) + [Store(FollowCall(req))]
  {
    var o := db.InsertFollow(req.followerID, req.followingID);
    err := FollowService.FollowByID(log, req, FollowStorage.FollowByID(req, o), marshal, produced);
  }

  /** Unfollowing a pair that is not followed deletes nothing, succeeds, and
      still publishes an "unfollow" event. */
  method UnFollowWithoutEdge(log: EffectLog, db: Postgres.Database, req: FollowRequest,
                             marshal: FollowRequest -> Result<Bytes>)
    returns (err: Option<Error>)
    requires db.Valid()
    requires req.followerID != req.followingID
    requires (req.followerID, req.followingID) !in db.follows
    requires marshal(req).Ok?
    modifies log, db
    ensures db.Valid()
    ensures db.follows == old(db.follows)
    ensures err.None?
    ensures log.events == old(log.events) +
      [Store(UnFollowCall(req)), Publish(FollowService.UnFollowTopic, marshal(req).value)]
  {
    var o := db.DeleteFollow(req.followerID, req.followingID);
    err := FollowService.UnFollowByID(log, req, FollowStorage.UnFollowByID(req, o), marshal, None);
  }

  /** Liking twice publishes two "like" events; the second insert is rejected
      with PostAlreadyLiked and the table holds the pair once. */
  method LikeTwice(log: EffectLog, db: Postgres.Database, req: LikeRequest,
                   marshal: LikeRequest -> Result<Bytes>)
    returns (first: Option<Error>, second: Option<Error>)
    requires db.Valid()
    requires req.userID in db.users && req.postID in db.posts
    requires (req.userID, req.postID) !in db.likes
    requires marshal(req).Ok?
    modifies log, db
    ensures db.Valid()
    ensures db.likes == old(db.likes) + {(req.userID, req.postID)}
    ensures first.None?
    ensures second == Some(StorageErr(PostAlreadyLiked))
    ensures log.events == old(log.events) +
      [Publish(LikeService.LikeTopic, marshal(req).value), Store(LikeCall(req)),
       Publish(LikeService.LikeTopic, marshal(req).value), Store(LikeCall(req))]
  {
    var o1 := db.InsertLike(req.userID, req.postID);
    first := LikeService.LikePostByID(log, req, marshal, None, LikeStorage.LikePostByID(req, o1));
    var o2 := db.InsertLike(req.userID, req.postID);
    second := LikeService.LikePostByID(log, req, marshal, None, LikeStorage.LikePostByID(req, o2));
  }

  /** A like followed by an unlike restores the table; a second unlike is a
      wrapped LikeNotFound. Only the like publishes. */
  method LikeThenUnlike(log: EffectLog, db: Postgres.Database, req: LikeRequest,
                        marshal: LikeRequest -> Result<Bytes>)
    returns (liked: Option<Error>, unliked: Option<Error>, again: Option<Error>)
    requires db.Valid()
    requires req.userID in db.users && req.postID in db.posts
    requires (req.userID, req.postID) !in db.likes
    requires marshal(req).Ok?
    modifies log, db
    ensures db.Valid()
    ensures db.likes == old(db.likes)
    ensures liked.None? && unliked.None?
    ensures again == Some(Wrapped(LikeStorage.LikeOp, StorageErr(LikeNotFound)))
    ensures log.events == old(log.events) +
      [Publish(LikeService.LikeTopic, marshal(req).value), Store(LikeCall(req)),
       Store(UnlikeCall(req)), Store(UnlikeCall(req))]
  {
    var o1 := db.InsertLike(req.userID, req.postID);
    liked := LikeService.LikePostByID(log, req, marshal, None, LikeStorage.LikePostByID(req, o1));
    var o2 := db.DeleteLike(req.userID, req.postID);
    unliked := LikeService.UnlikePostByID(log, req, LikeStorage.UnlikePostByID(req, o2));
    var o3 := db.DeleteLike(req.userID, req.postID);
    again := LikeService.UnlikePostByID(log, req, LikeStorage.UnlikePostByID(req, o3));
  }
}
