/** An ASSUMED model of the follow and like tables, kept apart from the
    adapters: the repository holds no schema. It assumes a unique constraint
    on each edge pair and a foreign key on each column, all with Postgres's
    default names (the ones the adapters' messages mention), and that Postgres
    checks uniqueness before the foreign keys, follower before following. */
module Postgres {
  import opened GoErrors
  import opened Driver
  import FollowStorage
  import LikeStorage

  /** The server messages the adapters recognise are theirs; these are the
      ones they do not. */
  const FollowingForeignKeyMessage :=
    "insert or update on table \"follow\" violates foreign key constraint \"follow_following_id_fkey\""
  const LikeUserForeignKeyMessage :=
    "insert or update on table \"like\" violates foreign key constraint \"like_user_id_fkey\""
  const LikePostForeignKeyMessage :=
    "insert or update on table \"like\" violates foreign key constraint \"like_post_id_fkey\""

  class Database {
    /** The ids in the "user" and "post" tables, which these statements never change. */
    const users: set<int>
    const posts: set<int>
    /** (follower_id, following_id) */
    var follows: set<(int, int)>
    /** (user_id, post_id) */
    var likes: set<(int, int)>

    constructor (users: set<int>, posts: set<int>)
      ensures this.users == users && this.posts == posts
      ensures follows == {} && likes == {}
      ensures Valid()
    {
      this.users := users;
      this.posts := posts;
      follows := {};
      likes := {};
    }

    /** Every edge joins rows that exist: the foreign keys hold. Each method
        keeps it, so a table built by these methods never holds an edge to a
        missing user or post. */
    ghost predicate Valid()
      reads this
    {
      (forall e :: e in follows ==> e.0 in users && e.1 in users) &&
      (forall e :: e in likes ==> e.0 in users && e.1 in posts)
    }

    /** INSERT INTO "follow" (follower_id, following_id) VALUES ($1, $2) */
    method InsertFollow(follower: int, following: int) returns (o: ExecOutcome)
      requires Valid()
      modifies this`follows
      ensures Valid()
      ensures (follower, following) in old(follows) ==>
        o == ExecFailed(PqError(FollowStorage.FollowUniqueMessage)) && follows == old(follows)
      ensures (follower, following) !in old(follows) && follower !in users ==>
        o == ExecFailed(PqError(FollowStorage.FollowForeignKeyMessage)) && follows == old(follows)
      ensures (follower, following) !in old(follows) && follower in users && following !in users ==>
        o == ExecFailed(PqError(FollowingForeignKeyMessage)) && follows == old(follows)
      ensures (follower, following) !in old(follows) && follower in users && following in users ==>
        o == Executed(Count(1)) && follows == old(follows) + {(follower, following)}
    {
      if (follower, following) in follows {
        return ExecFailed(PqError(FollowStorage.FollowUniqueMessage));
      }
      if follower !in users {
        return ExecFailed(PqError(FollowStorage.FollowForeignKeyMessage));
      }
      if following !in users {
        return ExecFailed(PqError(FollowingForeignKeyMessage));
      }
      follows := follows + {(follower, following)};
      return Executed(Count(1));
    }

    /** DELETE FROM "follow" WHERE follower_id = $1 AND following_id = $2 */
    method DeleteFollow(follower: int, following: int) returns (o: ExecOutcome)
      requires Valid()
      modifies this`follows
      ensures Valid()
      ensures follows == old(follows) - {(follower, following)}
      ensures o == Executed(Count(if (follower, following) in old(follows) then 1 else 0))
    {
      o := Executed(Count(if (follower, following) in follows then 1 else 0));
      follows := follows - {(follower, following)};
    }

    /** INSERT INTO "like" (user_id, post_id) VALUES ($1, $2) */
    method InsertLike(user: int, post: int) returns (o: ExecOutcome)
      requires Valid()
      modifies this`likes
      ensures Valid()
      ensures (user, post) in old(likes) ==>
        o == ExecFailed(PqError(LikeStorage.LikeUniqueMessage)) && likes == old(likes)
      ensures (user, post) !in old(likes) && user !in users ==>
        o == ExecFailed(PqError(LikeUserForeignKeyMessage)) && likes == old(likes)
      ensures (user, post) !in old(likes) && user in users && post !in posts ==>
        o == ExecFailed(PqError(LikePostForeignKeyMessage)) && likes == old(likes)
      ensures (user, post) !in old(likes) && user in users && post in posts ==>
        o == Executed(Count(1)) && likes == old(likes) + {(user, post)}
    {
      if (user, post) in likes {
        return ExecFailed(PqError(LikeStorage.LikeUniqueMessage));
      }
      if user !in users {
        return ExecFailed(PqError(LikeUserForeignKeyMessage));
      }
      if post !in posts {
        return ExecFailed(PqError(LikePostForeignKeyMessage));
      }
      likes := likes + {(user, post)};
      return Executed(Count(1));
    }

    /** DELETE FROM "like" WHERE user_id = $1 AND post_id = $2 */
    method DeleteLike(user: int, post: int) returns (o: ExecOutcome)
      requires Valid()
      modifies this`likes
      ensures Valid()
      ensures likes == old(likes) - {(user, post)}
      ensures o == Executed(Count(if (user, post) in old(likes) then 1 else 0))
    {
      o := Executed(Count(if (user, post) in likes then 1 else 0));
      likes := likes - {(user, post)};
    }
  }
}
