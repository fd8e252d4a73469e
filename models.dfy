/** The request and response records of package models that the core passes
    around. Timestamps are wall-clock values the core never inspects. */
module Models {

  datatype FollowRequest = FollowRequest(followerID: int, followingID: int)

  datatype LikeRequest = LikeRequest(userID: int, postID: int)

  /** The like count GetLikesByID answers with; its storage side is not part
      of the adapters modelled here. */
  datatype LikeResponse = LikeResponse(count: int)

  datatype CreateUserRequest = CreateUserRequest(username: string, email: string, password: string)

  datatype UpdateUserRequest = UpdateUserRequest(id: int, username: string, email: string, bio: string)

  datatype UserProfile = UserProfile(id: int, username: string, email: string, profilePic: string, bio: string)

  datatype Follower = Follower(username: string, profilePic: string)

  datatype CreatePostRequest = CreatePostRequest(userID: int, caption: string, imageURL: string)

  datatype Post = Post(id: int, userID: int, imageURL: string, caption: string, createdAt: int, updatedAt: int)

  /** A serialised message body. */
  type Bytes = seq<bv8>
}
