/** The side effects the services have on their collaborators, recorded in
    the order they happen: calls into the storage adapter and messages handed
    to the Kafka producer. */
module Effects {
  import opened Models

  /** A call a service makes into its storage interface, with its arguments. */
  datatype StorageCall =
    | FollowCall(follow: FollowRequest)
    | UnFollowCall(follow: FollowRequest)
    | LikeCall(like: LikeRequest)
    | UnlikeCall(like: LikeRequest)
    | LikesCountCall(postID: int)
    | CreatePostCall(post: CreatePostRequest)
    | DeletePostCall(id: int)
    | PostsByUserCall(userID: int)
    | AllPostsCall
    | PostByIDCall(id: int)
    | CreateUserCall(user: CreateUserRequest)
    | DeleteUserCall(id: int)
    | ProfilePicCall(userID: int, filename: string)
    | UserByIDCall(key: string)
    | UpdateUserCall(update: UpdateUserRequest)
    | FollowersCall(userID: int)
    | FollowingCall(userID: int)

  datatype Effect =
    | Store(call: StorageCall)
      /** producer.Produce(payload, topic) */
    | Publish(topic: string, payload: Bytes)

  /** No message is handed to the producer. */
  predicate Silent(effects: seq<Effect>)
  {
    forall i :: 0 <= i < |effects| ==> !effects[i].Publish?
  }

  /** A log of effects, shared by the services of one process. */
  class EffectLog {
    var events: seq<Effect>

    constructor ()
      ensures events == []
    {
      events := [];
    }

    method Record(e: Effect)
      modifies this
      ensures events == old(events) + [e]
    {
      events := events + [e];
    }
  }
}
