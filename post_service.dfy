/** The post service (internal/service/post.go). CreatePost publishes before
    it writes; the other methods only delegate. */
module PostService {
  import opened GoErrors
  import opened Models
  import opened Effects

  const CreatePostOp := "service.CreatePost"
  const PostTopic := "post"

  method DeletePost(log: EffectLog, id: int, stored: Option<Error>) returns (err: Option<Error>)
    modifies log
    ensures err == stored
    ensures log.events == old(log.events) + [Store(DeletePostCall(id))]
  {
    log.Record(Store(DeletePostCall(id)));
    return stored;
  }

  method GetAllPostsByUserID(log: EffectLog, userID: int, stored: Result<seq<Post>>)
    returns (r: Result<seq<Post>>)
    modifies log
    ensures r == stored
    ensures log.events == old(log.events) + [Store(PostsByUserCall(userID))]
  {
    log.Record(Store(PostsByUserCall(userID)));
    return stored;
  }

  method GetAllPosts(log: EffectLog, stored: Result<seq<Post>>) returns (r: Result<seq<Post>>)
    modifies log
    ensures r == stored
    ensures log.events == old(log.events) + [Store(AllPostsCall)]
  {
    log.Record(Store(AllPostsCall));
    return stored;
  }

  method GetPostByID(log: EffectLog, id: int, stored: Result<Post>) returns (r: Result<Post>)
    modifies log
    ensures r == stored
    ensures log.events == old(log.events) + [Store(PostByIDCall(id))]
  {
    log.Record(Store(PostByIDCall(id)));
    return stored;
  }

  /** Post.CreatePost: marshal, publish on "post", then insert. The storage
      reply is the result, so an event can exist for a post never stored. */
  method CreatePost(log: EffectLog, post: CreatePostRequest, marshal: CreatePostRequest -> Result<Bytes>,
                    produced: Option<Error>, stored: Option<Error>)
    returns (err: Option<Error>)
    modifies log
    ensures marshal(post).Err? ==>
      err == Some(Wrapped(CreatePostOp, marshal(post).error)) && log.events == old(log.events)
    ensures marshal(post).Ok? && produced.Some? ==>
      err == produced && log.events == old(log.events) + [Publish(PostTopic, marshal(post).value)]
    ensures marshal(post).Ok? && produced.None? ==>
      err == stored &&
      log.events == old(log.events) + [Publish(PostTopic, marshal(post).value), Store(CreatePostCall(post))]
  {
    var body := marshal(post);
    if body.Err? {
      return Some(Wrapped(CreatePostOp, body.error));
    }
    log.Record(Publish(PostTopic, body.value));
    if produced.Some? {
      return produced;
    }
    log.Record(Store(CreatePostCall(post)));
    return stored;
  }
}
