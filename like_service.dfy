/** The like service (internal/service/like.go). LikePostByID publishes
    before it writes; the other two methods only delegate. */
module LikeService {
  import opened GoErrors
  import opened Models
  import opened Effects

  const LikePostByIDOp := "service.LikePostByID"
  const LikeTopic := "like"

  /** Like.UnlikePostByID: the storage reply is the result. */
  method UnlikePostByID(log: EffectLog, req: LikeRequest, stored: Option<Error>)
    returns (err: Option<Error>)
    modifies log
    ensures err == stored
    ensures log.events == old(log.events) + [Store(UnlikeCall(req))]
  {
    log.Record(Store(UnlikeCall(req)));
    return stored;
  }

  /** Like.GetLikesByID: the storage reply is the result. */
  method GetLikesByID(log: EffectLog, postID: int, stored: Result<LikeResponse>)
    returns (r: Result<LikeResponse>)
    modifies log
    ensures r == stored
    ensures log.events == old(log.events) + [Store(LikesCountCall(postID))]
  {
    log.Record(Store(LikesCountCall(postID)));
    return stored;
  }

  /** Like.LikePostByID: marshal, publish on "like", then insert. A producer
      error is returned without wrapping and storage is not called; otherwise
      the storage reply is the result, so an event goes out even for a like
      the storage then rejects. */
  method LikePostByID(log: EffectLog, req: LikeRequest, marshal: LikeRequest -> Result<Bytes>,
                      produced: Option<Error>, stored: Option<Error>)
    returns (err: Option<Error>)
    modifies log
    ensures marshal(req).Err? ==>
      err == Some(Wrapped(LikePostByIDOp, marshal(req).error)) && log.events == old(log.events)
    ensures marshal(req).Ok? && produced.Some? ==>
      err == produced && log.events == old(log.events) + [Publish(LikeTopic, marshal(req).value)]
    ensures marshal(req).Ok? && produced.None? ==>
      err == stored &&
      log.events == old(log.events) + [Publish(LikeTopic, marshal(req).value), Store(LikeCall(req))]
  {
    var body := marshal(req);
    if body.Err? {
      return Some(Wrapped(LikePostByIDOp, body.error));
    }
    log.Record(Publish(LikeTopic, body.value));
    if produced.Some? {
      return produced;
    }
    log.Record(Store(LikeCall(req)));
    return stored;
  }
}
