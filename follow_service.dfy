/** The follow service (internal/service/follow.go): write to storage first,
    then publish the request on a topic. The storage adapter's reply, the JSON
    encoder and the producer's reply are given as the collaborators' answers;
    nothing is undone when publishing fails after the write. */
module FollowService {
  import opened GoErrors
  import opened Models
  import opened Effects

  const FollowByIDOp := "service.follow.FollowByID"
  const UnFollowByIDOp := "service.follow.UnFollowByID"
  const FollowTopic := "follow"
  const UnFollowTopic := "unfollow"

  /** Follow.FollowByID. `stored` is what the storage's FollowByID returns for
      req, `marshal` is json.Marshal and `produced` is the producer's reply. */
  method FollowByID(log: EffectLog, req: FollowRequest, stored: Option<Error>,
                    marshal: FollowRequest -> Result<Bytes>, produced: Option<Error>)
    returns (err: Option<Error>)
    modifies log
    ensures stored.Some? ==>
      err == stored && log.events == old(log.events) + [Store(FollowCall(req))]
    ensures stored.None? && marshal(req).Err? ==>
      err == Some(Wrapped(FollowByIDOp, marshal(req).error)) &&
      log.events == old(log.events) + [Store(FollowCall(req))]
    ensures stored.None? && marshal(req).Ok? ==>
      log.events == old(log.events) + [Store(FollowCall(req)), Publish(FollowTopic, marshal(req).value)] &&
      err == (if produced.Some? then Some(Wrapped(FollowByIDOp, produced.value)) else None)
  {
    log.Record(Store(FollowCall(req)));
    if stored.Some? {
      return stored;
    }
    var body := marshal(req);
    if body.Err? {
      return Some(Wrapped(FollowByIDOp, body.error));
    }
    log.Record(Publish(FollowTopic, body.value));
    if produced.Some? {
      return Some(Wrapped(FollowByIDOp, produced.value));
    }
    return None;
  }

  /** Follow.UnFollowByID: the same sequence on topic "unfollow". */
  method UnFollowByID(log: EffectLog, req: FollowRequest, stored: Option<Error>,
                      marshal: FollowRequest -> Result<Bytes>, produced: Option<Error>)
    returns (err: Option<Error>)
    modifies log
    ensures stored.Some? ==>
      err == stored && log.events == old(log.events) + [Store(UnFollowCall(req))]
    ensures stored.None? && marshal(req).Err? ==>
      err == Some(Wrapped(UnFollowByIDOp, marshal(req).error)) &&
      log.events == old(log.events) + [Store(UnFollowCall(req))]
    ensures stored.None? && marshal(req).Ok? ==>
      log.events == old(log.events) + [Store(UnFollowCall(req)), Publish(UnFollowTopic, marshal(req).value)] &&
      err == (if produced.Some? then Some(Wrapped(UnFollowByIDOp, produced.value)) else None)
  {
    log.Record(Store(UnFollowCall(req)));
    if stored.Some? {
      return stored;
    }
    var body := marshal(req);
    if body.Err? {
      return Some(Wrapped(UnFollowByIDOp, body.error));
    }
    log.Record(Publish(UnFollowTopic, body.value));
    if produced.Some? {
      return Some(Wrapped(UnFollowByIDOp, produced.value));
    }
    return None;
  }
}
