/** The user service (internal/service/user.go). Validation, bcrypt and the
    storage adapter are given as their answers; the logger is left out. */
module UserService {
  import opened GoErrors
  import opened Models
  import opened Effects

  const RegisterUserOp := "service.User.RegisterUser"
  const UpdateOp := "service.user.Update"
  const GetAllFollowersOp := "service.user.GetAllFollowers"
  const GetAllFollowingOp := "service.user.GetAllFollowing"

  /** models.ErrEmailValidate is a string, not an error, so `%w` cannot wrap
      it: fmt.Errorf yields an error that is only this message. */
  const InvalidEmailError := Plain(UpdateOp + ": %!w(string=invalid email)")

  /** User.RegisterUser. `validate` is the struct validator, `hash` bcrypt,
      `stored` the storage reply to the request it is given. */
  method RegisterUser(log: EffectLog, user: CreateUserRequest,
                      validate: CreateUserRequest -> Option<Error>, hash: string -> Result<string>,
                      stored: Option<Error>)
    returns (err: Option<Error>)
    modifies log
    ensures validate(user).Some? ==>
      err == Some(Wrapped(RegisterUserOp, validate(user).value)) && log.events == old(log.events)
    ensures validate(user).None? && hash(user.password).Err? ==>
      err == Some(Wrapped(RegisterUserOp, hash(user.password).error)) && log.events == old(log.events)
    ensures validate(user).None? && hash(user.password).Ok? ==>
      err == stored &&
      log.events == old(log.events) +
        [Store(CreateUserCall(CreateUserRequest(user.username, user.email, hash(user.password).value)))]
  {
    var invalid := validate(user);
    if invalid.Some? {
      return Some(Wrapped(RegisterUserOp, invalid.value));
    }
    var passHash := hash(user.password);
    if passHash.Err? {
      return Some(Wrapped(RegisterUserOp, passHash.error));
    }
    var newUser := CreateUserRequest(user.username, user.email, passHash.value);
    log.Record(Store(CreateUserCall(newUser)));
    return stored;
  }

  method DeleteUser(log: EffectLog, id: int, stored: Option<Error>) returns (err: Option<Error>)
    modifies log
    ensures err == stored
    ensures log.events == old(log.events) + [Store(DeleteUserCall(id))]
  {
    log.Record(Store(DeleteUserCall(id)));
    return stored;
  }

  method UploadProfilePic(log: EffectLog, userID: int, filename: string, stored: Option<Error>)
    returns (err: Option<Error>)
    modifies log
    ensures err == stored
    ensures log.events == old(log.events) + [Store(ProfilePicCall(userID, filename))]
  {
    log.Record(Store(ProfilePicCall(userID, filename)));
    return stored;
  }

  method GetByID(log: EffectLog, id: string, stored: Result<UserProfile>) returns (r: Result<UserProfile>)
    modifies log
    ensures r == stored
    ensures log.events == old(log.events) + [Store(UserByIDCall(id))]
  {
    log.Record(Store(UserByIDCall(id)));
    return stored;
  }

  /** How Update turns the storage reply into its own: a not-found error in
      the chain becomes a fresh wrap of UserNotFound, anything else is wrapped. */
  function UpdateReply(stored: Option<Error>): (r: Option<Error>)
    ensures r.None? <==> stored.None?
    ensures r.Some? ==> r.value.Wrapped? && r.value.op == UpdateOp
    ensures IsSentinel(stored, UserNotFound) ==> r == Some(Wrapped(UpdateOp, StorageErr(UserNotFound)))
    ensures IsSentinel(r, UserNotFound) <==> IsSentinel(stored, UserNotFound)
    ensures stored.Some? && !IsSentinel(stored, UserNotFound) ==> r == Some(Wrapped(UpdateOp, stored.value))
  {
    if stored.None? then None
    else if Is(stored.value, StorageErr(UserNotFound)) then Some(Wrapped(UpdateOp, StorageErr(UserNotFound)))
    else Some(Wrapped(UpdateOp, stored.value))
  }

  /** User.Update: an email the validator rejects ends the call before storage. */
  method Update(log: EffectLog, req: UpdateUserRequest, isEmail: string -> bool, stored: Option<Error>)
    returns (err: Option<Error>)
    modifies log
    ensures !isEmail(req.email) ==> err == Some(InvalidEmailError) && log.events == old(log.events)
    ensures isEmail(req.email) ==>
      err == UpdateReply(stored) && log.events == old(log.events) + [Store(UpdateUserCall(req))]
  {
    if !isEmail(req.email) {
      return Some(InvalidEmailError);
    }
    log.Record(Store(UpdateUserCall(req)));
    return UpdateReply(stored);
  }

  /** How GetAllFollowers and GetAllFollowing treat the storage reply (None is
      Go's nil slice pointer): only a not-found error is reported; any other
      error is dropped, leaving no list and no error. */
  function FollowersReply(op: string, stored: Result<seq<Follower>>): (r: Result<Option<seq<Follower>>>)
    ensures r.Err? <==> stored.Err? && Is(stored.error, StorageErr(UserNotFound))
    ensures r.Err? ==> r.error == Wrapped(op, StorageErr(UserNotFound))
    ensures stored.Ok? ==> r == Ok(Some(stored.value))
    ensures stored.Err? && !Is(stored.error, StorageErr(UserNotFound)) ==> r == Ok(None)
  {
    match stored
    case Ok(list) => Ok(Some(list))
    case Err(e) =>
      if Is(e, StorageErr(UserNotFound)) then Err(Wrapped(op, StorageErr(UserNotFound))) else Ok(None)
  }

  method GetAllFollowers(log: EffectLog, userID: int, stored: Result<seq<Follower>>)
    returns (r: Result<Option<seq<Follower>>>)
    modifies log
    ensures r == FollowersReply(GetAllFollowersOp, stored)
    ensures log.events == old(log.events) + [Store(FollowersCall(userID))]
  {
    log.Record(Store(FollowersCall(userID)));
    return FollowersReply(GetAllFollowersOp, stored);
  }

  method GetAllFollowing(log: EffectLog, userID: int, stored: Result<seq<Follower>>)
    returns (r: Result<Option<seq<Follower>>>)
    modifies log
    ensures r == FollowersReply(GetAllFollowingOp, stored)
    ensures log.events == old(log.events) + [Store(FollowingCall(userID))]
  {
    log.Record(Store(FollowingCall(userID)));
    return FollowersReply(GetAllFollowingOp, stored);
  }

  /** A not-found from storage stays visible through Update: a caller that
      wraps the service's error further with %w still finds UserNotFound. */
  lemma UpdateNotFoundVisibleToCallers(stored: Option<Error>)
    requires IsSentinel(stored, UserNotFound)
    ensures forall outer :: Is(outer, UpdateReply(stored).value) ==> Is(outer, StorageErr(UserNotFound))
  {
    var r := UpdateReply(stored).value;
    forall outer | Is(outer, r) ensures Is(outer, StorageErr(UserNotFound)) {
      IsTransitive(outer, r, StorageErr(UserNotFound));
    }
  }
}
