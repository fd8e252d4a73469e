/** Go's error values as this backend uses them: the storage sentinels, the
    database driver's errors, and chains built with fmt.Errorf. */
module GoErrors {

  datatype Option<+T> = None | Some(value: T)

  /** A call that yields a value or an error, Go's `(T, error)` pair. */
  datatype Result<+T> = Ok(value: T) | Err(error: Error)

  /** The sentinel errors of package storage. The last four are referenced by
      the follow and like adapters but not declared in the package. */
  datatype Sentinel =
    | UserNotFound
    | EmailAlreadyRegistered
    | UsernameAlreadyRegistered
    | UserAlreadyExists
    | IncorrectPassword
    | NoSuchKey
    | PostExists
    | PostNotFound
    | PostAlreadyLiked
    | SelfFollow
    | SelfUnFollow
    | AlreadyFollowed
    | LikeNotFound

  /** What database/sql and lib/pq can report: a *pq.Error with its
      server message, the sql.ErrNoRows sentinel, or any other driver failure. */
  datatype DbError =
    | PqError(message: string)
    | ErrNoRows
    | DriverFailure(text: string)

  datatype Error =
    | StorageErr(sentinel: Sentinel)
      /** a driver error passed on as it is */
    | DbErr(db: DbError)
      /** an error from a collaborator outside this model (validator, bcrypt,
          encoding/json, the Kafka producer), named by where it came from */
    | Foreign(origin: string)
      /** fmt.Errorf("%s: %w", op, inner): the message gains a prefix and
          the inner error stays in the chain */
    | Wrapped(op: string, inner: Error)
      /** fmt.Errorf("%s: %v", op, inner): only the inner error's text is kept */
    | Formatted(op: string, inner: Error)
      /** an error that is only a message */
    | Plain(text: string)

  /** errors.Unwrap */
  function Unwrap(e: Error): (r: Option<Error>)
    ensures r.Some? <==> e.Wrapped?
    ensures e.Wrapped? ==> r == Some(e.inner)
    ensures r.Some? ==> r.value < e
  {
    if e.Wrapped? then Some(e.inner) else None
  }

  /** errors.Is: the target is the error itself or is found by unwrapping. */
  predicate Is(e: Error, target: Error)
    ensures Is(e, target) ==> target == e || target < e
    ensures !e.Wrapped? ==> (Is(e, target) <==> target == e)
    decreases e
  {
    e == target || (e.Wrapped? && Is(e.inner, target))
  }

  /** A possibly absent error (Go's nil) is the given storage sentinel. */
  predicate IsSentinel(r: Option<Error>, s: Sentinel)
  {
    r.Some? && Is(r.value, StorageErr(s))
  }

  /** errors.As(err, &pqErr): the message of the first *pq.Error in the chain. */
  function AsPq(e: Error): (message: Option<string>)
    ensures message.Some? ==> Is(e, DbErr(PqError(message.value)))
    ensures !e.Wrapped? ==> (message.Some? <==> e.DbErr? && e.db.PqError?)
    decreases e
  {
    match e
    case DbErr(PqError(m)) => Some(m)
    case Wrapped(_, inner) => AsPq(inner)
    case _ => None
  }

  /** Only wrapping links lie between an error and anything Is finds in it. */
  lemma {:induction false} IsTransitive(a: Error, b: Error, c: Error)
    requires Is(a, b) && Is(b, c)
    ensures Is(a, c)
    decreases a
  {
    if a != b {
      IsTransitive(a.inner, b, c);
    }
  }

  /** Wrapping with %w keeps every error of the chain reachable. */
  lemma WrappedKeepsChain(op: string, e: Error, t: Error)
    ensures Is(Wrapped(op, e), t) <==> t == Wrapped(op, e) || Is(e, t)
  {
  }

  /** Formatting with %v cuts the chain: nothing but the new error itself is found. */
  lemma FormattedCutsChain(op: string, e: Error, t: Error)
    ensures Is(Formatted(op, e), t) <==> t == Formatted(op, e)
  {
  }

  /** errors.As finds the same *pq.Error through an error that contains it. */
  lemma {:induction false} AsPqThroughChain(e: Error, t: Error)
    requires Is(e, t) && AsPq(t).Some?
    ensures AsPq(e) == AsPq(t)
    decreases e
  {
    if e != t {
      AsPqThroughChain(e.inner, t);
    }
  }

  /** The chain of an error that wraps nothing, and of one wrapping of it. */
  lemma LeafChain(op: string, e: Error)
    requires !e.Wrapped?
    ensures forall t :: Is(e, t) <==> t == e
    ensures forall t :: Is(Wrapped(op, e), t) <==> t == Wrapped(op, e) || t == e
  {
  }
}
