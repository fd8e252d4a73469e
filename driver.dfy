/** What one database/sql call hands back to an adapter. The database itself
    is not modelled here: every adapter is given the outcome of its one call. */
module Driver {
  import opened GoErrors

  /** Result.RowsAffected() */
  datatype Affected = Count(n: int) | CountFailed(err: DbError)

  /** db.Exec: an error, or a result whose affected-row count can be asked for. */
  datatype ExecOutcome = ExecFailed(err: DbError) | Executed(affected: Affected)

  /** One rows.Scan into the destination record. */
  datatype Scan<T> = Scanned(row: T) | ScanFailed(err: DbError)

  /** The rows of db.Query, in the order rows.Next() yields them, and what
      rows.Err() reports once rows.Next() has returned false. */
  datatype Rows<T> = Rows(scans: seq<Scan<T>>, iterErr: Option<DbError>)

  /** db.Query */
  datatype QueryOutcome<T> = QueryFailed(err: DbError) | Queried(rows: Rows<T>)

  /** db.QueryRow(...).Scan(...) */
  datatype RowOutcome<T> = RowScanned(row: T) | RowFailed(err: DbError)

  /** The driver error an Exec outcome carries, from Exec or from RowsAffected. */
  function OutcomeError(exec: ExecOutcome): (d: Option<DbError>)
  {
    match exec
    case ExecFailed(d) => Some(d)
    case Executed(CountFailed(d)) => Some(d)
    case Executed(Count(_)) => None
  }

  /** The statement ran and reported that it touched no row. */
  predicate ZeroRows(exec: ExecOutcome)
  {
    exec == Executed(Count(0))
  }

  /** The statement ran and reported a nonzero count. */
  predicate RowsTouched(exec: ExecOutcome)
  {
    exec.Executed? && exec.affected.Count? && exec.affected.n != 0
  }

  /** The values the first scans yield, or the error of the first failing scan. */
  function Collected<T>(scans: seq<Scan<T>>): (r: Result<seq<T>>)
    decreases |scans|
  {
    if |scans| == 0 then Ok([])
    else
      match Collected(scans[..|scans| - 1])
      case Err(e) => Err(e)
      case Ok(acc) =>
        match scans[|scans| - 1]
        case Scanned(row) => Ok(acc + [row])
        case ScanFailed(d) => Err(DbErr(d))
  }

  /** All scans succeed exactly when Collected succeeds, and then it holds one
      value per row, in row order. */
  lemma {:induction false} CollectedOk<T>(scans: seq<Scan<T>>)
    ensures Collected(scans).Ok? <==> forall i :: 0 <= i < |scans| ==> scans[i].Scanned?
    ensures Collected(scans).Ok? ==>
      |Collected(scans).value| == |scans| &&
      forall i :: 0 <= i < |scans| ==> Collected(scans).value[i] == scans[i].row
    decreases |scans|
  {
    if |scans| > 0 {
      var init := scans[..|scans| - 1];
      CollectedOk(init);
      assert forall i :: 0 <= i < |init| ==> init[i] == scans[i];
    }
  }

  /** When some scan fails, Collected reports the error of the first one. */
  lemma {:induction false} CollectedFirstFailure<T>(scans: seq<Scan<T>>, k: nat)
    requires k < |scans| && scans[k].ScanFailed?
    requires forall j :: 0 <= j < k ==> scans[j].Scanned?
    ensures Collected(scans) == Err(DbErr(scans[k].err))
    decreases |scans|
  {
    var init := scans[..|scans| - 1];
    if k < |scans| - 1 {
      assert forall j :: 0 <= j < k ==> init[j] == scans[j];
      CollectedFirstFailure(init, k);
    } else {
      assert forall j :: 0 <= j < |init| ==> init[j].Scanned? by {
        forall j | 0 <= j < |init| ensures init[j].Scanned? {
          assert init[j] == scans[j];
        }
      }
      CollectedOk(init);
    }
  }

  /** Once a prefix fails, the whole sequence fails with the same error. */
  lemma {:induction false} CollectedPrefixErr<T>(scans: seq<Scan<T>>, i: nat)
    requires i <= |scans| && Collected(scans[..i]).Err?
    ensures Collected(scans) == Collected(scans[..i])
    decreases |scans| - i
  {
    if i < |scans| {
      assert scans[..i + 1][..i] == scans[..i];
      CollectedPrefixErr(scans, i + 1);
    } else {
      assert scans[..i] == scans;
    }
  }

  /** The slice the loops build, or the wrapped error that stops them; with
      checkIterErr the rows.Err() check after the loop is made too. */
  function Accumulated<T>(op: string, rows: Rows<T>, checkIterErr: bool): (r: Result<seq<T>>)
  {
    match Collected(rows.scans)
    case Err(e) => Err(Wrapped(op, e))
    case Ok(acc) =>
      if checkIterErr && rows.iterErr.Some? then Err(Wrapped(op, DbErr(rows.iterErr.value)))
      else Ok(acc)
  }

  /** The `for rows.Next() { rows.Scan(...); append }` loop shared by the
      list queries: one entry per scanned row, in row order; the first scan
      error aborts with no partial result. */
  method CollectRows<T>(op: string, rows: Rows<T>, checkIterErr: bool) returns (r: Result<seq<T>>)
    ensures r == Accumulated(op, rows, checkIterErr)
  {
    var acc: seq<T> := [];
    var i := 0;
    while i < |rows.scans|
      invariant 0 <= i <= |rows.scans|
      invariant Collected(rows.scans[..i]) == Ok(acc)
    {
      assert rows.scans[..i + 1][..i] == rows.scans[..i];
      if rows.scans[i].ScanFailed? {
        CollectedPrefixErr(rows.scans, i + 1);
        return Err(Wrapped(op, DbErr(rows.scans[i].err)));
      }
      acc := acc + [rows.scans[i].row];
      i := i + 1;
    }
    assert rows.scans[..i] == rows.scans;
    if checkIterErr && rows.iterErr.Some? {
      return Err(Wrapped(op, DbErr(rows.iterErr.value)));
    }
    return Ok(acc);
  }

  /** The list succeeds exactly when every scan does (and, with the check,
      iteration ended cleanly); it then holds one entry per row, in row order. */
  lemma AccumulatedMeaning<T>(op: string, rows: Rows<T>, checkIterErr: bool)
    ensures Accumulated(op, rows, checkIterErr).Ok? <==>
      (forall i :: 0 <= i < |rows.scans| ==> rows.scans[i].Scanned?) &&
      !(checkIterErr && rows.iterErr.Some?)
    ensures Accumulated(op, rows, checkIterErr).Ok? ==>
      var list := Accumulated(op, rows, checkIterErr).value;
      |list| == |rows.scans| && forall i :: 0 <= i < |rows.scans| ==> list[i] == rows.scans[i].row
  {
    CollectedOk(rows.scans);
  }

  /** The first failing scan decides the error, whatever follows it. */
  lemma AccumulatedFirstFailure<T>(op: string, rows: Rows<T>, checkIterErr: bool, k: nat)
    requires k < |rows.scans| && rows.scans[k].ScanFailed?
    requires forall j :: 0 <= j < k ==> rows.scans[j].Scanned?
    ensures Accumulated(op, rows, checkIterErr) == Err(Wrapped(op, DbErr(rows.scans[k].err)))
  {
    CollectedFirstFailure(rows.scans, k);
  }
}
