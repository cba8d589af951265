/** The "try every id column in turn" loops that the drink and snack handlers share.
    A menu table may name its key `item_id`, `drink_id`/`snack_id`, `id`, `menu_id` or `m_id`;
    the handlers issue the same statement once per candidate column, skip a column the
    table lacks (MySQL's ER_BAD_FIELD_ERROR) and stop at the first column that answers.
    The database is abstracted as `probe`: what the statement returns for one column. */
module ColumnFallback {
  import opened Js

  /** The outcome of one statement filtered on one column. */
  datatype Attempt<+T> = Answered(value: T) | UnknownColumn | Failed

  /** A thrown database error and the column whose statement raised it. */
  datatype DbFailure = UnknownColumnError(column: string) | QueryFailed(column: string)

  // ---------------------------------------------------------------- SELECT ... LIMIT 1

  /** A lookup that found nothing, or named a missing column: the scan goes on. */
  predicate Missed<T>(a: Attempt<Option<T>>) {
    (a.Answered? && a.value.None?) || a.UnknownColumn?
  }

  /** What the scan answers: the first row found, the first other error, or null. */
  function FirstRow<T>(cols: seq<string>, probe: string -> Attempt<Option<T>>): Result<Option<T>, DbFailure> {
    if cols == [] then Ok(None)
    else match probe(cols[0])
      case Answered(rows) => if rows.Some? then Ok(rows) else FirstRow(cols[1..], probe)
      case UnknownColumn => FirstRow(cols[1..], probe)
      case Failed => Err(QueryFailed(cols[0]))
  }

  /** The scan itself: one SELECT per column, in order. */
  method FindByAnyColumn<T>(cols: seq<string>, probe: string -> Attempt<Option<T>>)
    returns (r: Result<Option<T>, DbFailure>)
    ensures r == FirstRow(cols, probe)
  {
    var i := 0;
    while i < |cols|
      invariant 0 <= i <= |cols|
      invariant FirstRow(cols, probe) == FirstRow(cols[i..], probe)
    {
      assert cols[i..][1..] == cols[i + 1..];
      match probe(cols[i]) {
        case Answered(rows) =>
          if rows.Some? {
            return Ok(rows);
          }
        case UnknownColumn =>
        case Failed =>
          return Err(QueryFailed(cols[i]));
      }
      i := i + 1;
    }
    return Ok(None);
  }

  /** A row found at column `k`, after columns that all missed, is the answer. */
  lemma {:induction false} FirstRowFinds<T>(cols: seq<string>, probe: string -> Attempt<Option<T>>, k: nat)
    requires k < |cols| && probe(cols[k]).Answered? && probe(cols[k]).value.Some?
    requires forall j :: 0 <= j < k ==> Missed(probe(cols[j]))
    ensures FirstRow(cols, probe) == Ok(probe(cols[k]).value)
  {
    if k > 0 {
      assert Missed(probe(cols[0]));
      FirstRowFinds(cols[1..], probe, k - 1);
    }
  }

  /** Any other error at column `k`, after columns that all missed, is rethrown. */
  lemma {:induction false} FirstRowFails<T>(cols: seq<string>, probe: string -> Attempt<Option<T>>, k: nat)
    requires k < |cols| && probe(cols[k]).Failed?
    requires forall j :: 0 <= j < k ==> Missed(probe(cols[j]))
    ensures FirstRow(cols, probe) == Err(QueryFailed(cols[k]))
  {
    if k > 0 {
      assert Missed(probe(cols[0]));
      FirstRowFails(cols[1..], probe, k - 1);
    }
  }

  /** The scan answers null exactly when every column missed. */
  lemma {:induction false} FirstRowNull<T>(cols: seq<string>, probe: string -> Attempt<Option<T>>)
    ensures FirstRow(cols, probe) == Ok(None) <==> forall j :: 0 <= j < |cols| ==> Missed(probe(cols[j]))
  {
    if cols != [] {
      FirstRowNull(cols[1..], probe);
      if Missed(probe(cols[0])) {
        assert forall j :: 1 <= j < |cols| ==> cols[j] == cols[1..][j - 1];
      }
    }
  }

  // ---------------------------------------------------------------- UPDATE / DELETE

  /** A statement that touched no row, or named a missing column: the loop goes on. */
  predicate Passed(a: Attempt<nat>) {
    a == Answered(0) || a.UnknownColumn?
  }

  /** The loop's answer from column list `cols` on, given the unknown-column error
      remembered so far: the first non-zero row count, or the first other error, or at
      the end the remembered unknown-column error, or else 0. */
  function AffectFrom(cols: seq<string>, probe: string -> Attempt<nat>, lastErr: Option<string>): Result<nat, DbFailure> {
    if cols == [] then
      if lastErr.Some? then Err(UnknownColumnError(lastErr.value)) else Ok(0)
    else match probe(cols[0])
      case Answered(n) => if n != 0 then Ok(n) else AffectFrom(cols[1..], probe, lastErr)
      case UnknownColumn => AffectFrom(cols[1..], probe, Some(cols[0]))
      case Failed => Err(QueryFailed(cols[0]))
  }

  function Affect(cols: seq<string>, probe: string -> Attempt<nat>): Result<nat, DbFailure> {
    AffectFrom(cols, probe, None)
  }

  /** The loop itself: one statement per column, stopping at the first that touched rows. */
  method AffectByAnyColumn(cols: seq<string>, probe: string -> Attempt<nat>) returns (r: Result<nat, DbFailure>)
    ensures r == Affect(cols, probe)
  {
    var affected := 0;
    var lastErr: Option<string> := None;
    var i := 0;
    while i < |cols|
      invariant 0 <= i <= |cols|
      invariant affected == 0
      invariant Affect(cols, probe) == AffectFrom(cols[i..], probe, lastErr)
    {
      assert cols[i..][1..] == cols[i + 1..];
      match probe(cols[i]) {
        case Answered(n) =>
          affected := n;
          if affected != 0 {
            break;
          }
        case UnknownColumn =>
          lastErr := Some(cols[i]);
        case Failed =>
          return Err(QueryFailed(cols[i]));
      }
      i := i + 1;
    }
    if affected == 0 {
      if lastErr.Some? {
        return Err(UnknownColumnError(lastErr.value));
      }
      return Ok(0);
    }
    return Ok(affected);
  }

  /** The first column that touched rows, after columns that all passed, gives the count. */
  lemma {:induction false} AffectHits(cols: seq<string>, probe: string -> Attempt<nat>, k: nat, e: Option<string>)
    requires k < |cols| && probe(cols[k]).Answered? && probe(cols[k]).value > 0
    requires forall j :: 0 <= j < k ==> Passed(probe(cols[j]))
    ensures AffectFrom(cols, probe, e) == Ok(probe(cols[k]).value)
  {
    if k > 0 {
      assert Passed(probe(cols[0]));
      AffectHits(cols[1..], probe, k - 1, if probe(cols[0]).UnknownColumn? then Some(cols[0]) else e);
    }
  }

  /** Any other error at column `k`, after columns that all passed, is rethrown. */
  lemma {:induction false} AffectFails(cols: seq<string>, probe: string -> Attempt<nat>, k: nat, e: Option<string>)
    requires k < |cols| && probe(cols[k]).Failed?
    requires forall j :: 0 <= j < k ==> Passed(probe(cols[j]))
    ensures AffectFrom(cols, probe, e) == Err(QueryFailed(cols[k]))
  {
    if k > 0 {
      assert Passed(probe(cols[0]));
      AffectFails(cols[1..], probe, k - 1, if probe(cols[0]).UnknownColumn? then Some(cols[0]) else e);
    }
  }

  lemma {:induction false} AffectFromAllZero(cols: seq<string>, probe: string -> Attempt<nat>, e: Option<string>)
    requires forall j :: 0 <= j < |cols| ==> probe(cols[j]) == Answered(0)
    ensures AffectFrom(cols, probe, e) == if e.Some? then Err(UnknownColumnError(e.value)) else Ok(0)
  {
    if cols != [] {
      assert probe(cols[0]) == Answered(0);
      AffectFromAllZero(cols[1..], probe, e);
    }
  }

  /** When every column passed, the error of the LAST missing column is rethrown,
      whatever the other columns answered. */
  lemma {:induction false} AffectRethrowsLast(cols: seq<string>, probe: string -> Attempt<nat>, k: nat, e: Option<string>)
    requires k < |cols| && probe(cols[k]).UnknownColumn?
    requires forall j :: 0 <= j < k ==> Passed(probe(cols[j]))
    requires forall j :: k < j < |cols| ==> probe(cols[j]) == Answered(0)
    ensures AffectFrom(cols, probe, e) == Err(UnknownColumnError(cols[k]))
  {
    if k == 0 {
      AffectFromAllZero(cols[1..], probe, Some(cols[0]));
    } else {
      assert Passed(probe(cols[0]));
      AffectRethrowsLast(cols[1..], probe, k - 1, if probe(cols[0]).UnknownColumn? then Some(cols[0]) else e);
    }
  }

  /** The loop answers 0 exactly when every column exists and touched no row. */
  lemma {:induction false} AffectNoMatch(cols: seq<string>, probe: string -> Attempt<nat>)
    ensures Affect(cols, probe) == Ok(0) <==> forall j :: 0 <= j < |cols| ==> probe(cols[j]) == Answered(0)
  {
    if forall j :: 0 <= j < |cols| ==> probe(cols[j]) == Answered(0) {
      AffectFromAllZero(cols, probe, None);
    } else {
      AffectNeverZeroAfterMiss(cols, probe, None);
    }
  }

  lemma {:induction false} AffectNeverZeroAfterMiss(cols: seq<string>, probe: string -> Attempt<nat>, e: Option<string>)
    requires !forall j :: 0 <= j < |cols| ==> probe(cols[j]) == Answered(0)
    ensures AffectFrom(cols, probe, e) != Ok(0)
  {
    assert cols != [];
    match probe(cols[0])
    case Answered(n) =>
      if n == 0 {
        assert !forall j :: 0 <= j < |cols[1..]| ==> probe(cols[1..][j]) == Answered(0) by {
          var j :| 0 <= j < |cols| && probe(cols[j]) != Answered(0);
          assert j > 0 && cols[1..][j - 1] == cols[j];
        }
        AffectNeverZeroAfterMiss(cols[1..], probe, e);
      }
    case UnknownColumn =>
      if forall j :: 0 <= j < |cols[1..]| ==> probe(cols[1..][j]) == Answered(0) {
        AffectFromAllZero(cols[1..], probe, Some(cols[0]));
      } else {
        AffectNeverZeroAfterMiss(cols[1..], probe, Some(cols[0]));
      }
    case Failed =>
  }
}
