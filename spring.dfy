/**
 * What the services and controllers rely on from the framework: the
 * single-result contract of a derived query, the HTTP status codes the
 * controllers answer with, and the servlet session.
 */
module Spring {
  import opened Js
  import opened Entities

  /**
   * The outcome of a derived query that declares a single result: no row
   * (`null` / an empty `Optional`), exactly one row, or several rows, for
   * which the repository throws `IncorrectResultSizeDataAccessException`.
   */
  datatype Lookup<+T> = NoRow | OneRow(row: T) | ManyRows

  /** The single result of the rows a derived query matched. */
  function SingleResult<T>(rows: seq<T>): (r: Lookup<T>)
    ensures r.NoRow? <==> |rows| == 0
    ensures r.OneRow? <==> |rows| == 1
    ensures r.ManyRows? <==> |rows| > 1
    ensures r.OneRow? ==> r.row == rows[0]
  {
    if |rows| == 0 then NoRow
    else if |rows| == 1 then OneRow(rows[0])
    else ManyRows
  }

  /** Every row of a table with a generated identity column carries an identity below the next one to be issued. */
  predicate IdsBelow<T>(rows: seq<T>, id: T -> Option<int>, next: int) {
    forall i :: 0 <= i < |rows| ==> id(rows[i]).Some? && id(rows[i]).value < next
  }

  /** No two rows share an identity. */
  predicate DistinctIds<T>(rows: seq<T>, id: T -> Option<int>) {
    forall i, j :: 0 <= i < j < |rows| ==> id(rows[i]) != id(rows[j])
  }

  /** A row inserted with the next identity keeps the identities distinct and below the new counter. */
  lemma InsertKeepsIds<T>(rows: seq<T>, id: T -> Option<int>, next: int, row: T)
    requires IdsBelow(rows, id, next) && DistinctIds(rows, id)
    requires id(row) == Some(next)
    ensures IdsBelow(rows + [row], id, next + 1) && DistinctIds(rows + [row], id)
  {
    var r := rows + [row];
    forall i, j | 0 <= i < j < |r| ensures id(r[i]) != id(r[j]) {
      if j == |rows| {
        assert id(r[i]).value < next;
      } else {
        assert r[i] == rows[i] && r[j] == rows[j];
      }
    }
  }

  /** A row saved in place of one with the same identity keeps the identities distinct and below the counter. */
  lemma ReplaceKeepsIds<T>(rows: seq<T>, id: T -> Option<int>, next: int, k: nat, row: T)
    requires IdsBelow(rows, id, next) && DistinctIds(rows, id)
    requires k < |rows| && id(row) == id(rows[k])
    ensures IdsBelow(rows[k := row], id, next) && DistinctIds(rows[k := row], id)
  {
    var r := rows[k := row];
    assert forall i :: 0 <= i < |r| ==> id(r[i]) == id(rows[i]);
  }

  /** In a table with distinct identities, two positions holding the same identity are the same position. */
  lemma SameIdSamePosition<T>(rows: seq<T>, id: T -> Option<int>, i: nat, j: nat)
    requires DistinctIds(rows, id) && i < |rows| && j < |rows|
    ensures id(rows[i]) == id(rows[j]) ==> i == j
  {
  }

  const OK: int := 200
  const BAD_REQUEST: int := 400
  const UNAUTHORIZED: int := 401
  const CONFLICT: int := 409
  /** What the servlet container answers when a handler throws (a `null` dereference, a non-unique result). */
  const INTERNAL_SERVER_ERROR: int := 500

  /** `HttpSession`: the `"user"` attribute, the inactivity timeout in seconds, and whether it was invalidated. */
  class Session {
    var user: Option<UserEntity>
    var maxInactiveInterval: int
    var invalidated: bool

    constructor (timeout: int)
      ensures user == None && maxInactiveInterval == timeout && !invalidated
    {
      user := None;
      maxInactiveInterval := timeout;
      invalidated := false;
    }
  }
}
