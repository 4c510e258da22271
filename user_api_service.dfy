/**
 * The credential service over the `userAPIs` table. The table is a
 * sequence of rows in insertion order with an identity counter; the
 * repository's derived queries are the filters their names describe, a
 * `NULL` argument matching `NULL` columns (`IS NULL`).
 */
module UserApiService {
  import opened Js
  import opened Entities
  import opened Spring

  /** `findAllByUserIdx(userIdx)` */
  function ApisOf(rows: seq<UserApiEntity>, userIdx: Option<int>): (r: seq<UserApiEntity>)
    ensures |r| <= |rows|
    ensures forall i :: 0 <= i < |r| ==> r[i] in rows && r[i].userIdx == userIdx
  {
    var p := (r: UserApiEntity) => r.userIdx == userIdx;
    FilterKeeps(rows, p);
    Filter(rows, p)
  }

  /** The rows `findByUserIdxAndApiURL(userIdx, apiURL)` matches. */
  function Matching(rows: seq<UserApiEntity>, userIdx: Option<int>, apiURL: string): seq<UserApiEntity> {
    Filter(rows, (r: UserApiEntity) => r.userIdx == userIdx && r.apiURL == Some(apiURL))
  }

  /** `findByUserIdxAndApiURL(userIdx, apiURL)`, an `Optional` single result. */
  function FindByUserIdxAndApiURL(rows: seq<UserApiEntity>, userIdx: Option<int>, apiURL: string): (r: Lookup<UserApiEntity>)
    ensures r.OneRow? ==> r.row in rows && r.row.userIdx == userIdx && r.row.apiURL == Some(apiURL)
  {
    var p := (r: UserApiEntity) => r.userIdx == userIdx && r.apiURL == Some(apiURL);
    FilterKeeps(rows, p);
    SingleResult(Matching(rows, userIdx, apiURL))
  }

  /** The table after `delete(entity)`, which removes by primary key. */
  function WithoutId(rows: seq<UserApiEntity>, id: Option<int>): seq<UserApiEntity> {
    Filter(rows, (r: UserApiEntity) => r.apiIdx != id)
  }

  /** The primary key of a row. */
  function ApiIdx(r: UserApiEntity): Option<int> {
    r.apiIdx
  }

  // ----- lemmas about the queries -----

  /** `findAllByUserIdx(u)` returns exactly the rows of `u`, in table order. */
  lemma ApisOfMembership(rows: seq<UserApiEntity>, userIdx: Option<int>, x: UserApiEntity)
    ensures x in ApisOf(rows, userIdx) <==> x in rows && x.userIdx == userIdx
  {
    FilterMembership(rows, (r: UserApiEntity) => r.userIdx == userIdx, x);
  }

  /** A new row shows up at the end of its owner's list and in no other user's list. */
  lemma ApisOfAppend(rows: seq<UserApiEntity>, row: UserApiEntity, userIdx: Option<int>)
    ensures ApisOf(rows + [row], userIdx) == ApisOf(rows, userIdx) + (if row.userIdx == userIdx then [row] else [])
  {
    var p := (r: UserApiEntity) => r.userIdx == userIdx;
    FilterAppend(rows, [row], p);
    assert Filter([row], p) == (if p(row) then [row] else []) by {
      assert [row][1..] == [];
    }
  }

  /** The rows matching a user and URL after a row is appended. */
  lemma MatchingAppend(rows: seq<UserApiEntity>, row: UserApiEntity, userIdx: Option<int>, apiURL: string)
    ensures Matching(rows + [row], userIdx, apiURL) ==
      Matching(rows, userIdx, apiURL) + (if row.userIdx == userIdx && row.apiURL == Some(apiURL) then [row] else [])
  {
    var p := (r: UserApiEntity) => r.userIdx == userIdx && r.apiURL == Some(apiURL);
    FilterAppend(rows, [row], p);
    assert Filter([row], p) == (if p(row) then [row] else []) by {
      assert [row][1..] == [];
    }
  }

  /**
   * Deleting the row `m` by its identity removes `m` and keeps every other
   * row, provided identities are distinct; in particular no row of another
   * user goes.
   */
  lemma WithoutIdRemovesOnly(rows: seq<UserApiEntity>, m: UserApiEntity, x: UserApiEntity)
    requires DistinctIds(rows, ApiIdx) && m in rows
    ensures m !in WithoutId(rows, m.apiIdx)
    ensures x in rows && x != m ==> x in WithoutId(rows, m.apiIdx)
  {
    var p := (r: UserApiEntity) => r.apiIdx != m.apiIdx;
    FilterMembership(rows, p, m);
    FilterMembership(rows, p, x);
    if x in rows && x != m {
      var i :| 0 <= i < |rows| && rows[i] == x;
      var j :| 0 <= j < |rows| && rows[j] == m;
      SameIdSamePosition(rows, ApiIdx, i, j);
    }
  }

  /** Removing rows keeps identities distinct and below the counter. */
  lemma WithoutIdKeepsIds(rows: seq<UserApiEntity>, id: Option<int>, next: int)
    requires IdsBelow(rows, ApiIdx, next) && DistinctIds(rows, ApiIdx)
    ensures IdsBelow(WithoutId(rows, id), ApiIdx, next) && DistinctIds(WithoutId(rows, id), ApiIdx)
  {
    FilterPairwise(rows, (r: UserApiEntity) => r.apiIdx != id, (a: UserApiEntity, b: UserApiEntity) => a.apiIdx != b.apiIdx);
    var w := WithoutId(rows, id);
    forall i | 0 <= i < |w| ensures w[i].apiIdx.Some? && w[i].apiIdx.value < next {
      assert w[i] in w;
      FilterMembership(rows, (r: UserApiEntity) => r.apiIdx != id, w[i]);
    }
  }

  /** The table and its identity counter. */
  class UserApiStore {
    var rows: seq<UserApiEntity>
    var nextIdx: int

    predicate Valid()
      reads this
    {
      IdsBelow(rows, ApiIdx, nextIdx) && DistinctIds(rows, ApiIdx)
    }

    constructor ()
      ensures rows == [] && nextIdx == 1 && Valid()
    {
      rows := [];
      nextIdx := 1;
    }

    /**
     * `saveUserApi(userIdx, title, url)`: one new row at the end, with the
     * next identity, the given owner, title and URL, the current time, and
     * `isConnected` left `NULL`. Nothing checks for an existing row, so a
     * second save of the same values adds a second row.
     */
    method SaveUserApi(userIdx: Option<int>, title: Option<string>, url: string, now: int) returns (saved: UserApiEntity)
      requires Valid()
      modifies this
      ensures saved == UserApiEntity(Some(old(nextIdx)), userIdx, title, Some(url), Some(now), None)
      ensures rows == old(rows) + [saved] && nextIdx == old(nextIdx) + 1
      ensures Valid()
      ensures ApisOf(rows, userIdx) == ApisOf(old(rows), userIdx) + [saved]
      ensures forall u :: u != userIdx ==> ApisOf(rows, u) == ApisOf(old(rows), u)
      ensures |Matching(rows, userIdx, url)| == |Matching(old(rows), userIdx, url)| + 1
    {
      saved := UserApiEntity(Some(nextIdx), userIdx, title, Some(url), Some(now), None);
      forall u ensures ApisOf(rows + [saved], u) == ApisOf(rows, u) + (if u == userIdx then [saved] else []) {
        ApisOfAppend(rows, saved, u);
      }
      MatchingAppend(rows, saved, userIdx, url);
      InsertKeepsIds(rows, ApiIdx, nextIdx, saved);
      rows := rows + [saved];
      nextIdx := nextIdx + 1;
    }

    /** `getApisByUser(userIdx)` */
    method GetApisByUser(userIdx: Option<int>) returns (apis: seq<UserApiEntity>)
      ensures apis == ApisOf(rows, userIdx)
      ensures forall x :: x in apis <==> x in rows && x.userIdx == userIdx
    {
      apis := ApisOf(rows, userIdx);
      forall x ensures x in apis <==> x in rows && x.userIdx == userIdx {
        ApisOfMembership(rows, userIdx, x);
      }
    }

    /**
     * `delete(apiURL, userIdx)`: `Some(true)` when exactly one row of that
     * user has that URL, and that row is deleted; `Some(false)` when none
     * has, and nothing changes; `None` when several have, the lookup throws
     * and nothing changes. No row of another user is ever deleted.
     */
    method Delete(apiURL: string, userIdx: Option<int>) returns (deleted: Option<bool>)
      requires Valid()
      modifies this
      ensures deleted == Some(false) <==> |Matching(old(rows), userIdx, apiURL)| == 0
      ensures deleted == Some(true) <==> |Matching(old(rows), userIdx, apiURL)| == 1
      ensures deleted == None <==> |Matching(old(rows), userIdx, apiURL)| > 1
      ensures deleted != Some(true) ==> rows == old(rows)
      ensures deleted == Some(true) ==>
        var m := Matching(old(rows), userIdx, apiURL)[0];
        rows == WithoutId(old(rows), m.apiIdx) && m !in rows && forall x :: x in old(rows) && x != m ==> x in rows
      ensures forall x :: x in old(rows) && x.userIdx != userIdx ==> x in rows
      ensures nextIdx == old(nextIdx) && Valid()
    {
      match FindByUserIdxAndApiURL(rows, userIdx, apiURL)
      case NoRow =>
        deleted := Some(false);
      case ManyRows =>
        deleted := None;
      case OneRow(m) =>
        assert m in Matching(rows, userIdx, apiURL);
        FilterMembership(rows, (r: UserApiEntity) => r.userIdx == userIdx && r.apiURL == Some(apiURL), m);
        forall x ensures x in rows && x != m ==> x in WithoutId(rows, m.apiIdx) {
          WithoutIdRemovesOnly(rows, m, x);
        }
        WithoutIdRemovesOnly(rows, m, m);
        WithoutIdKeepsIds(rows, m.apiIdx, nextIdx);
        rows := WithoutId(rows, m.apiIdx);
        deleted := Some(true);
    }
  }
}
