/**
 * The user service over the `users` table: the (email, OAuth) existence
 * check, the two lookups, registration and the plain save. The table is a
 * sequence of rows with an identity counter; the repository's derived
 * queries compare columns by equality, a `NULL` argument matching `NULL`
 * columns (`IS NULL`).
 */
module UserService {
  import opened Js
  import opened Entities
  import opened Spring

  /** The primary key of a row. */
  function UserIdx(u: UserEntity): Option<int> {
    u.userIdx
  }

  predicate HasLogin(u: UserEntity, email: Option<string>, oAuth: Option<int>) {
    u.email == email && u.oAuth == oAuth
  }

  /** The rows with this e-mail and this sign-in kind. */
  function WithLogin(users: seq<UserEntity>, email: Option<string>, oAuth: Option<int>): seq<UserEntity> {
    Filter(users, (u: UserEntity) => HasLogin(u, email, oAuth))
  }

  /** `existsByEmailAndOAuth(email, oAuth)` */
  predicate ExistsLogin(users: seq<UserEntity>, email: Option<string>, oAuth: Option<int>)
    ensures ExistsLogin(users, email, oAuth) <==> WithLogin(users, email, oAuth) != []
  {
    var p := (u: UserEntity) => HasLogin(u, email, oAuth);
    AnyIffFilterNonEmpty(users, p);
    exists i :: 0 <= i < |users| && HasLogin(users[i], email, oAuth)
  }

  /** `findByEmailAndOAuth(email, oAuth)` */
  function FindByEmailAndOAuth(users: seq<UserEntity>, email: Option<string>, oAuth: Option<int>): (r: Lookup<UserEntity>)
    ensures r.OneRow? ==> r.row in users && HasLogin(r.row, email, oAuth)
  {
    var p := (u: UserEntity) => HasLogin(u, email, oAuth);
    FilterKeeps(users, p);
    SingleResult(WithLogin(users, email, oAuth))
  }

  /** `findAllByEmailAndPassword(email, password)`, declared with a single `UserEntity` result. */
  function FindAllByEmailAndPassword(users: seq<UserEntity>, email: Option<string>, password: Option<string>): (r: Lookup<UserEntity>)
    ensures r.OneRow? ==> r.row in users && r.row.email == email && r.row.password == password
  {
    var p := (u: UserEntity) => u.email == email && u.password == password;
    FilterKeeps(users, p);
    SingleResult(Filter(users, p))
  }

  /** The registration invariant: no two rows share an e-mail and a sign-in kind. */
  predicate UniqueLogins(users: seq<UserEntity>) {
    forall i, j :: 0 <= i < j < |users| ==> !HasLogin(users[i], users[j].email, users[j].oAuth)
  }

  // ----- lemmas about the queries -----

  /** The existence check and the lookup agree: a row exists exactly when the lookup finds one or more. */
  lemma ExistsIffFound(users: seq<UserEntity>, email: Option<string>, oAuth: Option<int>)
    ensures ExistsLogin(users, email, oAuth) <==> !FindByEmailAndOAuth(users, email, oAuth).NoRow?
    ensures !ExistsLogin(users, email, oAuth) <==> WithLogin(users, email, oAuth) == []
  {
    var p := (u: UserEntity) => HasLogin(u, email, oAuth);
    AnyIffFilterNonEmpty(users, p);
    assert Any(users, p) <==> ExistsLogin(users, email, oAuth);
  }

  /**
   * The (email, password) lookup finds nothing exactly when no row has this
   * e-mail and this password, and when exactly one row has them it finds
   * that row.
   */
  lemma PasswordLookupSpec(users: seq<UserEntity>, email: Option<string>, password: Option<string>, k: nat)
    ensures FindAllByEmailAndPassword(users, email, password).NoRow? <==>
      !exists u :: u in users && u.email == email && u.password == password
    ensures (k < |users| && users[k].email == email && users[k].password == password &&
             forall j :: 0 <= j < |users| && j != k ==> !(users[j].email == email && users[j].password == password)) ==>
      FindAllByEmailAndPassword(users, email, password) == OneRow(users[k])
  {
    var p := (u: UserEntity) => u.email == email && u.password == password;
    var f := Filter(users, p);
    if f != [] {
      assert f[0] in f;
      FilterMembership(users, p, f[0]);
    }
    if exists u :: u in users && u.email == email && u.password == password {
      var u :| u in users && u.email == email && u.password == password;
      FilterMembership(users, p, u);
    }
    if k < |users| && p(users[k]) && forall j :: 0 <= j < |users| && j != k ==> !p(users[j]) {
      var pre, post := users[..k], users[k + 1..];
      assert users == pre + [users[k]] + post;
      assert forall i :: 0 <= i < |pre| ==> pre[i] == users[i];
      assert forall i :: 0 <= i < |post| ==> post[i] == users[k + 1 + i];
      FilterAllOrNone(pre, p);
      FilterAllOrNone(post, p);
      FilterAppend(pre + [users[k]], post, p);
      FilterAppend(pre, [users[k]], p);
      assert [users[k]][1..] == [];
    }
  }

  /** While the invariant holds, the lookup by (email, OAuth) never throws for several rows. */
  lemma UniqueLoginsLookup(users: seq<UserEntity>, email: Option<string>, oAuth: Option<int>)
    requires UniqueLogins(users)
    ensures !FindByEmailAndOAuth(users, email, oAuth).ManyRows?
  {
    var p := (u: UserEntity) => HasLogin(u, email, oAuth);
    var rel := (a: UserEntity, b: UserEntity) => !HasLogin(a, b.email, b.oAuth);
    FilterPairwise(users, p, rel);
    var f := WithLogin(users, email, oAuth);
    if |f| > 1 {
      assert f[0] in f && f[1] in f;
      FilterMembership(users, p, f[0]);
      FilterMembership(users, p, f[1]);
    }
  }

  /** A user whose (email, OAuth) is not yet taken can be added without breaking the invariant. */
  lemma AppendKeepsUnique(users: seq<UserEntity>, e: UserEntity)
    requires UniqueLogins(users) && !ExistsLogin(users, e.email, e.oAuth)
    ensures UniqueLogins(users + [e])
  {
    var r := users + [e];
    forall i, j | 0 <= i < j < |r| ensures !HasLogin(r[i], r[j].email, r[j].oAuth) {
      if j == |users| {
        assert r[i] == users[i];
      } else {
        assert r[i] == users[i] && r[j] == users[j];
      }
    }
  }

  /** The same holds when the user takes the place of an existing row. */
  lemma UpdateKeepsUnique(users: seq<UserEntity>, k: nat, e: UserEntity)
    requires k < |users| && UniqueLogins(users) && !ExistsLogin(users, e.email, e.oAuth)
    ensures UniqueLogins(users[k := e])
  {
    var r := users[k := e];
    forall i, j | 0 <= i < j < |r| ensures !HasLogin(r[i], r[j].email, r[j].oAuth) {
      if i == k {
        assert !HasLogin(users[j], e.email, e.oAuth);
      } else if j == k {
        assert !HasLogin(users[i], e.email, e.oAuth);
      } else {
        assert r[i] == users[i] && r[j] == users[j];
      }
    }
  }

  /** One e-mail may hold two accounts, one per sign-in kind: a Google account beside an e-mail sign-up. */
  lemma OneEmailTwoKinds(users: seq<UserEntity>, e: UserEntity)
    requires UniqueLogins(users) && e.oAuth == Some(1)
    requires !ExistsLogin(users, e.email, Some(1))
    ensures UniqueLogins(users + [e])
    ensures ExistsLogin(users, e.email, Some(0)) ==> ExistsLogin(users + [e], e.email, Some(0)) && ExistsLogin(users + [e], e.email, Some(1))
  {
    AppendKeepsUnique(users, e);
    var r := users + [e];
    assert HasLogin(r[|users|], e.email, Some(1));
    if ExistsLogin(users, e.email, Some(0)) {
      var i :| 0 <= i < |users| && HasLogin(users[i], e.email, Some(0));
      assert r[i] == users[i];
    }
  }

  // ----- the save of the JPA repository -----

  /** The position of the row with this identity, or -1. */
  function IndexOfId(users: seq<UserEntity>, id: int): (k: int)
    ensures -1 <= k < |users|
    ensures k >= 0 ==> users[k].userIdx == Some(id)
    ensures k == -1 ==> forall i :: 0 <= i < |users| ==> users[i].userIdx != Some(id)
  {
    if users == [] then -1
    else if users[|users| - 1].userIdx == Some(id) then |users| - 1
    else IndexOfId(users[..|users| - 1], id)
  }

  /** The row an identity-carrying save overwrites, or -1 when the save inserts. */
  function SaveTarget(users: seq<UserEntity>, e: UserEntity): (k: int)
    ensures -1 <= k < |users|
    ensures k >= 0 <==> e.userIdx.Some? && exists i :: 0 <= i < |users| && users[i].userIdx == e.userIdx
    ensures k >= 0 ==> users[k].userIdx == e.userIdx
  {
    if e.userIdx.Some? then IndexOfId(users, e.userIdx.value) else -1
  }

  /** The row a save stores: the entity itself when it overwrites, otherwise the entity with the next identity. */
  function SavedRow(users: seq<UserEntity>, next: int, e: UserEntity): (r: UserEntity)
    ensures r.(userIdx := e.userIdx) == e
    ensures SaveTarget(users, e) < 0 ==> r.userIdx == Some(next)
  {
    if SaveTarget(users, e) >= 0 then e else e.(userIdx := Some(next))
  }

  /** The table after a save. */
  function AfterSave(users: seq<UserEntity>, next: int, e: UserEntity): (r: seq<UserEntity>)
    ensures SaveTarget(users, e) >= 0 ==> r == users[SaveTarget(users, e) := e]
    ensures SaveTarget(users, e) < 0 ==> r == users + [SavedRow(users, next, e)]
  {
    var k := SaveTarget(users, e);
    if k >= 0 then users[k := e] else users + [SavedRow(users, next, e)]
  }

  /** After a save, the saved row is the only row with its (email, OAuth) when no row had that pair before. */
  lemma SavedIsSoleLogin(users: seq<UserEntity>, next: int, e: UserEntity)
    requires !ExistsLogin(users, e.email, e.oAuth)
    ensures WithLogin(AfterSave(users, next, e), e.email, e.oAuth) == [SavedRow(users, next, e)]
  {
    var p := (u: UserEntity) => HasLogin(u, e.email, e.oAuth);
    ExistsIffFound(users, e.email, e.oAuth);
    var s := SavedRow(users, next, e);
    var k := SaveTarget(users, e);
    if k >= 0 {
      FilterUpdateSole(users, p, k, e);
    } else {
      FilterAppend(users, [s], p);
      assert [s][1..] == [];
      assert Filter([s], p) == [s];
    }
  }

  /** The user table and its identity counter. */
  class UserStore {
    var users: seq<UserEntity>
    var nextIdx: int

    predicate Valid()
      reads this
    {
      IdsBelow(users, UserIdx, nextIdx) && DistinctIds(users, UserIdx)
    }

    constructor ()
      ensures users == [] && nextIdx == 1 && Valid()
    {
      users := [];
      nextIdx := 1;
    }

    /**
     * The repository's `save`: an entity whose identity names a stored row
     * overwrites that row; any other entity is inserted at the end with the
     * next identity. The saved row is returned, never `null`.
     */
    method Persist(e: UserEntity) returns (saved: UserEntity)
      requires Valid()
      modifies this
      ensures saved == SavedRow(old(users), old(nextIdx), e)
      ensures users == AfterSave(old(users), old(nextIdx), e)
      ensures nextIdx == if SaveTarget(old(users), e) >= 0 then old(nextIdx) else old(nextIdx) + 1
      ensures saved in users && Valid()
    {
      var k := SaveTarget(users, e);
      saved := SavedRow(users, nextIdx, e);
      if k >= 0 {
        ReplaceKeepsIds(users, UserIdx, nextIdx, k, e);
        users := users[k := e];
        assert users[k] == saved;
      } else {
        InsertKeepsIds(users, UserIdx, nextIdx, saved);
        users := users + [saved];
        nextIdx := nextIdx + 1;
      }
    }

    /** `check(entity)` */
    method Check(entity: UserEntity) returns (b: bool)
      ensures b == ExistsLogin(users, entity.email, entity.oAuth)
      ensures b <==> !FindByEmailAndOAuth(users, entity.email, entity.oAuth).NoRow?
    {
      ExistsIffFound(users, entity.email, entity.oAuth);
      b := ExistsLogin(users, entity.email, entity.oAuth);
    }

    /** `userInfo(email, oAuth)`, and `userInfo(entity)` with the entity's two fields; it never throws while logins are unique. */
    method UserInfo(email: Option<string>, oAuth: Option<int>) returns (found: Lookup<UserEntity>)
      ensures found == FindByEmailAndOAuth(users, email, oAuth)
      ensures UniqueLogins(users) ==> !found.ManyRows?
    {
      found := FindByEmailAndOAuth(users, email, oAuth);
      if UniqueLogins(users) {
        UniqueLoginsLookup(users, email, oAuth);
      }
    }

    /**
     * `register(entity)`: `"fail"` with the table unchanged when the
     * (email, OAuth) pair is taken; otherwise the entity is saved and the
     * result is `"success"` (the save never yields `null`, so the second
     * `"fail"` cannot happen). Registration keeps logins unique, and
     * afterwards `userInfo` finds exactly the saved row.
     */
    method Register(entity: UserEntity) returns (result: string)
      requires Valid()
      modifies this
      ensures ExistsLogin(old(users), entity.email, entity.oAuth) ==>
        result == "fail" && users == old(users) && nextIdx == old(nextIdx)
      ensures !ExistsLogin(old(users), entity.email, entity.oAuth) ==>
        result == "success" && users == AfterSave(old(users), old(nextIdx), entity)
      ensures Valid()
      ensures old(UniqueLogins(users)) ==> UniqueLogins(users)
      ensures result == "success" ==>
        FindByEmailAndOAuth(users, entity.email, entity.oAuth) == OneRow(SavedRow(old(users), old(nextIdx), entity))
    {
      if ExistsLogin(users, entity.email, entity.oAuth) {
        return "fail";
      }
      SavedIsSoleLogin(users, nextIdx, entity);
      if UniqueLogins(users) {
        var k := SaveTarget(users, entity);
        if k >= 0 {
          UpdateKeepsUnique(users, k, entity);
        } else {
          AppendKeepsUnique(users, SavedRow(users, nextIdx, entity));
        }
      }
      var saved := Persist(entity);
      result := "success";
    }

    /** `login(entity)`: the lookup by e-mail and password; the sign-in kind is not consulted. */
    method Login(entity: UserEntity) returns (found: Lookup<UserEntity>)
      ensures found == FindAllByEmailAndPassword(users, entity.email, entity.password)
      ensures found.OneRow? ==> found.row in users && found.row.email == entity.email && found.row.password == entity.password
    {
      found := FindAllByEmailAndPassword(users, entity.email, entity.password);
      if found.OneRow? {
        FilterMembership(users, (u: UserEntity) => u.email == entity.email && u.password == entity.password, found.row);
      }
    }

    /** `save(entity)`: the repository's save, with no uniqueness check. */
    method Save(entity: UserEntity) returns (saved: UserEntity)
      requires Valid()
      modifies this
      ensures saved == SavedRow(old(users), old(nextIdx), entity)
      ensures users == AfterSave(old(users), old(nextIdx), entity)
      ensures saved in users && Valid()
    {
      saved := Persist(entity);
    }
  }

  // ----- a login body without a password -----

  /** A row stored by the Google sign-in: e-mail and name only, `oAuth` 1, password `NULL`. */
  const GoogleUser := BlankUser.(userIdx := Some(1), email := Some("user@example.com"), oAuth := Some(1))

  /**
   * The lookup as written: a login body that omits `"password"` passes
   * `null`, which the derived query turns into `password IS NULL`, and so
   * signs in as the Google account with that e-mail.
   */
  lemma LoginWithoutPasswordFindsGoogleUser()
    ensures FindAllByEmailAndPassword([GoogleUser], Some("user@example.com"), None) == OneRow(GoogleUser)
  {
    assert [GoogleUser][1..] == [];
  }

  /** The evidently intended login lookup: an absent e-mail or password matches nobody. */
  function LoginLookup(users: seq<UserEntity>, email: Option<string>, password: Option<string>): (r: Lookup<UserEntity>)
    ensures email.None? || password.None? ==> r == NoRow
    ensures email.Some? && password.Some? ==> r == FindAllByEmailAndPassword(users, email, password)
  {
    if email.None? || password.None? then NoRow else FindAllByEmailAndPassword(users, email, password)
  }

  /** With the intended lookup, a sign-in always presents the row's own, non-null password. */
  lemma LoginLookupNeedsPassword(users: seq<UserEntity>, email: Option<string>, password: Option<string>)
    ensures LoginLookup(users, email, password).OneRow? ==>
      var u := LoginLookup(users, email, password).row;
      u in users && password.Some? && u.password == password && u.email == email
  {
    var p := (u: UserEntity) => u.email == email && u.password == password;
    if LoginLookup(users, email, password).OneRow? {
      var f := Filter(users, p);
      assert f[0] in f;
      FilterMembership(users, p, f[0]);
    }
  }
}
