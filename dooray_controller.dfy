/**
 * The drive endpoints under `/api/dooray`. The drive client and the
 * connection-state service methods are outside this model: what the client
 * returns for a token is a parameter, and each call a handler makes to
 * them is reported in its result, in order.
 */
module DoorayController {
  import opened Js
  import opened Entities
  import opened Spring
  import opened DriveTree

  /** A call a handler makes to the drive client or to the connection-state service. */
  datatype Call =
    | GetFullDrive(token: Option<string>)
    | ConnectApi(apiURL: string, userIdx: Option<int>)
    | DisConnectApi(apiURL: string, userIdx: Option<int>)
    | GetApisIsConnected(userIdx: Option<int>, connected: bool)

  /** What `getFullDrive(token)` comes back with: the drive list, `null`, or an exception. */
  datatype Fetched = Drives(drives: seq<Drive>) | Null | Threw

  /** One element of the `driveLoading` answer: the key's title, identity and URL, and its drives. */
  datatype DriveEntry = DriveEntry(apiTitle: Option<string>, apiIdx: Option<int>, apiURL: Option<string>, drives: seq<Drive>)

  /**
   * `driveConnect(apiURL)`: without a session user, 401 and no call at
   * all. Otherwise the drives are fetched once; a non-null list marks the
   * key connected (one `connectApi` call) and is answered with 200, a
   * `null` one is answered with 401 and nothing else is called.
   */
  method DriveConnect(session: Session, apiToken: string, fetched: Option<seq<Drive>>)
    returns (status: int, drives: Option<seq<Drive>>, calls: seq<Call>)
    ensures session.user.None? ==> status == UNAUTHORIZED && drives == None && calls == []
    ensures session.user.Some? && fetched.None? ==> status == UNAUTHORIZED && drives == None && calls == [GetFullDrive(Some(apiToken))]
    ensures session.user.Some? && fetched.Some? ==>
      status == OK && drives == fetched && calls == [GetFullDrive(Some(apiToken)), ConnectApi(apiToken, session.user.value.userIdx)]
    ensures status == OK <==> ConnectApi(apiToken, if session.user.Some? then session.user.value.userIdx else None) in calls
  {
    if session.user.None? {
      return UNAUTHORIZED, None, [];
    }
    calls := [GetFullDrive(Some(apiToken))];
    if fetched.Some? {
      calls := calls + [ConnectApi(apiToken, session.user.value.userIdx)];
      return OK, fetched, calls;
    }
    return UNAUTHORIZED, None, calls;
  }

  /**
   * `driveDisconnect(apiURL)`: the service's answer is returned as it is.
   * Without a session user the handler dereferences `null` and fails with
   * 500 before calling anything.
   */
  method DriveDisconnect(session: Session, apiToken: string, result: Option<bool>)
    returns (status: int, body: Option<bool>, calls: seq<Call>)
    ensures session.user.None? ==> status == INTERNAL_SERVER_ERROR && body == None && calls == []
    ensures session.user.Some? ==> status == OK && body == result && calls == [DisConnectApi(apiToken, session.user.value.userIdx)]
  {
    if session.user.None? {
      return INTERNAL_SERVER_ERROR, None, [];
    }
    return OK, result, [DisConnectApi(apiToken, session.user.value.userIdx)];
  }

  /**
   * `apiLoading`: the connected keys of the session user, or 401 when the
   * service returns `null`; without a session user, 500.
   */
  method ApiLoading(session: Session, connected: Option<seq<UserApiEntity>>)
    returns (status: int, body: Option<seq<UserApiEntity>>, calls: seq<Call>)
    ensures session.user.None? ==> status == INTERNAL_SERVER_ERROR && body == None && calls == []
    ensures session.user.Some? ==> calls == [GetApisIsConnected(session.user.value.userIdx, true)]
    ensures session.user.Some? && connected.None? ==> status == UNAUTHORIZED && body == None
    ensures session.user.Some? && connected.Some? ==> status == OK && body == connected
  {
    if session.user.None? {
      return INTERNAL_SERVER_ERROR, None, [];
    }
    calls := [GetApisIsConnected(session.user.value.userIdx, true)];
    if connected.Some? {
      return OK, connected, calls;
    }
    return UNAUTHORIZED, None, calls;
  }

  // ----- driveLoading -----

  /** Whether the fetch for a key came back with a drive list. */
  predicate Loaded(api: UserApiEntity, fetch: Option<string> -> Fetched) {
    fetch(api.apiURL).Drives?
  }

  /** The entry for a key: its title, identity and URL, and the drives fetched for it (none when the fetch failed). */
  function EntryFor(api: UserApiEntity, fetch: Option<string> -> Fetched): DriveEntry {
    DriveEntry(api.apiTitle, api.apiIdx, api.apiURL, if fetch(api.apiURL).Drives? then fetch(api.apiURL).drives else [])
  }

  /** The entries the loop collects from `apis`, in order: one per key whose fetch returned a list. */
  function Collected(apis: seq<UserApiEntity>, fetch: Option<string> -> Fetched): (r: seq<DriveEntry>)
    ensures |r| <= |apis|
    ensures forall i :: 0 <= i < |r| ==> exists a :: a in apis && Loaded(a, fetch) && r[i] == EntryFor(a, fetch)
  {
    if apis == [] then []
    else
      var init, last := apis[..|apis| - 1], apis[|apis| - 1];
      assert forall a :: a in init ==> a in apis;
      Collected(init, fetch) + (if Loaded(last, fetch) then [EntryFor(last, fetch)] else [])
  }

  /**
   * The collected entries are the keys that loaded, in input order, each
   * turned into its entry: a key that fails is skipped and changes nothing
   * for the keys after it.
   */
  lemma {:induction false} CollectedIsLoadedKeys(apis: seq<UserApiEntity>, fetch: Option<string> -> Fetched)
    ensures Collected(apis, fetch) == Map(Filter(apis, (a: UserApiEntity) => Loaded(a, fetch)), (a: UserApiEntity) => EntryFor(a, fetch))
    decreases |apis|
  {
    var p := (a: UserApiEntity) => Loaded(a, fetch);
    var f := (a: UserApiEntity) => EntryFor(a, fetch);
    if apis != [] {
      var init := apis[..|apis| - 1];
      var last := apis[|apis| - 1];
      CollectedIsLoadedKeys(init, fetch);
      assert apis == init + [last];
      FilterAppend(init, [last], p);
      assert [last][1..] == [];
      assert Filter([last], p) == if p(last) then [last] else [];
      MapAppend(Filter(init, p), Filter([last], p), f);
      if p(last) {
        assert Map([last], f) == [f(last)];
      }
    }
  }

  /**
   * What the answer holds: never more entries than keys, every entry
   * copies a key that loaded and carries exactly its drives, and the
   * answer for a list of keys is the answer for a first part followed by
   * the answer for the rest.
   */
  lemma CollectedSpec(apis: seq<UserApiEntity>, more: seq<UserApiEntity>, fetch: Option<string> -> Fetched, e: DriveEntry)
    ensures |Collected(apis, fetch)| <= |apis|
    ensures e in Collected(apis, fetch) <==> exists a :: a in apis && Loaded(a, fetch) && e == EntryFor(a, fetch)
    ensures Collected(apis + more, fetch) == Collected(apis, fetch) + Collected(more, fetch)
  {
    var p := (a: UserApiEntity) => Loaded(a, fetch);
    var f := (a: UserApiEntity) => EntryFor(a, fetch);
    CollectedIsLoadedKeys(apis, fetch);
    CollectedIsLoadedKeys(more, fetch);
    CollectedIsLoadedKeys(apis + more, fetch);
    FilterAppend(apis, more, p);
    MapAppend(Filter(apis, p), Filter(more, p), f);
    var kept := Filter(apis, p);
    if e in Collected(apis, fetch) {
      var k :| 0 <= k < |kept| && Map(kept, f)[k] == e;
      MapAt(kept, f, k);
      assert kept[k] in kept;
      FilterMembership(apis, p, kept[k]);
    }
    if exists a :: a in apis && Loaded(a, fetch) && e == EntryFor(a, fetch) {
      var a :| a in apis && Loaded(a, fetch) && e == EntryFor(a, fetch);
      FilterMembership(apis, p, a);
      var k :| 0 <= k < |kept| && kept[k] == a;
      MapAt(kept, f, k);
    }
  }

  /** The drive-client call the loop makes for a key. */
  function FetchCall(api: UserApiEntity): Call {
    GetFullDrive(api.apiURL)
  }

  /**
   * `driveLoading`: without a session user, 500 before any call; otherwise
   * one query for the connected keys, and with none (`null` or empty) 401;
   * otherwise the drives of each connected key are fetched in turn, a
   * fetch that fails included, and 200 is answered with the entries
   * collected.
   */
  method DriveLoading(session: Session, connected: Option<seq<UserApiEntity>>, fetch: Option<string> -> Fetched)
    returns (status: int, body: Option<seq<DriveEntry>>, calls: seq<Call>)
    ensures session.user.None? ==> status == INTERNAL_SERVER_ERROR && body == None && calls == []
    ensures session.user.Some? && (connected.None? || connected.value == []) ==>
      status == UNAUTHORIZED && body == None && calls == [GetApisIsConnected(session.user.value.userIdx, true)]
    ensures session.user.Some? && connected.Some? && connected.value != [] ==>
      status == OK && body == Some(Collected(connected.value, fetch)) &&
      calls == [GetApisIsConnected(session.user.value.userIdx, true)] + Map(connected.value, FetchCall)
  {
    if session.user.None? {
      return INTERNAL_SERVER_ERROR, None, [];
    }
    calls := [GetApisIsConnected(session.user.value.userIdx, true)];
    if connected.None? || connected.value == [] {
      return UNAUTHORIZED, None, calls;
    }
    var apis := connected.value;
    var allDrives: seq<DriveEntry> := [];
    var i := 0;
    while i < |apis|
      invariant 0 <= i <= |apis|
      invariant allDrives == Collected(apis[..i], fetch)
      invariant calls == [GetApisIsConnected(session.user.value.userIdx, true)] + Map(apis[..i], FetchCall)
    {
      var api := apis[i];
      calls := calls + [GetFullDrive(api.apiURL)];
      var fullDrive := fetch(api.apiURL);
      if fullDrive.Drives? {
        allDrives := allDrives + [DriveEntry(api.apiTitle, api.apiIdx, api.apiURL, fullDrive.drives)];
      }
      assert apis[..i + 1] == apis[..i] + [api];
      assert apis[..i + 1][..i] == apis[..i];
      MapAppend(apis[..i], [api], FetchCall);
      assert Map([api], FetchCall) == [FetchCall(api)] by { assert [api][1..] == []; }
      i := i + 1;
    }
    assert apis[..i] == apis;
    return OK, Some(allDrives), calls;
  }
}
