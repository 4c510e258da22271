/**
 * The credential record the front end keeps in its key list, and the list
 * transformations the settings screens and the key hook apply to it after a
 * request: mark keys with a URL connected or disconnected, disconnect
 * every key, drop keys with a URL, and pick the connected ones.
 */
module ApiKeys {
  import opened Js

  /** One row of `/api/auth/myApis`; `isConnected` is unset on a freshly saved key. */
  datatype ApiKey = ApiKey(
    apiIdx: int,
    apiTitle: Option<string>,
    apiURL: string,
    createdDate: Option<string>,
    lastUsed: Option<string>,
    isConnected: Option<bool>)

  predicate IsConnected(k: ApiKey) {
    IsTrue(k.isConnected)
  }

  /** `{ ...k, isConnected: b }` on keys whose URL is `url`, every other key as it was. */
  function SetConnection(keys: seq<ApiKey>, url: string, b: bool): (r: seq<ApiKey>)
    ensures |r| == |keys|
    ensures forall i :: 0 <= i < |keys| ==> r[i].(isConnected := keys[i].isConnected) == keys[i]
    ensures forall i :: 0 <= i < |keys| && keys[i].apiURL != url ==> r[i] == keys[i]
  {
    var f := (k: ApiKey) => if k.apiURL == url then k.(isConnected := Some(b)) else k;
    MapEach(keys, f);
    Map(keys, f)
  }

  /** `{ ...k, isConnected: false }` on every key. */
  function DisconnectAll(keys: seq<ApiKey>): (r: seq<ApiKey>)
    ensures |r| == |keys|
    ensures forall i :: 0 <= i < |r| ==> !IsConnected(r[i])
  {
    var f := (k: ApiKey) => k.(isConnected := Some(false));
    MapEach(keys, f);
    Map(keys, f)
  }

  /** `keys.filter(k => k.isConnected)` */
  function ConnectedKeys(keys: seq<ApiKey>): (r: seq<ApiKey>)
    ensures |r| <= |keys|
    ensures forall i :: 0 <= i < |r| ==> r[i] in keys && IsConnected(r[i])
  {
    FilterKeeps(keys, IsConnected);
    Filter(keys, IsConnected)
  }

  /** `keys.some(k => k.isConnected)` */
  predicate HasConnected(keys: seq<ApiKey>)
    ensures HasConnected(keys) <==> exists k :: k in keys && IsConnected(k)
  {
    Any(keys, IsConnected)
  }

  /** `keys.filter(k => k.apiURL !== url)` */
  function WithoutUrl(keys: seq<ApiKey>, url: string): (r: seq<ApiKey>)
    ensures |r| <= |keys|
    ensures forall i :: 0 <= i < |r| ==> r[i] in keys && r[i].apiURL != url
  {
    var p := (k: ApiKey) => k.apiURL != url;
    FilterKeeps(keys, p);
    Filter(keys, p)
  }

  // ----- lemmas -----

  /** Setting the connection of one URL touches only the `isConnected` field of the keys with that URL. */
  lemma SetConnectionAt(keys: seq<ApiKey>, url: string, b: bool, i: nat)
    requires i < |keys|
    ensures |SetConnection(keys, url, b)| == |keys|
    ensures SetConnection(keys, url, b)[i].isConnected == if keys[i].apiURL == url then Some(b) else keys[i].isConnected
    ensures SetConnection(keys, url, b)[i].(isConnected := keys[i].isConnected) == keys[i]
  {
    MapAt(keys, (k: ApiKey) => if k.apiURL == url then k.(isConnected := Some(b)) else k, i);
  }

  /** A URL that no key carries leaves the list as it was. */
  lemma {:induction false} SetConnectionUnknownUrl(keys: seq<ApiKey>, url: string, b: bool)
    requires forall i :: 0 <= i < |keys| ==> keys[i].apiURL != url
    ensures SetConnection(keys, url, b) == keys
  {
    forall i | 0 <= i < |keys| ensures SetConnection(keys, url, b)[i] == keys[i] {
      SetConnectionAt(keys, url, b, i);
    }
  }

  /** Disconnecting everything clears every key's connection and changes nothing else. */
  lemma DisconnectAllAt(keys: seq<ApiKey>, i: nat)
    requires i < |keys|
    ensures |DisconnectAll(keys)| == |keys|
    ensures DisconnectAll(keys)[i] == keys[i].(isConnected := Some(false))
  {
    MapAt(keys, (k: ApiKey) => k.(isConnected := Some(false)), i);
  }

  /** After disconnecting everything no key is connected. */
  lemma {:induction false} DisconnectAllLeavesNoneConnected(keys: seq<ApiKey>)
    ensures !HasConnected(DisconnectAll(keys))
    ensures ConnectedKeys(DisconnectAll(keys)) == []
  {
    var r := DisconnectAll(keys);
    forall i | 0 <= i < |r| ensures !IsConnected(r[i]) {
      DisconnectAllAt(keys, i);
    }
    FilterAllOrNone(r, IsConnected);
  }

  /** Disconnecting everything twice is the same as once. */
  lemma {:induction false} DisconnectAllIdempotent(keys: seq<ApiKey>)
    ensures DisconnectAll(DisconnectAll(keys)) == DisconnectAll(keys)
  {
    var once := DisconnectAll(keys);
    forall i | 0 <= i < |keys| ensures DisconnectAll(once)[i] == once[i] {
      DisconnectAllAt(keys, i);
      DisconnectAllAt(once, i);
    }
  }

  /** `hasConnectedApiKeys` holds exactly when `connectedKeys` is non-empty, i.e. when some key is connected. */
  lemma HasConnectedIffConnectedKeys(keys: seq<ApiKey>)
    ensures HasConnected(keys) <==> ConnectedKeys(keys) != []
    ensures HasConnected(keys) <==> exists i :: 0 <= i < |keys| && IsConnected(keys[i])
  {
    AnyIffFilterNonEmpty(keys, IsConnected);
  }

  /** `connectedKeys` holds exactly the connected keys of the list. */
  lemma ConnectedKeysMembership(keys: seq<ApiKey>, k: ApiKey)
    ensures k in ConnectedKeys(keys) <==> k in keys && IsConnected(k)
  {
    FilterMembership(keys, IsConnected, k);
  }

  /** Deleting by URL removes every key with that URL and keeps each other key. */
  lemma WithoutUrlMembership(keys: seq<ApiKey>, url: string, k: ApiKey)
    ensures k in WithoutUrl(keys, url) <==> k in keys && k.apiURL != url
  {
    FilterMembership(keys, (k: ApiKey) => k.apiURL != url, k);
  }

  /** Deleting by URL keeps the remaining keys in their order: it distributes over concatenation. */
  lemma WithoutUrlAppend(a: seq<ApiKey>, b: seq<ApiKey>, url: string)
    ensures WithoutUrl(a + b, url) == WithoutUrl(a, url) + WithoutUrl(b, url)
  {
    FilterAppend(a, b, (k: ApiKey) => k.apiURL != url);
  }

  // ----- the three-character URL mask -----

  /**
   * The URL mask shown in the drive dropdown and the key list:
   * `url ? url.slice(0, 3) + '*'.repeat(url.length - 3) : ''`.
   * `None` is the RangeError `repeat` throws for a URL of one or two characters.
   */
  function MaskUrl(url: Option<string>): (r: Option<string>)
    ensures !HasText(url) ==> r == Some("")
    ensures HasText(url) ==> (r.None? <==> |url.value| < 3)
    ensures HasText(url) && r.Some? ==> |r.value| == |url.value| && r.value[..3] == url.value[..3]
    ensures HasText(url) && r.Some? ==> forall i :: 3 <= i < |r.value| ==> r.value[i] == '*'
  {
    if !HasText(url) then Some("")
    else
      var u := url.value;
      match Repeat('*', |u| - 3)
      case None => None
      case Some(stars) => Some(Slice(u, 0, 3) + stars)
  }

  /** A one- or two-character URL makes the mask throw. */
  lemma MaskUrlThrowsOnShortUrl()
    ensures MaskUrl(Some("ab")) == None
  {
  }

  /** The mask with the star count clamped at zero, as evidently intended: it never throws. */
  function MaskUrlClamped(url: Option<string>): (r: string)
    ensures !HasText(url) ==> r == ""
    ensures HasText(url) ==> |r| == |url.value|
    ensures HasText(url) ==> forall i :: 0 <= i < |r| ==> r[i] == (if i < 3 then url.value[i] else '*')
  {
    if !HasText(url) then ""
    else
      var u := url.value;
      var n := if |u| < 3 then 0 else |u| - 3;
      Slice(u, 0, 3) + seq(n, _ => '*')
  }

  /** The clamped mask agrees with the original wherever the original does not throw. */
  lemma MaskUrlClampedAgrees(url: Option<string>)
    ensures MaskUrl(url).Some? ==> MaskUrl(url).value == MaskUrlClamped(url)
  {
  }
}
