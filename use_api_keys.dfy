/**
 * The key hook: one state cell `apiKeys` and the handlers that replace it
 * after a request — load, replace wholesale, disconnect everything,
 * disconnect one URL, connect one URL — plus the two derived views.
 */
module UseApiKeys {
  import opened Js
  import opened ApiKeys

  class ApiKeysHook {
    var apiKeys: seq<ApiKey>

    constructor ()
      ensures apiKeys == []
    {
      apiKeys := [];
    }

    /** `hasConnectedApiKeys` */
    predicate HasConnectedApiKeys()
      reads this
      ensures HasConnectedApiKeys() <==> Connected() != []
    {
      HasConnectedIffConnectedKeys(apiKeys);
      HasConnected(apiKeys)
    }

    /** `connectedKeys`: the connected keys of the list, never more than it holds. */
    function Connected(): (r: seq<ApiKey>)
      reads this
      ensures |r| <= |apiKeys|
      ensures forall i :: 0 <= i < |r| ==> r[i] in apiKeys && IsConnected(r[i])
    {
      ConnectedKeys(apiKeys)
    }

    /** The mount effect: an ok response whose body parses replaces the list; anything else keeps it. */
    method FetchApiKeys(res: Response<seq<ApiKey>>)
      modifies this
      ensures apiKeys == if res.Answered? && res.ok && res.body.Some? then res.body.value else old(apiKeys)
    {
      if res.Answered? && res.ok && res.body.Some? {
        apiKeys := res.body.value;
      }
    }

    /** `onUpdateApiKeys`: replace the list wholesale. */
    method HandleUpdateApiKeys(newApiKeys: seq<ApiKey>)
      modifies this
      ensures apiKeys == newApiKeys
    {
      apiKeys := newApiKeys;
    }

    /** `onDisconnectAllApiKeys`: no request is made; every key is marked disconnected. */
    method HandleDisconnectAllApiKeys()
      modifies this
      ensures apiKeys == DisconnectAll(old(apiKeys))
      ensures !HasConnectedApiKeys()
    {
      DisconnectAllLeavesNoneConnected(apiKeys);
      apiKeys := DisconnectAll(apiKeys);
    }

    /**
     * `onDisconnectApiKey`: once the request resolves, whatever its status,
     * the keys with that URL are marked disconnected; a rejected request
     * changes nothing.
     */
    method HandleDisconnectApiKey(apiURL: string, res: Response<()>)
      modifies this
      ensures apiKeys == if res.Rejected? then old(apiKeys) else SetConnection(old(apiKeys), apiURL, false)
    {
      if !res.Rejected? {
        apiKeys := SetConnection(apiKeys, apiURL, false);
      }
    }

    /**
     * `onConnectApiKey`: a non-ok response throws before any update, and so
     * do a rejected request and a body that does not parse; otherwise the
     * keys with that URL are marked connected.
     */
    method HandleConnectApiKey(apiURL: string, res: Response<()>)
      modifies this
      ensures apiKeys == if res.Answered? && res.ok && res.body.Some? then SetConnection(old(apiKeys), apiURL, true) else old(apiKeys)
    {
      if res.Answered? && res.ok && res.body.Some? {
        apiKeys := SetConnection(apiKeys, apiURL, true);
      }
    }
  }
}
