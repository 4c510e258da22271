/**
 * The settings page of the components tree. It keeps its own key list
 * (rather than the key hook's) and updates it by append, filter and map
 * after each request; its profile starts at `'-'` in every field.
 */
module SettingsComponent {
  import opened Js
  import opened ApiKeys

  /** The `/me` body fields this page reads; each may be missing. */
  datatype UserBody = UserBody(
    name: Option<string>, email: Option<string>,
    phone: Option<string>, depart: Option<string>, level: Option<string>)

  /** `name` and `email` are copied as they come (possibly missing); the other three fall back to `''`. */
  datatype Profile = Profile(name: Option<string>, email: Option<string>, phone: string, depart: string, level: string)

  const InitialProfile := Profile(Some("-"), Some("-"), "-", "-", "-")

  /** `v || ''` on an optional string: a missing or empty value gives `''`. */
  function OrEmpty(v: Option<string>): (r: string)
    ensures HasText(v) ==> r == v.value
    ensures !HasText(v) ==> r == ""
  {
    if HasText(v) then v.value else ""
  }

  /** The profile `fetchUser` builds from a body. */
  function ProfileOf(data: UserBody): (p: Profile)
    ensures p.name == data.name && p.email == data.email
    ensures HasText(data.phone) ==> p.phone == data.phone.value
    ensures !HasText(data.phone) ==> p.phone == ""
    ensures !HasText(data.depart) ==> p.depart == ""
    ensures !HasText(data.level) ==> p.level == ""
    ensures HasText(data.depart) ==> p.depart == data.depart.value
    ensures HasText(data.level) ==> p.level == data.level.value
  {
    Profile(data.name, data.email, OrEmpty(data.phone), OrEmpty(data.depart), OrEmpty(data.level))
  }

  /** The page's state cells that the modelled handlers touch. */
  class SettingsView {
    var apiKeys: seq<ApiKey>
    var profileData: Profile
    var showApiKeyModal: bool
    /** The page never stores a key to edit: the cell is always `null`, so it is not modelled beyond that. */
    var editingApiKey: Option<()>

    constructor ()
      ensures apiKeys == [] && profileData == InitialProfile && !showApiKeyModal && editingApiKey == None
    {
      apiKeys := [];
      profileData := InitialProfile;
      showApiKeyModal := false;
      editingApiKey := None;
    }

    /** `fetchUser`: an ok response whose body parses replaces the profile; anything else keeps the previous one. */
    method FetchUser(res: Response<UserBody>)
      modifies this
      ensures profileData == if res.Answered? && res.ok && res.body.Some? then ProfileOf(res.body.value) else old(profileData)
      ensures apiKeys == old(apiKeys) && showApiKeyModal == old(showApiKeyModal) && editingApiKey == old(editingApiKey)
    {
      if res.Answered? && res.ok && res.body.Some? {
        profileData := ProfileOf(res.body.value);
      }
    }

    /**
     * `fetchUserApis`: the body is read before the status is, so a body that
     * does not parse throws whatever the status; only an ok response with a
     * parsed body replaces the list.
     */
    method FetchUserApis(res: Response<seq<ApiKey>>)
      modifies this
      ensures apiKeys == if res.Answered? && res.body.Some? && res.ok then res.body.value else old(apiKeys)
      ensures profileData == old(profileData) && showApiKeyModal == old(showApiKeyModal) && editingApiKey == old(editingApiKey)
    {
      if res.Answered? && res.body.Some? {
        if res.ok {
          apiKeys := res.body.value;
        }
      }
    }

    /** `handleAddApiKey`: nothing to edit, dialog open. */
    method HandleAddApiKey()
      modifies this
      ensures editingApiKey == None && showApiKeyModal
      ensures apiKeys == old(apiKeys) && profileData == old(profileData)
    {
      editingApiKey := None;
      showApiKeyModal := true;
    }

    /** `handleEditApiKey(api)`: the argument is not used; nothing to edit, dialog open. */
    method HandleEditApiKey(api: ApiKey)
      modifies this
      ensures editingApiKey == None && showApiKeyModal
      ensures apiKeys == old(apiKeys) && profileData == old(profileData)
    {
      editingApiKey := None;
      showApiKeyModal := true;
    }

    /** `handleSaveApiKey(newApi)`: append at the end, keeping every earlier entry. */
    method HandleSaveApiKey(newApi: ApiKey)
      modifies this
      ensures apiKeys == old(apiKeys) + [newApi]
      ensures |apiKeys| == |old(apiKeys)| + 1 && apiKeys[..|old(apiKeys)|] == old(apiKeys) && apiKeys[|old(apiKeys)|] == newApi
      ensures profileData == old(profileData) && showApiKeyModal == old(showApiKeyModal) && editingApiKey == old(editingApiKey)
    {
      apiKeys := apiKeys + [newApi];
    }

    /**
     * `handleDeleteApiKey(apiURL)`: a declined confirmation returns at once;
     * otherwise the body is read before the status, and only an ok response
     * with a parsed body removes every entry with that URL, keeping the rest
     * in order.
     */
    method HandleDeleteApiKey(apiURL: string, confirmed: bool, res: Response<()>)
      modifies this
      ensures apiKeys == if confirmed && res.Answered? && res.body.Some? && res.ok then WithoutUrl(old(apiKeys), apiURL) else old(apiKeys)
      ensures forall k :: k in apiKeys ==> k in old(apiKeys)
      ensures confirmed && res.Answered? && res.body.Some? && res.ok ==> forall k :: k in apiKeys ==> k.apiURL != apiURL
      ensures profileData == old(profileData) && showApiKeyModal == old(showApiKeyModal) && editingApiKey == old(editingApiKey)
    {
      if !confirmed {
        return;
      }
      if res.Answered? && res.body.Some? && res.ok {
        forall k | k in WithoutUrl(apiKeys, apiURL) ensures k in apiKeys && k.apiURL != apiURL {
          WithoutUrlMembership(apiKeys, apiURL, k);
        }
        apiKeys := WithoutUrl(apiKeys, apiURL);
      }
    }

    /**
     * `onConnectApiKey(apiURL)`: a non-ok response throws before any update,
     * and so do a rejected request and a body that does not parse; otherwise
     * the entries with that URL are marked connected.
     */
    method OnConnectApiKey(apiURL: string, res: Response<()>)
      modifies this
      ensures apiKeys == if res.Answered? && res.ok && res.body.Some? then SetConnection(old(apiKeys), apiURL, true) else old(apiKeys)
      ensures profileData == old(profileData) && showApiKeyModal == old(showApiKeyModal) && editingApiKey == old(editingApiKey)
    {
      if res.Answered? && res.ok && res.body.Some? {
        apiKeys := SetConnection(apiKeys, apiURL, true);
      }
    }

    /** `onDisconnectApiKey(apiURL)`: once the request resolves, whatever its status, the entries with that URL are marked disconnected. */
    method OnDisconnectApiKey(apiURL: string, res: Response<()>)
      modifies this
      ensures apiKeys == if res.Rejected? then old(apiKeys) else SetConnection(old(apiKeys), apiURL, false)
      ensures profileData == old(profileData) && showApiKeyModal == old(showApiKeyModal) && editingApiKey == old(editingApiKey)
    {
      if !res.Rejected? {
        apiKeys := SetConnection(apiKeys, apiURL, false);
      }
    }
  }
}
