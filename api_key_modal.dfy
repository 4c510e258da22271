/**
 * The add-key dialog: two text fields, a show-key toggle, a loading flag and
 * a validation status that moves idle -> validating -> valid / invalid. A
 * save is two steps around the requests: `BeginSave` (the guard and the
 * switch to validating) and `CompleteSave` (the outcome of the add request
 * and of the connect request); `AfterDelay` is the timer that closes the
 * dialog after a successful save.
 */
module ApiKeyModal {
  import opened Js

  datatype Status = Idle | Validating | Valid | Invalid

  /** The key a dialog is opened to edit; every field may be missing. */
  datatype EditingKey = EditingKey(apiIdx: Option<int>, apiTitle: Option<string>, apiURL: Option<string>)

  /** The values a save sends and hands to `onSave`: the key text and its name. */
  datatype SavedKey = SavedKey(apiURL: string, apiTitle: string)

  /** `editingKey?.apiURL ?? ''` */
  function InitialKey(editing: Option<EditingKey>): (r: string)
    ensures editing.Some? && editing.value.apiURL.Some? ==> r == editing.value.apiURL.value
    ensures editing.None? || editing.value.apiURL.None? ==> r == ""
  {
    if editing.Some? then editing.value.apiURL.OrElse("") else ""
  }

  /** `editingKey?.apiTitle ?? ''` */
  function InitialName(editing: Option<EditingKey>): (r: string)
    ensures editing.Some? && editing.value.apiTitle.Some? ==> r == editing.value.apiTitle.value
    ensures editing.None? || editing.value.apiTitle.None? ==> r == ""
  {
    if editing.Some? then editing.value.apiTitle.OrElse("") else ""
  }

  /** The guard at the head of `handleSave`: the trimmed key or the trimmed name is empty. */
  predicate SaveBlocked(apiKey: string, keyName: string)
    ensures apiKey == "" || keyName == "" ==> SaveBlocked(apiKey, keyName)
  {
    Trim(apiKey) == "" || Trim(keyName) == ""
  }

  /** The save button's `disabled`: the save guard, or a request in flight. */
  predicate SaveDisabled(apiKey: string, keyName: string, isLoading: bool)
    ensures SaveDisabled(apiKey, keyName, isLoading) <==> isLoading || AllWhitespace(apiKey) || AllWhitespace(keyName)
  {
    SaveBlockedIffBlank(apiKey, keyName);
    SaveBlocked(apiKey, keyName) || isLoading
  }

  /** A save is blocked exactly when the key or the name consists of white space only (or nothing). */
  lemma SaveBlockedIffBlank(apiKey: string, keyName: string)
    ensures SaveBlocked(apiKey, keyName) <==> AllWhitespace(apiKey) || AllWhitespace(keyName)
  {
    TrimEmptyIffBlank(apiKey);
    TrimEmptyIffBlank(keyName);
  }

  /** The button is enabled exactly when both fields hold a non-blank character and nothing is loading. */
  lemma SaveEnabledIff(apiKey: string, keyName: string, isLoading: bool)
    ensures !SaveDisabled(apiKey, keyName, isLoading) <==> !isLoading && !AllWhitespace(apiKey) && !AllWhitespace(keyName)
  {
    SaveBlockedIffBlank(apiKey, keyName);
  }

  class Dialog {
    var apiKey: string
    var keyName: string
    var showKey: bool
    var isLoading: bool
    var status: Status

    /** The validating status is only ever shown while a request is loading. */
    predicate Consistent()
      reads this
    {
      status.Validating? ==> isLoading
    }

    /** Initial state: the fields from the key being edited, or empty. */
    constructor (editing: Option<EditingKey>)
      ensures apiKey == InitialKey(editing) && keyName == InitialName(editing)
      ensures !showKey && !isLoading && status == Idle
      ensures Consistent()
    {
      apiKey := InitialKey(editing);
      keyName := InitialName(editing);
      showKey := false;
      isLoading := false;
      status := Idle;
    }

    /** The open effect: when the dialog is open, every cell is reset from the key being edited; when closed, nothing changes. */
    method OnOpen(isOpen: bool, editing: Option<EditingKey>)
      modifies this
      ensures isOpen ==> apiKey == InitialKey(editing) && keyName == InitialName(editing) && !showKey && !isLoading && status == Idle
      ensures !isOpen ==> apiKey == old(apiKey) && keyName == old(keyName) && showKey == old(showKey) && isLoading == old(isLoading) && status == old(status)
      ensures old(Consistent()) ==> Consistent()
    {
      if isOpen {
        apiKey := InitialKey(editing);
        keyName := InitialName(editing);
        showKey := false;
        isLoading := false;
        status := Idle;
      }
    }

    /** `disabled` of the save button in the current state. */
    predicate SaveButtonDisabled()
      reads this
    {
      SaveDisabled(apiKey, keyName, isLoading)
    }

    /** `handleClose` (before it calls `onClose`): both fields cleared, key hidden, idle, not loading. */
    method HandleClose()
      modifies this
      ensures apiKey == "" && keyName == "" && !showKey && status == Idle && !isLoading
      ensures Consistent()
    {
      apiKey := "";
      keyName := "";
      showKey := false;
      status := Idle;
      isLoading := false;
    }

    /** `handleKeyChange(value)`: the key text is replaced and the status goes back to idle. */
    method HandleKeyChange(value: string)
      modifies this
      ensures apiKey == value && status == Idle
      ensures keyName == old(keyName) && showKey == old(showKey) && isLoading == old(isLoading)
      ensures Consistent()
    {
      apiKey := value;
      status := Idle;
    }

    /**
     * The synchronous part of `handleSave`: when the guard blocks, nothing
     * changes and no request is sent; otherwise loading starts, the status
     * becomes validating, and the key and name to send are returned.
     */
    method BeginSave() returns (request: Option<SavedKey>)
      modifies this
      ensures SaveBlocked(old(apiKey), old(keyName)) <==> request.None?
      ensures request.None? ==> isLoading == old(isLoading) && status == old(status)
      ensures request.Some? ==> request.value == SavedKey(apiKey, keyName) && isLoading && status == Validating
      ensures apiKey == old(apiKey) && keyName == old(keyName) && showKey == old(showKey)
      ensures old(Consistent()) ==> Consistent()
    {
      if SaveBlocked(apiKey, keyName) {
        return None;
      }
      isLoading := true;
      status := Validating;
      request := Some(SavedKey(apiKey, keyName));
    }

    /**
     * The rest of `handleSave`, once the requests settle. The add request
     * must answer ok and the connect request must answer at all; then the
     * status is valid or invalid by the connect status, `onSave` (when the
     * dialog has one) receives the saved key, and loading stays on until
     * the timer. Otherwise (add not ok, or either request rejected) the
     * status is invalid, loading stops and `onSave` is not called.
     */
    method CompleteSave(request: SavedKey, hasOnSave: bool, add: Response<()>, connect: Response<()>)
      returns (notified: Option<SavedKey>)
      modifies this
      ensures add.Answered? && add.ok && connect.Answered? ==>
        status == (if connect.ok then Valid else Invalid) && isLoading == old(isLoading) &&
        notified == (if hasOnSave then Some(request) else None)
      ensures !(add.Answered? && add.ok && connect.Answered?) ==> status == Invalid && !isLoading && notified == None
      ensures apiKey == old(apiKey) && keyName == old(keyName) && showKey == old(showKey)
      ensures Consistent()
    {
      if add.Rejected? || !add.ok || connect.Rejected? {
        status := Invalid;
        isLoading := false;
        return None;
      }
      status := if connect.ok then Valid else Invalid;
      notified := if hasOnSave then Some(request) else None;
    }

    /** The timer after a successful save: loading stops, then `handleClose` clears the dialog. */
    method AfterDelay()
      modifies this
      ensures apiKey == "" && keyName == "" && !showKey && status == Idle && !isLoading
      ensures Consistent()
    {
      isLoading := false;
      HandleClose();
    }
  }
}
