/**
 * The connection-status card: the token mask, the connected / total /
 * disconnected counts, and a summary of the first five keys.
 */
module ApiConnectionStatus {
  import opened Js
  import opened ApiKeys

  /** The ellipsis character `…` the mask puts between the kept ends. */
  const Ellipsis: char := '\U{2026}'

  /**
   * `maskToken`: an absent or empty token shows nothing, a token of at most
   * eight characters shows as that many stars, a longer one as its first
   * four characters, an ellipsis and its last four.
   */
  function MaskToken(t: Option<string>): (r: string)
    ensures !HasText(t) ==> r == ""
    ensures HasText(t) && |t.value| <= 8 ==> |r| == |t.value| && forall i :: 0 <= i < |r| ==> r[i] == '*'
    ensures HasText(t) && |t.value| > 8 ==>
      |r| == 9 && r[..4] == t.value[..4] && r[4] == Ellipsis && r[5..] == t.value[|t.value| - 4..]
  {
    if !HasText(t) then ""
    else
      var s := t.value;
      if |s| <= 8 then Repeat('*', |s|).value
      else Slice(s, 0, 4) + [Ellipsis] + SliceFrom(s, -4)
  }

  /** The three numbers on the card. */
  datatype Counts = Counts(connected: int, total: int, disconnected: int)

  /** `total = apiKeys.length`, `connected = apiKeys.filter(k => k.isConnected).length`, `disconnected = total - connected`. */
  function CountKeys(keys: seq<ApiKey>): (c: Counts)
    ensures 0 <= c.connected <= c.total == |keys|
    ensures c.connected + c.disconnected == c.total
    ensures c.connected == |ConnectedKeys(keys)|
  {
    var total := |keys|;
    var connected := |ConnectedKeys(keys)|;
    Counts(connected, total, total - connected)
  }

  /** The counts read right: nothing connected exactly when no key is, all connected exactly when every key is. */
  lemma CountKeysExtremes(keys: seq<ApiKey>)
    ensures CountKeys(keys).connected == 0 <==> !HasConnected(keys)
    ensures CountKeys(keys).disconnected == 0 <==> forall i :: 0 <= i < |keys| ==> IsConnected(keys[i])
  {
    HasConnectedIffConnectedKeys(keys);
    FilterFull(keys, IsConnected);
  }

  /** One summary row: title (`'Dooray'` when absent), masked URL, and the connected label. */
  datatype Row = Row(title: string, maskedUrl: string, connected: bool)

  function SummaryRow(k: ApiKey): Row {
    Row(k.apiTitle.OrElse("Dooray"), MaskToken(Some(k.apiURL)), IsConnected(k))
  }

  /** `apiKeys.slice(0, 5).map(...)` */
  function SummaryRows(keys: seq<ApiKey>): (r: seq<Row>)
    ensures |r| <= 5 && |r| <= |keys|
    ensures forall i :: 0 <= i < |r| ==> r[i].title == keys[i].apiTitle.OrElse("Dooray")
  {
    SliceTake(keys, 5);
    MapEach(Slice(keys, 0, 5), SummaryRow);
    Map(Slice(keys, 0, 5), SummaryRow)
  }

  /** The summary shows the first five keys in list order, each labelled connected exactly when it is. */
  lemma SummaryRowsSpec(keys: seq<ApiKey>, i: nat)
    ensures |SummaryRows(keys)| == if |keys| < 5 then |keys| else 5
    ensures i < |SummaryRows(keys)| ==> i < |keys| && SummaryRows(keys)[i].connected == IsConnected(keys[i])
    ensures i < |SummaryRows(keys)| ==> SummaryRows(keys)[i].maskedUrl == MaskToken(Some(keys[i].apiURL))
  {
    SliceTake(keys, 5);
    if i < |SummaryRows(keys)| {
      MapAt(Slice(keys, 0, 5), SummaryRow, i);
    }
  }
}
