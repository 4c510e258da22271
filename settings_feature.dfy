/**
 * The settings page of the features tree: its own token mask and date
 * formatting, the add / edit dialog state, the profile loader with its
 * field fall-backs, and delete-then-reload of the key list.
 */
module SettingsFeature {
  import opened Js
  import opened ApiKeys
  import ApiConnectionStatus
  import UseApiKeys
  import opened ApiKeyModal

  /** `maskToken`, written here with early returns. */
  function MaskToken(token: Option<string>): (r: string)
    ensures !HasText(token) ==> r == ""
    ensures HasText(token) && |token.value| <= 8 ==> |r| == |token.value| && forall i :: 0 <= i < |r| ==> r[i] == '*'
    ensures HasText(token) && |token.value| > 8 ==> |r| == 9 && r[..4] == token.value[..4] && r[5..] == token.value[|token.value| - 4..]
  {
    if !HasText(token) then ""
    else if |token.value| <= 8 then Repeat('*', |token.value|).value
    else Slice(token.value, 0, 4) + [ApiConnectionStatus.Ellipsis] + SliceFrom(token.value, -4)
  }

  /** This page's mask and the status card's mask show the same text for every token. */
  lemma MaskTokensAgree(token: Option<string>)
    ensures MaskToken(token) == ApiConnectionStatus.MaskToken(token)
  {
  }

  // ----- formatDate -----

  /** The calendar fields a valid `Date` yields: full year, zero-based month, day of month. */
  datatype DateParts = DateParts(year: int, month: int, day: int)

  /** `String(n).padStart(2, '0')` */
  function TwoDigits(n: int): (r: string)
    ensures |r| >= 2
  {
    PadStart(IntToString(n), 2, '0')
  }

  /**
   * `formatDate(iso)`: `'-'` for an absent or empty value and for a value
   * that does not parse to a date; otherwise `Y.MM.DD`. Parsing is not
   * modelled: `parsed` is what `new Date(iso)` yields, `None` for an
   * invalid date.
   */
  function FormatDate(iso: Option<string>, parsed: Option<DateParts>): (r: string)
    ensures !HasText(iso) || parsed.None? ==> r == "-"
  {
    if !HasText(iso) then "-"
    else if parsed.None? then "-"
    else
      var d := parsed.value;
      IntToString(d.year) + "." + TwoDigits(d.month + 1) + "." + TwoDigits(d.day)
  }

  lemma {:induction false} FourDigits(n: nat)
    requires 1000 <= n < 10000
    ensures |NatToString(n)| == 4
  {
    assert NatToString(n) == NatToString(n / 10) + [DigitChar(n % 10)];
    assert NatToString(n / 10) == NatToString(n / 100) + [DigitChar(n / 10 % 10)];
    assert NatToString(n / 100) == NatToString(n / 1000) + [DigitChar(n / 100 % 10)];
  }

  /** Two zero-padded digits of a number from 1 to 99 read back as that number. */
  lemma TwoDigitsRoundTrip(n: int)
    requires 1 <= n < 100
    ensures |TwoDigits(n)| == 2 && DecimalValue(TwoDigits(n)) == n
    ensures forall i :: 0 <= i < 2 ==> '0' <= TwoDigits(n)[i] <= '9'
  {
    var s := NatToString(n);
    assert IntToString(n) == s;
    NatToStringRoundTrip(n);
    if n < 10 {
      assert |s| == 1;
      assert TwoDigits(n) == "0" + s;
      LeadingZeroValue(s);
    } else {
      assert s == NatToString(n / 10) + [DigitChar(n % 10)];
      assert |NatToString(n / 10)| == 1;
      assert TwoDigits(n) == s;
    }
  }

  /** The parts of `a.b.c` for a four-character `a` and two-character `b` and `c`. */
  lemma DottedParts(a: string, b: string, c: string)
    requires |a| == 4 && |b| == 2 && |c| == 2
    ensures var r := a + "." + b + "." + c;
      |r| == 10 && r[4] == '.' && r[7] == '.' && r[..4] == a && r[5..7] == b && r[8..] == c
  {
  }

  /** `formatDate` for a valid date is the year, the one-based month and the day, joined by dots. */
  lemma FormatDateShape(iso: Option<string>, d: DateParts)
    requires HasText(iso)
    ensures FormatDate(iso, Some(d)) == IntToString(d.year) + "." + TwoDigits(d.month + 1) + "." + TwoDigits(d.day)
  {
  }

  /**
   * For a valid date with a four-digit year the text is ten characters,
   * `YYYY.MM.DD`, and reads back as the year, the month counted from one,
   * and the day.
   */
  lemma FormatDateReadsBack(iso: Option<string>, d: DateParts)
    requires HasText(iso)
    requires 1000 <= d.year < 10000 && 0 <= d.month < 12 && 1 <= d.day <= 31
    ensures |FormatDate(iso, Some(d))| == 10
    ensures FormatDate(iso, Some(d))[4] == '.' && FormatDate(iso, Some(d))[7] == '.'
    ensures DecimalValue(FormatDate(iso, Some(d))[..4]) == d.year
    ensures DecimalValue(FormatDate(iso, Some(d))[5..7]) == d.month + 1
    ensures DecimalValue(FormatDate(iso, Some(d))[8..]) == d.day
  {
    var y := IntToString(d.year);
    var m := TwoDigits(d.month + 1);
    var dd := TwoDigits(d.day);
    FourDigits(d.year);
    NatToStringRoundTrip(d.year);
    assert DecimalValue(y) == d.year;
    TwoDigitsRoundTrip(d.month + 1);
    TwoDigitsRoundTrip(d.day);
    FormatDateShape(iso, d);
    DottedParts(y, m, dd);
  }

  // ----- profile -----

  /** The fields of the `/me` body this page reads; each may be missing. */
  datatype Me = Me(
    userName: Option<string>, name: Option<string>,
    userEmail: Option<string>, email: Option<string>,
    phone: Option<string>, department: Option<string>, position: Option<string>)

  datatype Profile = Profile(name: string, email: string, phone: string, department: string, position: string)

  const EmptyProfile := Profile("", "", "", "", "")

  /** `userName ?? name ?? ''`, `userEmail ?? email ?? ''`, and `?? ''` on the other three. */
  function ProfileOf(me: Me): (p: Profile)
    ensures me.userName.Some? ==> p.name == me.userName.value
    ensures me.userName.None? && me.name.Some? ==> p.name == me.name.value
    ensures me.userName.None? && me.name.None? ==> p.name == ""
    ensures me.userEmail.Some? ==> p.email == me.userEmail.value
    ensures me.userEmail.None? && me.email.Some? ==> p.email == me.email.value
    ensures me.userEmail.None? && me.email.None? ==> p.email == ""
    ensures p.phone == (if me.phone.Some? then me.phone.value else "")
    ensures p.department == (if me.department.Some? then me.department.value else "")
    ensures p.position == (if me.position.Some? then me.position.value else "")
  {
    Profile(
      me.userName.OrElse(me.name.OrElse("")),
      me.userEmail.OrElse(me.email.OrElse("")),
      me.phone.OrElse(""), me.department.OrElse(""), me.position.OrElse(""))
  }

  /** The page's state cells that the modelled handlers touch. */
  class SettingsPage {
    var showApiKeyModal: bool
    var editingApiKey: Option<EditingKey>
    var profileData: Option<Profile>
    var isProfileLoading: bool

    constructor ()
      ensures !showApiKeyModal && editingApiKey == None && profileData == None && !isProfileLoading
    {
      showApiKeyModal := false;
      editingApiKey := None;
      profileData := None;
      isProfileLoading := false;
    }

    /**
     * The profile loader: an ok response whose body parses fills the profile
     * with the fall-backs of `ProfileOf`; a non-ok response, a body that does
     * not parse and a rejected request all set every field to `''`.
     */
    method LoadProfile(res: Response<Me>)
      modifies this
      ensures profileData == Some(if res.Answered? && res.ok && res.body.Some? then ProfileOf(res.body.value) else EmptyProfile)
      ensures !isProfileLoading
      ensures showApiKeyModal == old(showApiKeyModal) && editingApiKey == old(editingApiKey)
    {
      isProfileLoading := true;
      if res.Answered? && res.ok && res.body.Some? {
        profileData := Some(ProfileOf(res.body.value));
      } else {
        profileData := Some(EmptyProfile);
      }
      isProfileLoading := false;
    }

    /** `handleAddApiKey`: nothing to edit, dialog open. */
    method HandleAddApiKey()
      modifies this
      ensures editingApiKey == None && showApiKeyModal
      ensures profileData == old(profileData) && isProfileLoading == old(isProfileLoading)
    {
      editingApiKey := None;
      showApiKeyModal := true;
    }

    /** `handleEditApiKey(k)`: the key's index, title and URL to edit, dialog open. */
    method HandleEditApiKey(k: ApiKey)
      modifies this
      ensures editingApiKey == Some(EditingKey(Some(k.apiIdx), k.apiTitle, Some(k.apiURL))) && showApiKeyModal
      ensures profileData == old(profileData) && isProfileLoading == old(isProfileLoading)
    {
      editingApiKey := Some(EditingKey(Some(k.apiIdx), k.apiTitle, Some(k.apiURL)));
      showApiKeyModal := true;
    }
  }

  /**
   * `handleDeleteApiKey` with `refreshApiKeys`: the delete request's status
   * is not read; once it resolves the list is fetched again and, when that
   * answer is ok and parses, handed to the key hook as the new list. A
   * rejected request at either step leaves the list as it was.
   */
  method HandleDeleteApiKey(hook: UseApiKeys.ApiKeysHook, del: Response<()>, refresh: Response<seq<ApiKey>>)
    modifies hook
    ensures hook.apiKeys ==
      if del.Answered? && refresh.Answered? && refresh.ok && refresh.body.Some? then refresh.body.value else old(hook.apiKeys)
  {
    if del.Answered? && refresh.Answered? && refresh.ok && refresh.body.Some? {
      hook.HandleUpdateApiKeys(refresh.body.value);
    }
  }
}
