/**
 * The player profile page: the edit form filled from a player document,
 * the change test that decides whether leaving a field saves, the update
 * payload, the Instagram link, the player's position in the latest ranking
 * and the list of years the form offers.
 */
module PlayerProfile {
  import opened JsText
  import opened StableSort

  // ---------------------------------------------------------------------------
  // The player document and the edit form

  /** A player's `details`; `None` is a missing or null field. */
  datatype Details = Details(
    height: Option<string>,
    country: Option<string>,
    startOfTheRanking: Option<nat>,
    socialNetwork: Option<string>,
    mainHand: Option<string>,
    backHand: Option<string>)

  datatype Profile = Profile(id: string, name: Option<string>, details: Details, avatarUrl: Option<string>)

  /** The form's eight controls; `None` is the `null` a control holds after `reset()`. */
  datatype FormValue = FormValue(
    name: Option<string>,
    height: Option<string>,
    country: Option<string>,
    startOfTheRanking: Option<string>,
    socialNetwork: Option<string>,
    mainHand: Option<string>,
    backHand: Option<string>,
    avatarUrl: Option<string>)

  /** The form after `playerForm.reset()`. */
  const ResetForm := FormValue(None, None, None, None, None, None, None, None)

  /** `x ?? ""` */
  function OrEmpty(x: Option<string>): string
  {
    if x.Some? then x.value else ""
  }

  /** fillFormWithPlayerData: every control gets a string. */
  function FillForm(p: Profile): (f: FormValue)
    ensures f.name.Some? && f.height.Some? && f.country.Some? && f.startOfTheRanking.Some?
    ensures f.socialNetwork.Some? && f.mainHand.Some? && f.backHand.Some? && f.avatarUrl.Some?
  {
    var d := p.details;
    FormValue(
      Some(OrEmpty(p.name)),
      Some(if Truthy(d.height) then d.height.value else ""),
      Some(OrEmpty(d.country)),
      Some(if d.startOfTheRanking.Some? && d.startOfTheRanking.value != 0 then NatToString(d.startOfTheRanking.value) else ""),
      Some(OrEmpty(d.socialNetwork)),
      Some(OrEmpty(d.mainHand)),
      Some(OrEmpty(d.backHand)),
      Some(OrEmpty(p.avatarUrl)))
  }

  // ---------------------------------------------------------------------------
  // hasChanges

  /** `x?.toString()` for the ranking start year. */
  function StartText(x: Option<nat>): Option<string>
  {
    if x.Some? then Some(NatToString(x.value)) else None
  }

  /**
   * hasChanges as written: each control is compared with the stored field
   * by `!==`, so a missing field (`undefined`) differs from the "" that
   * fillFormWithPlayerData put in its control.
   */
  predicate HasChangesAsWritten(player: Option<Profile>, f: FormValue)
  {
    player.Some? &&
    var p := player.value;
    var d := p.details;
    p.name != f.name || d.height != f.height || d.country != f.country ||
    StartText(d.startOfTheRanking) != f.startOfTheRanking ||
    d.socialNetwork != f.socialNetwork || d.mainHand != f.mainHand ||
    d.backHand != f.backHand || p.avatarUrl != f.avatarUrl
  }

  /**
   * A stored field the form cannot give back as it is: a missing (null or
   * undefined) field, which fillFormWithPlayerData turns into "", or a
   * ranking start of 0, which it also writes as "".
   */
  predicate SpuriousChange(p: Profile)
  {
    var d := p.details;
    p.name.None? || p.avatarUrl.None? || d.height.None? || d.country.None? ||
    d.startOfTheRanking.None? || d.startOfTheRanking == Some(0) ||
    d.socialNetwork.None? || d.mainHand.None? || d.backHand.None?
  }

  /**
   * As written, the form just filled from a player reports a change exactly
   * when one of the player's fields is missing or the start year is 0.
   */
  lemma UneditedFormChangedAsWritten(p: Profile)
    ensures HasChangesAsWritten(Some(p), FillForm(p)) <==> SpuriousChange(p)
  {
    assert NatToString(0) == "0";
  }

  /** The intended test: the form differs from what the player's data fills it with. */
  predicate HasChanges(player: Option<Profile>, f: FormValue)
  {
    player.Some? && FillForm(player.value) != f
  }

  /** An unedited form has no changes; editing any control to another value has. */
  lemma HasChangesFacts(p: Profile, f: FormValue)
    ensures !HasChanges(Some(p), FillForm(p))
    ensures !HasChanges(None, f)
    ensures f.name != FillForm(p).name ==> HasChanges(Some(p), f)
    ensures f.height != FillForm(p).height ==> HasChanges(Some(p), f)
    ensures f.avatarUrl != FillForm(p).avatarUrl ==> HasChanges(Some(p), f)
  {
  }

  /**
   * Where every field is set and the start year is not 0, the two tests
   * agree.
   */
  lemma HasChangesAgree(p: Profile, f: FormValue)
    requires !SpuriousChange(p)
    ensures HasChanges(Some(p), f) == HasChangesAsWritten(Some(p), f)
  {
  }

  // ---------------------------------------------------------------------------
  // canEditProfile and savePlayerChanges

  /** `loggedPlayerId === player?.id` */
  predicate CanEditProfile(loggedPlayerId: Option<string>, p: Profile)
  {
    loggedPlayerId == Some(p.id)
  }

  /** `startOfTheRanking ? Number(startOfTheRanking) : null` */
  datatype StartValue = NullStart | StartYear(year: nat) | NotANumber

  /** The update sent to the store. */
  datatype Payload = Payload(
    id: string,
    name: Option<string>,
    country: string,
    height: Option<string>,
    startOfTheRanking: StartValue,
    socialNetwork: string,
    mainHand: Option<string>,
    backHand: Option<string>,
    avatarUrl: string)

  /** `x || ""` */
  function OrBlank(x: Option<string>): string
  {
    if Truthy(x) then x.value else ""
  }

  /** `x || null` */
  function OrNull(x: Option<string>): Option<string>
  {
    if Truthy(x) then x else None
  }

  function StartOf(x: Option<string>): (v: StartValue)
    ensures v.NullStart? <==> !Truthy(x)
    ensures v.StartYear? ==> AllDigits(x.value) && v.year == DecimalValue(x.value)
  {
    if !Truthy(x) then NullStart
    else match NumberOf(x.value)
      case Some(n) => (assert n == DecimalValue(x.value); StartYear(n))
      case None => NotANumber
  }

  /** savePlayerChanges' payload, or nothing when the profile cannot be edited. */
  function SavePayload(loggedPlayerId: Option<string>, p: Profile, f: FormValue): (r: Option<Payload>)
    ensures r.Some? <==> CanEditProfile(loggedPlayerId, p)
    ensures r.Some? ==> r.value.id == p.id && r.value.name == f.name
  {
    if !CanEditProfile(loggedPlayerId, p) then None
    else Some(Payload(
      p.id,
      f.name,
      OrBlank(f.country),
      OrNull(f.height),
      StartOf(f.startOfTheRanking),
      OrBlank(f.socialNetwork),
      OrNull(f.mainHand),
      OrNull(f.backHand),
      if Truthy(f.avatarUrl) then f.avatarUrl.value else OrBlank(p.avatarUrl)))
  }

  /**
   * Empty controls are sent as "" or null, never as an empty string where
   * null is meant; the avatar falls back to the stored URL, then "".
   */
  lemma SavePayloadBlanks(loggedPlayerId: Option<string>, p: Profile, f: FormValue)
    requires CanEditProfile(loggedPlayerId, p)
    ensures var r := SavePayload(loggedPlayerId, p, f).value;
      r.height != Some("") && r.mainHand != Some("") && r.backHand != Some("")
    ensures var r := SavePayload(loggedPlayerId, p, f).value;
      (r.avatarUrl == "" <==> !Truthy(f.avatarUrl) && !Truthy(p.avatarUrl))
  {
  }

  /**
   * Saving the unedited form writes the player's data back: the same
   * country, social network and hands, and the same start year.
   */
  lemma SaveUneditedKeepsData(loggedPlayerId: Option<string>, p: Profile)
    requires CanEditProfile(loggedPlayerId, p)
    ensures var r := SavePayload(loggedPlayerId, p, FillForm(p)).value;
      r.country == OrBlank(p.details.country) && r.socialNetwork == OrBlank(p.details.socialNetwork) &&
      r.mainHand == OrNull(p.details.mainHand) && r.backHand == OrNull(p.details.backHand)
    ensures var r := SavePayload(loggedPlayerId, p, FillForm(p)).value;
      p.details.startOfTheRanking.Some? && p.details.startOfTheRanking.value > 0 ==>
      r.startOfTheRanking == StartYear(p.details.startOfTheRanking.value)
    ensures var r := SavePayload(loggedPlayerId, p, FillForm(p)).value;
      (p.details.startOfTheRanking.None? || p.details.startOfTheRanking.value == 0) ==>
      r.startOfTheRanking == NullStart
  {
    var f := FillForm(p);
    var s := p.details.startOfTheRanking;
    if s.Some? && s.value > 0 {
      NumberOfNatToString(s.value);
      assert NumberOf(f.startOfTheRanking.value) == Some(s.value);
    }
  }

  // ---------------------------------------------------------------------------
  // getSocialLinkDetails

  const InstagramPrefix := "https://instagram.com/"

  datatype SocialLink = SocialLink(socialNetworkValue: string, url: string)

  /** The user name: the value without one leading "@". */
  function UserName(t: string): (u: string)
    ensures StartsWith(t, "@") ==> "@" + u == t
    ensures !StartsWith(t, "@") ==> u == t
  {
    if StartsWith(t, "@") then t[1..] else t
  }

  /** getSocialLinkDetails: nothing for a blank value, else the trimmed value and its profile URL. */
  function SocialLinkOf(value: Option<string>): (r: Option<SocialLink>)
    ensures r.None? <==> value.None? || forall i :: 0 <= i < |value.value| ==> IsSpace(value.value[i])
    ensures r.Some? ==> r.value.socialNetworkValue == Trim(value.value)
    ensures r.Some? ==> r.value.url == InstagramPrefix + UserName(Trim(value.value))
  {
    if value.None? then None
    else
      var t := Trim(value.value);
      if t == "" then None else Some(SocialLink(t, InstagramPrefix + UserName(t)))
  }

  lemma TrimUntouched(s: string)
    requires s != [] && !IsSpace(s[0]) && !IsSpace(s[|s| - 1])
    ensures Trim(s) == s
  {
  }

  /** "@name" and "name" link to the same profile, and the shown value keeps its "@". */
  lemma AtSignOptional(u: string)
    requires u != [] && !IsSpace(u[0]) && !IsSpace(u[|u| - 1]) && u[0] != '@'
    ensures SocialLinkOf(Some("@" + u)).Some? && SocialLinkOf(Some(u)).Some?
    ensures SocialLinkOf(Some("@" + u)).value.url == SocialLinkOf(Some(u)).value.url
    ensures SocialLinkOf(Some("@" + u)).value.socialNetworkValue == "@" + u
  {
    TrimUntouched(u);
    TrimUntouched("@" + u);
    assert !StartsWith(u, "@") by {
      assert u[..1][0] == u[0];
    }
    assert ("@" + u)[1..] == u;
  }

  // ---------------------------------------------------------------------------
  // loadPlayerRankingPosition

  /** A row of the latest ranking document. */
  datatype RankRow = RankRow(playerId: string, scorePoints: Option<int>)

  /** `p.scorePoints ?? 0` */
  function Points(r: RankRow): int
  {
    if r.scorePoints.Some? then r.scorePoints.value else 0
  }

  function RankedRows(rows: seq<RankRow>): seq<RankRow>
  {
    Sort(rows, ByKeyDesc(Points))
  }

  /** `findIndex(p => p.playerId === id)` */
  function IndexOfPlayer(rows: seq<RankRow>, id: string): (k: int)
    ensures -1 <= k < |rows|
    ensures k == -1 <==> forall i :: 0 <= i < |rows| ==> rows[i].playerId != id
    ensures k >= 0 ==> rows[k].playerId == id && forall i :: 0 <= i < k ==> rows[i].playerId != id
  {
    if rows == [] then -1
    else if rows[0].playerId == id then 0
    else
      var k := IndexOfPlayer(rows[1..], id);
      assert forall i :: 1 <= i < |rows| ==> rows[i] == rows[1..][i - 1];
      if k == -1 then -1 else k + 1
  }

  /** The 1-based position, or null when the rankings are not an array or lack the player. */
  function RankingPosition(rankings: Option<seq<RankRow>>, id: string): Option<nat>
  {
    match rankings
    case None => None
    case Some(rows) =>
      var k := IndexOfPlayer(RankedRows(rows), id);
      if k >= 0 then Some(k + 1) else None
  }

  /** There is a position exactly when the rankings are a list holding the player. */
  lemma RankingPositionExists(rankings: Option<seq<RankRow>>, id: string)
    ensures RankingPosition(rankings, id).Some? <==>
      rankings.Some? && exists i :: 0 <= i < |rankings.value| && rankings.value[i].playerId == id
  {
    if rankings.Some? {
      var rows := rankings.value;
      var s := RankedRows(rows);
      SortDescFacts(rows, Points);
      if i :| 0 <= i < |rows| && rows[i].playerId == id {
        assert rows[i] in multiset(s);
      }
      if IndexOfPlayer(s, id) >= 0 {
        var k := IndexOfPlayer(s, id);
        assert s[k] in multiset(rows);
      }
    }
  }

  /** In a list ordered by descending points, a row with more points than row k sits before it. */
  lemma AboveInDescending(s: seq<RankRow>, k: nat, x: RankRow)
    requires k < |s| && x in s && Points(x) > Points(s[k])
    requires forall i, j :: 0 <= i < j < |s| ==> Points(s[i]) >= Points(s[j])
    ensures x in s[..k]
  {
    var m :| 0 <= m < |s| && s[m] == x;
    assert s[..k][m] == x;
  }

  /**
   * At position k the player's row is the k-th by points, and every row
   * with more points than it is ranked above it.
   */
  lemma RankingPositionOrdered(rows: seq<RankRow>, id: string, x: RankRow)
    requires RankingPosition(Some(rows), id).Some?
    requires x in rows
    ensures var k := RankingPosition(Some(rows), id).value;
      var s := RankedRows(rows);
      1 <= k <= |rows| && s[k - 1].playerId == id &&
      (Points(x) > Points(s[k - 1]) ==> x in s[..k - 1])
  {
    var s := RankedRows(rows);
    SortDescFacts(rows, Points);
    assert |s| == |rows| by {
      assert |multiset(s)| == |multiset(rows)|;
    }
    var k := IndexOfPlayer(s, id);
    assert x in multiset(s);
    if Points(x) > Points(s[k]) {
      AboveInDescending(s, k, x);
    }
  }

  // ---------------------------------------------------------------------------
  // getMainHand and getYears

  /** The two labels of the main-hand enumeration, which this model takes as given. */
  datatype HandLabels = HandLabels(left: string, right: string)

  function MainHandLabel(hand: string, labels: HandLabels): (text: string)
    ensures hand == "L" ==> text == labels.left
    ensures hand == "R" ==> text == labels.right
    ensures hand != "L" && hand != "R" ==> text == ""
  {
    if hand == "L" then labels.left else if hand == "R" then labels.right else ""
  }

  /** The years from `current` down to 1950. */
  function YearsDown(current: int): (r: seq<int>)
    ensures |r| == (if current < 1950 then 0 else current - 1949)
    ensures forall i :: 0 <= i < |r| ==> r[i] == current - i
    decreases current - 1949
  {
    if current < 1950 then [] else [current] + YearsDown(current - 1)
  }

  /** Every year from 1950 to the current one once, newest first. */
  lemma YearsDownFacts(current: int, y: int)
    ensures y in YearsDown(current) <==> 1950 <= y <= current
    ensures forall i, j :: 0 <= i < j < |YearsDown(current)| ==> YearsDown(current)[i] > YearsDown(current)[j]
  {
    if 1950 <= y <= current {
      assert YearsDown(current)[current - y] == y;
    }
  }

  /** getYears, with the clock's year as a parameter. */
  method GetYears(currentYear: int) returns (years: seq<int>)
    ensures years == YearsDown(currentYear)
  {
    years := [];
    var i := currentYear;
    while i >= 1950
      invariant i <= currentYear
      invariant years + YearsDown(i) == YearsDown(currentYear)
      decreases i
    {
      years := years + [i];
      i := i - 1;
    }
  }

  // ---------------------------------------------------------------------------
  // The page

  /** `playerService.getPlayer(email)` */
  datatype PlayerRead = ReadFailed | NotFound | Found(profile: Profile)

  class PlayerComponent {
    var player: Profile
    var loggedPlayerId: Option<string>
    var form: FormValue
    /** Whether the form is enabled: only the profile's own player may edit it. */
    var enabled: bool
    var loading: bool
    var showError: bool
    var playerRankingPosition: Option<nat>
    /** The payloads sent with `updatePlayer`. */
    var sent: seq<Payload>

    constructor(loggedPlayerId: Option<string>)
      ensures this.loggedPlayerId == loggedPlayerId && sent == [] && !loading && !showError
      ensures player.id == "" && playerRankingPosition.None?
    {
      this.loggedPlayerId := loggedPlayerId;
      enabled := true;
      player := Profile("", Some(""), Details(None, Some(""), None, Some(""), None, None), Some(""));
      form := FormValue(Some(""), Some(""), Some(""), Some(""), Some(""), Some(""), Some(""), Some(""));
      loading := false;
      showError := false;
      playerRankingPosition := None;
      sent := [];
    }

    /** onPlayerSelected: the form is reset and the player is read. */
    method OnPlayerSelected()
      modifies this`loading, this`form
      ensures loading && form == ResetForm
    {
      loading := true;
      form := ResetForm;
    }

    /** The logged player's id as the player service publishes it. */
    method OnPlayerIdChanged(id: Option<string>)
      modifies this`loggedPlayerId
      ensures loggedPlayerId == id
    {
      loggedPlayerId := id;
    }

    /**
     * getPlayer's handlers: a found player fills the form, which is enabled
     * only for the logged player's own profile; loading ends in every case.
     */
    method OnPlayerRead(read: PlayerRead)
      modifies this`player, this`form, this`enabled, this`loading
      ensures !loading
      ensures read.Found? ==> player == read.profile && form == FillForm(read.profile)
      ensures read.Found? ==> enabled == CanEditProfile(loggedPlayerId, read.profile)
      ensures !read.Found? ==> player == old(player) && form == old(form) && enabled == old(enabled)
    {
      if read.Found? {
        player := read.profile;
        form := FillForm(read.profile);
        enabled := CanEditProfile(loggedPlayerId, read.profile);
      }
      loading := false;
    }

    /** onFocus */
    method OnFocus()
      modifies this`showError
      ensures !showError
    {
      showError := false;
    }

    /** loadPlayerRankingPosition's handlers; a failed read is `None`. */
    method OnRankingsRead(rankings: Option<seq<RankRow>>)
      modifies this`playerRankingPosition
      ensures playerRankingPosition == RankingPosition(rankings, player.id)
    {
      playerRankingPosition := RankingPosition(rankings, player.id);
    }

    /** A control edited by the user. */
    method EditForm(f: FormValue)
      modifies this`form
      ensures form == f
    {
      form := f;
    }

    /** savePlayerChanges: the payload is sent only when the profile can be edited. */
    method SavePlayerChanges()
      modifies this`sent
      ensures var r := SavePayload(loggedPlayerId, player, form);
        sent == old(sent) + (if r.Some? then [r.value] else [])
    {
      var r := SavePayload(loggedPlayerId, player, form);
      if r.Some? {
        sent := sent + [r.value];
      }
    }

    /**
     * onBlur: the name is required, and a disabled form is never valid and
     * reports no errors; a valid form for which hasChanges (as written)
     * holds is saved and the error hidden. An unedited form sends nothing
     * only for a player whose every field is set.
     */
    method OnBlur()
      modifies this`showError, this`sent
      ensures var save := enabled && Truthy(form.name) && HasChangesAsWritten(Some(player), form);
        var r := SavePayload(loggedPlayerId, player, form);
        sent == old(sent) + (if save && r.Some? then [r.value] else []) &&
        showError == (enabled && !Truthy(form.name))
      ensures form == FillForm(player) && !SpuriousChange(player) ==> sent == old(sent)
    {
      UneditedFormChangedAsWritten(player);
      showError := enabled && !Truthy(form.name);
      if enabled && Truthy(form.name) && HasChangesAsWritten(Some(player), form) {
        SavePlayerChanges();
        showError := false;
      }
    }
  }
}
