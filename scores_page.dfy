/**
 * The scores page: it lists the groups that have a leaderboard in the
 * current round, selects the logged-in player's group (or the first one),
 * and loads that group's matches into the shared match service, with a
 * congratulation message once every match has a result.
 */
module ScoresPage {
  import opened JsText
  import opened MatchRules
  import opened SelectItems
  import opened MatchService

  // ---------------------------------------------------------------------------
  // findUserGroup

  /** The two group fields of a player document. */
  datatype PlayerFields = PlayerFields(group: Option<string>, groupId: Option<string>)

  /** `playerService.getPlayer(email)`: a failed read, no player with that email (`null`), or the player. */
  datatype PlayerLookup = LookupError | NoSuchPlayer | Player(fields: PlayerFields)

  /** `player.group || player.groupId` */
  function PlayerGroup(p: PlayerFields): (g: Option<string>)
    ensures Truthy(p.group) ==> g == p.group
    ensures !Truthy(p.group) ==> g == p.groupId
  {
    if Truthy(p.group) then p.group else p.groupId
  }

  /** The index of the first group whose value or name is `key`, or -1. */
  function FindGroupFrom(groups: seq<SelectItem>, key: string, from: nat): (k: int)
    requires from <= |groups|
    ensures k == -1 <==> forall i :: from <= i < |groups| ==> groups[i].value != key && groups[i].name != key
    ensures k != -1 ==> from <= k < |groups| && (groups[k].value == key || groups[k].name == key)
    ensures k != -1 ==> forall i :: from <= i < k ==> groups[i].value != key && groups[i].name != key
    decreases |groups| - from
  {
    if from == |groups| then -1
    else if groups[from].value == key || groups[from].name == key then from
    else FindGroupFrom(groups, key, from + 1)
  }

  /** The group chosen for a player that was found: theirs when it is listed, else the first. */
  function UserGroup(groups: seq<SelectItem>, p: PlayerFields): SelectItem
    requires |groups| > 0
  {
    var pg := PlayerGroup(p);
    if Truthy(pg) then
      var k := FindGroupFrom(groups, pg.value, 0);
      if k == -1 then groups[0] else groups[k]
    else groups[0]
  }

  /**
   * The player's group is selected when some listed group carries it as
   * value or name (the first such group); otherwise the first group.
   */
  lemma UserGroupFacts(groups: seq<SelectItem>, p: PlayerFields)
    requires |groups| > 0
    ensures UserGroup(groups, p) in groups
    ensures var pg := PlayerGroup(p);
      (Truthy(pg) && exists i :: 0 <= i < |groups| && (groups[i].value == pg.value || groups[i].name == pg.value)) ==>
      (UserGroup(groups, p).value == pg.value || UserGroup(groups, p).name == pg.value)
    ensures var pg := PlayerGroup(p);
      (!Truthy(pg) || forall i :: 0 <= i < |groups| ==> groups[i].value != pg.value && groups[i].name != pg.value) ==>
      UserGroup(groups, p) == groups[0]
  {
  }

  /**
   * findUserGroup's `next`/`error` handlers as written: `player.group` is
   * read before the `player &&` guard, so a lookup that finds no player
   * throws and selects nothing (`None`).
   */
  function ChosenGroupAsWritten(groups: seq<SelectItem>, lookup: PlayerLookup): Option<SelectItem>
    requires |groups| > 0
  {
    match lookup
    case LookupError => Some(groups[0])
    case NoSuchPlayer => None
    case Player(p) => Some(UserGroup(groups, p))
  }

  /** With no player for the email, the handler as written ends without a selection. */
  lemma NoPlayerSelectsNothing(groups: seq<SelectItem>)
    requires |groups| > 0
    ensures ChosenGroupAsWritten(groups, NoSuchPlayer).None?
  {
  }

  /** The intended choice: a missing player falls back to the first group, like a player without group. */
  function ChosenGroup(groups: seq<SelectItem>, lookup: PlayerLookup): (g: SelectItem)
    requires |groups| > 0
    ensures g in groups
    ensures lookup.Player? ==> g == UserGroup(groups, lookup.fields)
    ensures !lookup.Player? ==> g == groups[0]
    ensures ChosenGroupAsWritten(groups, lookup).Some? ==> ChosenGroupAsWritten(groups, lookup) == Some(g)
  {
    UserGroupFacts(groups, PlayerFields(None, None));
    match lookup
    case Player(p) => UserGroupFacts(groups, p); UserGroup(groups, p)
    case _ => groups[0]
  }

  // ---------------------------------------------------------------------------
  // loadMatchesForGroup

  /** `matchesData.every(m => m.player1.score !== "-" && m.player2.score !== "-")` */
  predicate AllCompleted(ms: seq<Match>)
  {
    forall i :: 0 <= i < |ms| ==> IsCompleted(ms[i])
  }

  /** Every match has a result exactly when the service's pending list is empty. */
  lemma AllCompletedNoPending(ms: seq<Match>)
    ensures AllCompleted(ms) <==> PendingMatches(ms) == []
  {
    FilterNone(ms, IsPending);
  }

  /** The message the page leaves once a group's matches arrived. */
  function ArrivedMessage(ms: seq<Match>): (m: string)
    ensures m == CongratulationsMessage <==> AllCompleted(ms)
    ensures m != CongratulationsMessage ==> m == ""
  {
    if AllCompleted(ms) then CongratulationsMessage else ""
  }

  class ScoresComponent {
    var groups: seq<SelectItem>
    var groupsLoading: bool
    var selectedGroup: Option<SelectItem>
    /** The group whose matches the page is subscribed to. */
    var subscribed: Option<string>
    const service: MatchService

    /** The constructor followed by ngOnInit: the shared list is emptied and marked loading. */
    constructor(service: MatchService)
      modifies service
      ensures this.service == service
      ensures groups == [] && groupsLoading && selectedGroup.None? && subscribed.None?
      ensures service.currentMatches == [] && service.message == "" && service.loading
      ensures service.currentGroupId == old(service.currentGroupId)
    {
      this.service := service;
      groups := [];
      groupsLoading := true;
      selectedGroup := None;
      subscribed := None;
      new;
      service.SetMatchesForGroup([]);
      service.SetMatchesMessage("");
      service.SetMatchesLoading(true);
    }

    /**
     * loadMatchesForGroup: nothing for a null group; otherwise the shared
     * list is cleared and a load of that group's matches starts.
     */
    method LoadMatchesForGroup(group: Option<SelectItem>)
      modifies this`subscribed, service
      ensures group.None? ==> subscribed == old(subscribed) && unchanged(service)
      ensures group.Some? ==> subscribed == Some(group.value.value)
      ensures group.Some? ==>
        service.currentMatches == [] && service.message == "" && service.loading &&
        service.currentGroupId == Some(group.value.value)
    {
      if group.None? {
        return;
      }
      subscribed := None;
      service.SetMatchesForGroup([]);
      service.SetMatchesMessage("");
      service.SetMatchesLoading(true);
      service.StartMatchesLoad(group.value.value);
      subscribed := Some(group.value.value);
    }

    /** onGroupSelected */
    method OnGroupSelected(group: SelectItem)
      modifies this`selectedGroup, this`subscribed, service
      ensures selectedGroup == Some(group) && subscribed == Some(group.value)
      ensures service.currentMatches == [] && service.message == "" && service.loading
      ensures service.currentGroupId == Some(group.value)
    {
      selectedGroup := Some(group);
      LoadMatchesForGroup(selectedGroup);
    }

    /**
     * loadGroupsAndSetUserGroup's handler. With groups and no user email
     * the first group is selected and loaded; with an email the page waits
     * for the player lookup (`awaitsPlayer`). Without groups loading ends
     * and nothing is selected.
     */
    method OnGroupsLoaded(gs: seq<SelectItem>, userEmail: Option<string>) returns (awaitsPlayer: bool)
      modifies this`groups, this`groupsLoading, this`selectedGroup, this`subscribed, service
      ensures groups == gs && !groupsLoading
      ensures awaitsPlayer <==> |gs| > 0 && Truthy(userEmail)
      ensures |gs| == 0 ==>
        selectedGroup == old(selectedGroup) && subscribed == old(subscribed) && !service.loading &&
        service.currentMatches == old(service.currentMatches) && service.message == old(service.message)
      ensures |gs| > 0 && !Truthy(userEmail) ==>
        selectedGroup == Some(gs[0]) && subscribed == Some(gs[0].value) &&
        service.currentMatches == [] && service.loading
      ensures awaitsPlayer ==> selectedGroup == old(selectedGroup) && unchanged(service)
    {
      groups := gs;
      groupsLoading := false;
      awaitsPlayer := false;
      if |gs| > 0 {
        if !Truthy(userEmail) {
          selectedGroup := Some(gs[0]);
          LoadMatchesForGroup(selectedGroup);
        } else {
          awaitsPlayer := true;
        }
      } else {
        service.SetMatchesLoading(false);
      }
    }

    /**
     * findUserGroup's handlers once the player lookup answered, as written: a
     * found player or a failed lookup selects and loads a group; a lookup that
     * yields no player throws inside `next`, so nothing is selected, nothing
     * is loaded and the shared list keeps its loading state.
     */
    method OnPlayerLookup(lookup: PlayerLookup)
      requires |groups| > 0
      modifies this`selectedGroup, this`subscribed, service
      ensures ChosenGroupAsWritten(groups, lookup).None? ==>
        selectedGroup == old(selectedGroup) && subscribed == old(subscribed) && unchanged(service)
      ensures ChosenGroupAsWritten(groups, lookup).Some? ==>
        selectedGroup == Some(ChosenGroup(groups, lookup)) && subscribed == Some(ChosenGroup(groups, lookup).value) &&
        service.currentMatches == [] && service.loading
    {
      var chosen := ChosenGroupAsWritten(groups, lookup);
      if chosen.None? {
        return;
      }
      selectedGroup := Some(ChosenGroup(groups, lookup));
      LoadMatchesForGroup(selectedGroup);
    }

    /**
     * The subscription's `next`, after the service's own bookkeeping: the
     * matches are published, the congratulation message is set exactly when
     * every match has a result, and loading ends. A failed read only goes
     * through the service's error path.
     */
    method OnMatchesArrived(result: Result<seq<Match>>)
      requires subscribed.Some?
      modifies service
      ensures result.Ok? ==> service.currentMatches == result.value
      ensures result.Ok? ==> service.message == ArrivedMessage(result.value)
      ensures result.Failure? ==> service.currentMatches == [] && service.message == LoadErrorMessage
      ensures !service.loading && service.currentGroupId == old(service.currentGroupId)
    {
      service.OnMatchesLoaded(result);
      if result.Ok? {
        var ms := result.value;
        if |ms| == 0 {
          service.SetMatchesForGroup([]);
        } else {
          service.SetMatchesMessage(ArrivedMessage(ms));
          service.SetMatchesForGroup(ms);
        }
        service.SetMatchesLoading(false);
      }
    }
  }
}
