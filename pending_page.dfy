/**
 * The "pending matches" tab of the score screen: it lists the group's
 * matches still to be played, lets either of their players enter a result,
 * and shows the service's message.
 */
module PendingPage {
  import opened JsText
  import opened MatchRules
  import opened MatchService
  import opened SaveDispatch

  class PendingComponent {
    var loggedPlayerId: Option<string>
    var matches: seq<Match>
    var isOpenModal: bool
    var selectedMatch: Option<Match>
    var message: string
    var loading: bool

    constructor()
      ensures loggedPlayerId == None && matches == [] && !isOpenModal && selectedMatch == None
      ensures message == "" && !loading
    {
      loggedPlayerId := None;
      matches := [];
      isOpenModal := false;
      selectedMatch := None;
      message := "";
      loading := false;
    }

    method OnLoggedPlayer(id: Option<string>)
      modifies this
      ensures loggedPlayerId == id
      ensures matches == old(matches) && message == old(message) && loading == old(loading)
      ensures isOpenModal == old(isOpenModal) && selectedMatch == old(selectedMatch)
    {
      loggedPlayerId := id;
    }

    /** The service's list changed: show its pending matches. */
    method OnMatchesChanged(service: MatchService)
      modifies this
      ensures matches == PendingMatches(service.currentMatches)
      ensures loggedPlayerId == old(loggedPlayerId) && message == old(message) && loading == old(loading)
      ensures isOpenModal == old(isOpenModal) && selectedMatch == old(selectedMatch)
    {
      matches := PendingMatches(service.currentMatches);
    }

    /** The tab shows the service's loading flag and message as they change. */
    method OnServiceStatus(service: MatchService)
      modifies this
      ensures loading == service.loading && message == service.message
      ensures loggedPlayerId == old(loggedPlayerId) && matches == old(matches)
      ensures isOpenModal == old(isOpenModal) && selectedMatch == old(selectedMatch)
    {
      loading := service.loading;
      message := service.message;
    }

    method OpenModal(m: Match)
      modifies this
      ensures selectedMatch == Some(m) && isOpenModal
      ensures loggedPlayerId == old(loggedPlayerId) && matches == old(matches)
      ensures message == old(message) && loading == old(loading)
    {
      selectedMatch := Some(m);
      isOpenModal := true;
    }

    method HandleCloseModal()
      modifies this
      ensures !isOpenModal && selectedMatch == None
      ensures loggedPlayerId == old(loggedPlayerId) && matches == old(matches)
      ensures message == old(message) && loading == old(loading)
    {
      isOpenModal := false;
      selectedMatch := None;
    }

    /** Only a player of the match may enter its result. */
    function CanEditMatch(m: Match): (ok: bool)
      reads this
      ensures ok <==>
        (loggedPlayerId.Some? && (loggedPlayerId.value == m.player1.id || loggedPlayerId.value == m.player2.id))
      ensures loggedPlayerId.None? ==> !ok
    {
      loggedPlayerId == Some(m.player1.id) || loggedPlayerId == Some(m.player2.id)
    }

    /**
     * Saving the modal's match: with no current group nothing is written.
     * Otherwise the dispatched record is written (`written` names the group
     * and the record); when the write succeeds the listed entries with that
     * id take the screen's copy and the modal closes, and when it fails
     * nothing changes.
     */
    method HandleSaveMatch(service: MatchService, updated: Match, writeOk: bool)
      returns (written: Option<(string, Match)>)
      modifies this
      ensures !Truthy(service.currentGroupId) ==> written == None && unchanged(this)
      ensures Truthy(service.currentGroupId) ==>
        written == Some((service.currentGroupId.value, Written(updated)))
      ensures written.Some? && writeOk ==>
        matches == ReplaceById(old(matches), LocalCopy(updated)) && !isOpenModal && selectedMatch == None &&
        loggedPlayerId == old(loggedPlayerId) && message == old(message) && loading == old(loading)
      ensures written.Some? && !writeOk ==> unchanged(this)
    {
      if Truthy(service.currentGroupId) {
        var groupId := service.currentGroupId.value;
        var op := Dispatch(updated);
        var record: Match;
        if op.SetWO? {
          DispatchedWOSucceeds(updated);
          record := SetWOForMatch(updated, op.woPlayerId).value;
        } else {
          record := updated;
        }
        written := Some((groupId, record));
        if writeOk {
          matches := ReplaceById(matches, LocalCopy(updated));
          HandleCloseModal();
        }
      } else {
        written := None;
      }
    }
  }
}
