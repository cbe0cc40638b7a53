/**
 * The "completed matches" tab of the score screen: it lists the group's
 * finished matches and lets a result be corrected, refusing a double
 * walkover unless one side had already given a walkover.
 */
module CompletedPage {
  import opened JsText
  import opened MatchRules
  import opened MatchService
  import opened SaveDispatch

  const NoMatchesMessage: string := "Nenhuma partida realizada! ❌ "

  /**
   * handleSaveMatch's guard: a save that turns both sides into "W.O" is let
   * through only when exactly one side of the listed match was already
   * "W.O" (the other player now gives a walkover as well).
   */
  function GuardAllows(current: Option<Match>, u: Match): (ok: bool)
    ensures !ok <==>
      (current.Some? && u.player1.score == WO && u.player2.score == WO &&
       (current.value.player1.score == WO) == (current.value.player2.score == WO))
  {
    if current.Some? && u.player1.score == WO && u.player2.score == WO then
      var wasWO1 := current.value.player1.score == WO;
      var wasWO2 := current.value.player2.score == WO;
      (wasWO1 && !wasWO2) || (wasWO2 && !wasWO1)
    else true
  }

  /** Only double walkovers are ever refused. */
  lemma GuardOnlyStopsDoubleWalkovers(current: Option<Match>, u: Match)
    requires u.player1.score != WO || u.player2.score != WO
    ensures GuardAllows(current, u)
  {
  }

  class CompletedComponent {
    var matches: seq<Match>
    var isOpenModal: bool
    var selectedMatch: Option<Match>
    var message: string
    var loading: bool

    constructor()
      ensures matches == [] && !isOpenModal && selectedMatch == None && message == "" && !loading
    {
      matches := [];
      isOpenModal := false;
      selectedMatch := None;
      message := "";
      loading := false;
    }

    /** The service's list changed: show its completed matches, or the empty-list message. */
    method OnMatchesChanged(service: MatchService)
      modifies this
      ensures matches == CompletedMatches(service.currentMatches)
      ensures message == (if matches == [] then NoMatchesMessage else "")
      ensures isOpenModal == old(isOpenModal) && selectedMatch == old(selectedMatch)
      ensures loading == old(loading)
    {
      matches := CompletedMatches(service.currentMatches);
      if |matches| == 0 {
        message := NoMatchesMessage;
      } else {
        message := "";
      }
    }

    method OnLoadingChanged(service: MatchService)
      modifies this
      ensures loading == service.loading
      ensures matches == old(matches) && message == old(message)
      ensures isOpenModal == old(isOpenModal) && selectedMatch == old(selectedMatch)
    {
      loading := service.loading;
    }

    method OpenModal(m: Match)
      modifies this
      ensures selectedMatch == Some(m) && isOpenModal
      ensures matches == old(matches) && message == old(message) && loading == old(loading)
    {
      selectedMatch := Some(m);
      isOpenModal := true;
    }

    method HandleCloseModal()
      modifies this
      ensures !isOpenModal && selectedMatch == None
      ensures matches == old(matches) && message == old(message) && loading == old(loading)
    {
      isOpenModal := false;
      selectedMatch := None;
    }

    /**
     * Saving the modal's match: with no current group, or when the guard
     * refuses, nothing is written. Otherwise the dispatched record is
     * written (`written` names the group and the record); when the write
     * succeeds the listed entries with that id take the screen's copy of the
     * match and the modal closes, and when it fails nothing changes.
     */
    method HandleSaveMatch(service: MatchService, updated: Match, writeOk: bool)
      returns (written: Option<(string, Match)>)
      modifies this
      ensures !Truthy(service.currentGroupId) ==> written == None && unchanged(this)
      ensures Truthy(service.currentGroupId) && !GuardAllows(FindById(old(matches), updated.id), updated) ==>
        written == None && unchanged(this)
      ensures Truthy(service.currentGroupId) && GuardAllows(FindById(old(matches), updated.id), updated) ==>
        written == Some((service.currentGroupId.value, Written(updated)))
      ensures written.Some? && writeOk ==>
        matches == ReplaceById(old(matches), LocalCopy(updated)) && !isOpenModal && selectedMatch == None &&
        message == old(message) && loading == old(loading)
      ensures written.Some? && !writeOk ==> unchanged(this)
    {
      if !Truthy(service.currentGroupId) {
        return None;
      }
      var groupId := service.currentGroupId.value;
      var currentMatch := FindById(matches, updated.id);
      if currentMatch.Some? {
        var isWO1 := updated.player1.score == WO;
        var isWO2 := updated.player2.score == WO;
        if isWO1 && isWO2 {
          var wasWO1 := currentMatch.value.player1.score == WO;
          var wasWO2 := currentMatch.value.player2.score == WO;
          if wasWO1 && !wasWO2 {
          } else if wasWO2 && !wasWO1 {
          } else {
            return None;
          }
        }
      }
      var op := Dispatch(updated);
      var record: Match;
      if op.SetWO? {
        DispatchedWOSucceeds(updated);
        record := SetWOForMatch(updated, op.woPlayerId).value;
      } else {
        record := updated;
      }
      written := Some((groupId, record));
      if writeOk {
        matches := ReplaceById(matches, LocalCopy(updated));
        HandleCloseModal();
      }
    }
  }
}
