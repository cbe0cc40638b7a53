/**
 * The match service: the list of the selected group's matches the score
 * screens share, its pending/completed split, the walkover rewrite and the
 * bookkeeping done when a group's matches arrive.
 */
module MatchService {
  import opened JsText
  import opened MatchRules

  /** A match still to be played: either side still reads "-". */
  predicate IsPending(m: Match)
  {
    m.player1.score == NotPlayed || m.player2.score == NotPlayed
  }

  predicate IsCompleted(m: Match)
  {
    m.player1.score != NotPlayed && m.player2.score != NotPlayed
  }

  function PendingMatches(ms: seq<Match>): (r: seq<Match>)
    ensures forall i :: 0 <= i < |r| ==> IsPending(r[i]) && r[i] in ms
    ensures forall i :: 0 <= i < |ms| && IsPending(ms[i]) ==> ms[i] in r
  {
    Filter(ms, IsPending)
  }

  function CompletedMatches(ms: seq<Match>): (r: seq<Match>)
    ensures forall i :: 0 <= i < |r| ==> IsCompleted(r[i]) && r[i] in ms
    ensures forall i :: 0 <= i < |ms| && IsCompleted(ms[i]) ==> ms[i] in r
  {
    Filter(ms, IsCompleted)
  }

  /** Every match is in exactly one of the two lists, and each keeps the group's order. */
  lemma PendingCompletedPartition(ms: seq<Match>)
    ensures multiset(PendingMatches(ms)) + multiset(CompletedMatches(ms)) == multiset(ms)
    ensures |PendingMatches(ms)| + |CompletedMatches(ms)| == |ms|
    ensures IsSubsequence(PendingMatches(ms), ms) && IsSubsequence(CompletedMatches(ms), ms)
    ensures forall m :: !(IsPending(m) && IsCompleted(m))
  {
    FilterPartition(ms, IsPending, IsCompleted);
    FilterIsSubsequence(ms, IsPending);
    FilterIsSubsequence(ms, IsCompleted);
  }

  const WrongPlayerError: string := "Jogador não faz parte da partida."

  /**
   * The record setWOForMatch writes when `woPlayerId` gives a walkover: that
   * side becomes "W.O"; the opponent gets 6 and the win, unless the opponent
   * was already "W.O", in which case both stay "W.O" and nobody wins. A
   * player outside the match is an error.
   */
  function SetWOForMatch(m: Match, woPlayerId: string): (r: Result<Match>)
    ensures r.Failure? <==> m.player1.id != woPlayerId && m.player2.id != woPlayerId
    ensures r.Failure? ==> r.error == WrongPlayerError
    ensures r.Ok? ==>
      var u := r.value;
      u.id == m.id && u.groupId == m.groupId && u.roundId == m.roundId &&
      u.player1.id == m.player1.id && u.player1.name == m.player1.name &&
      u.player2.id == m.player2.id && u.player2.name == m.player2.name
    ensures r.Ok? && m.player1.id == woPlayerId ==>
      r.value.player1.score == WO &&
      r.value.player2.score == (if m.player2.score == WO then WO else Games(6)) &&
      r.value.winnerId == Some(if m.player2.score == WO then "" else m.player2.id)
    ensures r.Ok? && m.player1.id != woPlayerId ==>
      r.value.player2.score == WO &&
      r.value.player1.score == (if m.player1.score == WO then WO else Games(6)) &&
      r.value.winnerId == Some(if m.player1.score == WO then "" else m.player1.id)
  {
    var isPlayer1 := m.player1.id == woPlayerId;
    var isPlayer2 := m.player2.id == woPlayerId;
    if !isPlayer1 && !isPlayer2 then Failure(WrongPlayerError)
    else
      var opponent := if isPlayer1 then m.player2 else m.player1;
      var opponentAlreadyWO := opponent.score == WO;
      if isPlayer1 then
        Ok(m.(player1 := m.player1.(score := WO),
              player2 := m.player2.(score := if opponentAlreadyWO then WO else Games(6)),
              winnerId := Some(if opponentAlreadyWO then "" else m.player2.id)))
      else
        Ok(m.(player2 := m.player2.(score := WO),
              player1 := m.player1.(score := if opponentAlreadyWO then WO else Games(6)),
              winnerId := Some(if opponentAlreadyWO then "" else m.player1.id)))
  }

  /** A walkover always leaves a result the score modal accepts. */
  lemma SetWOValid(m: Match, woPlayerId: string)
    requires SetWOForMatch(m, woPlayerId).Ok?
    ensures IsValidScore(SetWOForMatch(m, woPlayerId).value.player1.score,
                         SetWOForMatch(m, woPlayerId).value.player2.score)
  {
  }

  /** Giving the same walkover twice writes the same record. */
  lemma SetWOIdempotent(m: Match, woPlayerId: string)
    requires SetWOForMatch(m, woPlayerId).Ok?
    ensures SetWOForMatch(SetWOForMatch(m, woPlayerId).value, woPlayerId) == SetWOForMatch(m, woPlayerId)
  {
  }

  /**
   * The service and the modal agree on the winner of a walkover, except
   * when both sides end up "W.O": the service records no winner while the
   * modal names the second player.
   */
  lemma SetWOWinnerAgreesWithModal(m: Match, woPlayerId: string)
    requires m.player1.id != "" && m.player2.id != "" && m.player1.id != m.player2.id
    requires SetWOForMatch(m, woPlayerId).Ok?
    ensures var u := SetWOForMatch(m, woPlayerId).value;
      !(u.player1.score == WO && u.player2.score == WO) ==>
        u.winnerId == Some(WinnerPlayer(u.player1.score, u.player2.score, u.player1.id, u.player2.id))
    ensures var u := SetWOForMatch(m, woPlayerId).value;
      u.player1.score == WO && u.player2.score == WO ==>
        u.winnerId == Some("") && WinnerPlayer(WO, WO, u.player1.id, u.player2.id) == u.player2.id
  {
  }

  /**
   * setWOForMatch copies the match shallowly, so the player objects of the
   * caller's match are the ones it rewrites: afterwards the caller sees the
   * new scores, but keeps its own winner.
   */
  function CallerViewAfterWO(caller: Match, written: Match): (v: Match)
    ensures v.player1 == written.player1 && v.player2 == written.player2
    ensures v.id == caller.id && v.groupId == caller.groupId && v.roundId == caller.roundId
    ensures v.winnerId == caller.winnerId
  {
    caller.(player1 := written.player1, player2 := written.player2)
  }

  /** The message shown when a group has no match left to list. */
  const CongratulationsMessage: string := "Parabéns! Jogos concluídos! ✅"
  const LoadErrorMessage: string := "Erro ao carregar partidas."

  class MatchService {
    var currentMatches: seq<Match>
    var loading: bool
    var message: string
    var currentGroupId: Option<string>

    constructor()
      ensures currentMatches == [] && !loading && message == "" && currentGroupId == None
    {
      currentMatches := [];
      loading := false;
      message := "";
      currentGroupId := None;
    }

    method SetMatchesForGroup(matches: seq<Match>)
      modifies this
      ensures currentMatches == matches
      ensures loading == old(loading) && message == old(message) && currentGroupId == old(currentGroupId)
    {
      currentMatches := matches;
    }

    method SetMatchesLoading(value: bool)
      modifies this
      ensures loading == value
      ensures currentMatches == old(currentMatches) && message == old(message)
      ensures currentGroupId == old(currentGroupId)
    {
      loading := value;
    }

    method SetMatchesMessage(value: string)
      modifies this
      ensures message == value
      ensures currentMatches == old(currentMatches) && loading == old(loading)
      ensures currentGroupId == old(currentGroupId)
    {
      message := value;
    }

    /** getMatchesByGroup, on subscription: the group becomes current and a load starts. */
    method StartMatchesLoad(groupId: string)
      modifies this
      ensures currentGroupId == Some(groupId) && loading && message == ""
      ensures currentMatches == old(currentMatches)
    {
      currentGroupId := Some(groupId);
      SetMatchesLoading(true);
      SetMatchesMessage("");
    }

    /**
     * getMatchesByGroup, when the group's matches arrive (or the read
     * fails): the list is replaced, loading ends, and an empty list or a
     * failure leaves its message.
     */
    method OnMatchesLoaded(result: Result<seq<Match>>)
      modifies this
      ensures currentMatches == (if result.Ok? then result.value else [])
      ensures !loading && currentGroupId == old(currentGroupId)
      ensures result.Ok? && result.value == [] ==> message == CongratulationsMessage
      ensures result.Ok? && result.value != [] ==> message == old(message)
      ensures result.Failure? ==> message == LoadErrorMessage
    {
      if result.Ok? {
        SetMatchesForGroup(result.value);
        SetMatchesLoading(false);
        if result.value == [] {
          SetMatchesMessage(CongratulationsMessage);
        }
      } else {
        SetMatchesForGroup([]);
        SetMatchesLoading(false);
        SetMatchesMessage(LoadErrorMessage);
      }
    }
  }
}
