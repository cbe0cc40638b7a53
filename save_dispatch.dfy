/**
 * What the score screens do with the match the modal emits: a walkover on
 * either side goes through the service's walkover rewrite, anything else is
 * written as it is; on success the screen's own list takes the new match.
 */
module SaveDispatch {
  import opened JsText
  import opened MatchRules
  import MatchService

  datatype Operation = SetWO(woPlayerId: string) | UpdateMatch

  /** Player 1's walkover is handled first, then player 2's. */
  function Dispatch(u: Match): (op: Operation)
    ensures u.player1.score == WO ==> op == SetWO(u.player1.id)
    ensures u.player1.score != WO && u.player2.score == WO ==> op == SetWO(u.player2.id)
    ensures op == UpdateMatch <==> u.player1.score != WO && u.player2.score != WO
  {
    if u.player1.score == WO then SetWO(u.player1.id)
    else if u.player2.score == WO then SetWO(u.player2.id)
    else UpdateMatch
  }

  /** The walkover branch always names a player of the match, so the rewrite cannot fail. */
  lemma DispatchedWOSucceeds(u: Match)
    requires Dispatch(u).SetWO?
    ensures MatchService.SetWOForMatch(u, Dispatch(u).woPlayerId).Ok?
  {
  }

  /** The record the store receives for the emitted match. */
  function Written(u: Match): (w: Match)
    ensures w.id == u.id && w.groupId == u.groupId && w.roundId == u.roundId
    ensures Dispatch(u) == UpdateMatch ==> w == u
    ensures Dispatch(u).SetWO? ==> w == MatchService.SetWOForMatch(u, Dispatch(u).woPlayerId).value
  {
    match Dispatch(u)
    case UpdateMatch => u
    case SetWO(id) => MatchService.SetWOForMatch(u, id).value
  }

  /**
   * The screen's copy of the emitted match once the write succeeded: the
   * walkover rewrite changed the scores of the very player objects the
   * screen holds, but not its winner.
   */
  function LocalCopy(u: Match): (v: Match)
    ensures v.id == u.id && v.player1 == Written(u).player1 && v.player2 == Written(u).player2
    ensures v.winnerId == u.winnerId
  {
    match Dispatch(u)
    case UpdateMatch => u
    case SetWO(_) => MatchService.CallerViewAfterWO(u, Written(u))
  }

  /** A walkover save always leaves a result the modal would accept, in the store and on screen. */
  lemma WalkoverSaveIsValid(u: Match)
    requires Dispatch(u).SetWO?
    ensures IsValidScore(Written(u).player1.score, Written(u).player2.score)
    ensures IsValidScore(LocalCopy(u).player1.score, LocalCopy(u).player2.score)
  {
    MatchService.SetWOValid(u, Dispatch(u).woPlayerId);
  }

  /**
   * A double walkover saved from the modal reaches the store without a
   * winner, while the screen keeps the modal's winner: the second player.
   */
  lemma DoubleWalkoverWinners(u: Match)
    requires u.player1.score == WO && u.player2.score == WO
    requires u.player1.id != "" && u.player2.id != ""
    requires u.winnerId == Some(WinnerPlayer(WO, WO, u.player1.id, u.player2.id))
    ensures Written(u).winnerId == Some("")
    ensures LocalCopy(u).winnerId == Some(u.player2.id)
  {
  }

  /** `ms[i]` is the first match of the list carrying `id`. */
  predicate FirstById(ms: seq<Match>, i: int, id: string)
  {
    0 <= i < |ms| && ms[i].id == id && forall j :: 0 <= j < i ==> ms[j].id != id
  }

  /** The first match of the list with the given id (Array.prototype.find). */
  function FindById(ms: seq<Match>, id: string): (r: Option<Match>)
    ensures r.None? <==> forall i :: 0 <= i < |ms| ==> ms[i].id != id
    ensures r.Some? ==> r.value in ms && r.value.id == id
    ensures r.Some? ==> exists i :: FirstById(ms, i, id) && ms[i] == r.value
  {
    if ms == [] then None
    else if ms[0].id == id then Some(ms[0])
    else
      var r := FindById(ms[1..], id);
      assert forall i :: 1 <= i < |ms| ==> ms[i] == ms[1..][i - 1];
      if r.Some? then
        var k :| FirstById(ms[1..], k, id) && ms[1..][k] == r.value;
        assert FirstById(ms, k + 1, id) && ms[k + 1] == r.value;
        r
      else r
  }

  /** Every entry with the id of `v` becomes `v`; the rest of the list is untouched. */
  function ReplaceById(ms: seq<Match>, v: Match): (r: seq<Match>)
    ensures |r| == |ms|
    ensures forall i :: 0 <= i < |ms| ==> r[i] == (if ms[i].id == v.id then v else ms[i])
  {
    seq(|ms|, i requires 0 <= i < |ms| => if ms[i].id == v.id then v else ms[i])
  }

  /** Replacing a match that is not listed changes nothing; replacing twice is replacing once. */
  lemma ReplaceByIdFacts(ms: seq<Match>, v: Match)
    ensures (forall i :: 0 <= i < |ms| ==> ms[i].id != v.id) ==> ReplaceById(ms, v) == ms
    ensures ReplaceById(ReplaceById(ms, v), v) == ReplaceById(ms, v)
    ensures FindById(ms, v.id).Some? ==> FindById(ReplaceById(ms, v), v.id) == Some(v)
  {
    var r := ReplaceById(ms, v);
    if FindById(ms, v.id).Some? {
      var f := FindById(r, v.id);
      assert f.Some?;
    }
  }
}
