/**
 * A league match and the rules that judge its score: which results the
 * score modal accepts, who wins, and how the bulk import decides a winner.
 */
module MatchRules {
  import opened JsText

  /** A player's score: games won, a walkover ("W.O") or not played yet ("-"). */
  datatype Score = Games(n: int) | WO | NotPlayed

  /** One side of a match: the player and the score recorded for them. */
  datatype Slot = Slot(id: string, name: string, score: Score)

  datatype Match = Match(
    id: string,
    groupId: string,
    roundId: string,
    player1: Slot,
    player2: Slot,
    winnerId: Option<string>)

  /**
   * JavaScript's `a > b` on two scores: numbers compare as numbers, the two
   * markers compare as strings ("W.O" > "-"), and a number against a marker
   * compares against NaN, which is never greater.
   */
  predicate Greater(a: Score, b: Score)
  {
    match (a, b)
    case (Games(x), Games(y)) => x > y
    case (WO, NotPlayed) => true
    case _ => false
  }

  /**
   * Whether the modal accepts a result: a double walkover, a walkover
   * against a 6, a set won 6-0 to 6-4, or a set won 7-5 or 7-6.
   */
  function IsValidScore(s1: Score, s2: Score): (ok: bool)
    ensures ok && (s1 == WO || s2 == WO) ==>
      (s1 == WO && s2 == WO) || s1 == Games(6) || s2 == Games(6)
    ensures ok && s1 != WO && s2 != WO ==> s1.Games? && s2.Games? && s1.n != s2.n
    ensures s1 == WO && s2 == WO ==> ok
  {
    if s1 == WO || s2 == WO then
      if s1 == WO && s2 == WO then true
      else if s1 == WO then s2 == Games(6)
      else s1 == Games(6)
    else if s1.Games? && s2.Games? then
      var hi := if s1.n >= s2.n then s1.n else s2.n;
      var lo := if s1.n >= s2.n then s2.n else s1.n;
      (hi == 6 && 0 <= lo <= 4) || (hi == 7 && (lo == 5 || lo == 6))
    else false
  }

  /** The finished one-set results, listed out. */
  const FinishedSets: set<(int, int)> :=
    {(6, 0), (6, 1), (6, 2), (6, 3), (6, 4), (7, 5), (7, 6),
     (0, 6), (1, 6), (2, 6), (3, 6), (4, 6), (5, 7), (6, 7)}

  /** A numeric result is accepted exactly when it is one of the finished sets. */
  lemma NumericValidScores(a: int, b: int)
    ensures IsValidScore(Games(a), Games(b)) <==> (a, b) in FinishedSets
  {
  }

  /** A walkover result is accepted exactly against a 6 or another walkover. */
  lemma WalkoverValidScores(s: Score)
    ensures IsValidScore(WO, s) <==> s == WO || s == Games(6)
    ensures IsValidScore(s, WO) <==> s == WO || s == Games(6)
  {
  }

  lemma ValidScoreSymmetric(s1: Score, s2: Score)
    ensures IsValidScore(s1, s2) == IsValidScore(s2, s1)
  {
  }

  /** A result that never happened ("-" on either side) is not accepted. */
  lemma NotPlayedInvalid(s: Score)
    ensures !IsValidScore(NotPlayed, s) && !IsValidScore(s, NotPlayed)
  {
  }

  /**
   * The winner the modal records: the side with the greater score, else the
   * opponent of a walkover; "" when a player id is missing or nobody wins.
   */
  function WinnerPlayer(s1: Score, s2: Score, p1: string, p2: string): (w: string)
    ensures w == "" || w == p1 || w == p2
    ensures p1 == "" || p2 == "" ==> w == ""
    ensures p1 != "" && p2 != "" && Greater(s1, s2) ==> w == p1
    ensures p1 != "" && p2 != "" && !Greater(s1, s2) && Greater(s2, s1) ==> w == p2
    ensures p1 != "" && p2 != "" && !Greater(s1, s2) && !Greater(s2, s1) ==>
      w == (if s1 == WO then p2 else if s2 == WO then p1 else "")
  {
    if p1 != "" && p2 != "" then
      if Greater(s1, s2) then p1
      else if Greater(s2, s1) then p2
      else if s1 == WO then p2
      else if s2 == WO then p1
      else ""
    else ""
  }

  /** On numbers the winner is the side with more games, and a draw has no winner. */
  lemma WinnerOfGames(a: int, b: int, p1: string, p2: string)
    requires p1 != "" && p2 != ""
    ensures WinnerPlayer(Games(a), Games(b), p1, p2) ==
      (if a > b then p1 else if b > a then p2 else "")
  {
  }

  /** A walkover against a number always gives the match to the number's side. */
  lemma WinnerOfWalkover(n: int, p1: string, p2: string)
    requires p1 != "" && p2 != ""
    ensures WinnerPlayer(WO, Games(n), p1, p2) == p2
    ensures WinnerPlayer(Games(n), WO, p1, p2) == p1
  {
  }

  /**
   * Every accepted result has a winner, and swapping the sides swaps the
   * winner, except a double walkover, which goes to the second player
   * whichever way round the players are listed.
   */
  lemma {:induction false} ValidScoreHasWinner(s1: Score, s2: Score, p1: string, p2: string)
    requires p1 != "" && p2 != "" && p1 != p2
    requires IsValidScore(s1, s2)
    ensures WinnerPlayer(s1, s2, p1, p2) != ""
    ensures !(s1 == WO && s2 == WO) ==> WinnerPlayer(s2, s1, p2, p1) == WinnerPlayer(s1, s2, p1, p2)
    ensures s1 == WO && s2 == WO ==>
      WinnerPlayer(s1, s2, p1, p2) == p2 && WinnerPlayer(s2, s1, p2, p1) == p1
  {
    if s1 == WO || s2 == WO {
      WalkoverValidScores(s1);
      WalkoverValidScores(s2);
    } else {
      assert s1.Games? && s2.Games? && s1.n != s2.n;
    }
  }

  // ---------------------------------------------------------------------------
  // Bulk import of results

  /**
   * An imported result (a number, "W.O" or null) is oriented to the stored
   * match's player order, and a winner is named only when both sides are
   * numbers and differ: the larger side's stored player.
   */
  datatype Imported = Imported(score1: Option<Score>, score2: Option<Score>, winnerId: string)

  function ImportResult(stored: Match, p1Id: string, s1: Option<Score>, s2: Option<Score>): (r: Imported)
    ensures stored.player1.id == p1Id ==> r.score1 == s1 && r.score2 == s2
    ensures stored.player1.id != p1Id ==> r.score1 == s2 && r.score2 == s1
    ensures r.winnerId != "" ==>
      r.score1.Some? && r.score1.value.Games? && r.score2.Some? && r.score2.value.Games? &&
      r.score1.value.n != r.score2.value.n
  {
    var score1 := if stored.player1.id == p1Id then s1 else s2;
    var score2 := if stored.player1.id == p1Id then s2 else s1;
    var winner :=
      if score1.Some? && score1.value.Games? && score2.Some? && score2.value.Games? then
        if score1.value.n > score2.value.n then stored.player1.id
        else if score2.value.n > score1.value.n then stored.player2.id
        else ""
      else "";
    Imported(score1, score2, winner)
  }

  /**
   * The imported winner does not depend on which way round the match was
   * stored: the player whose imported games are larger wins.
   */
  lemma ImportWinnerOrientation(stored: Match, p1Id: string, p2Id: string, a: int, b: int)
    requires p1Id != p2Id
    requires (stored.player1.id == p1Id && stored.player2.id == p2Id) ||
             (stored.player1.id == p2Id && stored.player2.id == p1Id)
    ensures ImportResult(stored, p1Id, Some(Games(a)), Some(Games(b))).winnerId ==
      (if a > b then p1Id else if b > a then p2Id else "")
  {
  }

  /** A walkover or a missing score in the import never names a winner. */
  lemma ImportWalkoverNoWinner(stored: Match, p1Id: string, s: Option<Score>)
    ensures ImportResult(stored, p1Id, Some(WO), s).winnerId == ""
    ensures ImportResult(stored, p1Id, None, s).winnerId == ""
  {
  }
}
