/**
 * The score-entry modal: it takes the match being edited, lets the user
 * pick each side's games (0-7) or a walkover, enables its save button only
 * for an accepted result, and emits the updated match with the winner.
 */
module ConfirmationModal {
  import opened JsText
  import opened MatchRules
  import opened Players

  /** The score the modal starts from: a number or "W.O" is kept, "-" starts at 0. */
  function Initial(s: Score): (r: Score)
    ensures r != NotPlayed
    ensures s != NotPlayed ==> r == s
    ensures s == NotPlayed ==> r == Games(0)
  {
    if s.NotPlayed? then Games(0) else s
  }

  class ScoreModal {
    var matchInput: Option<Match>  // the `match` input
    var players: seq<PlayerRef>
    var score1updated: Score
    var score2updated: Score
    var activeButton: bool

    /** The save button is enabled exactly for an open match with an accepted result. */
    predicate ButtonConsistent()
      reads this
    {
      activeButton == (matchInput.Some? && IsValidScore(score1updated, score2updated))
    }

    constructor(players: seq<PlayerRef>)
      ensures matchInput == None && this.players == players
      ensures score1updated == Games(0) && score2updated == Games(0) && !activeButton
      ensures ButtonConsistent()
    {
      matchInput := None;
      this.players := players;
      score1updated := Games(0);
      score2updated := Games(0);
      activeButton := false;
    }

    method UpdateActiveButtonState()
      modifies this
      ensures matchInput == old(matchInput) && players == old(players)
      ensures score1updated == old(score1updated) && score2updated == old(score2updated)
      ensures ButtonConsistent()
    {
      activeButton := if matchInput.Some? then IsValidScore(score1updated, score2updated) else false;
    }

    /**
     * ngOnChanges: when the match input changed, the scores restart from the
     * match (or from 0-0 when it was cleared); the button state is always
     * recomputed.
     */
    method NgOnChanges(matchChanged: bool)
      modifies this
      ensures matchInput == old(matchInput) && players == old(players)
      ensures matchChanged && matchInput.Some? ==>
        score1updated == Initial(matchInput.value.player1.score) &&
        score2updated == Initial(matchInput.value.player2.score)
      ensures matchChanged && matchInput.None? ==> score1updated == Games(0) && score2updated == Games(0)
      ensures !matchChanged ==> score1updated == old(score1updated) && score2updated == old(score2updated)
      ensures score1updated != NotPlayed || !matchChanged
      ensures ButtonConsistent()
    {
      if matchChanged && matchInput.Some? {
        score1updated := Initial(matchInput.value.player1.score);
        score2updated := Initial(matchInput.value.player2.score);
      } else if matchChanged && matchInput.None? {
        score1updated := Games(0);
        score2updated := Games(0);
      }
      UpdateActiveButtonState();
    }

    /** The parent binds a new match (or none) to the modal. */
    method ReceiveMatch(m: Option<Match>)
      modifies this
      ensures matchInput == m && players == old(players)
      ensures m.Some? ==> score1updated == Initial(m.value.player1.score) &&
                          score2updated == Initial(m.value.player2.score)
      ensures m.None? ==> score1updated == Games(0) && score2updated == Games(0)
      ensures ButtonConsistent()
    {
      matchInput := m;
      NgOnChanges(true);
    }

    /** The user picks a score on either side (onScoreChange). */
    method OnScoreChange(s1: Score, s2: Score)
      modifies this
      ensures matchInput == old(matchInput) && players == old(players)
      ensures score1updated == s1 && score2updated == s2
      ensures ButtonConsistent()
    {
      score1updated := s1;
      score2updated := s2;
      UpdateActiveButtonState();
    }

    /**
     * The match the modal emits on save: the open match with the chosen
     * scores, each side's name looked up in the directory and the winner
     * decided from the chosen scores. Nothing is emitted with no match open.
     */
    method SaveMatch() returns (emitted: Option<Match>)
      ensures matchInput.None? ==> emitted.None?
      ensures matchInput.Some? ==> emitted.Some?
      ensures emitted.Some? ==> matchInput.Some?
      ensures emitted.Some? ==>
        var m := matchInput.value;
        emitted.value.id == m.id && emitted.value.groupId == m.groupId && emitted.value.roundId == m.roundId &&
        emitted.value.player1 == Slot(m.player1.id, NameOf(players, m.player1.id), score1updated) &&
        emitted.value.player2 == Slot(m.player2.id, NameOf(players, m.player2.id), score2updated) &&
        emitted.value.winnerId == Some(WinnerPlayer(score1updated, score2updated, m.player1.id, m.player2.id))
      ensures emitted.Some? && activeButton && ButtonConsistent() ==>
        var m := matchInput.value;
        m.player1.id != "" && m.player2.id != "" && m.player1.id != m.player2.id ==>
          emitted.value.winnerId.value != ""
    {
      if matchInput.None? {
        return None;
      }
      var m := matchInput.value;
      var winner := WinnerPlayer(score1updated, score2updated, m.player1.id, m.player2.id);
      if IsValidScore(score1updated, score2updated) && m.player1.id != "" && m.player2.id != "" &&
         m.player1.id != m.player2.id {
        ValidScoreHasWinner(score1updated, score2updated, m.player1.id, m.player2.id);
      }
      emitted := Some(m.(
        player1 := m.player1.(name := NameOf(players, m.player1.id), score := score1updated),
        player2 := m.player2.(name := NameOf(players, m.player2.id), score := score2updated),
        winnerId := Some(winner)));
    }
  }
}
