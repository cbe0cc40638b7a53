/**
 * The player search box: a case-insensitive filter over the players' names
 * and e-mails, and the keyboard cursor that walks the filtered list.
 *
 * The browser's timers are collapsed: an effect scheduled with setTimeout
 * is applied by the method that models the timer firing.
 */
module Autocomplete {
  import opened JsText

  /** The two fields of a player the search reads. */
  datatype Candidate = Candidate(name: Option<string>, email: Option<string>)

  /** `player.name?.toLowerCase().includes(q) || player.email?.toLowerCase().includes(q)` */
  predicate Matches(p: Candidate, q: string)
  {
    (p.name.Some? && Contains(ToLower(p.name.value), q)) ||
    (p.email.Some? && Contains(ToLower(p.email.value), q))
  }

  /** The players matching an already lower-cased query. */
  function Matching(players: seq<Candidate>, q: string): (r: seq<Candidate>)
    ensures forall i :: 0 <= i < |r| ==> r[i] in players && Matches(r[i], q)
    ensures forall i :: 0 <= i < |players| && Matches(players[i], q) ==> players[i] in r
    ensures IsSubsequence(r, players)
  {
    FilterIsSubsequence(players, (p: Candidate) => Matches(p, q));
    Filter(players, (p: Candidate) => Matches(p, q))
  }

  /** filterPlayers: everyone for an empty text, else the matches of the lower-cased text, in order. */
  function FilterPlayers(players: seq<Candidate>, text: string): (r: seq<Candidate>)
    ensures text == "" ==> r == players
    ensures text != "" ==> r == Matching(players, ToLower(text))
  {
    if text == "" then players else Matching(players, ToLower(text))
  }

  /** The search ignores case: the text and its lower-cased form find the same players. */
  lemma FilterIgnoresCase(players: seq<Candidate>, text: string)
    ensures FilterPlayers(players, ToLower(text)) == FilterPlayers(players, text)
  {
    ToLowerIdempotent(text);
  }

  /** Typing a player's whole name, in any case, finds that player. */
  lemma FullNameFound(players: seq<Candidate>, i: nat, text: string)
    requires i < |players| && players[i].name.Some?
    requires ToLower(text) == ToLower(players[i].name.value)
    ensures players[i] in FilterPlayers(players, text)
  {
    ContainsSelf(ToLower(text));
  }

  /** A key of onKeyDown. */
  datatype Key = ArrowDown | ArrowUp | Enter | Escape | OtherKey

  class AutocompleteComponent {
    var allPlayers: seq<Candidate>
    var filteredPlayers: seq<Candidate>
    var searchText: string
    var showList: bool
    var selectedIndex: int
    /** The e-mails emitted on `playerSelected`. */
    var selected: seq<Option<string>>
    const isBrowser: bool

    /** The cursor is -1 or an index of the filtered list. */
    predicate CursorInRange()
      reads this`selectedIndex, this`filteredPlayers
    {
      selectedIndex == -1 || 0 <= selectedIndex < |filteredPlayers|
    }

    constructor(isBrowser: bool)
      ensures this.isBrowser == isBrowser
      ensures allPlayers == [] && filteredPlayers == [] && searchText == ""
      ensures !showList && selectedIndex == -1 && selected == []
    {
      this.isBrowser := isBrowser;
      allPlayers := [];
      filteredPlayers := [];
      searchText := "";
      showList := false;
      selectedIndex := -1;
      selected := [];
    }

    /** loadPlayers' handler; the players arrive already ordered by name. */
    method OnPlayersLoaded(players: seq<Candidate>)
      modifies this`allPlayers
      ensures allPlayers == players
    {
      allPlayers := players;
    }

    /** filterPlayers: the list is recomputed and the cursor reset. */
    method FilterPlayersNow()
      modifies this`filteredPlayers, this`selectedIndex
      ensures filteredPlayers == FilterPlayers(allPlayers, searchText)
      ensures selectedIndex == -1 && CursorInRange()
    {
      if searchText == "" {
        filteredPlayers := allPlayers;
      } else {
        var q := ToLower(searchText);
        filteredPlayers := Matching(allPlayers, q);
      }
      selectedIndex := -1;
    }

    /** onSearch: the new text is taken, the list shown and filtered. */
    method OnSearch(value: string)
      modifies this`searchText, this`showList, this`filteredPlayers, this`selectedIndex
      ensures searchText == value && showList
      ensures filteredPlayers == FilterPlayers(allPlayers, value)
      ensures selectedIndex == -1
    {
      searchText := value;
      showList := true;
      FilterPlayersNow();
    }

    /** onFocus: the list opens; with no text it shows every player. */
    method OnFocus()
      modifies this`showList, this`filteredPlayers
      ensures !isBrowser ==> showList == old(showList) && filteredPlayers == old(filteredPlayers)
      ensures isBrowser ==> showList
      ensures isBrowser && searchText == "" ==> filteredPlayers == allPlayers
      ensures searchText != "" ==> filteredPlayers == old(filteredPlayers)
    {
      if !isBrowser {
        return;
      }
      showList := true;
      if searchText == "" {
        filteredPlayers := allPlayers;
      }
    }

    /** onBlur, when its timer fires: the list hides and the cursor resets. */
    method OnBlurTimer()
      modifies this`showList, this`selectedIndex
      ensures !isBrowser ==> showList == old(showList) && selectedIndex == old(selectedIndex)
      ensures isBrowser ==> !showList && selectedIndex == -1
    {
      if isBrowser {
        showList := false;
        selectedIndex := -1;
      }
    }

    /** selectPlayer, when its first timer fires: the name is shown, the list hides, the e-mail is emitted. */
    method SelectPlayer(p: Candidate)
      modifies this`searchText, this`showList, this`selectedIndex, this`selected
      ensures searchText == (if p.name.Some? then p.name.value else "")
      ensures !showList && selectedIndex == -1
      ensures selected == old(selected) + [p.email]
    {
      searchText := if p.name.Some? then p.name.value else "";
      showList := false;
      selectedIndex := -1;
      selected := selected + [p.email];
    }

    /** selectPlayer's second timer: the box is emptied. */
    method ClearSearchText()
      modifies this`searchText
      ensures searchText == ""
    {
      searchText := "";
    }

    /**
     * onKeyDown. Keys do nothing while the list is hidden or empty. The
     * arrows move the cursor within [-1, len-1]; Enter selects the player
     * under a cursor at 0 or beyond (a cursor past the list reads
     * `undefined`, and selectPlayer throws on it); Escape hides the list and
     * resets the cursor.
     */
    method OnKeyDown(key: Key)
      modifies this`selectedIndex, this`showList, this`searchText, this`selected
      ensures old(CursorInRange()) ==> CursorInRange()
      ensures !old(showList) || |filteredPlayers| == 0 || key == OtherKey ==>
        selectedIndex == old(selectedIndex) && showList == old(showList) &&
        searchText == old(searchText) && selected == old(selected)
      ensures old(showList) && |filteredPlayers| > 0 && key == ArrowDown ==>
        selectedIndex == (if old(selectedIndex) + 1 < |filteredPlayers| - 1 then old(selectedIndex) + 1 else |filteredPlayers| - 1) &&
        showList && selected == old(selected)
      ensures old(showList) && |filteredPlayers| > 0 && key == ArrowUp ==>
        selectedIndex == (if old(selectedIndex) - 1 > -1 then old(selectedIndex) - 1 else -1) &&
        showList && selected == old(selected)
      ensures old(showList) && |filteredPlayers| > 0 && key == Enter ==>
        (0 <= old(selectedIndex) < |filteredPlayers| <==> |selected| == |old(selected)| + 1)
      ensures old(showList) && key == Enter && 0 <= old(selectedIndex) < |filteredPlayers| ==>
        selected == old(selected) + [filteredPlayers[old(selectedIndex)].email] && !showList && selectedIndex == -1
      ensures old(showList) && |filteredPlayers| > 0 && key == Enter && !(0 <= old(selectedIndex) < |filteredPlayers|) ==>
        selected == old(selected) && showList && selectedIndex == old(selectedIndex)
      ensures old(showList) && |filteredPlayers| > 0 && key == Escape ==>
        !showList && selectedIndex == -1 && selected == old(selected)
    {
      if !showList || |filteredPlayers| == 0 {
        return;
      }
      match key {
        case ArrowDown =>
          selectedIndex := if selectedIndex + 1 < |filteredPlayers| - 1 then selectedIndex + 1 else |filteredPlayers| - 1;
        case ArrowUp =>
          selectedIndex := if selectedIndex - 1 > -1 then selectedIndex - 1 else -1;
        case Enter =>
          if 0 <= selectedIndex < |filteredPlayers| {
            SelectPlayer(filteredPlayers[selectedIndex]);
          }
        case Escape =>
          showList := false;
          selectedIndex := -1;
        case OtherKey =>
      }
    }
  }
}
