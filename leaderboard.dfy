/**
 * The leaderboard page (src/app/pages/leaderboard/leaderboard.component.ts):
 * for every group of the current round it shows the standings stored in
 * the group's leaderboard document, each row named from the player list,
 * and the number of the group's matches still to be played.
 */
module Leaderboard {
  import opened JsText
  import opened Players
  import opened MatchRules
  import opened SelectItems

  /** A standings row (ILeaderboard); `position` and `playerId` may be missing in stored data. */
  datatype Entry = Entry(position: Option<int>, playerId: Option<string>, name: string,
                         gamesDone: int, victories: int, pointsInFavor: int, pointsAgainst: int,
                         scoreBalance: int, isWO: bool)

  /** A field of a stored document: an array of rows, or any other value. */
  datatype Field = ArrayValue(items: seq<Entry>) | OtherValue

  /**
   * What `docSnap.data()` gives: an object with its fields in property order
   * (the order `Object.values` visits them), or an array.
   */
  datatype Doc = ObjectDoc(fields: seq<(string, Field)>) | ArrayDoc(rows: seq<Entry>)

  /** `rawData[key]`: the first field with that key. */
  function FieldOf(fields: seq<(string, Field)>, key: string): (f: Field)
    ensures f.ArrayValue? ==> exists i :: 0 <= i < |fields| && fields[i] == (key, f)
    ensures (forall i :: 0 <= i < |fields| ==> fields[i].0 != key) ==> f == OtherValue
  {
    if fields == [] then OtherValue
    else if fields[0].0 == key then fields[0].1
    else
      var f := FieldOf(fields[1..], key);
      assert f.ArrayValue? ==> exists i :: 1 <= i < |fields| && fields[i] == (key, f) by {
        if f.ArrayValue? {
          var i :| 0 <= i < |fields[1..]| && fields[1..][i] == (key, f);
          assert fields[i + 1] == (key, f);
        }
      }
      f
  }

  /** The loop over `Object.values(rawData)`: the first array-valued field, or none. */
  function FirstArrayField(fields: seq<(string, Field)>): (r: Option<seq<Entry>>)
    ensures r.None? <==> forall i :: 0 <= i < |fields| ==> !fields[i].1.ArrayValue?
    ensures r.Some? ==>
      exists i :: (0 <= i < |fields| && fields[i].1 == ArrayValue(r.value) &&
                   forall j :: 0 <= j < i ==> !fields[j].1.ArrayValue?)
  {
    if fields == [] then None
    else if fields[0].1.ArrayValue? then Some(fields[0].1.items)
    else
      var r := FirstArrayField(fields[1..]);
      assert forall i :: 1 <= i < |fields| ==> fields[i] == fields[1..][i - 1];
      if r.Some? then
        var i :| 0 <= i < |fields[1..]| && fields[1..][i].1 == ArrayValue(r.value) &&
          forall j :: 0 <= j < i ==> !fields[1..][j].1.ArrayValue?;
        assert fields[i + 1].1 == ArrayValue(r.value);
        r
      else
        r
  }

  /**
   * The rows of a leaderboard document: `data`, else the document itself
   * when it is an array, else `leaderboard`, else `rankings`, else the first
   * array-valued field, else none.
   */
  function ProbeLeaderboard(doc: Doc): (rows: seq<Entry>)
    ensures doc.ArrayDoc? ==> rows == doc.rows
    ensures doc.ObjectDoc? && FieldOf(doc.fields, "data").ArrayValue? ==> rows == FieldOf(doc.fields, "data").items
    ensures doc.ObjectDoc? && !FieldOf(doc.fields, "data").ArrayValue? && FieldOf(doc.fields, "leaderboard").ArrayValue? ==>
      rows == FieldOf(doc.fields, "leaderboard").items
    ensures doc.ObjectDoc? && (forall i :: 0 <= i < |doc.fields| ==> !doc.fields[i].1.ArrayValue?) ==> rows == []
    ensures doc.ObjectDoc? && rows != [] ==> exists i :: 0 <= i < |doc.fields| && doc.fields[i].1 == ArrayValue(rows)
  {
    match doc
    case ArrayDoc(rows) => rows
    case ObjectDoc(fields) =>
      var data := FieldOf(fields, "data");
      var board := FieldOf(fields, "leaderboard");
      var rankings := FieldOf(fields, "rankings");
      if data.ArrayValue? then data.items
      else if board.ArrayValue? then board.items
      else if rankings.ArrayValue? then rankings.items
      else
        var first := FirstArrayField(fields);
        if first.Some? then first.value else []
  }

  /** getPlayerName: "Desconhecido" for a missing or empty id, or an id no player has. */
  function PlayerName(players: seq<PlayerRef>, id: Option<string>): (name: string)
    ensures !Truthy(id) ==> name == Unknown
    ensures Truthy(id) ==> name == NameOf(players, id.value)
  {
    if !Truthy(id) then Unknown else NameOf(players, id.value)
  }

  /** `{ ...entry, name: getPlayerName(entry.playerId) }` for every row. */
  function Named(rows: seq<Entry>, players: seq<PlayerRef>): (r: seq<Entry>)
    ensures |r| == |rows|
    ensures forall i :: 0 <= i < |rows| ==>
      r[i] == rows[i].(name := PlayerName(players, rows[i].playerId))
  {
    seq(|rows|, i requires 0 <= i < |rows| => rows[i].(name := PlayerName(players, rows[i].playerId)))
  }

  /** A match neither player has a score for. */
  predicate IsPendingMatch(m: Match)
  {
    m.player1.score == NotPlayed && m.player2.score == NotPlayed
  }

  /** `matches.filter(both scores are "-").length` */
  function PendingCount(matches: seq<Match>): (n: nat)
    ensures n <= |matches|
    ensures n == 0 <==> forall i :: 0 <= i < |matches| ==> !IsPendingMatch(matches[i])
    ensures n == |matches| <==> forall i :: 0 <= i < |matches| ==> IsPendingMatch(matches[i])
  {
    FilterKeepsAll(matches, IsPendingMatch);
    FilterNone(matches, IsPendingMatch);
    |Filter(matches, IsPendingMatch)|
  }

  /** How a group's load ended. */
  datatype GroupFetch =
    | FetchFailed            // any error in the chain: caught
    | NoRoundId              // the group has no current round
    | NoDocument             // the leaderboard document does not exist
    | Fetched(doc: Doc, matches: seq<Match>)

  /** The rows and pending count stored for a group: empty and 0 unless the document and matches arrived. */
  function GroupResult(fetch: GroupFetch, players: seq<PlayerRef>): (r: (seq<Entry>, nat))
    ensures !fetch.Fetched? ==> r == ([], 0)
    ensures fetch.Fetched? ==> r.0 == Named(ProbeLeaderboard(fetch.doc), players) && r.1 == PendingCount(fetch.matches)
  {
    if fetch.Fetched? then (Named(ProbeLeaderboard(fetch.doc), players), PendingCount(fetch.matches))
    else ([], 0)
  }

  /**
   * getPlayerClass on a position: in group "A" only the first place is
   * "first"; elsewhere the first two are "top-two"; third is "third" and
   * fourth and fifth are "last" everywhere.
   */
  function ClassFor(position: Option<int>, groupValue: Option<string>): (c: string)
    ensures position == Some(3) ==> c == "third"
    ensures position == Some(4) || position == Some(5) ==> c == "last"
    ensures groupValue == Some("A") && position == Some(1) ==> c == "first"
    ensures groupValue != Some("A") && (position == Some(1) || position == Some(2)) ==> c == "top-two"
    ensures groupValue == Some("A") && position == Some(2) ==> c == ""
    ensures !(position.Some? && 1 <= position.value <= 5) ==> c == ""
  {
    var cssClass :=
      if groupValue == Some("A") then
        (if position == Some(1) then "first"
         else if position == Some(4) || position == Some(5) then "last"
         else "")
      else
        (if position == Some(1) || position == Some(2) then "top-two"
         else if position == Some(4) || position == Some(5) then "last"
         else "");
    if position == Some(3) then "third" else cssClass
  }

  /** The position getPlayerClass reads: the row's own, or index + 1 when there is no such row. */
  function PositionAt(rows: seq<Entry>, index: int): (p: Option<int>)
    ensures 0 <= index < |rows| ==> p == rows[index].position
    ensures !(0 <= index < |rows|) ==> p == Some(index + 1)
  {
    if 0 <= index < |rows| then rows[index].position else Some(index + 1)
  }

  /** The number of distinct values among the groups. */
  lemma {:induction false} DistinctValuesCount(groups: seq<SelectItem>)
    requires forall i, j :: 0 <= i < j < |groups| ==> groups[i].value != groups[j].value
    ensures |set i | 0 <= i < |groups| :: groups[i].value| == |groups|
  {
    if groups != [] {
      var n := |groups| - 1;
      var init := groups[..n];
      DistinctValuesCount(init);
      var a := set i | 0 <= i < |init| :: init[i].value;
      var b := set i | 0 <= i < |groups| :: groups[i].value;
      assert b == a + {groups[n].value} by {
        forall v | v in b
          ensures v in a + {groups[n].value}
        {
          var i :| 0 <= i < |groups| && groups[i].value == v;
          if i < n {
            assert init[i] == groups[i];
          }
        }
        forall v | v in a
          ensures v in b
        {
          var i :| 0 <= i < |init| && init[i].value == v;
          assert groups[i] == init[i];
        }
      }
      assert groups[n].value !in a by {
        forall i | 0 <= i < |init|
          ensures init[i].value != groups[n].value
        {
          assert init[i] == groups[i];
        }
      }
    }
  }

  class LeaderboardComponent {
    var groupsData: map<string, seq<Entry>>
    var groupsPendingMatches: map<string, nat>
    var isLoading: bool
    var allPlayers: seq<PlayerRef>
    var groups: seq<SelectItem>
    var groupsLoading: bool
    var showWhatsappPopup: bool

    constructor ()
      ensures groupsData == map[] && groupsPendingMatches == map[] && !isLoading && allPlayers == []
      ensures groups == [] && groupsLoading && !showWhatsappPopup
    {
      groupsData := map[];
      groupsPendingMatches := map[];
      isLoading := false;
      allPlayers := [];
      groups := [];
      groupsLoading := true;
      showWhatsappPopup := false;
    }

    /** ngOnInit: the state is reset before the players and groups are asked for. */
    method NgOnInit()
      modifies this`groupsData, this`groupsPendingMatches, this`isLoading, this`groupsLoading
      ensures groupsData == map[] && groupsPendingMatches == map[] && isLoading && groupsLoading
    {
      groupsData := map[];
      groupsPendingMatches := map[];
      isLoading := true;
      groupsLoading := true;
    }

    /** The player list arrived. */
    method OnPlayersLoaded(players: seq<PlayerRef>)
      modifies this`allPlayers
      ensures allPlayers == players
    {
      allPlayers := players;
    }

    /** The groups arrived: loadAllGroupsData then asks for each group's data, in order. */
    method OnGroupsLoaded(gs: seq<SelectItem>) returns (requested: seq<string>)
      modifies this`groups, this`groupsLoading, this`isLoading
      ensures groups == gs && !groupsLoading && isLoading
      ensures |requested| == |gs| && forall i :: 0 <= i < |gs| ==> requested[i] == gs[i].value
    {
      groups := gs;
      groupsLoading := false;
      isLoading := true;
      requested := [];
      for i := 0 to |gs|
        invariant |requested| == i && forall k :: 0 <= k < i ==> requested[k] == gs[k].value
      {
        requested := requested + [gs[i].value];
      }
    }

    /**
     * A group's load ended: its rows and count are stored, and loading stops
     * once as many groups are stored as there are groups.
     */
    method OnGroupDataLoaded(groupValue: string, fetch: GroupFetch)
      modifies this`groupsData, this`groupsPendingMatches, this`isLoading
      ensures groupsData == old(groupsData)[groupValue := GroupResult(fetch, allPlayers).0]
      ensures groupsPendingMatches == old(groupsPendingMatches)[groupValue := GroupResult(fetch, allPlayers).1]
      ensures isLoading == (old(isLoading) && |groupsData| != |groups|)
    {
      var result := GroupResult(fetch, allPlayers);
      groupsData := groupsData[groupValue := result.0];
      groupsPendingMatches := groupsPendingMatches[groupValue := result.1];
      var loadedGroups := |groupsData|;
      if loadedGroups == |groups| {
        isLoading := false;
      }
    }

    /** getGroupData: the stored rows, or none. */
    function GetGroupData(groupValue: string): (rows: seq<Entry>)
      reads this`groupsData
      ensures groupValue in groupsData ==> rows == groupsData[groupValue]
      ensures groupValue !in groupsData ==> rows == []
    {
      if groupValue in groupsData then groupsData[groupValue] else []
    }

    /** getGroupPendingMatches: the stored count, or 0. */
    function GetGroupPendingMatches(groupValue: string): (n: nat)
      reads this`groupsPendingMatches
      ensures groupValue in groupsPendingMatches ==> n == groupsPendingMatches[groupValue]
      ensures groupValue !in groupsPendingMatches ==> n == 0
    {
      if groupValue in groupsPendingMatches then groupsPendingMatches[groupValue] else 0
    }

    /** hasGroupData */
    predicate HasGroupData(groupValue: string)
      reads this`groupsData
    {
      groupValue in groupsData && |groupsData[groupValue]| > 0
    }

    /** getPlayerClass */
    function GetPlayerClass(index: int, groupValue: Option<string>): (c: string)
      reads this`groupsData
      ensures c == ClassFor(PositionAt(GetGroupData(if Truthy(groupValue) then groupValue.value else ""), index), groupValue)
    {
      var groupData := GetGroupData(if Truthy(groupValue) then groupValue.value else "");
      ClassFor(PositionAt(groupData, index), groupValue)
    }

    method OpenWhatsappPopup()
      modifies this`showWhatsappPopup
      ensures showWhatsappPopup
    {
      showWhatsappPopup := true;
    }

    method CloseWhatsappPopup()
      modifies this`showWhatsappPopup
      ensures !showWhatsappPopup
    {
      showWhatsappPopup := false;
    }
  }

  /**
   * When the stored groups are exactly the listed groups, and the listed
   * groups have distinct values, the loaded count reaches the group count,
   * which is what turns loading off.
   */
  lemma AllGroupsLoaded(groups: seq<SelectItem>, data: map<string, seq<Entry>>)
    requires forall i, j :: 0 <= i < j < |groups| ==> groups[i].value != groups[j].value
    requires data.Keys == set i | 0 <= i < |groups| :: groups[i].value
    ensures |data| == |groups|
  {
    DistinctValuesCount(groups);
  }
}
