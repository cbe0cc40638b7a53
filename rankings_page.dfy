/**
 * The rankings screen: the round history grouped by year, the year and
 * round pickers, the switch between the accumulated and the round-only
 * view, the three loads and the movement arrows.
 *
 * Each load is split the way the screen runs it: the call that starts it
 * (it sets `loading` and says what it fetches, as a LoadRequest) and the
 * subscription that receives the answers.
 */
module RankingsPage {
  import opened JsText
  import opened StableSort
  import opened RoundIds
  import opened Players
  import opened SelectItems
  import opened Rankings

  /** The selected year: none yet (null), or the number read from the picker (None is NaN). */
  datatype YearChoice = NoYear | YearOf(key: Option<int>)

  /** `!this.selectedYear`: null, NaN and 0 are falsy. */
  predicate YearFalsy(c: YearChoice)
  {
    c.NoYear? || c.key.None? || c.key == Some(0)
  }

  /** What a call asks the store for. */
  datatype LoadRequest =
    | AccumulatedLoad(roundId: string, previousId: Option<string>)
    | RoundLoad(roundId: string, previousId: Option<string>)
    | GeneralLoad
    | NoLoad

  const RoundLoadError: string := "Erro ao buscar dados da rodada"

  /** What loading a round asks for: its accumulated ranking, or its own data. */
  function RoundRequest(accumulated: bool, roundId: string, years: seq<int>,
                        byYear: map<Option<int>, seq<RoundInfo>>): LoadRequest
    requires '_' in roundId
  {
    if accumulated then AccumulatedLoad(roundId, PreviousAccumulatedRoundId(ReadRoundId(roundId), years))
    else RoundLoad(roundId, PreviousRoundSpecificId(ReadRoundId(roundId), byYear))
  }

  /** A year's entry in the year picker. */
  function YearItem(y: int): (item: SelectItem)
    ensures item.name == item.value && item.link.None?
  {
    SelectItem(IntToString(y), IntToString(y), None)
  }

  function YearItems(years: seq<int>): (items: seq<SelectItem>)
    ensures |items| == |years|
    ensures forall i :: 0 <= i < |items| ==> items[i] == YearItem(years[i])
  {
    seq(|years|, i requires 0 <= i < |years| => YearItem(years[i]))
  }

  /** The first of years sorted newest first is the largest of them. */
  lemma NewestYearFirst(ys: seq<int>)
    requires ys != []
    ensures forall i :: 0 <= i < |ys| ==> Sort(ys, ByKeyDesc(Identity))[0] >= ys[i]
  {
    var sorted := Sort(ys, ByKeyDesc(Identity));
    SortDescFacts(ys, Identity);
    forall i | 0 <= i < |ys|
      ensures sorted[0] >= ys[i]
    {
      assert ys[i] in multiset(sorted);
      var k :| 0 <= k < |sorted| && sorted[k] == ys[i];
      if k > 0 {
        assert Identity(sorted[0]) >= Identity(sorted[k]);
      }
    }
  }

  /** `this.roundsByYear.get(this.selectedYear!) || []`: no year is a key no round is kept under. */
  function RoundsOfChoice(byYear: map<Option<int>, seq<RoundInfo>>, c: YearChoice): (r: seq<RoundInfo>)
    ensures c.YearOf? ==> r == RoundsFor(byYear, c.key)
    ensures c.NoYear? ==> r == []
  {
    if c.YearOf? then RoundsFor(byYear, c.key) else []
  }

  /** A round's entry in the round picker: its label, and its id as the value. */
  function RoundItem(r: RoundInfo): (item: SelectItem)
    ensures item.value == r.id && item.name == GetRoundLabel(r.id) && item.link.None?
  {
    SelectItem(GetRoundLabel(r.id), r.id, None)
  }

  function RoundItems(rounds: seq<RoundInfo>): (items: seq<SelectItem>)
    ensures |items| == |rounds|
    ensures forall i :: 0 <= i < |items| ==> items[i] == RoundItem(rounds[i])
  {
    seq(|rounds|, i requires 0 <= i < |rounds| => RoundItem(rounds[i]))
  }

  /** A round built from an id "YYYY_RodadaN" is listed as "Rodada N". */
  lemma RoundItemLabel(year: nat, number: nat, r: RoundInfo)
    requires r.id == RoundIdOf(year, number)
    ensures RoundItem(r).name == "Rodada " + NatToString(number)
    ensures RoundItem(r).value == RoundIdOf(year, number)
  {
    LabelOfRoundId(year, number);
  }

  /** Every round kept under a year has an id with a '_' (the only ids processRoundsData accepts). */
  ghost predicate WellFormedIds(byYear: map<Option<int>, seq<RoundInfo>>)
  {
    forall y :: y in byYear ==> AllIdsSplit(byYear[y])
  }

  ghost predicate AllIdsSplit(infos: seq<RoundInfo>)
  {
    forall i :: 0 <= i < |infos| ==> '_' in infos[i].id
  }

  lemma InfosIdsSplit(rounds: seq<RoundDoc>, now: int)
    requires forall i :: 0 <= i < |rounds| ==> '_' in rounds[i].id
    ensures AllIdsSplit(RoundInfos(rounds, now))
  {
  }

  lemma YearIdsSplit(infos: seq<RoundInfo>, y: Option<int>)
    requires AllIdsSplit(infos)
    ensures AllIdsSplit(Sort(RoundsOfYear(infos, y), RoundOrder()))
  {
    var r := RoundsOfYear(infos, y);
    var s := Sort(r, RoundOrder());
    forall i | 0 <= i < |s|
      ensures '_' in s[i].id
    {
      assert s[i] in multiset(r);
      var k :| 0 <= k < |r| && r[k] == s[i];
      assert r[k] in infos;
      var j :| 0 <= j < |infos| && infos[j] == r[k];
    }
  }

  lemma GroupedIdsWellFormed(infos: seq<RoundInfo>)
    requires AllIdsSplit(infos)
    ensures WellFormedIds(GroupByYear(infos))
  {
    var m := GroupByYear(infos);
    forall y | y in m
      ensures AllIdsSplit(m[y])
    {
      YearIdsSplit(infos, y);
    }
  }

  /** `byYear` holds, under each year of `infos`, that year's rounds in listed order. */
  ghost predicate Grouping(byYear: map<Option<int>, seq<RoundInfo>>, infos: seq<RoundInfo>)
  {
    byYear.Keys == YearsOf(infos) && forall y :: y in byYear ==> byYear[y] == RoundsOfYear(infos, y)
  }

  /**
   * One round of the first loop: `withKey` is `byYear` with the round's
   * year present (added as [] when new); appending the round to that
   * year's list keeps the grouping.
   */
  lemma GroupingSnoc(byYear: map<Option<int>, seq<RoundInfo>>, withKey: map<Option<int>, seq<RoundInfo>>,
                     infos: seq<RoundInfo>, info: RoundInfo)
    requires Grouping(byYear, infos)
    requires withKey.Keys == byYear.Keys + {info.year}
    requires forall y :: y in byYear ==> withKey[y] == byYear[y]
    requires info.year !in byYear ==> withKey[info.year] == []
    ensures Grouping(withKey[info.year := withKey[info.year] + [info]], infos + [info])
  {
    var m := withKey[info.year := withKey[info.year] + [info]];
    YearsOfSnoc(infos, info);
    forall y | y in m
      ensures m[y] == RoundsOfYear(infos + [info], y)
    {
      GroupingSnocAt(byYear, withKey, infos, info, y);
    }
  }

  /**
   * One round of the first loop: its year gets an empty list if it has
   * none yet, and the round is appended to that year's list.
   */
  function AddToYear(byYear: map<Option<int>, seq<RoundInfo>>, info: RoundInfo): map<Option<int>, seq<RoundInfo>>
  {
    var withKey := if info.year in byYear then byYear else byYear[info.year := []];
    withKey[info.year := withKey[info.year] + [info]]
  }

  lemma GroupingAdd(byYear: map<Option<int>, seq<RoundInfo>>, infos: seq<RoundInfo>, info: RoundInfo)
    requires Grouping(byYear, infos)
    ensures Grouping(AddToYear(byYear, info), infos + [info])
  {
    var withKey := if info.year in byYear then byYear else byYear[info.year := []];
    assert withKey.Keys == byYear.Keys + {info.year};
    GroupingSnoc(byYear, withKey, infos, info);
  }

  lemma GroupingSnocAt(byYear: map<Option<int>, seq<RoundInfo>>, withKey: map<Option<int>, seq<RoundInfo>>,
                       infos: seq<RoundInfo>, info: RoundInfo, y: Option<int>)
    requires Grouping(byYear, infos)
    requires withKey.Keys == byYear.Keys + {info.year}
    requires forall y :: y in byYear ==> withKey[y] == byYear[y]
    requires info.year !in byYear ==> withKey[info.year] == []
    requires y in withKey
    ensures withKey[info.year := withKey[info.year] + [info]][y] == RoundsOfYear(infos + [info], y)
  {
    RoundsOfYearSnoc(infos, info, y);
    if y !in byYear {
      RoundsOfAbsentYear(infos, y);
    }
  }

  lemma RoundsOfAbsentYear(infos: seq<RoundInfo>, y: Option<int>)
    requires y !in YearsOf(infos)
    ensures RoundsOfYear(infos, y) == []
  {
  }

  /** A map with the years of `infos` as keys, each holding that year's sorted rounds, is GroupByYear. */
  lemma GroupedMapsEqual(grouped: map<Option<int>, seq<RoundInfo>>, m: map<Option<int>, seq<RoundInfo>>, infos: seq<RoundInfo>)
    requires Grouping(grouped, infos) && EachSorted(grouped, m)
    ensures m == GroupByYear(infos)
  {
  }

  // ---------------------------------------------------------------------------
  // The loops the screen runs over its lists

  /** `new Map(pairs)`, or `map.set` called for each pair in order. */
  method BuildMap<K(==), V>(pairs: seq<(K, V)>) returns (m: map<K, V>)
    ensures m == MapOf(pairs)
  {
    m := map[];
    var i := 0;
    while i < |pairs|
      invariant 0 <= i <= |pairs|
      invariant m == MapOf(pairs[..i])
    {
      assert pairs[..i + 1][..i] == pairs[..i];
      m := m[pairs[i].0 := pairs[i].1];
      i := i + 1;
    }
    assert pairs[..|pairs|] == pairs;
  }

  /** `sorted.forEach((p, i) => { p.position = i + 1; p.positionChange = … })`. */
  method AssignPositions(sorted: seq<RankEntry>, previous: map<string, int>) returns (out: seq<RankEntry>)
    ensures out == Ranked(sorted, previous)
  {
    out := [];
    var i := 0;
    while i < |sorted|
      invariant 0 <= i <= |sorted|
      invariant out == Ranked(sorted, previous)[..i]
    {
      var oldPosition := if sorted[i].playerId.Some? && sorted[i].playerId.value in previous
        then Some(previous[sorted[i].playerId.value]) else None;
      var change := if oldPosition.Some? then oldPosition.value - (i + 1) else 0;
      assert Ranked(sorted, previous)[..i + 1] == Ranked(sorted, previous)[..i] + [Ranked(sorted, previous)[i]];
      out := out + [sorted[i].(position := Some(i + 1), positionChange := Delta(change))];
      i := i + 1;
    }
    assert Ranked(sorted, previous)[..|sorted|] == Ranked(sorted, previous);
  }

  /** The seenIds filter of the general view. */
  method Dedupe(current: seq<RankEntry>) returns (r: seq<RankEntry>)
    ensures r == DedupeFirst(current)
  {
    var seen: set<Option<string>> := {};
    r := [];
    var i := 0;
    while i < |current|
      invariant 0 <= i <= |current|
      invariant r + DedupeFrom(current[i..], seen) == DedupeFirst(current)
    {
      assert current[i..][0] == current[i] && current[i..][1..] == current[i + 1..];
      if current[i].playerId !in seen {
        assert DedupeFrom(current[i..], seen) == [current[i]] + DedupeFrom(current[i + 1..], seen + {current[i].playerId});
        assert r + ([current[i]] + DedupeFrom(current[i + 1..], seen + {current[i].playerId})) ==
          (r + [current[i]]) + DedupeFrom(current[i + 1..], seen + {current[i].playerId});
        seen := seen + {current[i].playerId};
        r := r + [current[i]];
      }
      i := i + 1;
    }
    assert DedupeFrom(current[|current|..], seen) == [];
    assert r + [] == r;
  }

  /** `sorted.forEach((p, i) => p.position = i + 1)`. */
  method Renumber(s: seq<RankEntry>) returns (out: seq<RankEntry>)
    ensures out == Renumbered(s)
  {
    out := [];
    var i := 0;
    while i < |s|
      invariant 0 <= i <= |s|
      invariant out == Renumbered(s)[..i]
    {
      assert Renumbered(s)[..i + 1] == Renumbered(s)[..i] + [Renumbered(s)[i]];
      out := out + [s[i].(position := Some(i + 1))];
      i := i + 1;
    }
    assert Renumbered(s)[..|s|] == Renumbered(s);
  }

  /** `rounds.some(r => r.id === id)`. */
  method AnyWithId(rounds: seq<RoundInfo>, id: string) returns (found: bool)
    ensures found == Listed(rounds, id)
  {
    var i := 0;
    while i < |rounds|
      invariant 0 <= i <= |rounds|
      invariant forall k :: 0 <= k < i ==> rounds[k].id != id
    {
      if rounds[i].id == id {
        return true;
      }
      i := i + 1;
    }
    return false;
  }

  /** The first loop of processRoundsData: each round in arrival order, and under its year. */
  method GroupRounds(rounds: seq<RoundDoc>, now: int) returns (infos: seq<RoundInfo>, byYear: map<Option<int>, seq<RoundInfo>>)
    requires forall i :: 0 <= i < |rounds| ==> '_' in rounds[i].id
    ensures infos == RoundInfos(rounds, now)
    ensures Grouping(byYear, infos)
  {
    byYear := map[];
    infos := [];
    var i := 0;
    while i < |rounds|
      invariant 0 <= i <= |rounds|
      invariant infos == RoundInfos(rounds[..i], now)
      invariant Grouping(byYear, infos)
    {
      var info := ToRoundInfo(rounds[i], now);
      RoundInfosSnoc(rounds, now, i);
      GroupingAdd(byYear, infos, info);
      byYear := AddToYear(byYear, info);
      infos := infos + [info];
      i := i + 1;
    }
    assert rounds[..|rounds|] == rounds;
  }

  /** The second loop of processRoundsData: each year's rounds sorted with RoundOrder. */
  method SortEachYear(grouped: map<Option<int>, seq<RoundInfo>>) returns (byYear: map<Option<int>, seq<RoundInfo>>)
    ensures EachSorted(grouped, byYear)
  {
    byYear := grouped;
    var todo := byYear.Keys;
    while todo != {}
      invariant byYear.Keys == grouped.Keys && todo <= grouped.Keys
      invariant forall y :: y in byYear ==> byYear[y] == (if y in todo then grouped[y] else Sort(grouped[y], RoundOrder()))
      decreases |todo|
    {
      var y :| y in todo;
      byYear := byYear[y := Sort(byYear[y], RoundOrder())];
      todo := todo - {y};
    }
  }

  /** `byYear` is `grouped` with every list sorted by RoundOrder. */
  ghost predicate EachSorted(grouped: map<Option<int>, seq<RoundInfo>>, byYear: map<Option<int>, seq<RoundInfo>>)
  {
    byYear.Keys == grouped.Keys && forall y :: y in byYear ==> byYear[y] == Sort(grouped[y], RoundOrder())
  }

  class RankingsComponent {
    var playersData: seq<RankEntry>
    var players: seq<PlayerRef>
    var error: Option<string>
    var loading: bool
    var isRoundGeneralMode: bool
    var allRounds: seq<RoundInfo>
    var roundsByYear: map<Option<int>, seq<RoundInfo>>
    var years: seq<int>
    var selectedYear: YearChoice
    var yearSelectItems: seq<SelectItem>
    var yearsLoading: bool
    var filteredRounds: seq<RoundInfo>
    var filteredRoundSelectItems: seq<SelectItem>
    var selectedRoundItem: Option<SelectItem>
    var roundsLoading: bool

    /** `this.selectedRoundItem?.value`, with a missing item read as "". */
    function SelectedRoundId(): string
      reads this`selectedRoundItem
    {
      if selectedRoundItem.Some? then selectedRoundItem.value.value else ""
    }

    /** The ids the screen splits are of the form it expects. */
    ghost predicate Valid()
      reads this`roundsByYear, this`selectedRoundItem
    {
      WellFormedIds(roundsByYear) && (SelectedRoundId() == "" || '_' in SelectedRoundId())
    }

    constructor()
      ensures playersData == [] && players == [] && error == None && !loading && isRoundGeneralMode
      ensures allRounds == [] && roundsByYear == map[] && years == [] && selectedYear == NoYear
      ensures yearSelectItems == [] && yearsLoading
      ensures filteredRounds == [] && filteredRoundSelectItems == [] && selectedRoundItem == None && roundsLoading
      ensures Valid()
    {
      playersData := [];
      players := [];
      error := None;
      loading := false;
      isRoundGeneralMode := true;
      allRounds := [];
      roundsByYear := map[];
      years := [];
      selectedYear := NoYear;
      yearSelectItems := [];
      yearsLoading := true;
      filteredRounds := [];
      filteredRoundSelectItems := [];
      selectedRoundItem := None;
      roundsLoading := true;
    }

    /** ngOnInit: the screen starts loading and asks for the players, the years and the rounds. */
    method NgOnInit()
      modifies this`loading
      ensures loading
    {
      loading := true;
    }

    /** The player directory arrived. */
    method OnPlayersLoaded(ps: seq<PlayerRef>)
      modifies this`players
      ensures players == ps
    {
      players := ps;
    }

    /**
     * processRoundsData: every round document becomes a RoundInfo, kept in
     * arrival order in allRounds and under its year in roundsByYear; then
     * each year's list is sorted newest first.
     */
    method ProcessRoundsData(rounds: seq<RoundDoc>, now: int)
      requires forall i :: 0 <= i < |rounds| ==> '_' in rounds[i].id
      modifies this`allRounds, this`roundsByYear
      ensures allRounds == RoundInfos(rounds, now)
      ensures roundsByYear == GroupByYear(allRounds)
      ensures WellFormedIds(roundsByYear)
      ensures old(Valid()) ==> Valid()
    {
      var infos, grouped := GroupRounds(rounds, now);
      var byYear := SortEachYear(grouped);
      GroupedMapsEqual(grouped, byYear, infos);
      allRounds := infos;
      roundsByYear := byYear;
      InfosIdsSplit(rounds, now);
      GroupedIdsWellFormed(allRounds);
    }

    /**
     * updateRoundSelectItems: with a falsy year both lists are emptied;
     * otherwise the year's rounds and their picker entries are shown, the
     * round list stops loading and no round is selected.
     */
    method UpdateRoundSelectItems()
      modifies this`filteredRounds, this`filteredRoundSelectItems, this`roundsLoading, this`selectedRoundItem
      ensures YearFalsy(selectedYear) ==>
        filteredRounds == [] && filteredRoundSelectItems == [] &&
        roundsLoading == old(roundsLoading) && selectedRoundItem == old(selectedRoundItem)
      ensures !YearFalsy(selectedYear) ==>
        filteredRounds == RoundsFor(roundsByYear, selectedYear.key) &&
        filteredRoundSelectItems == RoundItems(filteredRounds) &&
        !roundsLoading && selectedRoundItem == None
      ensures old(Valid()) ==> Valid()
    {
      if YearFalsy(selectedYear) {
        filteredRounds := [];
        filteredRoundSelectItems := [];
        return;
      }
      filteredRounds := RoundsFor(roundsByYear, selectedYear.key);
      filteredRoundSelectItems := RoundItems(filteredRounds);
      roundsLoading := false;
      selectedRoundItem := None;
    }

    /**
     * loadAccumulatedUntilRound, up to the fetch: the accumulated ranking
     * of the round is asked for, and the one of the round before unless
     * this is round 1 of the first year.
     */
    method StartAccumulated(roundId: string) returns (req: LoadRequest)
      requires '_' in roundId
      modifies this`loading
      ensures loading
      ensures req == AccumulatedLoad(roundId, PreviousAccumulatedRoundId(ReadRoundId(roundId), years))
    {
      loading := true;
      var key := ReadRoundId(roundId);
      var firstYear := MinYear(years);
      var isFirstYear := key.year.Some? && firstYear.Some? && key.year.value == firstYear.value;
      var isFirstRound := key.number == Some(1);
      var previousId: Option<string>;
      if isFirstYear && isFirstRound {
        previousId := None;
      } else if isFirstRound {
        previousId := Some(NumText(Dec(key.year)) + "_Rodada3");
      } else {
        previousId := Some(NumText(key.year) + "_Rodada" + NumText(Dec(key.number)));
      }
      req := AccumulatedLoad(roundId, previousId);
    }

    /**
     * loadAccumulatedUntilRound, once both answers arrived: `current` is
     * None when it is not a list or its read failed; `previous` is the
     * previous ranking ([] when none was asked for or its read failed).
     */
    method OnAccumulatedLoaded(current: Option<seq<RankEntry>>, previous: seq<RankEntry>)
      modifies this`playersData, this`loading
      ensures !loading
      ensures playersData == (if current.Some? then AccumulatedRanking(current.value, previous) else [])
      ensures current.None? ==> ShouldShowEmptyMessage()
    {
      if current.None? {
        playersData := [];
        loading := false;
        return;
      }
      var previousSorted := ScoreOrder(previous);
      var previousPositions := BuildMap(IndexPairs(previousSorted));
      var currentSorted := ScoreOrder(current.value);
      playersData := AssignPositions(currentSorted, previousPositions);
      loading := false;
    }

    /**
     * loadRoundSpecificData, up to the fetch: the round's data is asked
     * for, and the round before only when the screen lists it.
     */
    method StartRoundSpecific(roundId: string) returns (req: LoadRequest)
      requires '_' in roundId
      modifies this`loading
      ensures loading
      ensures req == RoundLoad(roundId, PreviousRoundSpecificId(ReadRoundId(roundId), roundsByYear))
    {
      loading := true;
      var key := ReadRoundId(roundId);
      var previousId: Option<string> := None;
      if key.number == Some(1) {
        var previousYear := Dec(key.year);
        var candidate := NumText(previousYear) + "_Rodada3";
        var listed := AnyWithId(RoundsFor(roundsByYear, previousYear), candidate);
        if listed {
          previousId := Some(candidate);
        }
      } else {
        var candidate := NumText(key.year) + "_Rodada" + NumText(Dec(key.number));
        var listed := AnyWithId(RoundsFor(roundsByYear, key.year), candidate);
        if listed {
          previousId := Some(candidate);
        }
      }
      req := RoundLoad(roundId, previousId);
    }

    /**
     * loadRoundSpecificData, once both answers arrived (`data` of each, []
     * when missing), or None when a read failed: then the error is shown
     * and the lines on screen stay.
     */
    method OnRoundSpecificLoaded(answer: Option<(seq<RankEntry>, seq<RankEntry>)>)
      modifies this`playersData, this`loading, this`error
      ensures !loading
      ensures answer.Some? ==> playersData == RoundSpecificRanking(answer.value.0, answer.value.1) && error == old(error)
      ensures answer.None? ==> playersData == old(playersData) && error == Some(RoundLoadError)
    {
      if answer.None? {
        error := Some(RoundLoadError);
        loading := false;
        return;
      }
      var previousMap := BuildMap(RecordedPairs(answer.value.1));
      var sorted := Sort(answer.value.0, RoundComparator());
      playersData := AssignPositions(sorted, previousMap);
      loading := false;
    }

    /** A round is loaded in the current mode (the branch on isRoundGeneralMode the handlers share). */
    method LoadRound(roundId: string) returns (req: LoadRequest)
      requires '_' in roundId
      modifies this`loading
      ensures loading
      ensures req == RoundRequest(isRoundGeneralMode, roundId, years, roundsByYear)
    {
      if isRoundGeneralMode {
        req := StartAccumulated(roundId);
      } else {
        req := StartRoundSpecific(roundId);
      }
    }

    /** loadRankingData: the general ranking and the stored previous one are asked for. */
    method StartGeneral() returns (req: LoadRequest)
      modifies this`loading
      ensures loading && req == GeneralLoad
    {
      loading := true;
      req := GeneralLoad;
    }

    /**
     * loadRankingWithComparison, once both answers arrived: `current` is
     * None when it is missing, not a list, or its read failed.
     */
    method OnGeneralLoaded(current: Option<seq<RankEntry>>, previous: seq<RankEntry>)
      modifies this`playersData, this`loading
      ensures !loading
      ensures playersData == (if current.Some? then GeneralRanking(current.value, previous, players) else [])
      ensures current.Some? ==> forall i :: 0 <= i < |playersData| ==>
        playersData[i].name == Some(GetPlayerName(playersData[i].playerId))
      ensures current.None? ==> ShouldShowEmptyMessage()
    {
      if current.None? {
        playersData := [];
        loading := false;
        return;
      }
      var deduped := Dedupe(current.value);
      var sortedCurrent := Sort(deduped, ByKeyDesc(PlayerPoints));
      var previousPositionMap := BuildMap(BackendPairs(previous));
      var finalRanking := Decorated(sortedCurrent, previousPositionMap, players);
      var sorted := Sort(finalRanking, ByKeyDesc(PlayerPoints));
      playersData := Renumber(sorted);
      loading := false;
      GeneralFacts(current.value, previous, players);
    }

    /** The years or the round history could not be read: the screen shows nothing. */
    method OnYearsAndRoundsFailed()
      modifies this`playersData, this`loading
      ensures playersData == [] && !loading
      ensures ShouldShowEmptyMessage()
    {
      playersData := [];
      loading := false;
    }

    /** The years arrived: they are listed newest first, each with its picker entry. */
    method ApplyYears(ys: seq<int>)
      modifies this`years, this`yearSelectItems, this`yearsLoading
      ensures years == Sort(ys, ByKeyDesc(Identity)) && yearSelectItems == YearItems(years) && !yearsLoading
      ensures multiset(years) == multiset(ys)
      ensures forall i, j :: 0 <= i < j < |years| ==> years[i] >= years[j]
      ensures years != [] ==> forall i :: 0 <= i < |ys| ==> years[0] >= ys[i]
    {
      years := Sort(ys, ByKeyDesc(Identity));
      SortDescFacts(ys, Identity);
      if ys != [] {
        NewestYearFirst(ys);
      }
      yearSelectItems := YearItems(years);
      yearsLoading := false;
    }

    /**
     * The years and the round history arrived: the rounds are grouped, the
     * years listed newest first, and the newest year selected.
     */
    method OnYearsAndRoundsLoaded(ys: seq<int>, rounds: seq<RoundDoc>, now: int) returns (req: LoadRequest)
      requires forall i :: 0 <= i < |rounds| ==> '_' in rounds[i].id
      requires Valid()
      modifies this`allRounds, this`roundsByYear, this`years, this`yearSelectItems, this`yearsLoading
      modifies this`selectedYear, this`filteredRounds, this`filteredRoundSelectItems
      modifies this`selectedRoundItem, this`roundsLoading, this`playersData, this`loading
      ensures Valid()
      ensures allRounds == RoundInfos(rounds, now) && roundsByYear == GroupByYear(allRounds)
      ensures years == Sort(ys, ByKeyDesc(Identity)) && yearSelectItems == YearItems(years) && !yearsLoading
      ensures years != [] ==> forall i :: 0 <= i < |ys| ==> years[0] >= ys[i]
      ensures years == [] ==>
        req == NoLoad && playersData == [] && !loading && selectedYear == old(selectedYear) &&
        filteredRounds == old(filteredRounds) && filteredRoundSelectItems == old(filteredRoundSelectItems) &&
        selectedRoundItem == old(selectedRoundItem) && roundsLoading == old(roundsLoading)
      ensures years != [] ==>
        req == GeneralLoad && loading && playersData == old(playersData) && selectedYear == YearOf(Some(years[0]))
      ensures years != [] && !YearFalsy(selectedYear) ==>
        filteredRounds == RoundsFor(roundsByYear, selectedYear.key) &&
        filteredRoundSelectItems == RoundItems(filteredRounds) &&
        !roundsLoading && selectedRoundItem == None
      ensures years != [] && YearFalsy(selectedYear) ==>
        filteredRounds == [] && filteredRoundSelectItems == [] &&
        roundsLoading == old(roundsLoading) && selectedRoundItem == old(selectedRoundItem)
    {
      ProcessRoundsData(rounds, now);
      ApplyYears(ys);
      req := SelectNewestYear();
    }

    /**
     * With years on record the newest is selected, its rounds listed and
     * the general ranking loaded; without years the screen shows nothing.
     */
    method SelectNewestYear() returns (req: LoadRequest)
      requires Valid()
      modifies this`selectedYear, this`filteredRounds, this`filteredRoundSelectItems
      modifies this`selectedRoundItem, this`roundsLoading, this`playersData, this`loading
      ensures Valid()
      ensures years == [] ==>
        req == NoLoad && playersData == [] && !loading && selectedYear == old(selectedYear) &&
        filteredRounds == old(filteredRounds) && filteredRoundSelectItems == old(filteredRoundSelectItems) &&
        selectedRoundItem == old(selectedRoundItem) && roundsLoading == old(roundsLoading)
      ensures years != [] ==>
        req == GeneralLoad && loading && playersData == old(playersData) && selectedYear == YearOf(Some(years[0]))
      ensures years != [] && !YearFalsy(selectedYear) ==>
        filteredRounds == RoundsFor(roundsByYear, selectedYear.key) &&
        filteredRoundSelectItems == RoundItems(filteredRounds) &&
        !roundsLoading && selectedRoundItem == None
      ensures years != [] && YearFalsy(selectedYear) ==>
        filteredRounds == [] && filteredRoundSelectItems == [] &&
        roundsLoading == old(roundsLoading) && selectedRoundItem == old(selectedRoundItem)
    {
      if |years| > 0 {
        selectedYear := YearOf(Some(years[0]));
        UpdateRoundSelectItems();
        req := StartGeneral();
      } else {
        playersData := [];
        loading := false;
        req := NoLoad;
      }
    }

    /**
     * onYearSelected, before its timer: an item without a value is ignored
     * (false); otherwise the year read from it is selected, the round
     * picker is cleared and shows it is loading, and the timer is set (true).
     */
    method OnYearSelected(item: Option<SelectItem>) returns (scheduled: bool)
      requires Valid()
      modifies this`selectedYear, this`filteredRoundSelectItems, this`selectedRoundItem, this`roundsLoading
      ensures Valid()
      ensures scheduled <==> item.Some? && item.value.value != ""
      ensures !scheduled ==>
        selectedYear == old(selectedYear) && filteredRoundSelectItems == old(filteredRoundSelectItems) &&
        selectedRoundItem == old(selectedRoundItem) && roundsLoading == old(roundsLoading)
      ensures scheduled ==>
        selectedYear == YearOf(NumberOf(item.value.value)) && filteredRoundSelectItems == [] &&
        selectedRoundItem == None && roundsLoading
    {
      if item.None? || item.value.value == "" {
        return false;
      }
      selectedYear := YearOf(NumberOf(item.value.value));
      filteredRoundSelectItems := [];
      selectedRoundItem := None;
      roundsLoading := true;
      scheduled := true;
    }

    /**
     * onYearSelected, when its timer fires: the year's rounds are listed,
     * and the newest of them selected and loaded in the current mode; a
     * year without rounds loads the general ranking.
     */
    method OnYearSelectedTimer() returns (req: LoadRequest)
      requires Valid()
      modifies this`filteredRounds, this`filteredRoundSelectItems, this`selectedRoundItem
      modifies this`roundsLoading, this`loading
      ensures Valid() && loading
      ensures YearFalsy(selectedYear) ==>
        filteredRounds == [] && filteredRoundSelectItems == [] && roundsLoading == old(roundsLoading)
      ensures !YearFalsy(selectedYear) ==>
        filteredRounds == RoundsFor(roundsByYear, selectedYear.key) &&
        filteredRoundSelectItems == RoundItems(filteredRounds) && !roundsLoading
      ensures var rounds := RoundsOfChoice(roundsByYear, selectedYear);
        rounds != [] ==>
          selectedRoundItem == Some(RoundItem(rounds[0])) &&
          req == RoundRequest(isRoundGeneralMode, rounds[0].id, years, roundsByYear)
      ensures RoundsOfChoice(roundsByYear, selectedYear) == [] ==> selectedRoundItem == None && req == GeneralLoad
    {
      UpdateRoundSelectItems();
      var rounds := RoundsOfChoice(roundsByYear, selectedYear);
      if |rounds| > 0 {
        var firstRound := rounds[0];
        selectedRoundItem := Some(RoundItem(firstRound));
        req := LoadRound(firstRound.id);
      } else {
        selectedRoundItem := None;
        req := StartGeneral();
      }
    }

    /**
     * onRoundSelected: an item without a value is ignored; otherwise it
     * becomes the selected round and is loaded in the current mode.
     */
    method OnRoundSelected(item: Option<SelectItem>) returns (req: LoadRequest)
      requires Valid()
      requires item.Some? && item.value.value != "" ==> '_' in item.value.value
      modifies this`selectedRoundItem, this`loading
      ensures Valid()
      ensures (item.None? || item.value.value == "") ==>
        req == NoLoad && selectedRoundItem == old(selectedRoundItem) && loading == old(loading)
      ensures item.Some? && item.value.value != "" ==>
        selectedRoundItem == item && loading &&
        req == RoundRequest(isRoundGeneralMode, item.value.value, years, roundsByYear)
    {
      if item.None? || item.value.value == "" {
        return NoLoad;
      }
      selectedRoundItem := item;
      req := LoadRound(item.value.value);
    }

    /**
     * onToggleRoundGeneral: the mode follows the switch; with no round
     * selected the newest round of a truthy selected year is taken; the
     * round is then loaded in the new mode, or the general ranking when
     * there is none.
     */
    method OnToggleRoundGeneral(checked: bool) returns (req: LoadRequest)
      requires Valid()
      modifies this`isRoundGeneralMode, this`selectedRoundItem, this`loading
      ensures Valid() && isRoundGeneralMode == checked && loading
      ensures old(SelectedRoundId()) != "" ==>
        selectedRoundItem == old(selectedRoundItem) &&
        req == RoundRequest(checked, SelectedRoundId(), years, roundsByYear)
      ensures old(SelectedRoundId()) == "" && !YearFalsy(selectedYear) && RoundsFor(roundsByYear, selectedYear.key) != [] ==>
        var first := RoundsFor(roundsByYear, selectedYear.key)[0];
        selectedRoundItem == Some(RoundItem(first)) &&
        req == RoundRequest(checked, first.id, years, roundsByYear)
      ensures old(SelectedRoundId()) == "" && (YearFalsy(selectedYear) || RoundsFor(roundsByYear, selectedYear.key) == []) ==>
        selectedRoundItem == old(selectedRoundItem) && req == GeneralLoad
    {
      isRoundGeneralMode := checked;
      var roundId := SelectedRoundId();
      if roundId == "" && !YearFalsy(selectedYear) {
        var rounds := RoundsFor(roundsByYear, selectedYear.key);
        if |rounds| > 0 {
          roundId := rounds[0].id;
          assert '_' in roundId;
          selectedRoundItem := Some(RoundItem(rounds[0]));
        }
      }
      if roundId != "" {
        req := LoadRound(roundId);
      } else {
        req := StartGeneral();
      }
    }

    /** getPlayerName: the directory's name for the id, or "Desconhecido". */
    function GetPlayerName(id: Option<string>): (name: string)
      reads this
      ensures (id.None? || id == Some("")) ==> name == Unknown
      ensures forall i :: id.Some? && id.value != "" && FirstWithId(players, i, id.value) ==> name == players[i].name
      ensures id.Some? && (forall i :: 0 <= i < |players| ==> players[i].id != id.value) ==> name == Unknown
    {
      if id.None? || id.value == "" then Unknown else NameOf(players, id.value)
    }

    /**
     * shouldShowArrow: an arrow needs points and a movement, and is shown
     * only in the accumulated view, and there not for round 1 of the
     * first year, which has nothing to compare with.
     */
    function ShouldShowArrow(e: RankEntry): (show: bool)
      reads this
      requires Valid()
      ensures show ==> HasPoints(e) && HasMovement(e) && isRoundGeneralMode
      ensures HasPoints(e) && HasMovement(e) && isRoundGeneralMode && SelectedRoundId() == "" ==> show
      ensures HasPoints(e) && HasMovement(e) && isRoundGeneralMode && SelectedRoundId() != "" ==>
        (show <==> PreviousAccumulatedRoundId(ReadRoundId(SelectedRoundId()), years).Some?)
    {
      if !HasPoints(e) || !HasMovement(e) then false
      else if !isRoundGeneralMode then false
      else if SelectedRoundId() == "" then true
      else
        var key := ReadRoundId(SelectedRoundId());
        var firstYear := MinYear(years);
        var isFirstYear := key.year.Some? && firstYear.Some? && key.year.value == firstYear.value;
        !(isFirstYear && key.number == Some(1))
    }

    /** shouldShowEmptyMessage: nothing loading and nothing to list. */
    function ShouldShowEmptyMessage(): (show: bool)
      reads this
      ensures show ==> !loading && |playersData| == 0
      ensures !loading && playersData == [] ==> show
    {
      !loading && |playersData| == 0
    }
  }
}
