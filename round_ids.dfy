/**
 * Round identifiers of the form "YYYY_RodadaN" (for example "2025_Rodada1"),
 * how the rankings screen reads and writes them, and how it organises the
 * round history by year. Numbers read out of an id may be NaN, written None.
 */
module RoundIds {
  import opened JsText
  import opened StableSort

  /** The year and round number read out of a round id; None stands for NaN. */
  datatype RoundKey = RoundKey(year: Option<int>, number: Option<int>)

  /**
   * `const [yearStr, roundStr] = id.split("_")` followed by `parseInt` of
   * the year and of the round part with "Rodada" removed. An id without "_"
   * leaves `roundStr` undefined and the code throws, hence the precondition.
   */
  function ReadRoundId(id: string): (k: RoundKey)
    requires '_' in id
  {
    var parts := Split(id, '_');
    RoundKey(ParseIntPrefix(parts[0]), ParseIntPrefix(ReplaceFirst(parts[1], "Rodada", "")))
  }

  /** `${n}` for a number that may be NaN. */
  function NumText(n: Option<int>): (s: string)
    ensures s != []
  {
    if n.Some? then IntToString(n.value) else "NaN"
  }

  /** `n - 1`, where NaN stays NaN. */
  function Dec(n: Option<int>): (r: Option<int>)
    ensures r.Some? <==> n.Some?
    ensures r.Some? ==> r.value == n.value - 1
  {
    if n.Some? then Some(n.value - 1) else None
  }

  /** `${year}_Rodada${number}` */
  function RoundIdOf(year: int, number: int): (id: string)
    ensures '_' in id
  {
    var id := IntToString(year) + "_Rodada" + IntToString(number);
    assert id[|IntToString(year)|] == '_';
    id
  }

  lemma NatStringHasNoUnderscore(n: nat)
    ensures '_' !in NatToString(n)
  {
  }

  /** Reading back a round id built from a year and a round number gives them back. */
  lemma {:induction false} ReadRoundIdOf(year: nat, number: nat)
    ensures ReadRoundId(RoundIdOf(year, number)) == RoundKey(Some(year), Some(number))
  {
    var ys := NatToString(year);
    var ns := NatToString(number);
    var rest := "Rodada" + ns;
    NatStringHasNoUnderscore(year);
    NatStringHasNoUnderscore(number);
    assert RoundIdOf(year, number) == ys + ['_'] + rest;
    SplitAt(ys, rest, '_');
    assert '_' !in rest;
    assert Split(RoundIdOf(year, number), '_') == [ys, rest];
    ParseIntNatToString(year, "");
    assert ys + "" == ys;
    ReplacePrefix("Rodada", ns);
    ParseIntNatToString(number, "");
    assert ns + "" == ns;
  }

  /** The smallest year on record (`Math.min(...years)`); None for no years (Infinity). */
  function MinYear(years: seq<int>): (m: Option<int>)
    ensures m.None? <==> years == []
    ensures m.Some? ==> m.value in years && forall i :: 0 <= i < |years| ==> m.value <= years[i]
  {
    if years == [] then None
    else
      var rest := MinYear(years[1..]);
      assert forall i :: 1 <= i < |years| ==> years[i] == years[1..][i - 1];
      if rest.Some? && rest.value < years[0] then rest else Some(years[0])
  }

  /** The year of the round just before: the year before for a round 1, else the same year. */
  function PreviousYear(key: RoundKey): (y: Option<int>)
    ensures key.number == Some(1) ==> y == Dec(key.year)
    ensures key.number != Some(1) ==> y == key.year
  {
    if key.number == Some(1) then Dec(key.year) else key.year
  }

  /**
   * The id of the round just before: round 3 of the year before for a
   * round 1, the previous round of the same year otherwise.
   */
  function PreviousCandidateId(key: RoundKey): (id: string)
    ensures '_' in id
    ensures key.year.Some? && key.number == Some(1) ==> id == RoundIdOf(key.year.value - 1, 3)
    ensures key.year.Some? && key.number.Some? && key.number != Some(1) ==>
      id == RoundIdOf(key.year.value, key.number.value - 1)
  {
    var id := if key.number == Some(1) then NumText(Dec(key.year)) + "_Rodada3"
              else NumText(key.year) + "_Rodada" + NumText(Dec(key.number));
    assert id[|NumText(PreviousYear(key))|] == '_';
    assert IntToString(3) == "3";
    id
  }

  /**
   * The accumulated ranking a round is compared with: none for round 1 of
   * the first year on record, the round just before otherwise (whether or
   * not it exists).
   */
  function PreviousAccumulatedRoundId(key: RoundKey, years: seq<int>): (r: Option<string>)
    ensures r.None? <==> key.year.Some? && MinYear(years) == key.year && key.number == Some(1)
    ensures r.Some? ==> r.value == PreviousCandidateId(key)
  {
    var isFirstYear := key.year.Some? && MinYear(years) == key.year;
    var isFirstRound := key.number == Some(1);
    if isFirstYear && isFirstRound then None else Some(PreviousCandidateId(key))
  }

  /** The previous round's id reads back as the round just before: (Y, N-1), or (Y-1, 3) after a round 1. */
  lemma PreviousAccumulatedReadsBack(key: RoundKey, years: seq<int>)
    requires key.year.Some? && key.number.Some? && key.year.value >= 1 && key.number.value >= 1
    requires PreviousAccumulatedRoundId(key, years).Some?
    ensures ReadRoundId(PreviousAccumulatedRoundId(key, years).value) ==
      (if key.number == Some(1) then RoundKey(Some(key.year.value - 1), Some(3))
       else RoundKey(key.year, Some(key.number.value - 1)))
  {
    var id := PreviousAccumulatedRoundId(key, years).value;
    if key.number == Some(1) {
      assert id == RoundIdOf(key.year.value - 1, 3);
      ReadRoundIdOf(key.year.value - 1, 3);
    } else {
      assert id == RoundIdOf(key.year.value, key.number.value - 1);
      ReadRoundIdOf(key.year.value, key.number.value - 1);
    }
  }

  /** Whether one of `rounds` carries the id (`rounds.some(r => r.id === id)`). */
  predicate Listed(rounds: seq<RoundInfo>, id: string)
  {
    exists i :: 0 <= i < |rounds| && rounds[i].id == id
  }

  /** The rounds recorded for a year (`roundsByYear.get(year) || []`). */
  function RoundsFor(byYear: map<Option<int>, seq<RoundInfo>>, year: Option<int>): (r: seq<RoundInfo>)
    ensures year in byYear ==> r == byYear[year]
    ensures year !in byYear ==> r == []
  {
    if year in byYear then byYear[year] else []
  }

  /**
   * The single round a round is compared with: the round just before, but
   * only when the history of its year lists it.
   */
  function PreviousRoundSpecificId(key: RoundKey, byYear: map<Option<int>, seq<RoundInfo>>): (r: Option<string>)
    ensures r.Some? <==> Listed(RoundsFor(byYear, PreviousYear(key)), PreviousCandidateId(key))
    ensures r.Some? ==> r.value == PreviousCandidateId(key)
  {
    var candidate := PreviousCandidateId(key);
    if Listed(RoundsFor(byYear, PreviousYear(key)), candidate) then Some(candidate) else None
  }

  /**
   * When the round-specific view finds a previous round, the accumulated
   * view compares with the same round, provided every year with history is
   * among the known years.
   */
  lemma PreviousViewsAgree(key: RoundKey, years: seq<int>, byYear: map<Option<int>, seq<RoundInfo>>)
    requires forall y :: Some(y) in byYear ==> y in years
    requires PreviousRoundSpecificId(key, byYear).Some?
    ensures PreviousAccumulatedRoundId(key, years) == PreviousRoundSpecificId(key, byYear)
  {
  }

  /** "Rodada N" for an id "YYYY_RodadaN"; any other id is shown as it is. */
  function GetRoundLabel(roundId: string): (shown: string)
    ensures var parts := Split(roundId, '_');
      !(|parts| == 2 && StartsWith(parts[1], "Rodada")) ==> shown == roundId
  {
    var parts := Split(roundId, '_');
    if |parts| == 2 && StartsWith(parts[1], "Rodada") then
      "Rodada " + ReplaceFirst(parts[1], "Rodada", "")
    else roundId
  }

  /** The round number of an id "YYYY_RodadaN"; 0 when there is none (NaN || 0). */
  function ExtractRoundNumber(roundId: string): (n: int)
    ensures n >= 0
    ensures var parts := Split(roundId, '_');
      !(|parts| == 2 && StartsWith(parts[1], "Rodada")) ==> n == 0
  {
    var parts := Split(roundId, '_');
    if |parts| == 2 && StartsWith(parts[1], "Rodada") then
      var v := ParseIntPrefix(ReplaceFirst(parts[1], "Rodada", ""));
      if v.Some? then v.value else 0
    else 0
  }

  /** The label and the number agree with the id they were built from. */
  lemma {:induction false} LabelOfRoundId(year: nat, number: nat)
    ensures GetRoundLabel(RoundIdOf(year, number)) == "Rodada " + NatToString(number)
    ensures ExtractRoundNumber(RoundIdOf(year, number)) == number
  {
    var ys := NatToString(year);
    var ns := NatToString(number);
    var rest := "Rodada" + ns;
    NatStringHasNoUnderscore(year);
    NatStringHasNoUnderscore(number);
    assert RoundIdOf(year, number) == ys + ['_'] + rest;
    SplitAt(ys, rest, '_');
    assert '_' !in rest;
    assert Split(RoundIdOf(year, number), '_') == [ys, rest];
    assert rest[..6] == "Rodada";
    ReplacePrefix("Rodada", ns);
    ParseIntNatToString(number, "");
    assert ns + "" == ns;
  }

  // ---------------------------------------------------------------------------
  // The round history, by year

  /** How a round document's creation time arrived from the store. */
  datatype CreatedAt = Timestamp(millis: int) | DateValue(millis: int) | OtherValue

  datatype RoundDoc = RoundDoc(id: string, createdAt: CreatedAt)

  /** A round as the rankings screen keeps it, with its creation time normalised. */
  datatype RoundInfo = RoundInfo(id: string, roundId: string, createdAt: int, year: Option<int>, roundNumber: Option<int>)

  /** A Timestamp becomes its Date, a Date is kept, anything else becomes "now". */
  function NormalizeCreatedAt(c: CreatedAt, now: int): (ms: int)
    ensures c.OtherValue? ==> ms == now
    ensures !c.OtherValue? ==> ms == c.millis
  {
    match c
    case Timestamp(ms) => ms
    case DateValue(ms) => ms
    case OtherValue => now
  }

  function ToRoundInfo(r: RoundDoc, now: int): (info: RoundInfo)
    requires '_' in r.id
    ensures info.id == r.id && info.roundId == r.id
    ensures ReadRoundId(r.id) == RoundKey(info.year, info.roundNumber)
  {
    var key := ReadRoundId(r.id);
    RoundInfo(r.id, r.id, NormalizeCreatedAt(r.createdAt, now), key.year, key.number)
  }

  function RoundInfos(rounds: seq<RoundDoc>, now: int): (infos: seq<RoundInfo>)
    requires forall i :: 0 <= i < |rounds| ==> '_' in rounds[i].id
    ensures |infos| == |rounds|
    ensures forall i :: 0 <= i < |rounds| ==> infos[i] == ToRoundInfo(rounds[i], now)
  {
    seq(|rounds|, i requires 0 <= i < |rounds| => ToRoundInfo(rounds[i], now))
  }

  lemma RoundInfosSnoc(rounds: seq<RoundDoc>, now: int, i: nat)
    requires i < |rounds|
    requires forall k :: 0 <= k < |rounds| ==> '_' in rounds[k].id
    ensures RoundInfos(rounds[..i + 1], now) == RoundInfos(rounds[..i], now) + [ToRoundInfo(rounds[i], now)]
  {
    assert rounds[..i + 1][i] == rounds[i];
  }

  /**
   * The comparator processRoundsData sorts each year with: a larger round
   * number first, then a later creation time. A NaN difference counts as a
   * tie, so a round whose number is NaN ties with every other round.
   */
  function RoundOrder(): (RoundInfo, RoundInfo) -> bool
  {
    (a: RoundInfo, b: RoundInfo) =>
      if a.roundNumber.Some? && b.roundNumber.Some? then
        if a.roundNumber != b.roundNumber then a.roundNumber.value >= b.roundNumber.value
        else a.createdAt >= b.createdAt
      else true
  }

  function RoundNumberOrZero(r: RoundInfo): int
  {
    if r.roundNumber.Some? then r.roundNumber.value else 0
  }

  /** Newest first on rounds with numbers: the order RoundOrder means. */
  function NewestFirst(): (RoundInfo, RoundInfo) -> bool
  {
    (a: RoundInfo, b: RoundInfo) =>
      RoundNumberOrZero(a) > RoundNumberOrZero(b) ||
      (RoundNumberOrZero(a) == RoundNumberOrZero(b) && a.createdAt >= b.createdAt)
  }

  lemma NewestFirstTotal()
    ensures TotalPreorder(NewestFirst())
  {
  }

  /** On rounds that all have numbers, sorting with RoundOrder is sorting newest first. */
  lemma RoundOrderOnNumbered(s: seq<RoundInfo>)
    requires forall i :: 0 <= i < |s| ==> s[i].roundNumber.Some?
    ensures Sort(s, RoundOrder()) == Sort(s, NewestFirst())
  {
    SortCongruent(s, RoundOrder(), NewestFirst());
  }

  /** The rounds of a year, in the order they were listed. */
  function RoundsOfYear(infos: seq<RoundInfo>, year: Option<int>): (r: seq<RoundInfo>)
    ensures forall i :: 0 <= i < |r| ==> r[i].year == year && r[i] in infos
    ensures forall i :: 0 <= i < |infos| && infos[i].year == year ==> infos[i] in r
  {
    if infos == [] then []
    else
      var last := infos[|infos| - 1];
      var init := infos[..|infos| - 1];
      assert infos == init + [last];
      RoundsOfYear(init, year) + (if last.year == year then [last] else [])
  }

  lemma RoundsOfYearSnoc(infos: seq<RoundInfo>, x: RoundInfo, year: Option<int>)
    ensures RoundsOfYear(infos + [x], year) == RoundsOfYear(infos, year) + (if x.year == year then [x] else [])
  {
    assert (infos + [x])[..|infos|] == infos;
  }

  function YearsOf(infos: seq<RoundInfo>): set<Option<int>>
  {
    set i | 0 <= i < |infos| :: infos[i].year
  }

  lemma YearsOfSnoc(infos: seq<RoundInfo>, x: RoundInfo)
    ensures YearsOf(infos + [x]) == YearsOf(infos) + {x.year}
  {
    var s := infos + [x];
    assert s[|infos|] == x;
    forall y | y in YearsOf(infos)
      ensures y in YearsOf(s)
    {
      var i :| 0 <= i < |infos| && infos[i].year == y;
      assert s[i] == infos[i];
    }
  }

  /** The map processRoundsData builds: each year with its rounds, newest first. */
  function GroupByYear(infos: seq<RoundInfo>): (m: map<Option<int>, seq<RoundInfo>>)
    ensures m.Keys == YearsOf(infos)
  {
    map y | y in YearsOf(infos) :: Sort(RoundsOfYear(infos, y), RoundOrder())
  }

  /**
   * Each year's list holds exactly that year's rounds; when all of them
   * have numbers it is newest first, and ties keep the listed order.
   */
  lemma GroupByYearFacts(infos: seq<RoundInfo>, y: Option<int>)
    requires y in GroupByYear(infos)
    requires forall i :: 0 <= i < |infos| && infos[i].year == y ==> infos[i].roundNumber.Some?
    ensures multiset(GroupByYear(infos)[y]) == multiset(RoundsOfYear(infos, y))
    ensures forall i, j :: 0 <= i < j < |GroupByYear(infos)[y]| ==>
      NewestFirst()(GroupByYear(infos)[y][i], GroupByYear(infos)[y][j])
    ensures forall i :: 0 <= i < |GroupByYear(infos)[y]| ==> GroupByYear(infos)[y][i].year == y
    ensures forall x :: Ties(GroupByYear(infos)[y], x, NewestFirst()) == Ties(RoundsOfYear(infos, y), x, NewestFirst())
  {
    var s := RoundsOfYear(infos, y);
    forall i | 0 <= i < |s|
      ensures s[i].roundNumber.Some?
    {
      var k :| 0 <= k < |infos| && infos[k] == s[i];
    }
    RoundOrderOnNumbered(s);
    NewestFirstTotal();
    SortSorted(s, NewestFirst());
    forall x {
      SortStable(s, x, NewestFirst());
    }
    var r := GroupByYear(infos)[y];
    forall i | 0 <= i < |r|
      ensures r[i].year == y
    {
      assert r[i] in multiset(s);
    }
  }
}
