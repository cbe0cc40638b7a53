/**
 * The three views of the rankings screen: the accumulated ranking up to a
 * round, the ranking of one round, and the general ranking with the change
 * against the previous one; plus what decides whether a movement arrow is
 * shown.
 */
module Rankings {
  import opened JsText
  import opened StableSort
  import opened RoundIds
  import opened Players

  /** A position change: not computed, NaN (computed from a missing position), or a number. */
  datatype Change = Unset | NotANumber | Delta(d: int)

  /**
   * A ranking line as the store delivers it and the screen decorates it;
   * every field may be missing. The round history carries `points`, the
   * rankings collection `scorePoints`.
   */
  datatype RankEntry = RankEntry(
    playerId: Option<string>,
    scorePoints: Option<int>,
    points: Option<int>,
    position: Option<int>,
    finalRoundIndex: Option<int>,
    positionChange: Change,
    name: Option<string>)

  /** The player id as a string key; a missing id reads as "". */
  function IdText(id: Option<string>): (s: string)
    ensures id.Some? ==> s == id.value
    ensures id.None? ==> s == ""
  {
    if id.Some? then id.value else ""
  }

  /** The same line, apart from the fields the screen computes. */
  predicate SameRecord(a: RankEntry, b: RankEntry)
  {
    a.playerId == b.playerId && a.scorePoints == b.scorePoints && a.points == b.points &&
    a.finalRoundIndex == b.finalRoundIndex
  }

  /** `pairs[i]` is the last pair for its key. */
  predicate LastForKey<K(==), V>(pairs: seq<(K, V)>, i: int)
  {
    0 <= i < |pairs| && forall j :: i < j < |pairs| ==> pairs[j].0 != pairs[i].0
  }

  /** `new Map(pairs)`, or `set` calls in order: a later pair for a key replaces an earlier one. */
  function MapOf<K(==), V>(pairs: seq<(K, V)>): (m: map<K, V>)
    ensures forall i :: 0 <= i < |pairs| ==> pairs[i].0 in m
  {
    if pairs == [] then map[]
    else
      var init := pairs[..|pairs| - 1];
      var last := pairs[|pairs| - 1];
      assert forall i :: 0 <= i < |init| ==> init[i] == pairs[i];
      MapOf(init)[last.0 := last.1]
  }

  /** The last pair for a key gives its value. */
  lemma {:induction false} MapOfLast<K, V>(pairs: seq<(K, V)>, i: int)
    requires LastForKey(pairs, i)
    ensures MapOf(pairs)[pairs[i].0] == pairs[i].1
  {
    var init := pairs[..|pairs| - 1];
    if i < |init| {
      assert LastForKey(init, i);
      MapOfLast(init, i);
    }
  }

  /** Only keys of the pairs are in the map. */
  lemma {:induction false} MapOfKey<K, V>(pairs: seq<(K, V)>, k: K)
    requires k in MapOf(pairs)
    ensures exists i :: 0 <= i < |pairs| && pairs[i].0 == k
  {
    var init := pairs[..|pairs| - 1];
    if k != pairs[|pairs| - 1].0 {
      MapOfKey(init, k);
      var i :| 0 <= i < |init| && init[i].0 == k;
      assert pairs[i] == init[i];
    }
  }

  /** The change from a recorded previous position to `position`; 0 when none is recorded. */
  function ChangeFrom(previous: map<string, int>, id: Option<string>, position: int): (c: Change)
    ensures c.Delta?
    ensures id.Some? && id.value in previous ==> c == Delta(previous[id.value] - position)
    ensures !(id.Some? && id.value in previous) ==> c == Delta(0)
  {
    Delta(if id.Some? && id.value in previous then previous[id.value] - position else 0)
  }

  /** Positions 1, 2, … in list order, with the change from a recorded previous position. */
  function Ranked(sorted: seq<RankEntry>, previous: map<string, int>): (r: seq<RankEntry>)
    ensures |r| == |sorted|
    ensures forall i :: 0 <= i < |r| ==> SameRecord(r[i], sorted[i]) && r[i].name == sorted[i].name
    ensures forall i :: 0 <= i < |r| ==> r[i].position == Some(i + 1)
    ensures forall i :: 0 <= i < |r| ==> r[i].positionChange == ChangeFrom(previous, sorted[i].playerId, i + 1)
  {
    seq(|sorted|, i requires 0 <= i < |sorted| =>
      sorted[i].(position := Some(i + 1), positionChange := ChangeFrom(previous, sorted[i].playerId, i + 1)))
  }

  // ---------------------------------------------------------------------------
  // Accumulated ranking up to a round

  /** Lines with a truthy player id and a scorePoints value take part. */
  predicate Scored(e: RankEntry)
  {
    Truthy(e.playerId) && e.scorePoints.Some?
  }

  function ScoreOf(e: RankEntry): int
  {
    if e.scorePoints.Some? then e.scorePoints.value else 0
  }

  /** The scored lines, highest scorePoints first. */
  function ScoreOrder(s: seq<RankEntry>): (r: seq<RankEntry>)
    ensures multiset(r) == multiset(Filter(s, Scored))
  {
    Sort(Filter(s, Scored), ByKeyDesc(ScoreOf))
  }

  lemma ScoreOrderFacts(s: seq<RankEntry>)
    ensures |ScoreOrder(s)| == |Filter(s, Scored)|
    ensures forall i :: 0 <= i < |ScoreOrder(s)| ==> Scored(ScoreOrder(s)[i])
    ensures forall i, j :: 0 <= i < j < |ScoreOrder(s)| ==> ScoreOf(ScoreOrder(s)[i]) >= ScoreOf(ScoreOrder(s)[j])
  {
    var f := Filter(s, Scored);
    SortDescFacts(f, ScoreOf);
    var r := ScoreOrder(s);
    forall i | 0 <= i < |r|
      ensures Scored(r[i])
    {
      assert r[i] in multiset(f);
      var k :| 0 <= k < |f| && f[k] == r[i];
    }
  }

  /** previousSorted.forEach((p, i) => previousPositions.set(p.playerId, i + 1)) */
  function IndexPairs(ordered: seq<RankEntry>): (pairs: seq<(string, int)>)
    ensures |pairs| == |ordered|
    ensures forall i :: 0 <= i < |pairs| ==> pairs[i] == (IdText(ordered[i].playerId), i + 1)
  {
    seq(|ordered|, i requires 0 <= i < |ordered| => (IdText(ordered[i].playerId), i + 1))
  }

  /**
   * loadAccumulatedUntilRound once both rankings arrived: the scored lines
   * of the current accumulated ranking, highest first, numbered 1, 2, …,
   * each with the places gained since the previous one (0 when the player
   * was not ranked there).
   */
  function AccumulatedRanking(current: seq<RankEntry>, previous: seq<RankEntry>): (r: seq<RankEntry>)
    ensures |r| == |ScoreOrder(current)|
  {
    Ranked(ScoreOrder(current), MapOf(IndexPairs(ScoreOrder(previous))))
  }

  /** `s[j]` is the last line of `s` for the player. */
  predicate LastWithId(s: seq<RankEntry>, j: int, id: Option<string>)
  {
    0 <= j < |s| && s[j].playerId == id && forall k :: j < k < |s| ==> s[k].playerId != id
  }

  /**
   * The accumulated ranking holds exactly the scored lines, in descending
   * scorePoints, numbered from 1.
   */
  lemma AccumulatedFacts(current: seq<RankEntry>, previous: seq<RankEntry>)
    ensures |AccumulatedRanking(current, previous)| == |Filter(current, Scored)|
    ensures var r := AccumulatedRanking(current, previous);
      forall i :: 0 <= i < |r| ==> r[i].position == Some(i + 1) && Scored(r[i])
    ensures var r := AccumulatedRanking(current, previous);
      forall i, j :: 0 <= i < j < |r| ==> ScoreOf(r[i]) >= ScoreOf(r[j])
    ensures var r := AccumulatedRanking(current, previous);
      forall i :: 0 <= i < |r| ==> SameRecord(r[i], ScoreOrder(current)[i])
    ensures multiset(ScoreOrder(current)) == multiset(Filter(current, Scored))
  {
    ScoreOrderFacts(current);
  }

  /**
   * A player ranked in the previous accumulated ranking moves by the
   * difference of the two places; a player absent from it gets 0.
   */
  lemma IndexPairsLast(o: seq<RankEntry>, j: int)
    requires forall k :: 0 <= k < |o| ==> Scored(o[k])
    requires 0 <= j < |o| && LastWithId(o, j, o[j].playerId)
    ensures LastForKey(IndexPairs(o), j)
  {
    var pairs := IndexPairs(o);
    forall k | j < k < |pairs|
      ensures pairs[k].0 != pairs[j].0
    {
      assert o[k].playerId != o[j].playerId;
    }
  }

  lemma AccumulatedChange(current: seq<RankEntry>, previous: seq<RankEntry>, i: int, j: int)
    requires 0 <= i < |ScoreOrder(current)|
    requires LastWithId(ScoreOrder(previous), j, ScoreOrder(current)[i].playerId)
    ensures AccumulatedRanking(current, previous)[i].positionChange == Delta((j + 1) - (i + 1))
  {
    var o := ScoreOrder(previous);
    var m := MapOf(IndexPairs(o));
    ScoreOrderFacts(previous);
    IndexPairsLast(o, j);
    MapOfLast(IndexPairs(o), j);
    var id := ScoreOrder(current)[i].playerId;
    assert id == o[j].playerId && Scored(o[j]);
    assert id.value in m && m[id.value] == j + 1;
    assert AccumulatedRanking(current, previous) == Ranked(ScoreOrder(current), m);
  }

  lemma AccumulatedNewcomer(current: seq<RankEntry>, previous: seq<RankEntry>, i: int)
    requires 0 <= i < |ScoreOrder(current)|
    requires forall j :: 0 <= j < |ScoreOrder(previous)| ==> ScoreOrder(previous)[j].playerId != ScoreOrder(current)[i].playerId
    ensures AccumulatedRanking(current, previous)[i].positionChange == Delta(0)
  {
    var o := ScoreOrder(previous);
    var pairs := IndexPairs(o);
    ScoreOrderFacts(previous);
    ScoreOrderFacts(current);
    var id := ScoreOrder(current)[i].playerId;
    if id.value in MapOf(pairs) {
      MapOfKey(pairs, id.value);
      assert false;
    }
  }

  // ---------------------------------------------------------------------------
  // Ranking of a single round

  function PointsOrZero(e: RankEntry): int
  {
    if e.points.Some? then e.points.value else 0
  }

  function FinalIndexOrZero(e: RankEntry): int
  {
    if e.finalRoundIndex.Some? then e.finalRoundIndex.value else 0
  }

  /**
   * The round view's comparator: by finalRoundIndex ascending when both
   * lines have one, else by points descending (a missing value counts 0).
   */
  function RoundComparator(): (RankEntry, RankEntry) -> bool
  {
    (a: RankEntry, b: RankEntry) =>
      if a.finalRoundIndex.Some? && b.finalRoundIndex.Some? then
        a.finalRoundIndex.value - b.finalRoundIndex.value <= 0
      else PointsOrZero(b) - PointsOrZero(a) <= 0
  }

  predicate HasIdAndPosition(e: RankEntry)
  {
    Truthy(e.playerId) && e.position.Some?
  }

  /** The previous round's lines with a truthy id and a numeric position, as (id, position). */
  function RecordedPairs(previous: seq<RankEntry>): (pairs: seq<(string, int)>)
    ensures |pairs| == |Filter(previous, HasIdAndPosition)|
    ensures var f := Filter(previous, HasIdAndPosition);
      forall i :: 0 <= i < |pairs| ==> pairs[i] == (f[i].playerId.value, f[i].position.value)
  {
    var f := Filter(previous, HasIdAndPosition);
    seq(|f|, i requires 0 <= i < |f| => (f[i].playerId.value, f[i].position.value))
  }

  /**
   * loadRoundSpecificData once both rounds arrived: the round's lines
   * sorted by the comparator, numbered from 1, each with the change from
   * the position it held in the previous round.
   */
  function RoundSpecificRanking(current: seq<RankEntry>, previous: seq<RankEntry>): (r: seq<RankEntry>)
    ensures |r| == |current|
  {
    Ranked(Sort(current, RoundComparator()), MapOf(RecordedPairs(previous)))
  }

  lemma RoundSpecificNumbered(current: seq<RankEntry>, previous: seq<RankEntry>)
    ensures var r := RoundSpecificRanking(current, previous);
      forall i :: 0 <= i < |r| ==> r[i].position == Some(i + 1) && SameRecord(r[i], Sort(current, RoundComparator())[i])
    ensures multiset(Sort(current, RoundComparator())) == multiset(current)
  {
  }

  /** With a finalRoundIndex on every line the comparator is the ascending order of that index. */
  lemma ComparatorOnFinalIndex(current: seq<RankEntry>)
    requires forall i :: 0 <= i < |current| ==> current[i].finalRoundIndex.Some?
    ensures Sort(current, RoundComparator()) == Sort(current, ByKeyAsc(FinalIndexOrZero))
  {
    forall a, b | a in current && b in current
      ensures RoundComparator()(a, b) == ByKeyAsc(FinalIndexOrZero)(a, b)
    {
      var k :| 0 <= k < |current| && current[k] == a;
      var l :| 0 <= l < |current| && current[l] == b;
      assert a.finalRoundIndex.Some? && b.finalRoundIndex.Some?;
      assert RoundComparator()(a, b) == (a.finalRoundIndex.value - b.finalRoundIndex.value <= 0);
      assert ByKeyAsc(FinalIndexOrZero)(a, b) == (FinalIndexOrZero(a) <= FinalIndexOrZero(b));
    }
    SortCongruent(current, RoundComparator(), ByKeyAsc(FinalIndexOrZero));
  }

  /** When every line has a finalRoundIndex, the round view lists them by it, ascending. */
  lemma RoundSpecificByFinalIndex(current: seq<RankEntry>, previous: seq<RankEntry>)
    requires forall i :: 0 <= i < |current| ==> current[i].finalRoundIndex.Some?
    ensures var r := RoundSpecificRanking(current, previous);
      forall i :: 0 <= i < |r| ==> r[i].finalRoundIndex.Some?
    ensures var r := RoundSpecificRanking(current, previous);
      forall i, j :: 0 <= i < j < |r| ==> FinalIndexOrZero(r[i]) <= FinalIndexOrZero(r[j])
  {
    ComparatorOnFinalIndex(current);
    KeyAscTotal(FinalIndexOrZero);
    SortSorted(current, ByKeyAsc(FinalIndexOrZero));
    var s := Sort(current, RoundComparator());
    var r := RoundSpecificRanking(current, previous);
    forall i | 0 <= i < |s|
      ensures s[i].finalRoundIndex.Some?
    {
      assert s[i] in multiset(current);
      var k :| 0 <= k < |current| && current[k] == s[i];
    }
    forall i, j | 0 <= i < j < |r|
      ensures FinalIndexOrZero(r[i]) <= FinalIndexOrZero(r[j])
    {
      assert ByKeyAsc(FinalIndexOrZero)(s[i], s[j]);
      assert ByKeyAsc(FinalIndexOrZero)(s[i], s[j]) == (FinalIndexOrZero(s[i]) <= FinalIndexOrZero(s[j]));
      assert SameRecord(r[i], s[i]) && SameRecord(r[j], s[j]);
    }
  }

  /** With no finalRoundIndex on any line the comparator is the descending order of points. */
  lemma ComparatorOnPoints(current: seq<RankEntry>)
    requires forall i :: 0 <= i < |current| ==> current[i].finalRoundIndex.None?
    ensures Sort(current, RoundComparator()) == Sort(current, ByKeyDesc(PointsOrZero))
  {
    forall a, b | a in current && b in current
      ensures RoundComparator()(a, b) == ByKeyDesc(PointsOrZero)(a, b)
    {
      var k :| 0 <= k < |current| && current[k] == a;
      assert a.finalRoundIndex.None?;
      assert RoundComparator()(a, b) == (PointsOrZero(b) - PointsOrZero(a) <= 0);
      assert ByKeyDesc(PointsOrZero)(a, b) == (PointsOrZero(a) >= PointsOrZero(b));
    }
    SortCongruent(current, RoundComparator(), ByKeyDesc(PointsOrZero));
  }

  /** When no line has a finalRoundIndex, the round view lists them by points, highest first. */
  lemma RoundSpecificByPoints(current: seq<RankEntry>, previous: seq<RankEntry>)
    requires forall i :: 0 <= i < |current| ==> current[i].finalRoundIndex.None?
    ensures var r := RoundSpecificRanking(current, previous);
      forall i, j :: 0 <= i < j < |r| ==> PointsOrZero(r[i]) >= PointsOrZero(r[j])
  {
    ComparatorOnPoints(current);
    SortDescFacts(current, PointsOrZero);
    var r := RoundSpecificRanking(current, previous);
    var s := Sort(current, RoundComparator());
    assert forall i :: 0 <= i < |r| ==> PointsOrZero(r[i]) == PointsOrZero(s[i]);
  }

  lemma RecordedPairsLast(previous: seq<RankEntry>, j: int)
    requires var f := Filter(previous, HasIdAndPosition);
      0 <= j < |f| && LastWithId(f, j, f[j].playerId)
    ensures LastForKey(RecordedPairs(previous), j)
  {
    var f := Filter(previous, HasIdAndPosition);
    var pairs := RecordedPairs(previous);
    forall k | j < k < |pairs|
      ensures pairs[k].0 != pairs[j].0
    {
      assert f[k].playerId != f[j].playerId;
      assert HasIdAndPosition(f[k]) && HasIdAndPosition(f[j]);
    }
  }

  /** A player with a recorded position in the previous round moves by the difference of the two. */
  lemma RoundSpecificChange(current: seq<RankEntry>, previous: seq<RankEntry>, i: int, j: int)
    requires 0 <= i < |current|
    requires var f := Filter(previous, HasIdAndPosition);
      LastWithId(f, j, Sort(current, RoundComparator())[i].playerId)
    ensures RoundSpecificRanking(current, previous)[i].positionChange ==
      Delta(Filter(previous, HasIdAndPosition)[j].position.value - (i + 1))
  {
    var f := Filter(previous, HasIdAndPosition);
    var m := MapOf(RecordedPairs(previous));
    RecordedPairsLast(previous, j);
    MapOfLast(RecordedPairs(previous), j);
    var id := Sort(current, RoundComparator())[i].playerId;
    assert id == f[j].playerId && HasIdAndPosition(f[j]);
    assert id.value in m && m[id.value] == f[j].position.value;
    assert RoundSpecificRanking(current, previous) == Ranked(Sort(current, RoundComparator()), m);
  }

  // ---------------------------------------------------------------------------
  // General ranking against the previous one

  /** `scorePoints ?? points ?? 0`, which is also getPlayerPoints. */
  function PlayerPoints(e: RankEntry): (p: int)
    ensures e.scorePoints.Some? ==> p == e.scorePoints.value
    ensures e.scorePoints.None? && e.points.Some? ==> p == e.points.value
    ensures e.scorePoints.None? && e.points.None? ==> p == 0
  {
    if e.scorePoints.Some? then e.scorePoints.value
    else if e.points.Some? then e.points.value
    else 0
  }

  /** `s[k]` is the first line of `s` for its player. */
  predicate FirstOccurrence(s: seq<RankEntry>, k: int)
  {
    0 <= k < |s| && forall m :: 0 <= m < k ==> s[m].playerId != s[k].playerId
  }

  predicate IdsDistinct(s: seq<RankEntry>)
  {
    forall i, j :: 0 <= i < j < |s| ==> s[i].playerId != s[j].playerId
  }

  /** The seenIds filter: the first line of each player id not yet seen (a missing id is an id too). */
  function DedupeFrom(s: seq<RankEntry>, seen: set<Option<string>>): (r: seq<RankEntry>)
    ensures |r| <= |s|
    ensures forall i :: 0 <= i < |r| ==> r[i].playerId !in seen
  {
    if s == [] then []
    else if s[0].playerId in seen then DedupeFrom(s[1..], seen)
    else [s[0]] + DedupeFrom(s[1..], seen + {s[0].playerId})
  }

  function DedupeFirst(s: seq<RankEntry>): (r: seq<RankEntry>)
    ensures |r| <= |s|
  {
    DedupeFrom(s, {})
  }

  /** Every line of `r` is the first line of `s` for its player. */
  ghost predicate KeptAreFirst(s: seq<RankEntry>, r: seq<RankEntry>)
  {
    forall i :: 0 <= i < |r| ==> IsFirstOf(s, r[i])
  }

  /** `e` is the first line of `s` for its player. */
  ghost predicate IsFirstOf(s: seq<RankEntry>, e: RankEntry)
  {
    exists k :: FirstOccurrence(s, k) && s[k] == e
  }

  /** Every player id of `s` outside `seen` has a line in `r`. */
  predicate KeptAllNew(s: seq<RankEntry>, seen: set<Option<string>>, r: seq<RankEntry>)
  {
    forall k :: 0 <= k < |s| && s[k].playerId !in seen ==>
      exists i :: 0 <= i < |r| && r[i].playerId == s[k].playerId
  }

  /** The filter keeps one line per player id. */
  lemma {:induction false} DedupeDistinct(s: seq<RankEntry>, seen: set<Option<string>>)
    ensures IdsDistinct(DedupeFrom(s, seen))
  {
    if s != [] {
      if s[0].playerId in seen {
        DedupeDistinct(s[1..], seen);
      } else {
        var rest := DedupeFrom(s[1..], seen + {s[0].playerId});
        DedupeDistinct(s[1..], seen + {s[0].playerId});
        var r := [s[0]] + rest;
        assert DedupeFrom(s, seen) == r;
        forall i, j | 0 <= i < j < |r|
          ensures r[i].playerId != r[j].playerId
        {
          assert r[j] == rest[j - 1];
          if i > 0 {
            assert r[i] == rest[i - 1];
          }
        }
      }
    } else {
      assert DedupeFrom(s, seen) == [];
    }
  }

  /** The line kept for a player is the first one given for that player. */
  lemma {:induction false} DedupeKeepsFirst(s: seq<RankEntry>, seen: set<Option<string>>)
    ensures KeptAreFirst(s, DedupeFrom(s, seen))
  {
    if s != [] {
      var x := s[0];
      var seen' := if x.playerId in seen then seen else seen + {x.playerId};
      var rest := DedupeFrom(s[1..], seen');
      DedupeKeepsFirst(s[1..], seen');
      var r := DedupeFrom(s, seen);
      assert r == if x.playerId in seen then rest else [x] + rest;
      forall i | 0 <= i < |r|
        ensures IsFirstOf(s, r[i])
      {
        if x.playerId !in seen && i == 0 {
          assert FirstOccurrence(s, 0) && s[0] == r[i];
        } else {
          var i' := if x.playerId in seen then i else i - 1;
          assert 0 <= i' < |rest| && r[i] == rest[i'];
          var k :| FirstOccurrence(s[1..], k) && s[1..][k] == rest[i'];
          assert rest[i'].playerId !in seen';
          assert FirstOccurrence(s, k + 1) && s[k + 1] == r[i];
        }
      }
      assert KeptAreFirst(s, r);
    } else {
      assert DedupeFrom(s, seen) == [];
    }
  }

  /** Every player id not seen before keeps a line. */
  lemma {:induction false} DedupeCovers(s: seq<RankEntry>, seen: set<Option<string>>)
    ensures KeptAllNew(s, seen, DedupeFrom(s, seen))
  {
    if s != [] {
      var x := s[0];
      var seen' := if x.playerId in seen then seen else seen + {x.playerId};
      var rest := DedupeFrom(s[1..], seen');
      DedupeCovers(s[1..], seen');
      var r := DedupeFrom(s, seen);
      assert r == if x.playerId in seen then rest else [x] + rest;
      forall k | 0 <= k < |s| && s[k].playerId !in seen
        ensures exists i :: 0 <= i < |r| && r[i].playerId == s[k].playerId
      {
        if s[k].playerId == x.playerId {
          assert r[0] == x;
        } else {
          assert s[1..][k - 1] == s[k];
          var i :| 0 <= i < |rest| && rest[i].playerId == s[k].playerId;
          if x.playerId !in seen {
            assert r[i + 1] == rest[i];
          }
        }
      }
      assert KeptAllNew(s, seen, r);
    } else {
      assert DedupeFrom(s, seen) == [];
    }
  }

  /** previousPositionMap: each player id with the position the previous ranking stored for it. */
  function BackendPairs(previous: seq<RankEntry>): (pairs: seq<(Option<string>, Option<int>)>)
    ensures |pairs| == |previous|
    ensures forall i :: 0 <= i < |pairs| ==> pairs[i] == (previous[i].playerId, previous[i].position)
  {
    seq(|previous|, i requires 0 <= i < |previous| => (previous[i].playerId, previous[i].position))
  }

  /**
   * The change the general view records: previous stored position minus
   * the line's own stored position; NaN when the line has none; 0 when the
   * previous ranking gives no number for the player.
   */
  function BackendChange(backend: map<Option<string>, Option<int>>, e: RankEntry): (c: Change)
    ensures c != Unset
    ensures c == NotANumber ==> e.position.None?
  {
    if e.playerId in backend && backend[e.playerId].Some? then
      if e.position.Some? then Delta(backend[e.playerId].value - e.position.value) else NotANumber
    else Delta(0)
  }

  /** The deduplicated lines, highest points first, as the general view orders them. */
  function GeneralOrder(current: seq<RankEntry>): (r: seq<RankEntry>)
    ensures multiset(r) == multiset(DedupeFirst(current))
  {
    Sort(DedupeFirst(current), ByKeyDesc(PlayerPoints))
  }

  /** finalRanking: each line with its change and the player's name. */
  function Decorated(sorted: seq<RankEntry>, backend: map<Option<string>, Option<int>>, players: seq<PlayerRef>): (r: seq<RankEntry>)
    ensures |r| == |sorted|
    ensures forall i :: 0 <= i < |r| ==> SameRecord(r[i], sorted[i]) && r[i].position == sorted[i].position
  {
    seq(|sorted|, i requires 0 <= i < |sorted| =>
      sorted[i].(positionChange := BackendChange(backend, sorted[i]),
                 name := Some(NameOf(players, IdText(sorted[i].playerId)))))
  }

  /** Positions 1, 2, … in list order. */
  function Renumbered(s: seq<RankEntry>): (r: seq<RankEntry>)
    ensures |r| == |s|
    ensures forall i :: 0 <= i < |r| ==> r[i] == s[i].(position := Some(i + 1))
  {
    seq(|s|, i requires 0 <= i < |s| => s[i].(position := Some(i + 1)))
  }

  /**
   * loadRankingWithComparison once both rankings arrived: one line per
   * player, highest points first, named, with the change against the
   * previous ranking, then sorted again by points and renumbered from 1.
   */
  function GeneralRanking(current: seq<RankEntry>, previous: seq<RankEntry>, players: seq<PlayerRef>): (r: seq<RankEntry>)
    ensures |r| == |DedupeFirst(current)|
  {
    var final := Decorated(GeneralOrder(current), MapOf(BackendPairs(previous)), players);
    Renumbered(Sort(final, ByKeyDesc(PlayerPoints)))
  }

  /** The second sort finds the lines already in points order and leaves them as they are. */
  lemma GeneralResortKeepsOrder(current: seq<RankEntry>, previous: seq<RankEntry>, players: seq<PlayerRef>)
    ensures var final := Decorated(GeneralOrder(current), MapOf(BackendPairs(previous)), players);
      Sort(final, ByKeyDesc(PlayerPoints)) == final
  {
    var sorted := GeneralOrder(current);
    var final := Decorated(sorted, MapOf(BackendPairs(previous)), players);
    SortDescFacts(DedupeFirst(current), PlayerPoints);
    assert forall i :: 0 <= i < |final| ==> PlayerPoints(final[i]) == PlayerPoints(sorted[i]);
    assert SortedBy(final, ByKeyDesc(PlayerPoints));
    SortOfSorted(final, ByKeyDesc(PlayerPoints));
  }

  /**
   * The general ranking is numbered from 1 in descending points, each line
   * named from the directory and carrying the change computed against the
   * stored positions.
   */
  lemma GeneralFacts(current: seq<RankEntry>, previous: seq<RankEntry>, players: seq<PlayerRef>)
    ensures var r := GeneralRanking(current, previous, players);
      forall i :: 0 <= i < |r| ==> r[i].position == Some(i + 1)
    ensures var r := GeneralRanking(current, previous, players);
      forall i, j :: 0 <= i < j < |r| ==> PlayerPoints(r[i]) >= PlayerPoints(r[j])
    ensures var r := GeneralRanking(current, previous, players);
      forall i :: 0 <= i < |r| ==> SameRecord(r[i], GeneralOrder(current)[i])
    ensures var r := GeneralRanking(current, previous, players);
      forall i :: 0 <= i < |r| ==> r[i].name == Some(NameOf(players, IdText(r[i].playerId)))
    ensures var r := GeneralRanking(current, previous, players);
      forall i :: 0 <= i < |r| ==> r[i].positionChange == BackendChange(MapOf(BackendPairs(previous)), GeneralOrder(current)[i])
  {
    var sorted := GeneralOrder(current);
    var final := Decorated(sorted, MapOf(BackendPairs(previous)), players);
    var r := GeneralRanking(current, previous, players);
    GeneralResortKeepsOrder(current, previous, players);
    assert r == Renumbered(final);
    SortDescFacts(DedupeFirst(current), PlayerPoints);
    assert forall i :: 0 <= i < |r| ==> PlayerPoints(r[i]) == PlayerPoints(sorted[i]);
  }

  /** The general ranking has one line per player id. */
  lemma GeneralDistinct(current: seq<RankEntry>, previous: seq<RankEntry>, players: seq<PlayerRef>)
    ensures IdsDistinct(GeneralRanking(current, previous, players))
  {
    var d := DedupeFirst(current);
    var sorted := GeneralOrder(current);
    var r := GeneralRanking(current, previous, players);
    GeneralFacts(current, previous, players);
    DedupeDistinct(current, {});
    assert Pairwise(d, (a: RankEntry, b: RankEntry) => a.playerId != b.playerId);
    SortPairwise(d, ByKeyDesc(PlayerPoints), (a: RankEntry, b: RankEntry) => a.playerId != b.playerId);
    forall i, j | 0 <= i < j < |r|
      ensures r[i].playerId != r[j].playerId
    {
      assert sorted[i].playerId != sorted[j].playerId;
      assert SameRecord(r[i], sorted[i]) && SameRecord(r[j], sorted[j]);
    }
  }

  /** Every player id of the current ranking has a line in the general ranking. */
  lemma GeneralCovers(current: seq<RankEntry>, previous: seq<RankEntry>, players: seq<PlayerRef>)
    ensures var r := GeneralRanking(current, previous, players);
      forall k :: 0 <= k < |current| ==> exists i :: 0 <= i < |r| && r[i].playerId == current[k].playerId
  {
    var d := DedupeFirst(current);
    var sorted := GeneralOrder(current);
    var r := GeneralRanking(current, previous, players);
    GeneralFacts(current, previous, players);
    DedupeCovers(current, {});
    forall k | 0 <= k < |current|
      ensures exists i :: 0 <= i < |r| && r[i].playerId == current[k].playerId
    {
      var i :| 0 <= i < |d| && d[i].playerId == current[k].playerId;
      assert d[i] in multiset(sorted);
      var i' :| 0 <= i' < |sorted| && sorted[i'] == d[i];
      assert SameRecord(r[i'], sorted[i']);
    }
  }

  /** Each line of the general ranking is the first line given for its player. */
  lemma GeneralKeepsFirst(current: seq<RankEntry>, previous: seq<RankEntry>, players: seq<PlayerRef>)
    ensures var r := GeneralRanking(current, previous, players);
      forall i :: 0 <= i < |r| ==> exists k :: FirstOccurrence(current, k) && SameRecord(r[i], current[k])
  {
    var d := DedupeFirst(current);
    var sorted := GeneralOrder(current);
    var r := GeneralRanking(current, previous, players);
    GeneralFacts(current, previous, players);
    DedupeKeepsFirst(current, {});
    forall i | 0 <= i < |r|
      ensures exists k :: FirstOccurrence(current, k) && SameRecord(r[i], current[k])
    {
      assert sorted[i] in multiset(d);
      var i' :| 0 <= i' < |d| && d[i'] == sorted[i];
      assert IsFirstOf(current, d[i']);
      var k :| FirstOccurrence(current, k) && current[k] == d[i'];
      assert SameRecord(r[i], sorted[i]);
      assert SameRecord(r[i], current[k]);
    }
  }

  /**
   * The general view measures the change against the position stored with
   * the current ranking, not against the place the line is finally shown
   * at: with `k` the previous snapshot's last entry for the line's player,
   * the change is the previous stored position minus the current stored
   * one, so a player stored at the same position in both snapshots shows no
   * movement wherever the line ends up.
   */
  lemma GeneralChangeUsesStoredPosition(current: seq<RankEntry>, previous: seq<RankEntry>, players: seq<PlayerRef>, i: nat, k: nat)
    requires i < |DedupeFirst(current)| && k < |previous|
    requires forall j :: k < j < |previous| ==> previous[j].playerId != previous[k].playerId
    requires previous[k].playerId == GeneralOrder(current)[i].playerId
    requires previous[k].position.Some? && GeneralOrder(current)[i].position.Some?
    ensures var r := GeneralRanking(current, previous, players);
      r[i].positionChange == Delta(previous[k].position.value - GeneralOrder(current)[i].position.value)
    ensures GeneralOrder(current)[i].position == previous[k].position ==>
      GeneralRanking(current, previous, players)[i].positionChange == Delta(0)
  {
    GeneralFacts(current, previous, players);
    var pairs := BackendPairs(previous);
    assert LastForKey(pairs, k);
    MapOfLast(pairs, k);
  }

  // ---------------------------------------------------------------------------
  // Movement arrows

  /** A positive `points` or `scorePoints`. */
  predicate HasPoints(e: RankEntry)
  {
    (e.points.Some? && e.points.value > 0) || (e.scorePoints.Some? && e.scorePoints.value > 0)
  }

  /** A numeric change other than 0; NaN is a number and differs from 0. */
  predicate HasMovement(e: RankEntry)
  {
    e.positionChange == NotANumber || (e.positionChange.Delta? && e.positionChange.d != 0)
  }
}
