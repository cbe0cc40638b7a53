/**
 * GroupService: which groups the select boxes offer. It collects the
 * distinct group ids of the players, names them and attaches each group's
 * WhatsApp link; a stricter lister keeps only the groups of the current
 * (most common) round whose leaderboard holds rows.
 *
 * Every Firestore read is a parameter: the players' `groupId` fields, the
 * groups' `roundId`s, one lookup outcome per leaderboard document.
 */
module GroupService {
  import opened JsText
  import opened SelectItems
  import opened StableSort
  import opened StringOrder

  // ---------------------------------------------------------------------------
  // Names and links

  /** The name table: "Grupo A" … "Grupo V". */
  function NameTable(id: string): Option<string>
  {
    if |id| == 1 && 'A' <= id[0] <= 'V' then Some("Grupo " + id) else None
  }

  /** `groupNames[id] || "Grupo " + id` */
  function GroupName(id: string): (name: string)
  {
    match NameTable(id)
    case Some(n) => if n != "" then n else "Grupo " + id
    case None => "Grupo " + id
  }

  /** The table's entries agree with the fallback, so every name is "Grupo " + id. */
  lemma GroupNameIsFallback(id: string)
    ensures GroupName(id) == "Grupo " + id
  {
  }

  /** The link table: groups A to I have one. */
  function GroupLink(id: string): (link: Option<string>)
    ensures link.Some? <==> |id| == 1 && 'A' <= id[0] <= 'I'
  {
    if |id| == 1 && 'A' <= id[0] <= 'I' then Some(LinkOf(id[0])) else None
  }

  function LinkOf(c: char): string
    requires 'A' <= c <= 'I'
  {
    if c == 'A' then "https://chat.whatsapp.com/EqI1TL3BYPA83XKFLCDtGB?mode=ems_copy_t"
    else if c == 'B' then "https://chat.whatsapp.com/D413iGZvEwe0MbJLgrNmcr?mode=ems_copy_t"
    else if c == 'C' then "https://chat.whatsapp.com/BY5LNhvKbwF0enC3zuUKA7?mode=ems_copy_t"
    else if c == 'D' then "https://chat.whatsapp.com/Ih7j2UxrCXt3pbQ3fu3gUt?mode=ems_copy_t"
    else if c == 'E' then "https://chat.whatsapp.com/GmvH0KQyugJ4Rz3vBfDpiC?mode=ems_copy_t"
    else if c == 'F' then "https://chat.whatsapp.com/E3xtOToznVO7bjhiTIrBwU?mode=ems_copy_t"
    else if c == 'G' then "https://chat.whatsapp.com/Hzq6PxB9Zmd7bNeWxT7IiP?mode=ems_copy_t"
    else if c == 'H' then "https://chat.whatsapp.com/IyY4erDM1w9DcrquMcnOD0?mode=ems_copy_t"
    else "https://chat.whatsapp.com/HzF9al4zhUxANiTew22WrY?mode=ems_copy_t"
  }

  /** The select item every lister builds for a group id. */
  function ItemFor(id: string): (item: SelectItem)
    ensures item.value == id && item.name == "Grupo " + id && item.link == GroupLink(id)
  {
    GroupNameIsFallback(id);
    SelectItem(GroupName(id), id, GroupLink(id))
  }

  /** The `value` of each item. */
  function Values(items: seq<SelectItem>): (r: seq<string>)
    ensures |r| == |items|
    ensures forall i :: 0 <= i < |items| ==> r[i] == items[i].value
  {
    if items == [] then [] else [items[0].value] + Values(items[1..])
  }

  function Items(ids: seq<string>): (r: seq<SelectItem>)
    ensures |r| == |ids|
    ensures forall i :: 0 <= i < |ids| ==> r[i] == ItemFor(ids[i])
  {
    if ids == [] then [] else [ItemFor(ids[0])] + Items(ids[1..])
  }

  // ---------------------------------------------------------------------------
  // getAvailableGroups

  /** The Set of truthy group ids, in insertion order. */
  function DistinctIds(ids: seq<Option<string>>): (r: seq<string>)
    ensures forall i, j :: 0 <= i < j < |r| ==> r[i] != r[j]
    ensures forall i :: 0 <= i < |ids| && Truthy(ids[i]) ==> ids[i].value in r
    ensures forall k :: 0 <= k < |r| ==> exists i :: 0 <= i < |ids| && Truthy(ids[i]) && ids[i].value == r[k]
  {
    if ids == [] then []
    else
      var d := DistinctIds(ids[..|ids| - 1]);
      var last := ids[|ids| - 1];
      assert forall i :: 0 <= i < |ids| - 1 ==> ids[..|ids| - 1][i] == ids[i];
      if Truthy(last) && last.value !in d then d + [last.value] else d
  }

  /** The ids in the default string sort order, then named. */
  function AvailableGroups(ids: seq<Option<string>>): seq<SelectItem>
  {
    Items(Sort(DistinctIds(ids), ByText()))
  }

  /** The available groups are listed strictly ascending, so each at most once. */
  lemma AvailableGroupsAscending(ids: seq<Option<string>>)
    ensures StrictlyIncreasing(Values(AvailableGroups(ids)))
  {
    SortDistinctStrings(DistinctIds(ids));
    assert Values(AvailableGroups(ids)) == Sort(DistinctIds(ids), ByText());
  }

  /** Every available group is some player's truthy group id. */
  lemma AvailableGroupsSound(ids: seq<Option<string>>, k: nat)
    requires k < |AvailableGroups(ids)|
    ensures var g := AvailableGroups(ids)[k];
      g == ItemFor(g.value) && exists i :: 0 <= i < |ids| && ids[i] == Some(g.value) && g.value != ""
  {
    var d := DistinctIds(ids);
    var s := Sort(d, ByText());
    SortDistinctStrings(d);
    assert s[k] in multiset(d);
    var m :| 0 <= m < |d| && d[m] == s[k];
  }

  /** Every player's truthy group id is available. */
  lemma AvailableGroupsComplete(ids: seq<Option<string>>, i: nat)
    requires i < |ids| && Truthy(ids[i])
    ensures ids[i].value in Values(AvailableGroups(ids))
  {
    var d := DistinctIds(ids);
    SortDistinctStrings(d);
    assert Values(AvailableGroups(ids)) == Sort(d, ByText());
    assert ids[i].value in multiset(d);
  }

  // ---------------------------------------------------------------------------
  // getAvailableGroupsWithMatches

  /** The document ids of the `groups` collection, in the snapshot's order. */
  function DocIds(docs: seq<(string, bool)>): (ids: seq<string>)
    ensures |ids| == |docs|
    ensures forall i :: 0 <= i < |docs| ==> ids[i] == docs[i].0
  {
    seq(|docs|, i requires 0 <= i < |docs| => docs[i].0)
  }

  /** Each `groups` document id with whether its matches query found a row. */
  function GroupsWithMatches(docs: seq<(string, bool)>): seq<SelectItem>
  {
    var kept := Filter(docs, (d: (string, bool)) => d.1);
    Items(DocIds(kept))
  }

  /** Dropping documents keeps the remaining ids in their order. */
  lemma {:induction false} DocIdsSubsequence(a: seq<(string, bool)>, b: seq<(string, bool)>)
    requires IsSubsequence(a, b)
    ensures IsSubsequence(DocIds(a), DocIds(b))
    decreases |a| + |b|
  {
    if a != [] {
      assert DocIds(a)[1..] == DocIds(a[1..]);
      assert DocIds(b)[1..] == DocIds(b[1..]);
      if a[0] == b[0] && IsSubsequence(a[1..], b[1..]) {
        DocIdsSubsequence(a[1..], b[1..]);
      } else {
        DocIdsSubsequence(a, b[1..]);
      }
    }
  }

  /**
   * A group is listed exactly when its matches query found a row, and the
   * listed groups keep the order of the `groups` collection.
   */
  lemma GroupsWithMatchesFacts(docs: seq<(string, bool)>)
    ensures var r := GroupsWithMatches(docs);
      forall k :: 0 <= k < |r| ==> (r[k].value, true) in docs && r[k] == ItemFor(r[k].value)
    ensures var r := GroupsWithMatches(docs);
      forall i :: 0 <= i < |docs| && docs[i].1 ==> exists k :: 0 <= k < |r| && r[k].value == docs[i].0
    ensures IsSubsequence(Values(GroupsWithMatches(docs)), DocIds(docs))
  {
    var kept := Filter(docs, (d: (string, bool)) => d.1);
    var r := GroupsWithMatches(docs);
    forall i | 0 <= i < |docs| && docs[i].1
      ensures exists k :: 0 <= k < |r| && r[k].value == docs[i].0
    {
      assert docs[i] in kept;
      var k :| 0 <= k < |kept| && kept[k] == docs[i];
      assert r[k].value == kept[k].0;
    }
    GroupsWithMatchesInOrder(docs);
  }

  /** The listed ids are the collection's ids with some left out, in their order. */
  lemma GroupsWithMatchesInOrder(docs: seq<(string, bool)>)
    ensures IsSubsequence(Values(GroupsWithMatches(docs)), DocIds(docs))
  {
    var kept := Filter(docs, (d: (string, bool)) => d.1);
    FilterIsSubsequence(docs, (d: (string, bool)) => d.1);
    DocIdsSubsequence(kept, docs);
    assert Values(GroupsWithMatches(docs)) == DocIds(kept);
  }

  // ---------------------------------------------------------------------------
  // getAvailableGroupsAlternative

  /** `n` one-letter strings from the character with code `from` on. */
  function Letters(from: nat, n: nat): (r: seq<string>)
    requires from + n <= 0x80
    ensures |r| == n
    decreases n
  {
    if n == 0 then [] else [[from as char]] + Letters(from + 1, n - 1)
  }

  /** 'A' … 'Z' */
  const Candidates: seq<string> := Letters('A' as nat, 26)

  /** Every string of `r` is one character with a code in `[lo, hi)`. */
  predicate LettersBetween(r: seq<string>, lo: nat, hi: nat)
  {
    forall k :: 0 <= k < |r| ==> |r[k]| == 1 && lo <= r[k][0] as nat < hi
  }

  lemma LettersFacts(from: nat, n: nat)
    requires from + n <= 0x80
    ensures LettersBetween(Letters(from, n), from, from + n)
    ensures StrictlyIncreasing(Letters(from, n))
  {
    var l := Letters(from, n);
    forall k | 0 <= k < n
      ensures l[k] == [(from + k) as char]
    {
      LettersAt(from, n, k);
    }
    forall i, j | 0 <= i < j < n
      ensures StrLe(l[i], l[j]) && l[i] != l[j]
    {
      assert l[i][0] < l[j][0];
    }
  }

  /** Filtering keeps every earlier/later pair related as it was. */
  lemma {:induction false} FilterPairwise<T>(s: seq<T>, p: T -> bool, R: (T, T) -> bool)
    requires Pairwise(s, R)
    ensures Pairwise(Filter(s, p), R)
  {
    if s != [] {
      var t := Filter(s[1..], p);
      assert forall i :: 0 <= i < |s| - 1 ==> s[1..][i] == s[i + 1];
      FilterPairwise(s[1..], p, R);
      if p(s[0]) {
        var r := Filter(s, p);
        assert r == [s[0]] + t;
        forall i, j | 0 <= i < j < |r|
          ensures R(r[i], r[j])
        {
          assert r[j] == t[j - 1];
          if i == 0 {
            var k :| 0 <= k < |s[1..]| && s[1..][k] == r[j];
          } else {
            assert r[i] == t[i - 1];
          }
        }
      }
    }
  }

  /** Filtering keeps a strictly increasing list strictly increasing. */
  lemma FilterKeepsIncreasing(s: seq<string>, p: string -> bool)
    requires StrictlyIncreasing(s)
    ensures StrictlyIncreasing(Filter(s, p))
  {
    var lt := (a: string, b: string) => StrLe(a, b) && a != b;
    assert Pairwise(s, lt);
    FilterPairwise(s, p, lt);
    var r := Filter(s, p);
    assert forall i, j :: 0 <= i < j < |r| ==> lt(r[i], r[j]);
  }

  /** A filter of Letters keeps its strings one-letter, in their range. */
  lemma FilterLettersBetween(s: seq<string>, p: string -> bool, lo: nat, hi: nat)
    requires LettersBetween(s, lo, hi)
    ensures LettersBetween(Filter(s, p), lo, hi)
  {
    var r := Filter(s, p);
    forall k | 0 <= k < |r|
      ensures |r[k]| == 1 && lo <= r[k][0] as nat < hi
    {
      assert r[k] in s;
    }
  }

  /** Candidates A..Z, kept when their `groups` document exists. */
  function AlternativeGroups(present: string -> bool): seq<SelectItem>
  {
    Items(Filter(Candidates, present))
  }

  lemma CandidatesAt(i: nat)
    requires i < 26
    ensures Candidates[i] == [('A' as nat + i) as char]
  {
    LettersAt('A' as nat, 26, i);
  }

  lemma {:induction false} LettersAt(from: nat, n: nat, i: nat)
    requires from + n <= 0x80 && i < n
    ensures Letters(from, n)[i] == [(from + i) as char]
    decreases n
  {
    if i > 0 {
      LettersAt(from + 1, n - 1, i - 1);
    }
  }

  /** The alternative lister lists letters in alphabetical order, each at most once. */
  lemma AlternativeGroupsAscending(present: string -> bool)
    ensures StrictlyIncreasing(Values(AlternativeGroups(present)))
  {
    LettersFacts('A' as nat, 26);
    FilterKeepsIncreasing(Candidates, present);
    assert Values(AlternativeGroups(present)) == Filter(Candidates, present);
  }

  /** It lists only existing groups among A..Z, and every one of them. */
  lemma AlternativeGroupsExactly(present: string -> bool, c: char)
    requires 'A' <= c <= 'Z'
    ensures [c] in Values(AlternativeGroups(present)) <==> present([c])
  {
    var f := Filter(Candidates, present);
    assert Values(AlternativeGroups(present)) == f;
    CandidatesAt(c as nat - 'A' as nat);
  }

  /** Nothing outside A..Z is listed. */
  lemma AlternativeGroupsLetters(present: string -> bool, k: nat)
    requires k < |AlternativeGroups(present)|
    ensures var v := AlternativeGroups(present)[k].value;
      present(v) && |v| == 1 && 'A' <= v[0] <= 'Z'
  {
    LettersFacts('A' as nat, 26);
    FilterLettersBetween(Candidates, present, 'A' as nat, 'Z' as nat + 1);
  }

  // ---------------------------------------------------------------------------
  // getAvailableGroupsWithLeaderboards: the current round

  /** How many of `rounds` are `k`. */
  function Count(rounds: seq<Option<string>>, k: string): (n: nat)
    ensures n <= |rounds|
    ensures n == 0 <==> forall i :: 0 <= i < |rounds| ==> rounds[i] != Some(k)
  {
    if rounds == [] then 0
    else
      var init := rounds[..|rounds| - 1];
      assert forall i :: 0 <= i < |rounds| - 1 ==> init[i] == rounds[i];
      Count(init, k) + (if rounds[|rounds| - 1] == Some(k) then 1 else 0)
  }

  /** Where `k` first occurs in `rounds`, or -1. */
  function FirstAt(rounds: seq<Option<string>>, k: string): (p: int)
    ensures -1 <= p < |rounds|
    ensures p == -1 <==> forall i :: 0 <= i < |rounds| ==> rounds[i] != Some(k)
    ensures p >= 0 ==> rounds[p] == Some(k) && forall i :: 0 <= i < p ==> rounds[i] != Some(k)
  {
    if rounds == [] then -1
    else
      var init := rounds[..|rounds| - 1];
      assert forall i :: 0 <= i < |rounds| - 1 ==> init[i] == rounds[i];
      var p := FirstAt(init, k);
      if p >= 0 then p
      else if rounds[|rounds| - 1] == Some(k) then |rounds| - 1
      else -1
  }

  /**
   * The `roundCounts` object built by `reduce`: its keys in insertion order
   * and the count of each.
   */
  datatype Tally = Tally(keys: seq<string>, counts: map<string, nat>)

  function RoundCounts(rounds: seq<Option<string>>): (t: Tally)
    ensures forall k :: k in t.counts <==> k in t.keys
    ensures forall k :: k in t.counts ==> t.counts[k] > 0
  {
    if rounds == [] then Tally([], map[])
    else
      var t := RoundCounts(rounds[..|rounds| - 1]);
      var r := rounds[|rounds| - 1];
      if !Truthy(r) then t
      else if r.value in t.counts then Tally(t.keys, t.counts[r.value := t.counts[r.value] + 1])
      else Tally(t.keys + [r.value], t.counts[r.value := 1])
  }

  /** The tally's count of each key is its number of occurrences; "" is never a key. */
  predicate CountsAgree(rounds: seq<Option<string>>, t: Tally)
  {
    forall k :: k in t.counts ==> t.counts[k] == Count(rounds, k) && k != ""
  }

  /** Every truthy round id is a key of the tally. */
  ghost predicate CountsComplete(rounds: seq<Option<string>>, t: Tally)
  {
    forall k :: k != "" && Count(rounds, k) > 0 ==> k in t.counts
  }

  /** The keys are listed in the order of their first occurrence. */
  predicate KeysInFirstOrder(rounds: seq<Option<string>>, keys: seq<string>)
  {
    forall i, j :: 0 <= i < j < |keys| ==> 0 <= FirstAt(rounds, keys[i]) < FirstAt(rounds, keys[j])
  }

  lemma {:induction false} RoundCountsAgree(rounds: seq<Option<string>>)
    ensures CountsAgree(rounds, RoundCounts(rounds))
  {
    if rounds != [] {
      var init := rounds[..|rounds| - 1];
      RoundCountsAgree(init);
      RoundCountsComplete(init);
      var t0 := RoundCounts(init);
      var t := RoundCounts(rounds);
      var r := rounds[|rounds| - 1];
      forall k | k in t.counts
        ensures t.counts[k] == Count(rounds, k) && k != ""
      {
        if Truthy(r) && k == r.value {
          assert Count(rounds, k) == Count(init, k) + 1;
          if k !in t0.counts {
            assert Count(init, k) == 0;
          }
        } else {
          assert Count(rounds, k) == Count(init, k);
        }
      }
    }
  }

  lemma {:induction false} RoundCountsComplete(rounds: seq<Option<string>>)
    ensures CountsComplete(rounds, RoundCounts(rounds))
  {
    if rounds != [] {
      var init := rounds[..|rounds| - 1];
      RoundCountsComplete(init);
      var r := rounds[|rounds| - 1];
      forall k | k != "" && Count(rounds, k) > 0
        ensures k in RoundCounts(rounds).counts
      {
        if Count(init, k) == 0 {
          assert r == Some(k);
        }
      }
    }
  }

  lemma {:induction false} RoundCountsOrder(rounds: seq<Option<string>>)
    ensures KeysInFirstOrder(rounds, RoundCounts(rounds).keys)
  {
    if rounds != [] {
      var init := rounds[..|rounds| - 1];
      RoundCountsOrder(init);
      RoundCountsAgree(init);
      RoundCountsComplete(init);
      var t0 := RoundCounts(init);
      var t := RoundCounts(rounds);
      var r := rounds[|rounds| - 1];
      forall i | 0 <= i < |t0.keys|
        ensures FirstAt(rounds, t0.keys[i]) == FirstAt(init, t0.keys[i]) >= 0
      {
        assert t0.keys[i] in t0.counts;
      }
      if Truthy(r) && r.value !in t0.counts {
        assert Count(init, r.value) == 0;
        assert FirstAt(rounds, r.value) == |rounds| - 1;
        forall i, j | 0 <= i < j < |t.keys|
          ensures 0 <= FirstAt(rounds, t.keys[i]) < FirstAt(rounds, t.keys[j])
        {
          assert t.keys[i] == t0.keys[i];
          if j < |t0.keys| {
            assert t.keys[j] == t0.keys[j];
          }
        }
      }
    }
  }

  /** The tally counts every truthy round id, and lists the keys by first occurrence. */
  lemma RoundCountsFacts(rounds: seq<Option<string>>)
    ensures CountsAgree(rounds, RoundCounts(rounds))
    ensures CountsComplete(rounds, RoundCounts(rounds))
    ensures KeysInFirstOrder(rounds, RoundCounts(rounds).keys)
  {
    RoundCountsAgree(rounds);
    RoundCountsComplete(rounds);
    RoundCountsOrder(rounds);
  }

  /** `roundCounts[a] > roundCounts[b] ? a : b` */
  function Later(counts: map<string, nat>, a: string, b: string): string
    requires a in counts && b in counts
  {
    if counts[a] > counts[b] then a else b
  }

  /** `keys.reduce(Later, acc)` */
  function ReduceMax(keys: seq<string>, counts: map<string, nat>, acc: string): (r: string)
    requires acc in counts && forall i :: 0 <= i < |keys| ==> keys[i] in counts
    ensures r in counts
  {
    if keys == [] then acc
    else Later(counts, ReduceMax(keys[..|keys| - 1], counts, acc), keys[|keys| - 1])
  }

  /**
   * The reduce ends on a key of largest count, and any key after it has a
   * smaller count: on a tie the later key wins.
   */
  lemma {:induction false} ReduceMaxFacts(keys: seq<string>, counts: map<string, nat>, acc: string)
    requires acc in counts && forall i :: 0 <= i < |keys| ==> keys[i] in counts
    ensures counts[acc] <= counts[ReduceMax(keys, counts, acc)]
    ensures forall i :: 0 <= i < |keys| ==> counts[keys[i]] <= counts[ReduceMax(keys, counts, acc)]
    ensures var r := ReduceMax(keys, counts, acc);
      (r == acc && forall j :: 0 <= j < |keys| ==> counts[keys[j]] < counts[acc]) ||
      (exists i :: 0 <= i < |keys| && keys[i] == r && forall j :: i < j < |keys| ==> counts[keys[j]] < counts[r])
  {
    if keys != [] {
      var init := keys[..|keys| - 1];
      var x := keys[|keys| - 1];
      assert forall i :: 0 <= i < |keys| - 1 ==> init[i] == keys[i];
      ReduceMaxFacts(init, counts, acc);
      var prev := ReduceMax(init, counts, acc);
      if counts[prev] <= counts[x] {
        assert keys[|keys| - 1] == x;
      } else if !(prev == acc && forall j :: 0 <= j < |init| ==> counts[init[j]] < counts[acc]) {
        var i :| 0 <= i < |init| && init[i] == prev && forall j :: i < j < |init| ==> counts[init[j]] < counts[prev];
        assert keys[i] == prev;
      }
    }
  }

  /** `currentRoundId`: `undefined` (None) when no group has a round id. */
  function CurrentRound(rounds: seq<Option<string>>): Option<string>
  {
    var t := RoundCounts(rounds);
    if t.keys == [] then None else Some(ReduceMax(t.keys, t.counts, t.keys[0]))
  }

  /** There is a current round exactly when some group has a truthy round id. */
  lemma CurrentRoundExists(rounds: seq<Option<string>>)
    ensures CurrentRound(rounds).None? <==> forall i :: 0 <= i < |rounds| ==> !Truthy(rounds[i])
  {
    RoundCountsFacts(rounds);
    var t := RoundCounts(rounds);
    if t.keys != [] {
      assert t.keys[0] in t.counts;
      assert Count(rounds, t.keys[0]) > 0;
    } else {
      forall i | 0 <= i < |rounds|
        ensures !Truthy(rounds[i])
      {
        assert rounds[i].Some? ==> Count(rounds, rounds[i].value) > 0;
      }
    }
  }

  /** Where a truthy round id sits among the tally's keys. */
  lemma KeyIndex(rounds: seq<Option<string>>, i: nat) returns (j: nat)
    requires i < |rounds| && Truthy(rounds[i])
    ensures j < |RoundCounts(rounds).keys| && RoundCounts(rounds).keys[j] == rounds[i].value
  {
    RoundCountsComplete(rounds);
    assert Count(rounds, rounds[i].value) > 0;
    var keys := RoundCounts(rounds).keys;
    assert rounds[i].value in keys;
    j :| 0 <= j < |keys| && keys[j] == rounds[i].value;
  }

  /** The current round is the key the reduce ends on, and what that implies of its count. */
  lemma CurrentRoundKey(rounds: seq<Option<string>>, c: string) returns (m: nat)
    requires CurrentRound(rounds) == Some(c)
    ensures var t := RoundCounts(rounds);
      m < |t.keys| && t.keys[m] == c &&
      (forall j :: 0 <= j < |t.keys| ==> t.counts[t.keys[j]] <= t.counts[c]) &&
      (forall j :: m < j < |t.keys| ==> t.counts[t.keys[j]] < t.counts[c])
  {
    var t := RoundCounts(rounds);
    assert t.keys[0] in t.counts;
    ReduceMaxFacts(t.keys, t.counts, t.keys[0]);
    m :| 0 <= m < |t.keys| && t.keys[m] == c && forall j :: m < j < |t.keys| ==> t.counts[t.keys[j]] < t.counts[c];
  }

  /**
   * The current round is a truthy round id at least as frequent as any
   * other, and any round id first seen after it occurs strictly fewer times.
   */
  lemma CurrentRoundMostCommon(rounds: seq<Option<string>>, c: string, i: nat)
    requires CurrentRound(rounds) == Some(c)
    requires i < |rounds| && Truthy(rounds[i])
    ensures c != "" && Count(rounds, c) > 0
    ensures Count(rounds, rounds[i].value) <= Count(rounds, c)
    ensures FirstAt(rounds, rounds[i].value) > FirstAt(rounds, c) ==> Count(rounds, rounds[i].value) < Count(rounds, c)
  {
    var t := RoundCounts(rounds);
    var m := CurrentRoundKey(rounds, c);
    var j := KeyIndex(rounds, i);
    RoundCountsAgree(rounds);
    RoundCountsOrder(rounds);
    var v := rounds[i].value;
    assert t.keys[m] in t.counts && t.keys[j] in t.counts;
    assert t.counts[c] == Count(rounds, c) && t.counts[v] == Count(rounds, v);
    if j < m {
      assert FirstAt(rounds, v) < FirstAt(rounds, c);
    }
  }

  // ---------------------------------------------------------------------------
  // getAvailableGroupsWithLeaderboards: the leaderboard check

  /** What reading `leaderboard/<group>_<round>` gave. */
  datatype BoardLookup =
    | LookupFailed
    | NoBoard
      /** The document exists; `rows` is the length of its `data` field when that is an array. */
    | Board(rows: Option<nat>)

  /** `data && Array.isArray(data['data']) && data['data'].length > 0` */
  predicate HasRows(b: BoardLookup)
  {
    b.Board? && b.rows.Some? && b.rows.value > 0
  }

  /** `${group}_${currentRoundId}`, with `undefined` spelled out. */
  function BoardDocId(group: string, current: Option<string>): string
  {
    group + "_" + (if current.Some? then current.value else "undefined")
  }

  /** `groupRounds.find(gr => gr.group === value)` */
  function FindRound(groupRounds: seq<(string, Option<string>)>, value: string): (r: Option<(string, Option<string>)>)
    ensures r.None? <==> forall i :: 0 <= i < |groupRounds| ==> groupRounds[i].0 != value
    ensures r.Some? ==> r.value in groupRounds && r.value.0 == value
  {
    if groupRounds == [] then None
    else if groupRounds[0].0 == value then Some(groupRounds[0])
    else FindRound(groupRounds[1..], value)
  }

  /**
   * `groupRound?.roundId === currentRoundId`; a missing entry reads
   * `undefined`, a group without round id `null`.
   */
  predicate IsCurrentRound(found: Option<(string, Option<string>)>, current: Option<string>)
  {
    match found
    case None => current.None?
    case Some(gr) => current.Some? && gr.1 == current
  }

  function Pair(groups: seq<SelectItem>, rounds: seq<Option<string>>): (r: seq<(string, Option<string>)>)
    requires |rounds| == |groups|
    ensures |r| == |groups|
    ensures forall i :: 0 <= i < |groups| ==> r[i] == (groups[i].value, rounds[i])
  {
    if groups == [] then [] else [(groups[0].value, rounds[0])] + Pair(groups[1..], rounds[1..])
  }

  /**
   * `getAvailableGroupsWithLeaderboards`, given the groups, the round id read
   * for each and the store's answer for each leaderboard document.
   */
  function GroupsWithLeaderboards(groups: seq<SelectItem>, rounds: seq<Option<string>>,
                                  boards: string -> BoardLookup): seq<SelectItem>
    requires |rounds| == |groups|
  {
    if groups == [] then []
    else
      var groupRounds := Pair(groups, rounds);
      var current := CurrentRound(rounds);
      var inRound := Filter(groups, (g: SelectItem) => IsCurrentRound(FindRound(groupRounds, g.value), current));
      Filter(inRound, (g: SelectItem) => HasRows(boards(BoardDocId(g.value, current))))
  }

  /** A group is listed exactly when it is in the current round and its leaderboard has rows. */
  predicate Qualifies(groups: seq<SelectItem>, rounds: seq<Option<string>>, boards: string -> BoardLookup, g: SelectItem)
    requires |rounds| == |groups|
  {
    var current := CurrentRound(rounds);
    current.Some? &&
    FindRound(Pair(groups, rounds), g.value) == Some((g.value, current)) &&
    HasRows(boards(g.value + "_" + current.value))
  }

  lemma QualifiesSplit(groups: seq<SelectItem>, rounds: seq<Option<string>>, boards: string -> BoardLookup, i: nat)
    requires |rounds| == |groups| && i < |groups|
    ensures var current := CurrentRound(rounds);
      Qualifies(groups, rounds, boards, groups[i]) ==
      (IsCurrentRound(FindRound(Pair(groups, rounds), groups[i].value), current) &&
       HasRows(boards(BoardDocId(groups[i].value, current))))
  {
    var groupRounds := Pair(groups, rounds);
    assert groupRounds[i].0 == groups[i].value;
  }

  lemma GroupsWithLeaderboardsExactly(groups: seq<SelectItem>, rounds: seq<Option<string>>,
                                      boards: string -> BoardLookup)
    requires |rounds| == |groups|
    ensures GroupsWithLeaderboards(groups, rounds, boards) ==
      Filter(groups, (g: SelectItem) => Qualifies(groups, rounds, boards, g))
  {
    if groups != [] {
      var groupRounds := Pair(groups, rounds);
      var current := CurrentRound(rounds);
      var p := (g: SelectItem) => IsCurrentRound(FindRound(groupRounds, g.value), current);
      var q := (g: SelectItem) => HasRows(boards(BoardDocId(g.value, current)));
      var pq := (g: SelectItem) => Qualifies(groups, rounds, boards, g);
      forall i | 0 <= i < |groups|
        ensures pq(groups[i]) == (p(groups[i]) && q(groups[i]))
      {
        QualifiesSplit(groups, rounds, boards, i);
      }
      FilterFilter(groups, p, q, pq);
    }
  }

  /** The stricter lister keeps a subsequence of the groups, in their order. */
  lemma GroupsWithLeaderboardsInOrder(groups: seq<SelectItem>, rounds: seq<Option<string>>,
                                      boards: string -> BoardLookup)
    requires |rounds| == |groups|
    ensures IsSubsequence(GroupsWithLeaderboards(groups, rounds, boards), groups)
  {
    GroupsWithLeaderboardsExactly(groups, rounds, boards);
    FilterIsSubsequence(groups, (g: SelectItem) => Qualifies(groups, rounds, boards, g));
  }

  /** Without any truthy round id (or without groups) nothing is listed. */
  lemma NoCurrentRoundNoGroups(groups: seq<SelectItem>, rounds: seq<Option<string>>,
                               boards: string -> BoardLookup)
    requires |rounds| == |groups|
    requires forall i :: 0 <= i < |rounds| ==> !Truthy(rounds[i])
    ensures GroupsWithLeaderboards(groups, rounds, boards) == []
  {
    GroupsWithLeaderboardsExactly(groups, rounds, boards);
    CurrentRoundExists(rounds);
    FilterNone(groups, (g: SelectItem) => Qualifies(groups, rounds, boards, g));
  }
}
