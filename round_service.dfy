/**
 * RoundService: the end-of-round warning, the years that have round
 * history, a group's latest round id and the system status flags.
 *
 * The number of days left (`Math.ceil` of the milliseconds to the round's
 * end date) is a parameter; `None` stands for every way the service gets no
 * number: no active round, no end date, a date it cannot parse.
 */
module RoundService {
  import opened JsText
  import opened StableSort

  // ---------------------------------------------------------------------------
  // warningMessage$

  const WarningPrefix := "\U{26A0}\U{FE0F} Restam "
  const ClosingMessage := "\U{1F6A8} A rodada ser\U{E1} encerrada hoje!"

  /** What follows the number of days. */
  function DaysTail(d: int): string
  {
    " dia" + (if d == 1 then "" else "s") + " para o fim da rodada."
  }

  /** The banner text for `daysLeft`, or `null`. */
  function WarningMessage(daysLeft: Option<int>): (m: Option<string>)
    ensures m.None? <==> daysLeft.None? || daysLeft.value > 10
  {
    match daysLeft
    case None => None
    case Some(d) =>
      if 0 < d <= 10 then Some(WarningPrefix + NatToString(d) + DaysTail(d))
      else if d <= 0 then Some(ClosingMessage)
      else None
  }

  /** The closing banner exactly when the end is today or past. */
  lemma WarningClosing(daysLeft: Option<int>)
    ensures WarningMessage(daysLeft) == Some(ClosingMessage) <==> daysLeft.Some? && daysLeft.value <= 0
  {
    if daysLeft.Some? && 0 < daysLeft.value <= 10 {
      var m := WarningMessage(daysLeft).value;
      assert m[0] == WarningPrefix[0] != ClosingMessage[0];
    }
  }

  /** From one to ten days the banner reads "Restam" and then the number of days, which parses back. */
  lemma WarningCountdown(d: int)
    requires 0 < d <= 10
    ensures StartsWith(WarningMessage(Some(d)).value, WarningPrefix)
    ensures ParseIntPrefix(WarningMessage(Some(d)).value[|WarningPrefix|..]) == Some(d)
  {
    var n := NatToString(d);
    var m := WarningMessage(Some(d)).value;
    assert m == WarningPrefix + (n + DaysTail(d));
    assert m[|WarningPrefix|..] == n + DaysTail(d);
    ParseIntNatToString(d, DaysTail(d));
  }

  /** After the number: "dia" for exactly one day, "dias" otherwise. */
  lemma WarningPlural(d: int)
    requires 0 < d <= 10
    ensures var m := WarningMessage(Some(d)).value;
      m == WarningPrefix + NatToString(d) + DaysTail(d)
    ensures d == 1 <==> StartsWith(DaysTail(d), " dia para")
    ensures d != 1 <==> StartsWith(DaysTail(d), " dias para")
  {
    var t := DaysTail(d);
    if d == 1 {
      assert t[..10][4] == ' ' != " dias para"[4];
    } else {
      assert t[..9][4] == 's' != " dia para"[4];
    }
  }

  // ---------------------------------------------------------------------------
  // getAvailableYears

  /** The Set of numeric `year` fields (`None`: not a number), in insertion order. */
  function DistinctYears(years: seq<Option<int>>): (r: seq<int>)
    ensures forall i, j :: 0 <= i < j < |r| ==> r[i] != r[j]
    ensures forall i :: 0 <= i < |years| && years[i].Some? ==> years[i].value in r
    ensures forall k :: 0 <= k < |r| ==> Some(r[k]) in years
  {
    if years == [] then []
    else
      var d := DistinctYears(years[..|years| - 1]);
      var last := years[|years| - 1];
      assert forall i :: 0 <= i < |years| - 1 ==> years[..|years| - 1][i] == years[i];
      if last.Some? && last.value !in d then d + [last.value] else d
  }

  /** The years read from `roundsHistory`, or the read's failure. */
  function AvailableYears(read: Result<seq<Option<int>>>): seq<int>
  {
    match read
    case Failure(_) => []
    case Ok(years) => Sort(DistinctYears(years), ByKeyDesc(Identity))
  }

  /** The years come out strictly descending, so each once. */
  lemma AvailableYearsDescending(read: Result<seq<Option<int>>>)
    ensures var r := AvailableYears(read);
      forall i, j :: 0 <= i < j < |r| ==> r[i] > r[j]
  {
    if read.Ok? {
      var d := DistinctYears(read.value);
      SortDescFacts(d, Identity);
      var ne := (a: int, b: int) => a != b;
      assert Pairwise(d, ne);
      KeyDescTotal(Identity);
      SortPairwise(d, ByKeyDesc(Identity), ne);
      var r := AvailableYears(read);
      assert forall i, j :: 0 <= i < j < |r| ==> ne(r[i], r[j]) && r[i] >= r[j];
    }
  }

  /** A year is listed exactly when some document holds it as a number; a failed read lists none. */
  lemma AvailableYearsExactly(read: Result<seq<Option<int>>>, y: int)
    ensures y in AvailableYears(read) <==> read.Ok? && Some(y) in read.value
  {
    if read.Ok? {
      var d := DistinctYears(read.value);
      SortDescFacts(d, Identity);
      assert y in AvailableYears(read) <==> y in multiset(d);
      if Some(y) in read.value {
        var i :| 0 <= i < |read.value| && read.value[i] == Some(y);
      }
    }
  }

  // ---------------------------------------------------------------------------
  // getLatestRoundId$

  /** What reading `groups/<id>` gave. */
  datatype GroupRead =
    | ReadFailed
    | NoDocument
      /** The document; `roundId` is `None` when the field is missing or null. */
    | Document(roundId: Option<string>)

  /** `snap.data()?.["roundId"] ?? null`, and `null` on error. */
  function LatestRoundId(read: GroupRead): (r: Option<string>)
  {
    if read.Document? then read.roundId else None
  }

  /**
   * The id is the document's field whenever there is one (even an empty
   * string: `??` only replaces null and undefined), and null otherwise.
   */
  lemma LatestRoundIdDefault(read: GroupRead)
    ensures LatestRoundId(read).Some? <==> read.Document? && read.roundId.Some?
    ensures read.Document? ==> LatestRoundId(read) == read.roundId
  {
  }

  // ---------------------------------------------------------------------------
  // system/status

  /**
   * A Firestore field as JavaScript sees it: missing (`undefined`), `null`,
   * a boolean, a number (NaN included), a string, or a map or array.
   */
  datatype FieldValue = Missing | Null | Bool(b: bool) | Number(x: real) | NaN | Text(s: string) | Composite

  /** JavaScript truthiness: `false`, 0, NaN, "", `null` and `undefined` are falsy. */
  predicate TruthyValue(v: FieldValue)
  {
    match v
    case Bool(b) => b
    case Number(x) => x != 0.0
    case Text(s) => s != ""
    case Composite => true
    case _ => false
  }

  /** The `system/status` document; `message` is `None` when missing or null. */
  datatype StatusDoc = StatusDoc(isBlocked: FieldValue, message: Option<string>)

  /** `!!data?.["isBlocked"]` */
  predicate BlockedFlag(data: Option<StatusDoc>)
  {
    data.Some? && TruthyValue(data.value.isBlocked)
  }

  /**
   * A boolean field blocks exactly when it is `true`; without a document, or
   * with the field missing or null, nothing is blocked; any non-zero number
   * and any non-empty string block.
   */
  lemma BlockedFlagFacts(data: Option<StatusDoc>)
    ensures data.None? ==> !BlockedFlag(data)
    ensures data.Some? && data.value.isBlocked.Bool? ==> (BlockedFlag(data) <==> data.value.isBlocked.b)
    ensures data.Some? && (data.value.isBlocked.Missing? || data.value.isBlocked.Null?) ==> !BlockedFlag(data)
    ensures data.Some? && data.value.isBlocked.Number? ==> (BlockedFlag(data) <==> data.value.isBlocked.x != 0.0)
    ensures data.Some? && data.value.isBlocked.Text? ==> (BlockedFlag(data) <==> data.value.isBlocked.s != "")
  {
  }

  /** `data?.["message"] || ""` */
  function StatusMessage(data: Option<StatusDoc>): (m: string)
    ensures m != "" <==> data.Some? && Truthy(data.value.message)
    ensures m != "" ==> m == data.value.message.value
  {
    if data.Some? && Truthy(data.value.message) then data.value.message.value else ""
  }

  class StatusFlags {
    /** `isBlocked$` */
    var isBlocked: bool
    /** `message$` */
    var message: string

    constructor()
      ensures !isBlocked && message == ""
    {
      isBlocked := false;
      message := "";
    }

    /** The snapshot listener: both subjects take the document's values. */
    method OnSnapshot(data: Option<StatusDoc>)
      modifies this
      ensures isBlocked == BlockedFlag(data)
      ensures message == StatusMessage(data)
    {
      isBlocked := BlockedFlag(data);
      message := StatusMessage(data);
    }
  }
}
