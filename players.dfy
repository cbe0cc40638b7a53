/**
 * The player directory several screens read to show a name for a player id.
 */
module Players {
  /** The part of a player record the screens use. */
  datatype PlayerRef = PlayerRef(id: string, name: string)

  const Unknown: string := "Desconhecido"

  /** `players[i]` is the first player carrying `id`. */
  predicate FirstWithId(players: seq<PlayerRef>, i: int, id: string)
  {
    0 <= i < |players| && players[i].id == id &&
    forall j :: 0 <= j < i ==> players[j].id != id
  }

  /** The name of the first player with the given id; Unknown for a missing id or player. */
  function NameOf(players: seq<PlayerRef>, id: string): (name: string)
    ensures id == "" ==> name == Unknown
    ensures (forall i :: 0 <= i < |players| ==> players[i].id != id) ==> name == Unknown
    ensures forall i :: id != "" && FirstWithId(players, i, id) ==> name == players[i].name
  {
    if id == "" then Unknown
    else if players == [] then Unknown
    else if players[0].id == id then players[0].name
    else
      var rest := NameOf(players[1..], id);
      assert forall i :: 1 <= i < |players| ==> players[i] == players[1..][i - 1];
      assert forall i :: 1 <= i < |players| && FirstWithId(players, i, id) ==> FirstWithId(players[1..], i - 1, id);
      rest
  }
}
