/** The player list and the request handlers that load it, change one record and store it back. */
module Roster {
  import opened Wrappers
  import opened Errors
  import opened Specializations
  import opened Dice
  import Seqs
  import Inventory
  import opened Players

  /** Position of the first player with id `pid`, if any. */
  function PlayerIndex(players: seq<Player>, pid: string): (r: Option<nat>)
    ensures r.Some? ==> r.value < |players| && players[r.value].id == pid
    ensures r.Some? ==> forall j :: 0 <= j < r.value ==> players[j].id != pid
    ensures r.None? <==> forall j :: 0 <= j < |players| ==> players[j].id != pid
  {
    var p := (q: Player) => q.id == pid;
    assert forall j :: 0 <= j < |players| ==> (p(players[j]) <==> players[j].id == pid);
    Seqs.FirstIndex(players, p)
  }

  /** The first player with id `pid`, or None when there is none. */
  function GetPlayer(players: seq<Player>, pid: string): (r: Option<Player>)
    ensures r.Some? ==> r.value in players && r.value.id == pid
    ensures r.Some? ==> r.value == players[PlayerIndex(players, pid).value]
    ensures r.None? <==> forall j :: 0 <= j < |players| ==> players[j].id != pid
  {
    match PlayerIndex(players, pid)
    case None => None
    case Some(i) => Some(players[i])
  }

  /** Creating a player appends exactly one new record; a refused creation leaves the list alone. */
  function AddPlayer(players: seq<Player>, id: string, name: string, age: string, attrs: Attributes,
                     specs: seq<string>, upper: string -> string): (r: Result<seq<Player>, Error>)
    ensures r.Err? <==> CreatePlayer(id, name, age, attrs, specs, upper).Err?
    ensures r.Err? ==> r.error == CreatePlayer(id, name, age, attrs, specs, upper).error
    ensures r.Ok? ==> |r.value| == |players| + 1 && r.value[..|players|] == players
    ensures r.Ok? ==> r.value[|players|] == CreatePlayer(id, name, age, attrs, specs, upper).value
  {
    match CreatePlayer(id, name, age, attrs, specs, upper)
    case Err(e) => Err(e)
    case Ok(q) => Ok(players + [q])
  }

  /** Remove every player with id `pid`, keeping the others in order; an absent id is not an error. */
  function DeletePlayer(players: seq<Player>, pid: string): (r: seq<Player>)
    ensures |r| <= |players|
    ensures forall j :: 0 <= j < |r| ==> r[j] in players && r[j].id != pid
    ensures forall j :: 0 <= j < |players| && players[j].id != pid ==> players[j] in r
  {
    Seqs.Filter(players, (q: Player) => q.id != pid)
  }

  /** Deleting a player twice is deleting once. */
  lemma DeletePlayerIdempotent(players: seq<Player>, pid: string)
    ensures DeletePlayer(DeletePlayer(players, pid), pid) == DeletePlayer(players, pid)
  {
    Seqs.FilterIdempotent(players, (q: Player) => q.id != pid);
  }

  /** Deleting an absent id leaves the list as it was. */
  lemma DeleteAbsentPlayer(players: seq<Player>, pid: string)
    requires GetPlayer(players, pid).None?
    ensures DeletePlayer(players, pid) == players
  {
    Seqs.FilterKeepsAll(players, (q: Player) => q.id != pid);
  }

  /** Deletion works piecewise, so the remaining players keep their relative order. */
  lemma DeletePlayerConcat(a: seq<Player>, b: seq<Player>, pid: string)
    ensures DeletePlayer(a + b, pid) == DeletePlayer(a, pid) + DeletePlayer(b, pid)
  {
    Seqs.FilterConcat(a, b, (q: Player) => q.id != pid);
  }

  /** `r` is `players` with the record at `i` replaced by `q` and every other record untouched. */
  predicate ReplacedAt(players: seq<Player>, r: seq<Player>, i: nat, q: Player)
  {
    && i < |players| && |r| == |players| && r[i] == q
    && forall j :: 0 <= j < |players| && j != i ==> r[j] == players[j]
  }

  /**
   * The common shape of the per-player handlers: find the first record with id `pid` and
   * replace it by `f` of itself, or answer NotFound with no change.
   */
  function ModifyPlayer(players: seq<Player>, pid: string, f: Player -> Player): (r: Result<seq<Player>, Error>)
    ensures r.Err? <==> GetPlayer(players, pid).None?
    ensures r.Err? ==> r.error == NotFound
    ensures r.Ok? ==> var i := PlayerIndex(players, pid).value; ReplacedAt(players, r.value, i, f(players[i]))
  {
    match PlayerIndex(players, pid)
    case None => Err(NotFound)
    case Some(i) => Ok(players[i := f(players[i])])
  }

  /** Handler for `/update_stat/<pid>/<stat>/<action>`. */
  function UpdateStat(players: seq<Player>, pid: string, pool: Pool, action: string): (r: Result<seq<Player>, Error>)
    ensures r.Err? <==> GetPlayer(players, pid).None?
    ensures r.Err? ==> r.error == NotFound
    ensures r.Ok? ==> var i := PlayerIndex(players, pid).value;
      ReplacedAt(players, r.value, i, AdjustPool(players[i], pool, action))
  {
    ModifyPlayer(players, pid, (p: Player) => AdjustPool(p, pool, action))
  }

  /** Handler for `/level/<pid>/<action>`. */
  function UpdateLevel(players: seq<Player>, pid: string, action: string): (r: Result<seq<Player>, Error>)
    ensures r.Err? <==> GetPlayer(players, pid).None?
    ensures r.Err? ==> r.error == NotFound
    ensures r.Ok? ==> var i := PlayerIndex(players, pid).value;
      ReplacedAt(players, r.value, i, AdjustLevel(players[i], action))
  {
    ModifyPlayer(players, pid, (p: Player) => AdjustLevel(p, action))
  }

  /** Handler for `/inventory/add/<pid>`: the name is checked before the player is looked up. */
  function AddItemTo(players: seq<Player>, pid: string, itemId: string, itemName: Option<string>,
                     upper: string -> string): (r: Result<seq<Player>, Error>)
    ensures itemName.None? || itemName.value == "" ==> r == Err(EmptyItemName)
    ensures itemName.Some? && itemName.value != "" ==> (r.Err? <==> GetPlayer(players, pid).None?)
    ensures itemName.Some? && itemName.value != "" && GetPlayer(players, pid).None? ==> r == Err(NotFound)
    ensures r.Ok? ==> var i := PlayerIndex(players, pid).value; var inv := players[i].inventory;
      ReplacedAt(players, r.value, i, players[i].(inventory := inv + [Inventory.Item(itemId, upper(itemName.value), 1)]))
  {
    if itemName.None? || itemName.value == "" then Err(EmptyItemName)
    else ModifyPlayer(players, pid, (p: Player) => p.(inventory := Inventory.AddItem(p.inventory, itemId, itemName, upper).value))
  }

  /** Handler for `/inventory/update/<pid>/<item_id>/<action>`. */
  function UpdateItem(players: seq<Player>, pid: string, itemId: string, action: string)
    : (r: Result<seq<Player>, Error>)
    ensures r.Err? <==> GetPlayer(players, pid).None?
    ensures r.Err? ==> r.error == NotFound
    ensures r.Ok? ==> var i := PlayerIndex(players, pid).value;
      ReplacedAt(players, r.value, i, players[i].(inventory := Inventory.UpdateQty(players[i].inventory, itemId, action)))
  {
    ModifyPlayer(players, pid, (p: Player) => p.(inventory := Inventory.UpdateQty(p.inventory, itemId, action)))
  }

  /** Handler for `/inventory/delete/<pid>/<item_id>`. */
  function DeleteItemFrom(players: seq<Player>, pid: string, itemId: string): (r: Result<seq<Player>, Error>)
    ensures r.Err? <==> GetPlayer(players, pid).None?
    ensures r.Err? ==> r.error == NotFound
    ensures r.Ok? ==> var i := PlayerIndex(players, pid).value;
      ReplacedAt(players, r.value, i, players[i].(inventory := Inventory.DeleteItem(players[i].inventory, itemId)))
  {
    ModifyPlayer(players, pid, (p: Player) => p.(inventory := Inventory.DeleteItem(p.inventory, itemId)))
  }

  /** Handler for `/inventory/reorder/<pid>/<item_id>/<direction>`. */
  function ReorderItem(players: seq<Player>, pid: string, itemId: string, direction: string)
    : (r: Result<seq<Player>, Error>)
    ensures r.Err? <==> GetPlayer(players, pid).None?
    ensures r.Err? ==> r.error == NotFound
    ensures r.Ok? ==> var i := PlayerIndex(players, pid).value;
      ReplacedAt(players, r.value, i, players[i].(inventory := Inventory.Reorder(players[i].inventory, itemId, direction)))
  {
    ModifyPlayer(players, pid, (p: Player) => p.(inventory := Inventory.Reorder(p.inventory, itemId, direction)))
  }

  /** Handler for `/roll/<pid>/<die>`: the die is checked before the player is looked up; `roll` is the draw. */
  function RollDie(players: seq<Player>, pid: string, die: string, roll: int): (r: Result<seq<Player>, Error>)
    requires die in PlayerDice ==> 1 <= roll <= Faces(die)
    ensures die !in PlayerDice ==> r == Err(InvalidDie)
    ensures die in PlayerDice ==> (r.Err? <==> GetPlayer(players, pid).None?)
    ensures die in PlayerDice && GetPlayer(players, pid).None? ==> r == Err(NotFound)
    ensures r.Ok? ==> var i := PlayerIndex(players, pid).value;
      && ReplacedAt(players, r.value, i, RecordRoll(players[i], die, roll))
      && 1 <= r.value[i].dice.value[die].value <= Faces(die)
  {
    if die !in PlayerDice then Err(InvalidDie)
    else ModifyPlayer(players, pid, (p: Player) => RecordRoll(p, die, roll))
  }

  /** Pool adjustments keep every player's pools in range when they were in range before. */
  lemma UpdateStatKeepsPoolsInRange(players: seq<Player>, pid: string, pool: Pool, action: string)
    requires forall j :: 0 <= j < |players| ==> PoolsInRange(players[j])
    ensures UpdateStat(players, pid, pool, action).Ok? ==>
      var r := UpdateStat(players, pid, pool, action).value;
      forall j :: 0 <= j < |r| ==> PoolsInRange(r[j])
  {
    if UpdateStat(players, pid, pool, action).Ok? {
      var i := PlayerIndex(players, pid).value;
      var q := AdjustPool(players[i], pool, action);
      assert StatsOf(q) == StatsOf(players[i]);
      assert PoolsInRange(q);
    }
  }
}
