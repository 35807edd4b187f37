/** A player record and the transformations the player handlers apply to one record. */
module Players {
  import opened Wrappers
  import opened Errors
  import opened Specializations
  import opened Inventory
  import opened Dice
  import opened Clamp

  /** The three resource pools tracked on a sheet. */
  datatype Pool = Pv | Ps | Pa

  /**
   * A stored player record. Fields that older documents may lack (`level`, `dice`,
   * `current_pv`, `current_ps`, `current_pa`) are optional.
   */
  datatype Player = Player(
    id: string,
    name: string,
    age: string,
    level: Option<int>,
    attributes: Attributes,
    specs: seq<string>,
    inventory: seq<Item>,
    dice: Option<map<string, Option<int>>>,
    currentPv: Option<int>,
    currentPs: Option<int>,
    currentPa: Option<int>)

  /** The per-die last results of a new sheet: all four dice unrolled. */
  const UnrolledDice: map<string, Option<int>> := map["d4" := None, "d6" := None, "d12" := None, "d20" := None]

  function StatsOf(p: Player): Stats
  {
    CalculateStats(p.attributes, p.specs)
  }

  /** The maximum a pool is clamped to, recomputed from the current attributes and specializations. */
  function PoolMax(p: Player, pool: Pool): int
  {
    match pool
    case Pv => StatsOf(p).pvMax
    case Ps => StatsOf(p).psMax
    case Pa => 5
  }

  function Current(p: Player, pool: Pool): Option<int>
  {
    match pool
    case Pv => p.currentPv
    case Ps => p.currentPs
    case Pa => p.currentPa
  }

  function WithCurrent(p: Player, pool: Pool, v: int): (r: Player)
  {
    match pool
    case Pv => p.(currentPv := Some(v))
    case Ps => p.(currentPs := Some(v))
    case Pa => p.(currentPa := Some(v))
  }

  /** `r` differs from `p` at most in the value of `pool`. */
  predicate OnlyPoolChanged(p: Player, r: Player, pool: Pool)
  {
    && r.(currentPv := p.currentPv, currentPs := p.currentPs, currentPa := p.currentPa) == p
    && forall q :: q != pool ==> Current(r, q) == Current(p, q)
  }

  predicate PoolInRange(p: Player, pool: Pool)
  {
    Current(p, pool).Some? && 0 <= Current(p, pool).value <= PoolMax(p, pool)
  }

  predicate PoolsInRange(p: Player)
  {
    PoolInRange(p, Pv) && PoolInRange(p, Ps) && PoolInRange(p, Pa)
  }

  // Compatibility backfill of the dashboard.

  /** The record as the dashboard shows it: every optional field filled with its documented default. */
  function Backfill(p: Player): (r: Player)
    ensures r.id == p.id && r.name == p.name && r.age == p.age && r.attributes == p.attributes
    ensures r.specs == p.specs && r.inventory == p.inventory
    ensures r.level == Some(p.level.GetOr(1))
    ensures r.dice == Some(p.dice.GetOr(UnrolledDice))
    ensures forall pool :: Current(r, pool) == Some(Current(p, pool).GetOr(PoolMax(p, pool)))
  {
    p.(level := Some(p.level.GetOr(1)),
       dice := Some(p.dice.GetOr(UnrolledDice)),
       currentPv := Some(p.currentPv.GetOr(StatsOf(p).pvMax)),
       currentPs := Some(p.currentPs.GetOr(StatsOf(p).psMax)),
       currentPa := Some(p.currentPa.GetOr(5)))
  }

  /** Backfilling a record that is already complete, or twice, changes nothing more. */
  lemma BackfillIdempotent(p: Player)
    ensures Backfill(Backfill(p)) == Backfill(p)
    ensures p.level.Some? && p.dice.Some? && p.currentPv.Some? && p.currentPs.Some? && p.currentPa.Some?
            ==> Backfill(p) == p
  {
  }

  // Resource pools.

  /** One press on a pool: `inc` clamps at the recomputed maximum, `dec` at zero; anything else is a no-op. */
  function AdjustPool(p: Player, pool: Pool, action: string): (r: Player)
    ensures OnlyPoolChanged(p, r, pool)
    ensures action == "inc" ==> Current(r, pool).Some? && Current(r, pool).value <= PoolMax(p, pool)
    ensures action == "dec" ==> Current(r, pool).Some? && Current(r, pool).value >= 0
    ensures action == "inc" && Current(p, pool).Some? ==>
      var c := Current(p, pool).value;
      Current(r, pool) == Some(if c < PoolMax(p, pool) then c + 1 else PoolMax(p, pool))
    ensures action == "dec" && Current(p, pool).Some? ==>
      var c := Current(p, pool).value;
      Current(r, pool) == Some(if c > 0 then c - 1 else 0)
    ensures action == "inc" && Current(p, pool).None? ==> Current(r, pool) == Some(PoolMax(p, pool))
    ensures action == "dec" && Current(p, pool).None? ==>
      Current(r, pool) == Some(if PoolMax(p, pool) > 0 then PoolMax(p, pool) - 1 else 0)
    ensures action != "inc" && action != "dec" ==> r == p
    ensures PoolInRange(p, pool) ==> PoolInRange(r, pool)
  {
    var max := PoolMax(p, pool);
    if action == "inc" then WithCurrent(p, pool, Min(Current(p, pool).GetOr(max) + 1, max))
    else if action == "dec" then WithCurrent(p, pool, Max(Current(p, pool).GetOr(max) - 1, 0))
    else p
  }

  /** `update_stat` as written: `dec` on a record without the pool counts down from 0, not from the maximum. */
  function AdjustPoolAsWritten(p: Player, pool: Pool, action: string): (r: Player)
    ensures OnlyPoolChanged(p, r, pool)
    ensures action == "dec" ==> Current(r, pool).Some? && Current(r, pool).value >= 0
    ensures Current(p, pool).Some? ==> r == AdjustPool(p, pool, action)
    ensures action == "inc" && Current(p, pool).None? ==> Current(r, pool) == Some(PoolMax(p, pool))
    ensures action == "dec" && Current(p, pool).None? ==> Current(r, pool) == Some(0)
    ensures action != "inc" && action != "dec" ==> r == p
  {
    var max := PoolMax(p, pool);
    if action == "inc" then WithCurrent(p, pool, Min(Current(p, pool).GetOr(max) + 1, max))
    else if action == "dec" then WithCurrent(p, pool, Max(Current(p, pool).GetOr(0) - 1, 0))
    else p
  }

  /** A record with no stored pools: all attributes 0, no specializations, so the health maximum is 10. */
  const UnsetPools: Player :=
    Player("p", "ROOK", "30", None, Attributes(0, 0, 0, 0, 0), [], [], None, None, None, None)

  /** As written, `dec` takes a record the dashboard shows at 10 health straight to 0. */
  lemma AsWrittenDecEmptiesUnsetPool()
    ensures Current(Backfill(UnsetPools), Pv) == Some(10)
    ensures Current(AdjustPoolAsWritten(UnsetPools, Pv, "dec"), Pv) == Some(0)
    ensures Current(AdjustPoolAsWritten(Backfill(UnsetPools), Pv, "dec"), Pv) == Some(9)
  {
  }

  /** Adjusting a pool acts on the value the dashboard shows, whether or not the record stores it. */
  lemma AdjustPoolMatchesDashboard(p: Player, pool: Pool, action: string)
    requires action == "inc" || action == "dec"
    ensures Current(AdjustPool(p, pool, action), pool) == Current(AdjustPool(Backfill(p), pool, action), pool)
  {
    assert StatsOf(Backfill(p)) == StatsOf(p);
  }

  /** `inc` at the maximum and `dec` at zero leave the record unchanged. */
  lemma PoolBoundariesAreFixed(p: Player, pool: Pool)
    ensures Current(p, pool) == Some(PoolMax(p, pool)) ==> AdjustPool(p, pool, "inc") == p
    ensures Current(p, pool) == Some(0) ==> AdjustPool(p, pool, "dec") == p
  {
  }

  /** One `inc` followed by one `dec` restores a pool that was below its maximum. */
  lemma PoolIncThenDec(p: Player, pool: Pool)
    requires PoolInRange(p, pool) && Current(p, pool).value < PoolMax(p, pool)
    ensures AdjustPool(AdjustPool(p, pool, "inc"), pool, "dec") == p
  {
    var r := AdjustPool(p, pool, "inc");
    assert StatsOf(r) == StatsOf(p);
  }

  // Level.

  predicate LevelInRange(p: Player)
  {
    1 <= p.level.GetOr(1) <= 20
  }

  /** One press on the level counter: `inc` clamps at 20, `dec` at 1; a missing level counts as 1. */
  function AdjustLevel(p: Player, action: string): (r: Player)
    ensures r == p.(level := r.level)
    ensures action == "inc" ==> r.level.Some? && r.level.value <= 20
    ensures action == "inc" && p.level.GetOr(1) < 20 ==> r.level == Some(p.level.GetOr(1) + 1)
    ensures action == "dec" ==> r.level.Some? && r.level.value >= 1
    ensures action == "dec" && p.level.GetOr(1) > 1 ==> r.level == Some(p.level.GetOr(1) - 1)
    ensures action == "inc" && p.level.GetOr(1) >= 20 ==> r.level == Some(20)
    ensures action == "dec" && p.level.GetOr(1) <= 1 ==> r.level == Some(1)
    ensures action != "inc" && action != "dec" ==> r == p
    ensures LevelInRange(p) ==> LevelInRange(r)
  {
    var current := p.level.GetOr(1);
    if action == "inc" then p.(level := Some(Min(current + 1, 20)))
    else if action == "dec" then p.(level := Some(Max(current - 1, 1)))
    else p
  }

  // Dice.

  /** Record a roll of `die` on the sheet, overwriting only that die's last result. */
  function RecordRoll(p: Player, die: string, roll: int): (r: Player)
    ensures r == p.(dice := r.dice) && r.dice.Some?
    ensures die in r.dice.value && r.dice.value[die] == Some(roll)
    ensures forall d :: d != die ==>
      (d in r.dice.value <==> d in p.dice.GetOr(map[])) &&
      (d in r.dice.value ==> r.dice.value[d] == p.dice.GetOr(map[])[d])
  {
    p.(dice := Some(p.dice.GetOr(map[])[die := Some(roll)]))
  }

  // Creation.

  /** Validate a new sheet and build it with every pool full; `upper` upper-cases the name. */
  function CreatePlayer(id: string, name: string, age: string, attrs: Attributes, specs: seq<string>,
                        upper: string -> string): (r: Result<Player, Error>)
    ensures r == Err(AttributeBudgetExceeded) <==> attrs.Sum() > 10
    ensures r == Err(WrongSpecCount) <==> attrs.Sum() <= 10 && |specs| != 3
    ensures r.Ok? <==> attrs.Sum() <= 10 && |specs| == 3
    ensures r.Ok? ==> var q := r.value;
      && q.id == id && q.name == upper(name) && q.age == age
      && q.attributes == attrs && q.specs == specs
      && q.level == Some(1) && q.inventory == []
      && q.dice.Some? && (forall d :: d in q.dice.value <==> d in PlayerDice)
      && (forall d :: d in q.dice.value ==> q.dice.value[d].None?)
      && q.currentPv == Some(StatsOf(q).pvMax) && q.currentPs == Some(StatsOf(q).psMax) && q.currentPa == Some(5)
  {
    if attrs.Sum() > 10 then Err(AttributeBudgetExceeded)
    else if |specs| != 3 then Err(WrongSpecCount)
    else
      var stats := CalculateStats(attrs, specs);
      Ok(Player(id, upper(name), age, Some(1), attrs, specs, [], Some(UnrolledDice),
                Some(stats.pvMax), Some(stats.psMax), Some(5)))
  }

  /** A new sheet starts with every pool at its maximum, hence in range whenever the maxima are not negative. */
  lemma CreatedPlayerIsFull(id: string, name: string, age: string, attrs: Attributes, specs: seq<string>,
                            upper: string -> string)
    requires CreatePlayer(id, name, age, attrs, specs, upper).Ok?
    ensures var q := CreatePlayer(id, name, age, attrs, specs, upper).value;
      forall pool :: Current(q, pool) == Some(PoolMax(q, pool))
    ensures var q := CreatePlayer(id, name, age, attrs, specs, upper).value;
      PoolMax(q, Pv) >= 0 && PoolMax(q, Ps) >= 0 ==> PoolsInRange(q)
  {
  }
}
