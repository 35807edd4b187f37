# Zona Vermelha character sheets — a Dafny model

Zona Vermelha is a small Flask application that keeps the character sheets of a tabletop
role-playing session: a list of player records (attributes, three specializations, resource
pools, level, inventory, last dice results) and one shared game state (scene location, time,
notes, the doom clock and the game master's last roll). Every request handler loads a JSON
document, changes it in memory and writes it back. This project models the in-memory part of
those handlers as pure functions over immutable datatypes, and proves their contracts.

Modules, one per component:

- `Wrappers`, `Errors`: `Option`, `Result` and the error answers (budget exceeded, wrong
  specialization count, empty item name, invalid die, player not found).
- `Seqs`: first-match search (Python's `next(...)`) and filtering (list comprehensions), shared
  by the player list and the inventory.
- `Decimal`, `Dice`: the permitted dice, the face count parsed from a die name, the upper-case
  label of a game-master roll.
- `Specializations`: the specialization table and `calculate_stats`, with a reference definition
  (a plain sum of bonuses) the calculator is proved to agree with.
- `GameState`: the default merge on load, the doom clock, scene updates, the game-master roll.
- `Inventory`: add, quantity update, delete and reorder on a sequence of items.
- `Players`: one player record: pool and level counters, dice results, creation, and the
  dashboard's compatibility backfill.
- `Roster`: the player list and the handlers that change one record in it.

Inputs the application takes from outside are parameters: record ids (generated by `uuid4`), the
random draw of a roll (constrained to `[1, faces]`), and the upper-casing of names (`upper`).

`Specializations.RookExample`: every attribute at 2 with socorrista, cacador and atleta gives
vigor 1 (socorrista lowers it) and a health maximum of 11.

## Model

| member | source | states |
|---|---|---|
| `Seqs.FirstIndex` | app.py:36-37 | the index found holds the first element satisfying the predicate; None exactly when no element does |
| `Seqs.Filter` | app.py:137 | the result holds exactly the elements of the input that satisfy the predicate, and is no longer |
| `Decimal.ParseToDecimal` | app.py:215 | parsing the canonical decimal spelling of a number gives that number back |
| `Dice.PlayerDiceAreDmDice` | app.py:225 | every die a player may roll is also a die the game master may roll |
| `Dice.Faces` | app.py:215 | the face count read from a permitted die name is positive and is the number the name spells after `d` |
| `Dice.DieLabel` | app.py:232 | the recorded label of a permitted die is its name with a capital `D` |
| `Specializations.TableShape` | app.py:14-26 | every specialization raises one attribute by 2 and lowers a different one by 1 |
| `Specializations.ApplyBonusAdds` | app.py:65-66 | the inner loop adds to each key the sum of the deltas the bonus list gives it |
| `Specializations.ApplySpecsAdds` | app.py:62-66 | the outer loop adds to each key the total bonus of the known ids and nothing for unknown ones |
| `Specializations.CalculateStats` | app.py:60-70 | each final attribute is the base plus the total bonus of the ids; health max is 10 + final vigor, stamina max 10 + final presence, action max 5 |
| `Specializations.TotalBonusPermutation` | app.py:62-66 | the total bonus of a list of ids depends only on their multiset |
| `Specializations.SpecOrderIrrelevant` | app.py:60-70 | two orderings of the same specializations give identical stats |
| `Specializations.TotalBonusOfKnown` | app.py:63 | dropping unknown ids does not change the total bonus |
| `Specializations.UnknownSpecsIgnored` | app.py:63 | the stats of a list equal the stats of its known ids alone |
| `Specializations.RookExample` | app.py:60-70 | all attributes 2 with socorrista, cacador and atleta give final attributes 1,4,4,3,1 and maxima 11, 11, 5 |
| `GameState.Merge` | app.py:54 | each key present in the loaded document keeps its loaded value; each missing key takes the default |
| `GameState.Load` | app.py:50-54 | no document gives the defaults; a document gives its merge with the defaults |
| `GameState.SaveLoadRoundTrip` | app.py:54 | loading a saved state gives the same state back |
| `GameState.LoadEmptyDoc` | app.py:41-54 | a document with none of the keys loads as location DESCONHECIDO, time 00:00, empty notes, clock 0 of 12, no last roll |
| `GameState.AdjustDoom` | app.py:103-106 | inc steps up to the maximum, dec steps down to 0, reset gives 0, other actions change nothing; the clock stays in [0, max] and no other field changes |
| `GameState.DoomBoundariesAreFixed` | app.py:104-105 | inc at the maximum and dec at 0 leave the state unchanged |
| `GameState.DoomStaysInRange` | app.py:102-107 | after any sequence of presses the clock is still in [0, max] and only the clock has changed |
| `GameState.UpdateScene` | app.py:95-97 | fields sent replace the stored ones (location upper-cased), fields not sent and the clock and roll are kept |
| `GameState.RollDm` | app.py:225-232 | a die outside the seven permitted ones is refused; otherwise only the last roll and label change, the stored roll is the draw, which lies in [1, faces], and the label is `D` plus the face count |
| `Inventory.ItemIndex` | app.py:202 | the index found holds the first item with the id; None exactly when no item has it |
| `Inventory.AddItem` | app.py:166-170 | a missing or empty name is refused; otherwise the old items are kept as a prefix and one item with quantity 1 is appended |
| `Inventory.UpdateQty` | app.py:179-183 | only the first item with the id changes: inc adds 1, dec floors at 0; ids, names, length and non-negative quantities are kept; absent id or other action changes nothing |
| `Inventory.DeleteItem` | app.py:192 | the remaining items are exactly the items without the id |
| `Inventory.DeleteItemIdempotent` | app.py:192 | deleting an item twice is deleting it once |
| `Inventory.DeleteAbsentItem` | app.py:192 | deleting an absent id changes nothing |
| `Inventory.DeleteItemConcat` | app.py:192 | deletion distributes over concatenation, so the survivors keep their order |
| `Inventory.Reorder` | app.py:201-205 | absent id, moving the first item up, moving the last item down and other directions change nothing; otherwise exactly positions i and i±1 are swapped; length and multiset are kept |
| `Inventory.ReorderUpThenDown` | app.py:202-205 | moving an item up and then down restores the inventory |
| `Inventory.ReorderDownThenUp` | app.py:202-205 | with unique ids, moving an item down and then up restores the inventory |
| `Inventory.OperationsKeepQtysNonNegative` | app.py:167-205 | no inventory operation makes a quantity negative |
| `Players.Backfill` | app.py:80-87 | present fields are kept; a missing level becomes 1, missing dice all unrolled, missing pools their maxima |
| `Players.BackfillIdempotent` | app.py:80-87 | backfilling twice equals backfilling once, and a complete record is left as it is |
| `Players.AdjustPool` | app.py:145-148 | on a stored value c, inc gives c+1 below the recomputed maximum and the maximum otherwise, dec gives c−1 above 0 and 0 otherwise; an unset pool counts from the maximum (see Findings); other actions change nothing, only the chosen pool changes, a pool in range stays in range |
| `Players.AdjustPoolAsWritten` | app.py:145-148 | only the chosen pool changes, dec never goes below 0, on a record that stores the pool it agrees with `AdjustPool`, on an unset pool inc gives the maximum and dec gives 0, and other actions change nothing |
| `Players.AsWrittenDecEmptiesUnsetPool` | app.py:148 | on a record without a health value, shown as 10, one dec stores 0 while on the shown record it stores 9 |
| `Players.AdjustPoolMatchesDashboard` | app.py:145-148 | inc and dec act on the pool value the dashboard shows, whether or not the record stores it |
| `Players.PoolBoundariesAreFixed` | app.py:147-148 | inc at the maximum and dec at 0 leave the record unchanged |
| `Players.PoolIncThenDec` | app.py:147-148 | an inc followed by a dec restores a pool that was below its maximum |
| `Players.AdjustLevel` | app.py:157-159 | a missing level counts as 1; inc gives level+1 below 20 and 20 otherwise, dec gives level−1 above 1 and 1 otherwise, other actions change nothing; a level in [1,20] stays there; nothing else changes |
| `Players.RecordRoll` | app.py:217-218 | the rolled die's last result is the roll; every other die and field is unchanged |
| `Players.CreatePlayer` | app.py:120-128 | an attribute sum over 10 is refused first, then a specialization count other than 3; success stores the inputs with level 1, empty inventory, four unrolled dice and every pool at its maximum |
| `Players.CreatedPlayerIsFull` | app.py:122-127 | a created player has every pool at its maximum, so in range when the maxima are not negative |
| `Roster.PlayerIndex` | app.py:36-37 | the index found holds the first player with the id; None exactly when no player has it |
| `Roster.GetPlayer` | app.py:36-37 | the player found is the first one with the id; None exactly when no player has it |
| `Roster.AddPlayer` | app.py:120-131 | a refused creation changes nothing and reports the same error; otherwise exactly the new player is appended |
| `Roster.DeletePlayer` | app.py:137 | the remaining players are exactly those without the id |
| `Roster.DeletePlayerIdempotent` | app.py:137 | deleting a player twice is deleting once |
| `Roster.DeleteAbsentPlayer` | app.py:137 | deleting an absent id changes nothing |
| `Roster.DeletePlayerConcat` | app.py:137 | deletion distributes over concatenation, so the remaining players keep their order |
| `Roster.ModifyPlayer` | app.py:142-144 | an unknown id answers NotFound; otherwise only the first player with the id is replaced |
| `Roster.UpdateStat` | app.py:141-149 | an unknown id answers NotFound; otherwise only the first matching player changes, by `AdjustPool` (which counts an unset pool down from its maximum, see Findings) |
| `Roster.UpdateStatKeepsPoolsInRange` | app.py:145-149 | if every player's pools were in range, they still are after a pool adjustment |
| `Roster.UpdateLevel` | app.py:155-160 | an unknown id answers NotFound; otherwise only the first matching player changes, by `AdjustLevel` |
| `Roster.AddItemTo` | app.py:166-171 | an empty name is refused before the lookup; an unknown id answers NotFound; otherwise only that player's inventory changes, gaining one item with quantity 1 at the end |
| `Roster.UpdateItem` | app.py:177-184 | an unknown id answers NotFound; otherwise only that player's inventory changes, by `UpdateQty` |
| `Roster.DeleteItemFrom` | app.py:190-193 | an unknown id answers NotFound; otherwise only that player's inventory changes, by `DeleteItem` |
| `Roster.ReorderItem` | app.py:199-206 | an unknown id answers NotFound; otherwise only that player's inventory changes, by `Reorder` |
| `Roster.RollDie` | app.py:212-219 | a die outside d4, d6, d12, d20 is refused before the lookup; an unknown id answers NotFound; otherwise only that player's roll for the die changes, to a value in [1, faces] |

## Left out

- HTTP routing, form access, template rendering, redirects and status codes: handlers return a `Result`, and the rendered fragment is not modelled.
- Reading and writing `players.json` and `gamestate.json`: the player list is a sequence argument, and the game-state file is an `Option<GameDoc>` (None when the file does not exist).
- `uuid.uuid4()`: record ids are parameters; `ReorderDownThenUp` assumes unique item ids as the generator provides.
- `random.randint`: the draw is the `roll` parameter, required to lie in `[1, faces]` for a permitted die.
- `str.upper()` on player names, item names and locations: a parameter `upper`; only die labels, which are ASCII, are upper-cased by the model itself.
- `int()` parsing of the attribute form fields, and its exception on non-numeric input: attributes arrive as integers.
- The exceptions raised by handlers that do not guard against an unknown player id (level, inventory, roll): the model answers `NotFound` with no change, as `update_stat` does.
- Stat names other than `current_pv`, `current_ps` and `current_pa`: the source writes that key of the record with maximum 5, overwriting an existing key such as `level` (a level of 7 becomes 5 on `inc`), or raises on a non-numeric field such as `name`; the model accepts only the three pools.
- Records without an `inventory` key: the source's inventory handlers raise on them; the model gives every record an inventory, so the backfill of that key (app.py:80) is not modelled.
- Keys in a stored game-state document outside the seven known ones, and values of an unexpected JSON type: the model's document has exactly the known keys, each typed.
- The `stats` entry attached to a record for rendering after each handler: display only.
- Concurrent requests and the unlocked read-modify-write between them.
- Roster.UpdateStat: uses the corrected `Players.AdjustPool`, so `dec` on a record without the pool stores the maximum minus 1 (floored at 0) where app.py:148 stores 0; the code as written is `Players.AdjustPoolAsWritten` (see Findings).

## Findings

| source | as written | input that shows it | evidently intended | confidence | as-written member | corrected member |
|---|---|---|---|---|---|---|
| app.py:148 | `dec` reads a missing pool value as 0 | a record without `current_pv`, all attributes 0, no specializations: the dashboard shows 10 and one `dec` stores 0 | count down from the value shown, defaulting to the maximum as `inc` (line 147) and the dashboard (line 85) do, so one `dec` stores 9 | medium, not executed | `Players.AsWrittenDecEmptiesUnsetPool` | `Players.AdjustPoolMatchesDashboard` |

The handlers of `Roster` use the corrected `Players.AdjustPool`; `Players.AdjustPoolAsWritten` models line 148 as written.
