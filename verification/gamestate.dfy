/** The shared session state: scene fields, doom clock and the game master's last roll. */
module GameState {
  import opened Wrappers
  import opened Errors
  import opened Dice
  import opened Clamp

  datatype GameState = GameState(
    location: string,
    time: string,
    notes: string,
    doomClock: int,
    doomMax: int,
    dmLastRoll: Option<int>,
    dmLastDie: Option<string>)

  /** The state used when no document exists, and the source of every missing key. */
  const Default: GameState := GameState("DESCONHECIDO", "00:00", "", 0, 12, None, None)

  /** A stored document: each key either absent (None) or present with its value (Some). */
  datatype GameDoc = GameDoc(
    location: Option<string>,
    time: Option<string>,
    notes: Option<string>,
    doomClock: Option<int>,
    doomMax: Option<int>,
    dmLastRoll: Option<Option<int>>,
    dmLastDie: Option<Option<string>>)

  /** The document `save_gamestate` writes: every key present. */
  function ToDoc(s: GameState): GameDoc
  {
    GameDoc(Some(s.location), Some(s.time), Some(s.notes), Some(s.doomClock), Some(s.doomMax),
            Some(s.dmLastRoll), Some(s.dmLastDie))
  }

  /** The merge rule for one key: the loaded value when the key is present, otherwise the default. */
  predicate TakesKey<V(==)>(loaded: Option<V>, merged: V, default: V)
  {
    merged == (if loaded.Some? then loaded.value else default)
  }

  /** The default merge of a loaded document: present keys win, missing keys come from the defaults. */
  function Merge(doc: GameDoc): (s: GameState)
    ensures TakesKey(doc.location, s.location, Default.location)
    ensures TakesKey(doc.time, s.time, Default.time)
    ensures TakesKey(doc.notes, s.notes, Default.notes)
    ensures TakesKey(doc.doomClock, s.doomClock, Default.doomClock)
    ensures TakesKey(doc.doomMax, s.doomMax, Default.doomMax)
    ensures TakesKey(doc.dmLastRoll, s.dmLastRoll, Default.dmLastRoll)
    ensures TakesKey(doc.dmLastDie, s.dmLastDie, Default.dmLastDie)
  {
    GameState(
      doc.location.GetOr(Default.location),
      doc.time.GetOr(Default.time),
      doc.notes.GetOr(Default.notes),
      doc.doomClock.GetOr(Default.doomClock),
      doc.doomMax.GetOr(Default.doomMax),
      doc.dmLastRoll.GetOr(Default.dmLastRoll),
      doc.dmLastDie.GetOr(Default.dmLastDie))
  }

  /** Loading: the defaults when no document exists, otherwise the merged document. */
  function Load(file: Option<GameDoc>): (s: GameState)
    ensures file.None? ==> s == Default
    ensures file.Some? ==> s == Merge(file.value)
  {
    match file
    case None => Default
    case Some(doc) => Merge(doc)
  }

  /** Loading what was saved gives back the saved state. */
  lemma SaveLoadRoundTrip(s: GameState)
    ensures Load(Some(ToDoc(s))) == s
  {
  }

  /** A document from an older schema with none of the keys loads as the defaults. */
  lemma LoadEmptyDoc()
    ensures Load(Some(GameDoc(None, None, None, None, None, None, None))) == Default
  {
  }

  // Doom clock.

  predicate DoomInRange(s: GameState)
  {
    0 <= s.doomClock <= s.doomMax
  }

  /** One press of a doom-clock button: `inc`, `dec`, `reset`; anything else leaves the state alone. */
  function AdjustDoom(s: GameState, action: string): (r: GameState)
    ensures r == s.(doomClock := r.doomClock)
    ensures action == "inc" ==> r.doomClock == (if s.doomClock < s.doomMax then s.doomClock + 1 else s.doomMax)
    ensures action == "dec" ==> r.doomClock == (if s.doomClock > 0 then s.doomClock - 1 else 0)
    ensures action == "reset" ==> r.doomClock == 0
    ensures action != "inc" && action != "dec" && action != "reset" ==> r == s
    ensures DoomInRange(s) ==> DoomInRange(r)
  {
    if action == "inc" then s.(doomClock := Min(s.doomClock + 1, s.doomMax))
    else if action == "dec" then s.(doomClock := Max(s.doomClock - 1, 0))
    else if action == "reset" then s.(doomClock := 0)
    else s
  }

  /** At the maximum, `inc` changes nothing; at zero, `dec` changes nothing. */
  lemma DoomBoundariesAreFixed(s: GameState)
    ensures s.doomClock == s.doomMax ==> AdjustDoom(s, "inc") == s
    ensures s.doomClock == 0 ==> AdjustDoom(s, "dec") == s
  {
  }

  /** The state after a sequence of doom-clock presses. */
  function ApplyDoom(s: GameState, actions: seq<string>): GameState
    decreases |actions|
  {
    if |actions| == 0 then s else ApplyDoom(AdjustDoom(s, actions[0]), actions[1..])
  }

  /** However the buttons are pressed, the clock stays in range and nothing but the clock changes. */
  lemma {:induction false} DoomStaysInRange(s: GameState, actions: seq<string>)
    requires DoomInRange(s)
    ensures DoomInRange(ApplyDoom(s, actions))
    ensures ApplyDoom(s, actions) == s.(doomClock := ApplyDoom(s, actions).doomClock)
    decreases |actions|
  {
    if |actions| > 0 {
      DoomStaysInRange(AdjustDoom(s, actions[0]), actions[1..]);
    }
  }

  // Scene fields.

  /** Update the scene fields sent in the form; `location` is stored upper-cased by `upper`. */
  function UpdateScene(s: GameState, location: Option<string>, time: Option<string>, notes: Option<string>,
                       upper: string -> string): (r: GameState)
    ensures r.doomClock == s.doomClock && r.doomMax == s.doomMax
    ensures r.dmLastRoll == s.dmLastRoll && r.dmLastDie == s.dmLastDie
    ensures r.location == (if location.Some? then upper(location.value) else s.location)
    ensures r.time == time.GetOr(s.time) && r.notes == notes.GetOr(s.notes)
  {
    var s1 := if location.Some? then s.(location := upper(location.value)) else s;
    var s2 := if time.Some? then s1.(time := time.value) else s1;
    if notes.Some? then s2.(notes := notes.value) else s2
  }

  // Game-master roll.

  /** Record a game-master roll of `die`; `roll` is the random draw for that die. */
  function RollDm(s: GameState, die: string, roll: int): (r: Result<GameState, Error>)
    requires die in DmDice ==> 1 <= roll <= Faces(die)
    ensures die !in DmDice <==> r == Err(InvalidDie)
    ensures r.Ok? ==> r.value == s.(dmLastRoll := r.value.dmLastRoll, dmLastDie := r.value.dmLastDie)
    ensures r.Ok? ==> r.value.dmLastRoll == Some(roll)
    ensures r.Ok? ==> r.value.dmLastRoll.Some? && 1 <= r.value.dmLastRoll.value <= Faces(die)
    ensures r.Ok? ==> r.value.dmLastDie == Some("D" + die[1..])
  {
    if die !in DmDice then Err(InvalidDie)
    else Ok(s.(dmLastRoll := Some(roll), dmLastDie := Some(DieLabel(die))))
  }
}
