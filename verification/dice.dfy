/** The permitted dice and the face count read from a die's name. */
module Dice {
  import opened Decimal

  /** Dice a player may roll from their sheet. */
  const PlayerDice: seq<string> := ["d4", "d6", "d12", "d20"]

  /** Dice the game master may roll. */
  const DmDice: seq<string> := ["d4", "d6", "d8", "d10", "d12", "d20", "d100"]

  /** Every player die is also a game-master die. */
  lemma PlayerDiceAreDmDice()
    ensures forall d :: d in PlayerDice ==> d in DmDice
  {
  }

  /** The face count of a permitted die: the number after its leading `d`. */
  function Faces(die: string): (n: nat)
    requires die in DmDice
    ensures 1 <= n
    ensures die == "d" + ToDecimal(n)
  {
    FacesSpelling(die);
    ParseDecimal(die[1..])
  }

  /** Each permitted die name is `d` followed by the canonical spelling of a positive number. */
  lemma FacesSpelling(die: string)
    requires die in DmDice
    ensures |die| >= 2 && IsDigits(die[1..])
    ensures 1 <= ParseDecimal(die[1..]) && die == "d" + ToDecimal(ParseDecimal(die[1..]))
  {
    var n: nat :=
      if die == "d4" then 4 else if die == "d6" then 6 else if die == "d8" then 8
      else if die == "d10" then 10 else if die == "d12" then 12 else if die == "d20" then 20
      else 100;
    assert die[1..] == ToDecimal(n);
    ParseToDecimal(n);
  }

  function AsciiUpperChar(c: char): char
  {
    if 'a' <= c <= 'z' then (c as int - 'a' as int + 'A' as int) as char else c
  }

  /** Upper-casing of ASCII letters, exact for the permitted die names. */
  function AsciiUpper(s: string): (r: string)
    ensures |r| == |s|
    ensures forall i :: 0 <= i < |s| ==> r[i] == AsciiUpperChar(s[i])
  {
    seq(|s|, i requires 0 <= i < |s| => AsciiUpperChar(s[i]))
  }

  /** The label recorded for a game-master roll: the die name with a capital `D`. */
  function DieLabel(die: string): (shown: string)
    requires die in DmDice
    ensures shown == "D" + die[1..]
  {
    AsciiUpper(die)
  }
}
