/** The specialization table and the stat calculator built on it. */
module Specializations {
  import Seqs

  /** The five attribute keys: vigor, agility, intellect, perception, presence. */
  datatype Attr = Vig | Agi | Int | Per | Pre

  /** A full set of attribute values, one per key. */
  datatype Attributes = Attributes(vig: int, agi: int, intl: int, per: int, pre: int) {

    function Get(k: Attr): int
    {
      match k
      case Vig => vig
      case Agi => agi
      case Int => intl
      case Per => per
      case Pre => pre
    }

    /** The same attributes with key `k` set to `v`. */
    function Set(k: Attr, v: int): (r: Attributes)
      ensures r.Get(k) == v
      ensures forall k' :: k' != k ==> r.Get(k') == Get(k')
    {
      match k
      case Vig => this.(vig := v)
      case Agi => this.(agi := v)
      case Int => this.(intl := v)
      case Per => this.(per := v)
      case Pre => this.(pre := v)
    }

    function Sum(): int
    {
      vig + agi + intl + per + pre
    }
  }

  /** Two attribute records that agree on every key are equal. */
  lemma AttributesExt(a: Attributes, b: Attributes)
    requires forall k :: a.Get(k) == b.Get(k)
    ensures a == b
  {
    assert a.Get(Vig) == b.Get(Vig) && a.Get(Agi) == b.Get(Agi) && a.Get(Int) == b.Get(Int);
    assert a.Get(Per) == b.Get(Per) && a.Get(Pre) == b.Get(Pre);
  }

  /** A specialization: display name and bonus deltas, in the order they are applied. */
  datatype Specialization = Specialization(name: string, bonus: seq<(Attr, int)>)

  const Table: map<string, Specialization> := map[
    "socorrista" := Specialization("Socorrista", [(Int, 2), (Vig, -1)]),
    "mecanico" := Specialization("Mecânico", [(Int, 2), (Pre, -1)]),
    "cacador" := Specialization("Caçador", [(Per, 2), (Pre, -1)]),
    "lutador" := Specialization("Lutador", [(Vig, 2), (Int, -1)]),
    "atleta" := Specialization("Atleta", [(Agi, 2), (Per, -1)]),
    "dancarino" := Specialization("Dançarino", [(Agi, 2), (Vig, -1)]),
    "pastor" := Specialization("Pastor", [(Pre, 2), (Agi, -1)]),
    "nativo" := Specialization("Nativo", [(Per, 2), (Int, -1)]),
    "guarda" := Specialization("Guarda", [(Pre, 2), (Per, -1)]),
    "vendedor" := Specialization("Vendedor", [(Pre, 2), (Per, -1)]),
    "farmaceutico" := Specialization("Farmacêutico", [(Int, 2), (Agi, -1)])
  ]

  predicate Known(id: string)
  {
    id in Table
  }

  /** Every entry raises one attribute by 2 and lowers a different one by 1. */
  lemma TableShape()
    ensures forall id :: id in Table ==>
      |Table[id].bonus| == 2 && Table[id].bonus[0].1 == 2 && Table[id].bonus[1].1 == -1
      && Table[id].bonus[0].0 != Table[id].bonus[1].0
  {
  }

  /** Derived maxima and final attributes of a character. */
  datatype Stats = Stats(pvMax: int, psMax: int, paMax: int, finalAttrs: Attributes)

  // Reference definition: the bonus a list of specializations contributes to one key, as a plain sum.

  /** Sum of the deltas a bonus list gives key `k`. */
  function Delta(bonus: seq<(Attr, int)>, k: Attr): int
    decreases |bonus|
  {
    if |bonus| == 0 then 0
    else (if bonus[0].0 == k then bonus[0].1 else 0) + Delta(bonus[1..], k)
  }

  /** What one specialization id contributes to key `k`; an unknown id contributes nothing. */
  function BonusOf(id: string, k: Attr): int
  {
    if Known(id) then Delta(Table[id].bonus, k) else 0
  }

  /** What a list of specialization ids contributes to key `k`. */
  function TotalBonus(ids: seq<string>, k: Attr): int
    decreases |ids|
  {
    if |ids| == 0 then 0 else BonusOf(ids[0], k) + TotalBonus(ids[1..], k)
  }

  // The calculator itself: the two nested loops, applied in order to a copy of the base.

  /** Inner loop: add each delta of one bonus list to the running attributes. */
  function ApplyBonus(a: Attributes, bonus: seq<(Attr, int)>): Attributes
    decreases |bonus|
  {
    if |bonus| == 0 then a
    else
      var (k, v) := bonus[0];
      ApplyBonus(a.Set(k, a.Get(k) + v), bonus[1..])
  }

  /** Outer loop: apply the bonus of every known id, in list order. */
  function ApplySpecs(a: Attributes, ids: seq<string>): Attributes
    decreases |ids|
  {
    if |ids| == 0 then a
    else ApplySpecs(if Known(ids[0]) then ApplyBonus(a, Table[ids[0]].bonus) else a, ids[1..])
  }

  lemma {:induction false} ApplyBonusAdds(a: Attributes, bonus: seq<(Attr, int)>, k: Attr)
    ensures ApplyBonus(a, bonus).Get(k) == a.Get(k) + Delta(bonus, k)
    decreases |bonus|
  {
    if |bonus| > 0 {
      var (k0, v) := bonus[0];
      ApplyBonusAdds(a.Set(k0, a.Get(k0) + v), bonus[1..], k);
    }
  }

  /** Applying the ids in order adds exactly their total bonus to every key. */
  lemma {:induction false} ApplySpecsAdds(a: Attributes, ids: seq<string>, k: Attr)
    ensures ApplySpecs(a, ids).Get(k) == a.Get(k) + TotalBonus(ids, k)
    decreases |ids|
  {
    if |ids| > 0 {
      var a' := if Known(ids[0]) then ApplyBonus(a, Table[ids[0]].bonus) else a;
      if Known(ids[0]) {
        ApplyBonusAdds(a, Table[ids[0]].bonus, k);
      }
      ApplySpecsAdds(a', ids[1..], k);
    }
  }

  /** The stat calculator: final attributes and the three derived maxima. */
  function CalculateStats(base: Attributes, ids: seq<string>): (s: Stats)
    ensures forall k :: s.finalAttrs.Get(k) == base.Get(k) + TotalBonus(ids, k)
    ensures s.pvMax == 10 + s.finalAttrs.vig
    ensures s.psMax == 10 + s.finalAttrs.pre
    ensures s.paMax == 5
  {
    var final := ApplySpecs(base, ids);
    assert forall k :: final.Get(k) == base.Get(k) + TotalBonus(ids, k) by {
      forall k { ApplySpecsAdds(base, ids, k); }
    }
    Stats(10 + final.vig, 10 + final.pre, 5, final)
  }

  // Order independence and the treatment of unknown ids.

  lemma {:induction false} TotalBonusConcat(u: seq<string>, v: seq<string>, k: Attr)
    ensures TotalBonus(u + v, k) == TotalBonus(u, k) + TotalBonus(v, k)
    decreases |u|
  {
    if |u| == 0 {
      assert u + v == v;
    } else {
      assert (u + v)[1..] == u[1..] + v;
      TotalBonusConcat(u[1..], v, k);
    }
  }

  lemma MultisetRemoveAt<T>(a: seq<T>, b: seq<T>, j: nat)
    requires multiset(a) == multiset(b) && |a| > 0 && j < |b| && b[j] == a[0]
    ensures multiset(a[1..]) == multiset(b[..j] + b[j + 1..])
  {
    assert a == [a[0]] + a[1..];
    assert b == b[..j] + [b[j]] + b[j + 1..];
    assert multiset(a[1..]) == multiset(a) - multiset{a[0]};
  }

  /** The total bonus depends only on the multiset of ids. */
  lemma {:induction false} TotalBonusPermutation(a: seq<string>, b: seq<string>, k: Attr)
    requires multiset(a) == multiset(b)
    ensures TotalBonus(a, k) == TotalBonus(b, k)
    decreases |a|
  {
    if |a| == 0 {
      assert |b| == |multiset(b)| == 0;
    } else {
      var x := a[0];
      assert x in multiset(b);
      var j :| 0 <= j < |b| && b[j] == x;
      var rest := b[..j] + b[j + 1..];
      assert b == b[..j] + [x] + b[j + 1..];
      MultisetRemoveAt(a, b, j);
      TotalBonusPermutation(a[1..], rest, k);
      TotalBonusConcat(b[..j] + [x], b[j + 1..], k);
      TotalBonusConcat(b[..j], [x], k);
      TotalBonusConcat(b[..j], b[j + 1..], k);
    }
  }

  /** Reordering the chosen specializations does not change the stats. */
  lemma SpecOrderIrrelevant(base: Attributes, a: seq<string>, b: seq<string>)
    requires multiset(a) == multiset(b)
    ensures CalculateStats(base, a) == CalculateStats(base, b)
  {
    forall k {
      TotalBonusPermutation(a, b, k);
    }
    AttributesExt(CalculateStats(base, a).finalAttrs, CalculateStats(base, b).finalAttrs);
  }

  lemma {:induction false} TotalBonusOfKnown(ids: seq<string>, k: Attr)
    ensures TotalBonus(Seqs.Filter(ids, Known), k) == TotalBonus(ids, k)
    decreases |ids|
  {
    if |ids| > 0 {
      TotalBonusOfKnown(ids[1..], k);
      TotalBonusConcat(if Known(ids[0]) then [ids[0]] else [], Seqs.Filter(ids[1..], Known), k);
    }
  }

  /** Unknown ids are ignored: dropping them from the list does not change the stats. */
  lemma UnknownSpecsIgnored(base: Attributes, ids: seq<string>)
    ensures CalculateStats(base, Seqs.Filter(ids, Known)) == CalculateStats(base, ids)
  {
    forall k {
      TotalBonusOfKnown(ids, k);
    }
    AttributesExt(CalculateStats(base, Seqs.Filter(ids, Known)).finalAttrs, CalculateStats(base, ids).finalAttrs);
  }

  /** A character with all attributes at 2 and the specializations socorrista, cacador and atleta. */
  lemma RookExample()
    ensures CalculateStats(Attributes(2, 2, 2, 2, 2), ["socorrista", "cacador", "atleta"])
         == Stats(11, 11, 5, Attributes(1, 4, 4, 3, 1))
  {
    var ids := ["socorrista", "cacador", "atleta"];
    assert ids[1..] == ["cacador", "atleta"] && ids[1..][1..] == ["atleta"] && ids[1..][1..][1..] == [];
    var a0 := Attributes(2, 2, 2, 2, 2);
    var a1 := ApplyBonus(a0, Table["socorrista"].bonus);
    assert a1 == Attributes(1, 2, 4, 2, 2);
    var a2 := ApplyBonus(a1, Table["cacador"].bonus);
    assert a2 == Attributes(1, 2, 4, 4, 1);
    var a3 := ApplyBonus(a2, Table["atleta"].bonus);
    assert a3 == Attributes(1, 4, 4, 3, 1);
    assert ApplySpecs(a0, ids) == ApplySpecs(a1, ids[1..]) == ApplySpecs(a2, ids[1..][1..]) == a3;
  }
}
