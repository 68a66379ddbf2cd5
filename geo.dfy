/**
 * Territories and the world that owns them.
 *
 * A territory is a record keyed by its name; the world holds the map from
 * names to territories and is the one object whose `countries` field every
 * in-place territory update of the game reassigns.
 */
module Geo {
  import opened Collections

  /** Display colour, carried as an opaque tag for the renderer. */
  datatype Color = Rgb(r: int, g: int, b: int)

  /** The fields of a territory that the player and game logic read or write. */
  datatype Country = Country(
    name: string,
    units: int,
    neighbors: seq<string>,
    hovered: bool,
    hasAttacked: bool,
    controlledBy: string,
    color: Color)

  type Countries = map<string, Country>

  /** The record `world.battle` leaves behind: who attacked whom, and whether the attacker won. */
  datatype BattleResult = BattleResult(victory: bool, attacking: string, defending: string)

  /**
   * What one run of the battle routine decides: the attacker's and the
   * defender's unit counts afterwards and whether the attacker won.
   */
  datatype BattleEffect = BattleEffect(victory: bool, attackerUnits: int, defenderUnits: int)

  /**
   * The world map as the game loads it: every territory is stored under its
   * own name, no territory is called "" (the empty name means "no selection"),
   * and every neighbour name refers to a territory of the map.
   */
  predicate WellFormed(w: Countries) {
    && "" !in w
    && (forall k :: k in w ==> w[k].name == k)
    && (forall k, n :: k in w && n in w[k].neighbors ==> n in w)
  }

  /** Same territories with the same names and neighbours; only counts, flags, owner and colour may differ. */
  predicate SameShape(w: Countries, w': Countries) {
    && w.Keys == w'.Keys
    && (forall k :: k in w ==> w'[k].name == w[k].name && w'[k].neighbors == w[k].neighbors)
  }

  lemma SameShapeWellFormed(w: Countries, w': Countries)
    requires WellFormed(w) && SameShape(w, w')
    ensures WellFormed(w')
  {
  }

  /** Same territories with the same unit counts and hover flags. */
  predicate SameUnits(w: Countries, w': Countries) {
    && w.Keys == w'.Keys
    && (forall k :: k in w ==> w'[k].units == w[k].units && w'[k].hovered == w[k].hovered)
  }

  /** Maps with the same territories and unit counts hold the same number of units. */
  lemma SameUnitsTotal(w: Countries, w': Countries)
    requires SameUnits(w, w')
    ensures TotalUnits(w') == TotalUnits(w)
  {
    SumUnitsSame(w, w', w.Keys);
  }

  /** Same territories with the same attack flags. */
  predicate SameFlags(w: Countries, w': Countries) {
    && w.Keys == w'.Keys
    && (forall k :: k in w ==> w'[k].hasAttacked == w[k].hasAttacked)
  }

  /** Handing a territory to a new owner in a new colour keeps every count and flag. */
  lemma RepaintKeeps(w: Countries, d: string, owner: string, color: Color)
    requires d in w
    ensures SameUnits(w, w[d := w[d].(controlledBy := owner, color := color)])
    ensures SameFlags(w, w[d := w[d].(controlledBy := owner, color := color)])
  {
  }

  /** The world's invariant: a well-formed map, and a battle result that names two of its territories. */
  predicate WorldInvariant(w: Countries, res: Option<BattleResult>) {
    && WellFormed(w)
    && (res.Some? ==> res.value.attacking in w && res.value.defending in w)
  }

  /** Territory `k` with its unit count replaced by `u`. */
  function WithUnits(w: Countries, k: string, u: int): (r: Countries)
    requires k in w
    ensures SameShape(w, r)
  {
    w[k := w[k].(units := u)]
  }

  /** Sum of the unit counts of the territories named in `ks`. */
  ghost function SumUnits(w: Countries, ks: set<string>): int
    requires ks <= w.Keys
    decreases ks
  {
    if ks == {} then 0
    else
      var k :| k in ks;
      w[k].units + SumUnits(w, ks - {k})
  }

  /** Every unit on the map. */
  ghost function TotalUnits(w: Countries): int {
    SumUnits(w, w.Keys)
  }

  /** The sum may be split at any territory, not only at the one `SumUnits` happens to pick. */
  lemma {:induction false} SumUnitsPick(w: Countries, ks: set<string>, k: string)
    requires ks <= w.Keys && k in ks
    ensures SumUnits(w, ks) == w[k].units + SumUnits(w, ks - {k})
    decreases ks
  {
    var j :| j in ks && SumUnits(w, ks) == w[j].units + SumUnits(w, ks - {j});
    if j != k {
      SumUnitsPick(w, ks - {j}, k);
      SumUnitsPick(w, ks - {k}, j);
      assert ks - {j} - {k} == ks - {k} - {j};
    }
  }

  /** Maps that agree on the unit counts of `ks` have the same sum over `ks`. */
  lemma {:induction false} SumUnitsSame(w: Countries, w': Countries, ks: set<string>)
    requires ks <= w.Keys && ks <= w'.Keys
    requires forall k :: k in ks ==> w[k].units == w'[k].units
    ensures SumUnits(w, ks) == SumUnits(w', ks)
    decreases ks
  {
    if ks != {} {
      var j :| j in ks && SumUnits(w, ks) == w[j].units + SumUnits(w, ks - {j});
      SumUnitsPick(w', ks, j);
      SumUnitsSame(w, w', ks - {j});
    }
  }

  /** Changing one territory's count changes the total by exactly the difference. */
  lemma TotalWithUnits(w: Countries, k: string, u: int)
    requires k in w
    ensures TotalUnits(WithUnits(w, k, u)) == TotalUnits(w) - w[k].units + u
  {
    var w' := WithUnits(w, k, u);
    SumUnitsPick(w, w.Keys, k);
    SumUnitsPick(w', w'.Keys, k);
    SumUnitsSame(w, w', w.Keys - {k});
  }

  /** `from` loses `n` units, then `to` gains `n` units. */
  function Transfer(w: Countries, from: string, to: string, n: int): (r: Countries)
    requires from in w && to in w
    ensures SameShape(w, r)
  {
    var w1 := WithUnits(w, from, w[from].units - n);
    WithUnits(w1, to, w1[to].units + n)
  }

  /** A transfer between two territories conserves the number of units on the map. */
  lemma TransferConservesUnits(w: Countries, from: string, to: string, n: int)
    requires from in w && to in w
    ensures TotalUnits(Transfer(w, from, to, n)) == TotalUnits(w)
  {
    var a := w[from].units - n;
    var w1 := WithUnits(w, from, a);
    var b := w1[to].units + n;
    TotalWithUnits(w, from, a);
    TotalWithUnits(w1, to, b);
  }

  /** A transfer between two territories moves `n` units from one to the other and touches nothing else. */
  lemma TransferMoves(w: Countries, from: string, to: string, n: int)
    requires from in w && to in w && from != to
    ensures Transfer(w, from, to, n)[from] == w[from].(units := w[from].units - n)
    ensures Transfer(w, from, to, n)[to] == w[to].(units := w[to].units + n)
    ensures forall k :: k in w && k != from && k != to ==> Transfer(w, from, to, n)[k] == w[k]
  {
  }

  /** The territories after the battle routine: new counts for both sides, and the attacker is marked. */
  function ApplyBattle(w: Countries, from: string, to: string, e: BattleEffect): (r: Countries)
    requires from in w && to in w
    ensures SameShape(w, r)
    ensures from != to ==> r[from].units == e.attackerUnits && r[from].hasAttacked && r[to].units == e.defenderUnits
    ensures forall k :: k in w && k != from && k != to ==> r[k] == w[k]
  {
    var w1 := w[from := w[from].(units := e.attackerUnits, hasAttacked := true)];
    w1[to := w1[to].(units := e.defenderUnits)]
  }

  /** Clearing `has_attacked` on the territories named in `names`. */
  function ClearAttacked(w: Countries, names: set<string>): (r: Countries)
    ensures SameShape(w, r) && SameUnits(w, r)
    ensures forall k :: k in w ==> r[k].hasAttacked == (w[k].hasAttacked && k !in names)
    ensures forall k :: k in w ==> r[k].controlledBy == w[k].controlledBy && r[k].color == w[k].color
  {
    map k | k in w :: if k in names then w[k].(hasAttacked := false) else w[k]
  }

  /** One more territory cleared: the step of the clearing loops. */
  lemma ClearAttackedStep(w: Countries, done: set<string>, k: string)
    requires k in w
    ensures ClearAttacked(w, done)[k := ClearAttacked(w, done)[k].(hasAttacked := false)]
            == ClearAttacked(w, done + {k})
  {
  }

  /**
   * The world: the territory map and the result slot of the last battle.
   * `battles` records every call of the battle routine, in order.
   */
  class World {
    var countries: Countries
    var battleRes: Option<BattleResult>
    ghost var battles: seq<(string, string)>

    ghost predicate Valid()
      reads this
    {
      WorldInvariant(countries, battleRes)
    }

    constructor (countries: Countries)
      requires WellFormed(countries)
      ensures Valid()
      ensures this.countries == countries && battleRes == None && battles == []
    {
      this.countries := countries;
      battleRes := None;
      battles := [];
    }

    /**
     * The battle routine, whose dice are not part of this model: `e` says
     * what it decided. It sets the two unit counts, marks the attacker as
     * having attacked this turn and records the result.
     */
    method Battle(from: string, to: string, e: BattleEffect)
      requires Valid() && from in countries && to in countries
      modifies this
      ensures Valid()
      ensures countries == ApplyBattle(old(countries), from, to, e)
      ensures battleRes == Some(BattleResult(e.victory, from, to))
      ensures battles == old(battles) + [(from, to)]
    {
      countries := ApplyBattle(countries, from, to, e);
      battleRes := Some(BattleResult(e.victory, from, to));
      battles := battles + [(from, to)];
    }
  }
}
