/**
 * The phase controller: one `Update` per frame runs the player's handler
 * for the current phase, applies a won battle, and advances the phase when
 * the "Finish Phase" button is clicked after the debounce delay.
 */
module Games {
  import opened Collections
  import opened Geo
  import opened Players

  /** The three phases, cycled by index. */
  const Phases: seq<string> := [PlacePhase, MovePhase, AttackPhase]

  /** The territory the player starts from, and the player's colour. */
  const StartCountry: string := "France"
  const PlayerColor: Color := Rgb(0, 0, 255)

  /** Debounce delay, in milliseconds, between two phase advances. */
  const PhaseCooldown: int := 500

  /** A map change that leaves names, neighbours and keys alone keeps both invariants. */
  lemma InvariantsSameShape(w: Countries, w': Countries, res: Option<BattleResult>, controlled: seq<string>,
                            home: string, ms: MoveSel, atk: AttackSel)
    requires WorldInvariant(w, res) && Consistent(w, controlled, home, ms, atk) && SameShape(w, w')
    ensures WorldInvariant(w', res) && Consistent(w', controlled, home, ms, atk)
  {
  }

  /**
   * Whatever a frame adds after the handler (conquest, flag clearing, turn
   * reset) keeps the unit counts: a movement frame conserves the units on
   * the map and a placement frame adds one exactly when placement fires.
   */
  lemma FrameUnits(phase: string, w: Countries, controlled: seq<string>, home: string,
                   ms: MoveSel, atk: AttackSel, i: Input, e: BattleEffect, w2: Countries)
    requires WellFormed(w) && Consistent(w, controlled, home, ms, atk)
    requires SameUnits(UpdateStep(phase, w, controlled, home, ms, atk, i, e).0, w2)
    ensures phase == MovePhase ==> TotalUnits(w2) == TotalUnits(w)
    ensures phase == PlacePhase ==>
      TotalUnits(w2) == TotalUnits(w) + (if PlaceFires(w, controlled, ms.timer, i) then 1 else 0)
    ensures phase != PlacePhase && phase != MovePhase && phase != AttackPhase ==> TotalUnits(w2) == TotalUnits(w)
  {
    UpdateStepRules(phase, w, controlled, home, ms, atk, i, e);
    SameUnitsTotal(UpdateStep(phase, w, controlled, home, ms, atk, i, e).0, w2);
  }

  /** A pending battle result calls for a conquest: the battle was won from a controlled territory. */
  predicate Conquers(res: Option<BattleResult>, controlled: seq<string>)
  {
    res.Some? && res.value.victory && res.value.attacking in controlled
  }

  /** The map `w` after the conquest `res` calls for: the defender repainted in the player's name and colour. */
  function Conquest(w: Countries, res: Option<BattleResult>, controlled: seq<string>, home: string, color: Color)
    : (r: Countries)
    requires Conquers(res, controlled) ==> res.value.defending in w
    ensures SameShape(w, r) && SameUnits(w, r) && SameFlags(w, r)
    ensures forall k :: k in r && r[k].controlledBy != w[k].controlledBy ==>
      Conquers(res, controlled) && k == res.value.defending && r[k].controlledBy == home
    ensures Conquers(res, controlled) ==>
      r[res.value.defending].controlledBy == home && r[res.value.defending].color == color
    ensures forall k :: k in w && !(Conquers(res, controlled) && k == res.value.defending) ==> r[k] == w[k]
  {
    if Conquers(res, controlled) then
      var d := res.value.defending;
      w[d := w[d].(controlledBy := home, color := color)]
    else w
  }

  /** `c` names exactly what `c0` names plus, when `res` is a conquest for `c0`, the defender. */
  ghost predicate GrownBy(c0: seq<string>, c: seq<string>, res: Option<BattleResult>)
  {
    forall x :: x in c <==> x in c0 || (Conquers(res, c0) && x == res.value.defending)
  }

  /**
   * A battle result that stays pending is re-applied on every frame, but only
   * the first application adds anything; one that is not a conquest adds nothing.
   */
  lemma RepeatedConquest(c0: seq<string>, c1: seq<string>, c2: seq<string>, res: Option<BattleResult>)
    requires GrownBy(c0, c1, res) && GrownBy(c1, c2, res)
    ensures forall x :: x in c2 <==> x in c1
    ensures !Conquers(res, c0) ==> forall x :: x in c1 <==> x in c0
  {
  }

  /** `nb` is a neighbour list without repeats naming exactly the territories of `f`. */
  ghost predicate ListsExactly(nb: Option<seq<string>>, f: set<string>)
  {
    nb.Some? && Distinct(nb.value) && forall n :: n in nb.value <==> n in f
  }

  class Game {
    const world: World
    const player: Player
    var phaseIdx: int
    var phase: string
    var phaseTimer: int
    var finishHovered: bool

    ghost predicate Valid()
      reads this, world, player
    {
      && player.world == world
      && player.Valid()
      && 0 <= phaseIdx < |Phases|
      && phase == Phases[phaseIdx]
    }

    /** A battle result is pending, was won, and was fought from one of the player's territories. */
    ghost predicate ConquestDue()
      reads world`battleRes, player`controlled
    {
      Conquers(world.battleRes, player.controlled)
    }


    /**
     * The game starts in the placement phase with the player holding its
     * start territory. The map is a parameter: reading it from disk is not
     * part of this model.
     */
    constructor (countries: Countries, now: int)
      requires WellFormed(countries) && StartCountry in countries
      ensures Valid() && fresh(world) && fresh(player)
      ensures phaseIdx == 0 && phase == PlacePhase && phaseTimer == now && !finishHovered
      ensures world.countries == countries[StartCountry := countries[StartCountry].(color := PlayerColor)]
      ensures world.battleRes == None
      ensures player.controlled == [StartCountry] && player.home == StartCountry && player.timer == now
    {
      var w := new World(countries);
      world := w;
      phaseIdx := 0;
      phase := Phases[0];
      phaseTimer := now;
      player := new Player(StartCountry, w, PlayerColor, now);
      finishHovered := false;
    }

    /**
     * One frame. `overFinish` says whether the cursor is on the "Finish
     * Phase" button; `e` is what the battle routine decides if the player
     * starts a battle in this frame.
     */
    method Update(i: Input, overFinish: bool, e: BattleEffect)
      requires Valid()
      modifies this`phaseIdx, this`phase, this`phaseTimer, this`finishHovered, world, player
      ensures Valid()
      ensures finishHovered == overFinish
      ensures var advance := overFinish && i.left && i.now - old(phaseTimer) > PhaseCooldown;
        && (advance ==> phaseIdx == (old(phaseIdx) + 1) % |Phases| && phaseTimer == i.now)
        && (!advance ==> phaseIdx == old(phaseIdx) && phase == old(phase) && phaseTimer == old(phaseTimer))
      ensures old(phase) != AttackPhase ==> world.battles == old(world.battles)
      ensures old(phase) == AttackPhase ==> |world.battles| <= |old(world.battles)| + 1
      ensures var sel := AttackSelect(old(world.countries), old(player.controlled), old(player.AttackState()), i);
        world.battleRes == if old(phase) == AttackPhase && AttackFires(sel, i)
                           then Some(BattleResult(e.victory, sel.from, sel.to)) else old(world.battleRes)
      ensures Conquers(world.battleRes, old(player.controlled)) ==> world.battleRes.value.defending in player.controlled
      ensures GrownBy(old(player.controlled), player.controlled, world.battleRes)
      ensures var advance := overFinish && i.left && i.now - old(phaseTimer) > PhaseCooldown;
        var (w', ms', atk') := UpdateStep(old(phase), old(world.countries), old(player.controlled), player.home,
                                          old(player.MoveState()), old(player.AttackState()), i, e);
        && world.countries.Keys == w'.Keys
        && (advance ==> world.countries == ClearAttacked(Conquest(w', world.battleRes, old(player.controlled), player.home, player.color), Conquest(w', world.battleRes, old(player.controlled), player.home, player.color).Keys))
        && (!advance ==> world.countries == Conquest(w', world.battleRes, old(player.controlled), player.home, player.color))
        && (advance && phase == PlacePhase ==>
              player.MoveState() == ms'.(from := "", to := "", timer := 0) && player.AttackState() == AttackSel("", ""))
        && (!(advance && phase == PlacePhase) ==> player.MoveState() == ms' && player.AttackState() == atk')
      ensures Conquers(world.battleRes, old(player.controlled)) ==>
        ListsExactly(player.neighbors, Frontier(world.countries, player.controlled))
      ensures !Conquers(world.battleRes, old(player.controlled)) ==> player.neighbors == old(player.neighbors)
    {
      ghost var r := UpdateStep(phase, world.countries, player.controlled, player.home,
                                player.MoveState(), player.AttackState(), i, e);
      PlayerFrame(i, e);
      ghost var w1 := world.countries;
      assert w1 == Conquest(r.0, world.battleRes, old(player.controlled), player.home, player.color);
      finishHovered := overFinish;
      AdvancePhase(i);
    }

    /** The player's part of a frame: the handler of the current phase, then a won battle's conquest. */
    method PlayerFrame(i: Input, e: BattleEffect)
      requires Valid()
      modifies world, player
      ensures Valid()
      ensures phase != AttackPhase ==> world.battles == old(world.battles)
      ensures phase == AttackPhase ==> |world.battles| <= |old(world.battles)| + 1
      ensures Conquers(world.battleRes, old(player.controlled)) ==> world.battleRes.value.defending in player.controlled
      ensures var (w', ms', atk') := UpdateStep(phase, old(world.countries), old(player.controlled), player.home,
                                                old(player.MoveState()), old(player.AttackState()), i, e);
        && player.MoveState() == ms' && player.AttackState() == atk'
        && world.countries.Keys == w'.Keys
        && SameUnits(w', world.countries) && SameFlags(w', world.countries)
        && world.countries == Conquest(w', world.battleRes, old(player.controlled), player.home, player.color)
      ensures var sel := AttackSelect(old(world.countries), old(player.controlled), old(player.AttackState()), i);
        world.battleRes == if phase == AttackPhase && AttackFires(sel, i)
                           then Some(BattleResult(e.victory, sel.from, sel.to)) else old(world.battleRes)
      ensures GrownBy(old(player.controlled), player.controlled, world.battleRes)
      ensures Conquers(world.battleRes, old(player.controlled)) ==>
        ListsExactly(player.neighbors, Frontier(world.countries, player.controlled))
      ensures !Conquers(world.battleRes, old(player.controlled)) ==> player.neighbors == old(player.neighbors)
    {
      player.Update(phase, i, e);
      ghost var w' := world.countries;
      ApplyConquest();
      if ConquestDue() {
        RepaintKeeps(w', world.battleRes.value.defending, player.home, player.color);
      }
    }

    /** A won battle, fought from a controlled territory, makes the player conquer the defender. */
    method ApplyConquest()
      requires Valid()
      modifies player`controlled, player`neighbors, world`countries
      ensures Valid()
      ensures old(ConquestDue()) ==>
        var d := world.battleRes.value.defending;
        && (forall c :: c in player.controlled <==> c in old(player.controlled) || c == d)
        && world.countries == old(world.countries)[d := old(world.countries)[d].(controlledBy := player.home, color := player.color)]
      ensures old(ConquestDue()) ==>
        && player.neighbors.Some? && Distinct(player.neighbors.value)
        && (forall n :: n in player.neighbors.value <==> n in Frontier(world.countries, player.controlled))
      ensures !old(ConquestDue()) ==> unchanged(player) && unchanged(world)
      ensures ConquestDue() == old(ConquestDue()) && world.battleRes == old(world.battleRes)
    {
      if world.battleRes.Some? {
        if world.battleRes.value.victory {
          if world.battleRes.value.attacking in player.controlled {
            player.Conquer(world.battleRes.value.defending);
          }
        }
      }
    }

    /** Every territory of the map may attack again. */
    method ClearAttackFlags()
      requires world.Valid()
      modifies world`countries
      ensures world.Valid()
      ensures world.countries == ClearAttacked(old(world.countries), old(world.countries).Keys)
      ensures forall k :: k in world.countries ==> !world.countries[k].hasAttacked
    {
      ghost var w := world.countries;
      var rest := world.countries.Keys;
      ghost var done: set<string> := {};
      while rest != {}
        invariant rest + done == w.Keys && rest !! done
        invariant world.countries == ClearAttacked(w, done)
        decreases rest
      {
        var country :| country in rest;
        ClearAttackedStep(w, done, country);
        world.countries := world.countries[country := world.countries[country].(hasAttacked := false)];
        rest := rest - {country};
        done := done + {country};
      }
      SameShapeWellFormed(w, world.countries);
    }

    /**
     * The debounced advance: when the button is hovered and clicked after
     * the delay, the next phase begins.
     */
    method AdvancePhase(i: Input)
      requires Valid()
      modifies this`phaseIdx, this`phase, this`phaseTimer, world`countries
      modifies player`timer, player`moveFrom, player`moveTo, player`attackFrom, player`attackTo
      ensures Valid()
      ensures var advance := finishHovered && i.left && i.now - old(phaseTimer) > PhaseCooldown;
        && (advance ==> NextPhaseDone(old(phaseIdx), old(world.countries), old(player.MoveState()), i.now))
        && (advance && phase != PlacePhase ==> unchanged(player))
        && (!advance ==> unchanged(this, world, player))
      ensures world.battleRes == old(world.battleRes)
      ensures player.controlled == old(player.controlled) && player.neighbors == old(player.neighbors)
      ensures Frontier(world.countries, player.controlled) == Frontier(old(world.countries), player.controlled)
      ensures var advance := finishHovered && i.left && i.now - old(phaseTimer) > PhaseCooldown;
        && world.countries == (if advance then ClearAttacked(old(world.countries), old(world.countries).Keys)
                               else old(world.countries))
        && (advance && phase == PlacePhase ==>
              player.MoveState() == old(player.MoveState()).(from := "", to := "", timer := 0)
              && player.AttackState() == AttackSel("", ""))
        && (!(advance && phase == PlacePhase) ==>
              player.MoveState() == old(player.MoveState()) && player.AttackState() == old(player.AttackState()))
    {
      if finishHovered {
        if i.left && i.now - phaseTimer > PhaseCooldown {
          NextPhase(i.now);
        }
      }
      FrontierSameShape(old(world.countries), world.countries, player.controlled);
    }

    /**
     * What a phase advance leaves behind: the next phase by index modulo
     * three, the timer restarted, every territory's attack flag cleared, and
     * when the cycle is back at placement the player's turn reset.
     */
    ghost predicate NextPhaseDone(idx: int, w: Countries, ms: MoveSel, now: int)
      reads this, world, player
    {
      && phaseIdx == (idx + 1) % |Phases| && phaseTimer == now
      && world.countries == ClearAttacked(w, w.Keys)
      && (forall k :: k in world.countries ==> !world.countries[k].hasAttacked)
      && (phase == PlacePhase ==>
            && player.MoveState() == ms.(from := "", to := "", timer := 0)
            && player.AttackState() == AttackSel("", ""))
    }

    /** The phase advance itself. */
    method NextPhase(now: int)
      requires Valid()
      modifies this`phaseIdx, this`phase, this`phaseTimer, world`countries
      modifies player`timer, player`moveFrom, player`moveTo, player`attackFrom, player`attackTo
      ensures Valid()
      ensures NextPhaseDone(old(phaseIdx), old(world.countries), old(player.MoveState()), now)
      ensures phase != PlacePhase ==> unchanged(player)
    {
      phaseTimer := now;
      phaseIdx := (phaseIdx + 1) % |Phases|;
      phase := Phases[phaseIdx];
      ghost var w := world.countries;
      ClearAttackFlags();
      InvariantsSameShape(w, world.countries, world.battleRes, player.controlled, player.home,
                          player.MoveState(), player.AttackState());
      if phase == PlacePhase {
        player.ResetTurn();
      }
    }

    /** The phases follow each other in the order placement, movement, attack, and back to placement. */
    lemma PhaseSuccession(k: int)
      requires 0 <= k < |Phases|
      ensures Phases[k] == PlacePhase ==> Phases[(k + 1) % |Phases|] == MovePhase
      ensures Phases[k] == MovePhase ==> Phases[(k + 1) % |Phases|] == AttackPhase
      ensures Phases[k] == AttackPhase ==> Phases[(k + 1) % |Phases|] == PlacePhase
    {
    }
  }
}
