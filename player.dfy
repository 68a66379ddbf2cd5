/**
 * The player: a per-phase intent state machine over the world map.
 *
 * Each phase handler reads one frame of input (mouse buttons, the UP, DOWN
 * and RETURN keys, and the millisecond clock) and the hover flags of the
 * territories. The functions below say what one call of each handler does;
 * the `Player` class does it in place and is proved to agree with them.
 */
module Players {
  import opened Collections
  import opened Geo

  const PlacePhase: string := "place_units"
  const MovePhase: string := "move_units"
  const AttackPhase: string := "attack_country"

  /** Cooldowns, in milliseconds, between two reinforcements and between two quantity steps. */
  const PlaceCooldown: int := 300
  const StepCooldown: int := 200

  /** One frame of input: the clock, the left and right mouse buttons and the UP, DOWN and RETURN keys. */
  datatype Input = Input(now: int, left: bool, right: bool, up: bool, down: bool, enter: bool)

  /** The move selection and quantity, with the quantity buffer and the shared cooldown timer. */
  datatype MoveSel = MoveSel(from: string, to: string, n: int, buffer: int, timer: int)

  /** The attack selection. */
  datatype AttackSel = AttackSel(from: string, to: string)

  /** Every controlled name is a territory of the map. */
  predicate Known(w: Countries, controlled: seq<string>) {
    forall c :: c in controlled ==> c in w
  }

  // ---------------------------------------------------------------- placement

  /** Some controlled territory is hovered while the left button is down and the cooldown has run out. */
  predicate PlaceFires(w: Countries, controlled: seq<string>, timer: int, i: Input)
    requires Known(w, controlled)
  {
    i.left && i.now - timer > PlaceCooldown && exists c :: c in controlled && w[c].hovered
  }

  /** The timer and the map after `place_units`: at most one unit, and it goes to the home territory. */
  function PlaceStep(w: Countries, controlled: seq<string>, home: string, timer: int, i: Input): (r: (Countries, int))
    requires Known(w, controlled) && home in w
    ensures SameShape(w, r.0)
    ensures r.1 == timer || r.1 == i.now
  {
    if PlaceFires(w, controlled, timer, i) then (WithUnits(w, home, w[home].units + 1), i.now)
    else (w, timer)
  }

  /** Placement adds exactly one unit to the home territory when it fires and changes nothing otherwise. */
  lemma PlaceAddsAtMostOne(w: Countries, controlled: seq<string>, home: string, timer: int, i: Input)
    requires Known(w, controlled) && home in w
    ensures var (w', timer') := PlaceStep(w, controlled, home, timer, i);
      && SameShape(w, w')
      && TotalUnits(w') == TotalUnits(w) + (if PlaceFires(w, controlled, timer, i) then 1 else 0)
      && w'[home].units == w[home].units + (if PlaceFires(w, controlled, timer, i) then 1 else 0)
      && (forall k :: k in w && k != home ==> w'[k] == w[k])
      && (timer' != timer ==> timer' == i.now && i.now - timer > PlaceCooldown)
      && (PlaceFires(w, controlled, timer, i) ==> timer' == i.now)
      && (!PlaceFires(w, controlled, timer, i) ==> timer' == timer)
  {
    if PlaceFires(w, controlled, timer, i) {
      TotalWithUnits(w, home, w[home].units + 1);
    }
  }

  // ---------------------------------------------------------------- selection

  /** A controlled territory may become a move or attack source: hovered, clicked, not yet attacked from. */
  function SourceOk(w: Countries, left: bool): string -> bool {
    c => c in w && w[c].hovered && left && !w[c].hasAttacked
  }

  /** A controlled territory other than the source may become the move destination. */
  function DestOk(w: Countries, left: bool, from: string): string -> bool {
    c => c in w && w[c].hovered && left && c != from
  }

  /** A neighbour of the attack source may become the target when it is not controlled. */
  function TargetOk(w: Countries, left: bool, controlled: seq<string>): string -> bool {
    c => c !in controlled && c in w && w[c].hovered && left
  }

  /** Step of the move quantity: +1 for UP alone, -1 for DOWN alone, once the cooldown has run out. */
  function QuantityStep(timer: int, i: Input): int {
    if i.now - timer > StepCooldown then (if i.up then 1 else 0) - (if i.down then 1 else 0) else 0
  }

  /** The move selection after the two selection loops and the right-click cancel. */
  function MoveSelect(w: Countries, controlled: seq<string>, s: MoveSel, i: Input): (r: MoveSel)
    requires Known(w, controlled)
    ensures i.right ==> r.from == "" && r.to == ""
    ensures !i.right && s.from != "" ==> r.from == s.from
    ensures !i.right && s.to != "" ==> r.to == s.to
    ensures r.to != "" && r.to != s.to ==> r.to in controlled && r.to != r.from
    ensures r.n == s.n && r.buffer == s.buffer && r.timer == s.timer
  {
    var from := if s.from == "" then LastMatch(controlled, SourceOk(w, i.left)).GetOr("") else s.from;
    var to := if s.to == "" && from != "" then LastMatch(controlled, DestOk(w, i.left, from)).GetOr("") else s.to;
    if i.right then s.(from := "", to := "") else s.(from := from, to := to)
  }

  /**
   * The quantity step: `n` moves by `QuantityStep`, and whenever it then
   * differs from the buffer, the buffer takes it and the timer restarts.
   */
  function StepQuantity(sel: MoveSel, i: Input): (r: MoveSel)
    ensures r.n - sel.n in {-1, 0, 1}
    ensures r.n != sel.n ==> i.now - sel.timer > StepCooldown && i.up != i.down
    ensures r.n == sel.n + 1 ==> i.up && !i.down
    ensures r.n == sel.n - 1 ==> i.down && !i.up
    ensures i.now - sel.timer > StepCooldown && i.up && !i.down ==> r.n == sel.n + 1
    ensures i.now - sel.timer > StepCooldown && i.down && !i.up ==> r.n == sel.n - 1
    ensures i.now - sel.timer <= StepCooldown || i.up == i.down ==> r.n == sel.n
    ensures r.timer != sel.timer ==> r.timer == i.now && r.buffer == r.n
    ensures r.buffer != sel.buffer ==> r.buffer == r.n && r.timer == i.now
    ensures r.n != sel.buffer ==> r.buffer == r.n && r.timer == i.now
    ensures r.n == sel.buffer ==> r.buffer == sel.buffer && r.timer == sel.timer
    ensures r.from == sel.from && r.to == sel.to
  {
    var n := sel.n + QuantityStep(sel.timer, i);
    if n != sel.buffer then sel.(n := n, buffer := n, timer := i.now) else sel.(n := n)
  }

  /** RETURN with `0 < n < units` of the source: transfer `n` units and clear the move. */
  function ConfirmTransfer(w: Countries, sel: MoveSel, i: Input): (r: (MoveSel, Countries))
    requires sel.from in w && sel.to in w
    ensures SameShape(w, r.1)
    ensures r.1 != w ==> i.enter && 0 < sel.n < w[sel.from].units
    ensures r.0 == sel || r.0 == sel.(from := "", to := "", n := 0, timer := i.now)
  {
    if i.enter && 0 < sel.n < w[sel.from].units then
      (sel.(from := "", to := "", n := 0, timer := i.now), Transfer(w, sel.from, sel.to, sel.n))
    else (sel, w)
  }

  /** With both selections set: the quantity step, then the transfer on RETURN. */
  function MoveConfirm(w: Countries, sel: MoveSel, i: Input): (r: (MoveSel, Countries))
    requires sel.from != "" ==> sel.from in w
    requires sel.to != "" ==> sel.to in w
    ensures SameShape(w, r.1)
    ensures sel.from == "" || sel.to == "" ==> r == (sel, w)
  {
    if sel.from != "" && sel.to != "" then ConfirmTransfer(w, StepQuantity(sel, i), i)
    else (sel, w)
  }

  /** One call of `move_units`: selection, quantity step, and the transfer on RETURN. */
  function MoveStep(w: Countries, controlled: seq<string>, s: MoveSel, i: Input): (r: (MoveSel, Countries))
    requires Known(w, controlled)
    requires s.from != "" ==> s.from in w
    requires s.to != "" ==> s.to in w
    ensures SameShape(w, r.1)
    ensures i.right ==> r == (s.(from := "", to := ""), w)
  {
    MoveConfirm(w, MoveSelect(w, controlled, s, i), i)
  }

  /** The selections a move keeps between frames. */
  predicate MoveInvariant(controlled: seq<string>, s: MoveSel) {
    && (s.from != "" ==> s.from in controlled)
    && (s.to != "" ==> s.from != "" && s.to in controlled && s.to != s.from)
  }

  /**
   * Move selection: a source is chosen only among hovered, clicked,
   * controlled territories that have not attacked; a destination only once a
   * source exists, among controlled territories other than it; a right click
   * clears both.
   */
  lemma MoveSelectionRules(w: Countries, controlled: seq<string>, s: MoveSel, i: Input)
    requires Known(w, controlled) && MoveInvariant(controlled, s)
    ensures var r := MoveSelect(w, controlled, s, i);
      && MoveInvariant(controlled, r)
      && (i.right ==> r.from == "" && r.to == "")
      && (r.from != s.from && r.from != "" ==> s.from == "" && w[r.from].hovered && i.left && !w[r.from].hasAttacked)
      && (r.to != s.to && r.to != "" ==> s.to == "" && w[r.to].hovered && i.left)
      && r.n == s.n && r.buffer == s.buffer && r.timer == s.timer
  {
  }

  /**
   * RETURN moves units only when `0 < n < units` of the source: the source
   * loses `n` and keeps at least one, the destination gains `n`, no other
   * territory changes, the total is conserved, and the move is cleared.
   * Otherwise neither the map nor the selection changes.
   */
  lemma ConfirmTransferRules(w: Countries, sel: MoveSel, i: Input)
    requires sel.from in w && sel.to in w && sel.from != sel.to
    ensures var (s', w') := ConfirmTransfer(w, sel, i);
      && SameShape(w, w')
      && TotalUnits(w') == TotalUnits(w)
      && if i.enter && 0 < sel.n < w[sel.from].units then
           && w'[sel.from].units == w[sel.from].units - sel.n >= 1
           && w'[sel.to].units == w[sel.to].units + sel.n
           && (forall k :: k in w && k != sel.from && k != sel.to ==> w'[k] == w[k])
           && s' == sel.(from := "", to := "", n := 0, timer := i.now)
         else
           s' == sel && w' == w
  {
    TransferConservesUnits(w, sel.from, sel.to, sel.n);
    TransferMoves(w, sel.from, sel.to, sel.n);
  }

  /**
   * A whole move step conserves the units on the map, keeps every name and
   * neighbour, never takes the last unit away from a territory, and keeps
   * the selection rules.
   */
  lemma MoveConservesUnits(w: Countries, controlled: seq<string>, s: MoveSel, i: Input)
    requires Known(w, controlled) && MoveInvariant(controlled, s)
    ensures var (s', w') := MoveStep(w, controlled, s, i);
      && SameShape(w, w')
      && TotalUnits(w') == TotalUnits(w)
      && (forall k :: k in w && w'[k].units < w[k].units ==> w'[k].units >= 1)
      && MoveInvariant(controlled, s')
  {
    var sel := MoveSelect(w, controlled, s, i);
    MoveSelectionRules(w, controlled, s, i);
    if sel.from != "" && sel.to != "" {
      ConfirmTransferRules(w, StepQuantity(sel, i), i);
    }
  }

  /** The attack selection after the two selection loops and the right-click cancel. */
  function AttackSelect(w: Countries, controlled: seq<string>, s: AttackSel, i: Input): (r: AttackSel)
    requires Known(w, controlled)
    requires s.from != "" ==> s.from in w
    ensures i.right ==> r == AttackSel("", "")
    ensures !i.right && s.from != "" ==> r.from == s.from
    ensures !i.right && s.to != "" ==> r.to == s.to
    ensures r.to != "" && r.to != s.to ==> r.to !in controlled && r.from != ""
  {
    var from := if s.from == "" then LastMatch(controlled, SourceOk(w, i.left)).GetOr("") else s.from;
    var to := if s.to == "" && from != "" then LastMatch(w[from].neighbors, TargetOk(w, i.left, controlled)).GetOr("") else s.to;
    if i.right then AttackSel("", "") else AttackSel(from, to)
  }

  /** The selections an attack keeps between frames. */
  predicate AttackInvariant(w: Countries, controlled: seq<string>, s: AttackSel) {
    && (s.from != "" ==> s.from in controlled)
    && (s.to != "" ==> s.from != "" && s.to in w)
  }

  /**
   * Attack selection: the source is a hovered, clicked, controlled
   * territory that has not attacked; the target is a hovered, clicked
   * neighbour of the source outside the controlled territories, chosen only
   * once a source exists; a right click clears both.
   */
  lemma AttackSelectionRules(w: Countries, controlled: seq<string>, s: AttackSel, i: Input)
    requires WellFormed(w) && Known(w, controlled) && AttackInvariant(w, controlled, s)
    ensures var r := AttackSelect(w, controlled, s, i);
      && AttackInvariant(w, controlled, r)
      && (i.right ==> r == AttackSel("", ""))
      && (r.from != s.from && r.from != "" ==> s.from == "" && w[r.from].hovered && i.left && !w[r.from].hasAttacked)
      && (r.to != s.to && r.to != "" ==>
            s.to == "" && r.to in w[r.from].neighbors && r.to !in controlled && w[r.to].hovered && i.left)
  {
  }

  /** RETURN with both attack selections set starts a battle. */
  predicate AttackFires(sel: AttackSel, i: Input) {
    i.enter && sel.from != "" && sel.to != ""
  }

  /** What the player keeps true of its fields between frames. */
  predicate Consistent(w: Countries, controlled: seq<string>, home: string, ms: MoveSel, atk: AttackSel) {
    && home in controlled
    && Distinct(controlled)
    && Known(w, controlled)
    && MoveInvariant(controlled, ms)
    && AttackInvariant(w, controlled, atk)
  }

  /** A whole move step keeps the world's and the player's invariants. */
  lemma MoveKeepsInvariants(w: Countries, res: Option<BattleResult>, controlled: seq<string>, home: string,
                            ms: MoveSel, atk: AttackSel, i: Input)
    requires WorldInvariant(w, res) && Consistent(w, controlled, home, ms, atk)
    ensures var (ms', w') := MoveStep(w, controlled, ms, i);
      WorldInvariant(w', res) && Consistent(w', controlled, home, ms', atk)
  {
    MoveConservesUnits(w, controlled, ms, i);
    SameShapeWellFormed(w, MoveStep(w, controlled, ms, i).1);
  }

  /**
   * One call of `update(phase)`: the map and the player's move and attack
   * state afterwards. The placement handler touches only the shared timer
   * of the move state; an unknown phase changes nothing.
   */
  function UpdateStep(phase: string, w: Countries, controlled: seq<string>, home: string,
                      ms: MoveSel, atk: AttackSel, i: Input, e: BattleEffect): (r: (Countries, MoveSel, AttackSel))
    requires WellFormed(w) && Consistent(w, controlled, home, ms, atk)
    ensures SameShape(w, r.0)
  {
    if phase == PlacePhase then
      var (w', timer') := PlaceStep(w, controlled, home, ms.timer, i);
      (w', ms.(timer := timer'), atk)
    else if phase == MovePhase then
      var (ms', w') := MoveStep(w, controlled, ms, i);
      (w', ms', atk)
    else if phase == AttackPhase then
      AttackSelectionRules(w, controlled, atk, i);
      var sel := AttackSelect(w, controlled, atk, i);
      if AttackFires(sel, i) then (ApplyBattle(w, sel.from, sel.to, e), ms, AttackSel("", ""))
      else (w, ms, sel)
    else (w, ms, atk)
  }

  /**
   * Each handler keeps the map well formed and the player consistent;
   * placement adds one unit exactly when it fires, a move conserves the
   * units, a handler leaves the other phases' selections alone, and an
   * unknown phase changes nothing.
   */
  lemma UpdateStepRules(phase: string, w: Countries, controlled: seq<string>, home: string,
                        ms: MoveSel, atk: AttackSel, i: Input, e: BattleEffect)
    requires WellFormed(w) && Consistent(w, controlled, home, ms, atk)
    ensures var (w', ms', atk') := UpdateStep(phase, w, controlled, home, ms, atk, i, e);
      && WellFormed(w') && Consistent(w', controlled, home, ms', atk')
      && (phase == PlacePhase ==>
            TotalUnits(w') == TotalUnits(w) + (if PlaceFires(w, controlled, ms.timer, i) then 1 else 0))
      && (phase == MovePhase ==> TotalUnits(w') == TotalUnits(w))
      && (phase != MovePhase ==> ms'.(timer := ms.timer) == ms)
      && (phase != PlacePhase && phase != MovePhase ==> ms' == ms)
      && (phase != AttackPhase ==> atk' == atk)
      && (phase != PlacePhase && phase != MovePhase && phase != AttackPhase ==> w' == w)
  {
    var r := UpdateStep(phase, w, controlled, home, ms, atk, i, e);
    SameShapeWellFormed(w, r.0);
    if phase == PlacePhase {
      PlaceAddsAtMostOne(w, controlled, home, ms.timer, i);
    } else if phase == MovePhase {
      MoveConservesUnits(w, controlled, ms, i);
    } else if phase == AttackPhase {
      AttackSelectionRules(w, controlled, atk, i);
    }
  }

  // ---------------------------------------------------------------- frontier

  /** Neighbours of controlled territories that are not controlled themselves. */
  function Frontier(w: Countries, controlled: seq<string>): (r: set<string>)
    requires Known(w, controlled)
    ensures forall n :: n in r ==> n !in controlled
  {
    Reach(w, controlled, controlled)
  }

  /** Neighbours of the territories `cs` that are not named in `excluded`. */
  function Reach(w: Countries, cs: seq<string>, excluded: seq<string>): set<string>
    requires Known(w, cs)
  {
    set c, n | c in cs && n in w[c].neighbors && n !in excluded :: n
  }

  /** Scanning one more territory adds its neighbours outside `excluded`: the step of `get_neighbors`. */
  lemma ReachStep(w: Countries, cs: seq<string>, c: string, excluded: seq<string>)
    requires Known(w, cs) && c in w
    ensures Known(w, cs + [c])
    ensures Reach(w, cs + [c], excluded) == Reach(w, cs, excluded) + (Elems(w[c].neighbors) - Elems(excluded))
  {
  }

  /** The frontier depends only on names and neighbours, not on counts, flags, owners or colours. */
  lemma FrontierSameShape(w: Countries, w': Countries, controlled: seq<string>)
    requires Known(w, controlled) && SameShape(w, w')
    ensures Known(w', controlled) && Frontier(w', controlled) == Frontier(w, controlled)
  {
  }

  /** The frontier depends only on which names are controlled, not on their order or repetitions. */
  lemma FrontierOfSameNames(w: Countries, xs: seq<string>, ys: seq<string>)
    requires Known(w, xs) && forall x :: x in xs <==> x in ys
    ensures Known(w, ys) && Frontier(w, xs) == Frontier(w, ys)
  {
  }

  /**
   * The player's intent state. `home` stands for `self.country`, the
   * territory the player starts from, which is also the entry of the world
   * map under that name.
   */
  class Player {
    var buffer: int
    const home: string
    const world: World
    const color: Color
    var timer: int
    var controlled: seq<string>
    var neighbors: Option<seq<string>>
    var hasAttacked: bool        // initialised, never read by the player
    var moveFrom: string
    var moveTo: string
    var moveCount: int
    var attackFrom: string
    var attackTo: string

    ghost predicate Valid()
      reads this, world
    {
      && world.Valid()
      && Consistent(world.countries, controlled, home, MoveState(), AttackState())
    }

    function MoveState(): MoveSel
      reads this
    {
      MoveSel(moveFrom, moveTo, moveCount, buffer, timer)
    }

    function AttackState(): AttackSel
      reads this
    {
      AttackSel(attackFrom, attackTo)
    }

    /** The player starts with its home territory, painted in its colour, and no selections. */
    constructor (country: string, world: World, color: Color, now: int)
      requires world.Valid() && country in world.countries
      modifies world`countries
      ensures Valid()
      ensures this.world == world && home == country && this.color == color
      ensures world.countries == old(world.countries)[country := old(world.countries)[country].(color := color)]
      ensures controlled == [country] && neighbors == None && timer == now && buffer == 0
      ensures MoveState() == MoveSel("", "", 0, 0, now) && AttackState() == AttackSel("", "")
    {
      buffer := 0;
      home := country;
      this.world := world;
      this.color := color;
      world.countries := world.countries[country := world.countries[country].(color := color)];
      timer := now;
      controlled := [country];
      neighbors := None;
      hasAttacked := false;
      moveFrom, moveTo, moveCount := "", "", 0;
      attackFrom, attackTo := "", "";
    }

    /** Runs the handler of the given phase; an unknown phase does nothing. */
    method Update(phase: string, i: Input, e: BattleEffect)
      requires Valid()
      modifies this`timer, this`buffer, this`moveFrom, this`moveTo, this`moveCount
      modifies this`attackFrom, this`attackTo, world
      ensures Valid()
      ensures (world.countries, MoveState(), AttackState()) ==
        UpdateStep(phase, old(world.countries), controlled, home, old(MoveState()), old(AttackState()), i, e)
      ensures phase == AttackPhase ==>
        var sel := AttackSelect(old(world.countries), controlled, old(AttackState()), i);
        && world.battleRes == (if AttackFires(sel, i) then Some(BattleResult(e.victory, sel.from, sel.to))
                               else old(world.battleRes))
        && world.battles == old(world.battles) + (if AttackFires(sel, i) then [(sel.from, sel.to)] else [])
      ensures phase != AttackPhase ==> world.battles == old(world.battles) && world.battleRes == old(world.battleRes)
    {
      if phase == PlacePhase {
        PlaceUnits(i);
      } else if phase == MovePhase {
        MoveUnits(i);
      } else if phase == AttackPhase {
        AttackCountry(i, e);
      }
    }

    /** Reinforcement: one unit on the home territory when a controlled territory is clicked after the cooldown. */
    method PlaceUnits(i: Input)
      requires Valid()
      modifies this`timer, world`countries
      ensures Valid()
      ensures (world.countries, timer) == PlaceStep(old(world.countries), controlled, home, old(timer), i)
    {
      ghost var w := world.countries;
      for j := 0 to |controlled|
        invariant world.Valid() && SameShape(w, world.countries)
        invariant (world.countries, timer) == PlaceStep(w, controlled[..j], home, old(timer), i)
      {
        var c := world.countries[controlled[j]];
        if c.hovered && i.left && i.now - timer > PlaceCooldown {
          timer := i.now;
          world.countries := WithUnits(world.countries, home, world.countries[home].units + 1);
        }
        assert controlled[..j + 1] == controlled[..j] + [controlled[j]];
      }
      assert controlled[..|controlled|] == controlled;
    }

    /**
     * The selection loop of both the move and the attack phase: the last
     * controlled territory that is hovered, clicked and has not attacked, or
     * "" when there is none.
     */
    method PickSource(i: Input) returns (r: string)
      requires WellFormed(world.countries) && Known(world.countries, controlled)
      ensures r == LastMatch(controlled, SourceOk(world.countries, i.left)).GetOr("")
    {
      r := "";
      for j := 0 to |controlled|
        invariant r == LastMatch(controlled[..j], SourceOk(world.countries, i.left)).GetOr("")
      {
        var c := world.countries[controlled[j]];
        if c.hovered && i.left && !c.hasAttacked {
          r := c.name;
        }
        LastMatchStep(controlled, j, SourceOk(world.countries, i.left));
      }
      assert controlled[..|controlled|] == controlled;
    }

    /** The destination loop of the move phase: the last hovered, clicked, controlled territory other than `from`. */
    method PickDestination(i: Input, from: string) returns (r: string)
      requires WellFormed(world.countries) && Known(world.countries, controlled)
      ensures r == LastMatch(controlled, DestOk(world.countries, i.left, from)).GetOr("")
    {
      r := "";
      for j := 0 to |controlled|
        invariant r == LastMatch(controlled[..j], DestOk(world.countries, i.left, from)).GetOr("")
      {
        var c := world.countries[controlled[j]];
        if c.hovered && i.left && c.name != from {
          r := c.name;
        }
        LastMatchStep(controlled, j, DestOk(world.countries, i.left, from));
      }
      assert controlled[..|controlled|] == controlled;
    }

    /** The target loop of the attack phase: the last hovered, clicked neighbour of `from` that is not controlled. */
    method PickTarget(i: Input, from: string) returns (r: string)
      requires WellFormed(world.countries) && from in world.countries
      ensures r == LastMatch(world.countries[from].neighbors, TargetOk(world.countries, i.left, controlled)).GetOr("")
    {
      r := "";
      var w, cs := world.countries, controlled;
      var candidates := w[from].neighbors;
      for j := 0 to |candidates|
        invariant r == LastMatch(candidates[..j], TargetOk(w, i.left, cs)).GetOr("")
      {
        var country := candidates[j];
        if country !in cs {
          var c := w[country];
          if c.hovered && i.left {
            r := c.name;
          }
        }
        LastMatchStep(candidates, j, TargetOk(w, i.left, cs));
      }
      assert candidates[..|candidates|] == candidates;
    }

    /** The selection part of the move phase: source, destination, right-click cancel. */
    method SelectMove(i: Input)
      requires Valid()
      modifies this`moveFrom, this`moveTo
      ensures Valid()
      ensures MoveState() == MoveSelect(world.countries, controlled, old(MoveState()), i)
    {
      var from, to := moveFrom, moveTo;
      if from == "" {
        from := PickSource(i);
      }
      if to == "" && from != "" {
        to := PickDestination(i, from);
      }
      if i.right {
        from, to := "", "";
      }
      MoveSelectionRules(world.countries, controlled, MoveState(), i);
      moveFrom, moveTo := from, to;
    }

    /** The quantity step of the move phase (UP and DOWN keys). */
    method StepMoveCount(i: Input)
      modifies this`moveCount, this`buffer, this`timer
      ensures MoveState() == StepQuantity(old(MoveState()), i)
    {
      moveCount := moveCount + QuantityStep(timer, i);

      if moveCount != buffer {
        timer := i.now;
        buffer := moveCount;
      }
    }

    /** The transfer on RETURN: only `0 < n < units` of the source moves, and then the move is cleared. */
    method TransferOnEnter(i: Input, cFrom: Country)
      requires moveFrom in world.countries && moveTo in world.countries
      requires cFrom == world.countries[moveFrom]
      modifies this`moveFrom, this`moveTo, this`moveCount, this`timer, world`countries
      ensures (MoveState(), world.countries) == ConfirmTransfer(old(world.countries), old(MoveState()), i)
    {
      if i.enter {
        if cFrom.units > moveCount > 0 {
          world.countries := Transfer(world.countries, moveFrom, moveTo, moveCount);
          moveFrom := "";
          moveTo := "";
          moveCount := 0;
          timer := i.now;
        }
      }
    }

    /** The quantity step and the transfer on RETURN, once both move selections are set. */
    method ConfirmMove(i: Input)
      requires moveFrom != "" ==> moveFrom in world.countries
      requires moveTo != "" ==> moveTo in world.countries
      modifies this`moveFrom, this`moveTo, this`moveCount, this`buffer, this`timer, world`countries
      ensures (MoveState(), world.countries) == MoveConfirm(old(world.countries), old(MoveState()), i)
    {
      if moveFrom != "" && moveTo != "" {
        var cFrom := world.countries[moveFrom];
        StepMoveCount(i);
        TransferOnEnter(i, cFrom);
      }
    }

    /** Move phase: pick a source and a destination, step the quantity, transfer on RETURN. */
    method MoveUnits(i: Input)
      requires Valid()
      modifies this`moveFrom, this`moveTo, this`moveCount, this`buffer, this`timer, world`countries
      ensures Valid()
      ensures (MoveState(), world.countries) == MoveStep(old(world.countries), controlled, old(MoveState()), i)
    {
      MoveKeepsInvariants(world.countries, world.battleRes, controlled, home, MoveState(), AttackState(), i);
      ghost var picked := MoveSelect(world.countries, controlled, MoveState(), i);
      SelectMove(i);
      assert MoveState() == picked;
      ConfirmMove(i);
    }

    /** The selection part of the attack phase: source, target, right-click cancel. */
    method SelectAttack(i: Input)
      requires Valid()
      modifies this`attackFrom, this`attackTo
      ensures Valid()
      ensures AttackState() == AttackSelect(world.countries, controlled, old(AttackState()), i)
    {
      var from, to := attackFrom, attackTo;
      if from == "" {
        from := PickSource(i);
      }
      if to == "" && from != "" {
        to := PickTarget(i, from);
      }
      if i.right {
        from, to := "", "";
      }
      AttackSelectionRules(world.countries, controlled, AttackState(), i);
      attackFrom, attackTo := from, to;
    }

    /** Attack phase: pick a source and a non-controlled neighbour, fight on RETURN, then clear both. */
    method AttackCountry(i: Input, e: BattleEffect)
      requires Valid()
      modifies this`attackFrom, this`attackTo, world
      ensures Valid()
      ensures var sel := AttackSelect(old(world.countries), controlled, old(AttackState()), i);
        && AttackState() == (if AttackFires(sel, i) then AttackSel("", "") else sel)
        && world.countries == (if AttackFires(sel, i) then ApplyBattle(old(world.countries), sel.from, sel.to, e)
                               else old(world.countries))
        && world.battleRes == (if AttackFires(sel, i) then Some(BattleResult(e.victory, sel.from, sel.to))
                               else old(world.battleRes))
        && world.battles == old(world.battles) + (if AttackFires(sel, i) then [(sel.from, sel.to)] else [])
    {
      SelectAttack(i);
      if i.enter && attackFrom != "" && attackTo != "" {
        world.Battle(attackFrom, attackTo, e);
        attackTo := "";
        attackFrom := "";
      }
    }

    /**
     * `get_neighbors`: every neighbour of a controlled territory that is not
     * controlled, each once.
     */
    method GetNeighbors() returns (r: seq<string>)
      requires WellFormed(world.countries) && Known(world.countries, controlled)
      ensures Distinct(r)
      ensures forall n :: n in r <==> n in Frontier(world.countries, controlled)
    {
      var w := world.countries;
      var found: seq<string> := [];
      for j := 0 to |controlled|
        invariant Elems(found) == Reach(w, controlled[..j], controlled)
      {
        var nbrs := w[controlled[j]].neighbors;
        for k := 0 to |nbrs|
          invariant Elems(found) == Reach(w, controlled[..j], controlled) + (Elems(nbrs[..k]) - Elems(controlled))
        {
          assert Elems(nbrs[..k + 1]) == Elems(nbrs[..k]) + {nbrs[k]} by {
            assert nbrs[..k + 1] == nbrs[..k] + [nbrs[k]];
          }
          if nbrs[k] !in controlled {
            assert Elems(found + [nbrs[k]]) == Elems(found) + {nbrs[k]};
            found := found + [nbrs[k]];
          }
        }
        assert nbrs[..|nbrs|] == nbrs;
        ReachStep(w, controlled[..j], controlled[j], controlled);
        assert controlled[..j + 1] == controlled[..j] + [controlled[j]];
      }
      assert controlled[..|controlled|] == controlled;
      r := Dedupe(found);
    }

    /**
     * `conquer`: the territory takes the player's name and colour, its name
     * joins the controlled list (once), and the frontier is recomputed.
     */
    method Conquer(country: string)
      requires Valid() && country in world.countries
      modifies this`controlled, this`neighbors, world`countries
      ensures Valid()
      ensures Distinct(controlled)
      ensures forall c :: c in controlled <==> c in old(controlled) || c == country
      ensures old(country in controlled) ==> (forall c :: c in controlled <==> c in old(controlled))
      ensures world.countries ==
        old(world.countries)[country := old(world.countries)[country].(controlledBy := home, color := color)]
      ensures neighbors.Some? && Distinct(neighbors.value)
      ensures forall n :: n in neighbors.value <==> n in Frontier(world.countries, controlled)
    {
      world.countries := world.countries[country := world.countries[country].(controlledBy := home, color := color)];
      controlled := controlled + [country];
      var ns := GetNeighbors();
      neighbors := Some(ns);
      var appended := controlled;
      controlled := Dedupe(controlled);
      FrontierOfSameNames(world.countries, appended, controlled);
    }

    /** `reset_turn`: selections cleared, timer zeroed, controlled territories may attack again. */
    method ResetTurn()
      requires Valid()
      modifies this`timer, this`moveFrom, this`moveTo, this`attackFrom, this`attackTo, world`countries
      ensures Valid()
      ensures timer == 0 && moveFrom == "" && moveTo == "" && attackFrom == "" && attackTo == ""
      ensures world.countries == ClearAttacked(old(world.countries), Elems(controlled))
      ensures forall c :: c in controlled ==> !world.countries[c].hasAttacked
    {
      timer := 0;
      moveTo := "";
      moveFrom := "";
      attackFrom := "";
      attackTo := "";
      ghost var w := world.countries;
      for j := 0 to |controlled|
        modifies world`countries
        invariant world.countries == ClearAttacked(w, Elems(controlled[..j]))
      {
        var c := controlled[j];
        ClearAttackedStep(w, Elems(controlled[..j]), c);
        world.countries := world.countries[c := world.countries[c].(hasAttacked := false)];
        assert Elems(controlled[..j + 1]) == Elems(controlled[..j]) + {c};
      }
      assert controlled[..|controlled|] == controlled;
    }
  }
}
