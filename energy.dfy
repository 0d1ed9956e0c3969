/**
 * The player's health points and energy tanks.  Assigning to `Player.hp`
 * first refills used tanks with any energy above the maximum, then spends
 * tanks while the health is at or below zero, and finally caps the health
 * at the maximum.  The number of tanks collected is a global of the game
 * and is passed in as `etanks`.  The `Player` class also keeps the aim
 * direction of the current frame and the last map cell it stood in.
 */
module Energy {
  import opened Lists
  import opened Rules

  /** PLAYER_MAX_HP. */
  const MaxHp: int := 100

  /** Health together with the used-tank count. */
  datatype Charge = Charge(hp: int, used: nat)

  /** Total energy: the health plus a full bar for every tank not yet used. */
  function Reserve(c: Charge, etanks: nat): int
  {
    c.hp + (etanks - c.used) * MaxHp
  }

  /** The first loop of the setter: overflow returns to used tanks. */
  function Refill(c: Charge): Charge
    decreases c.used
  {
    if c.hp > MaxHp && c.used > 0 then Refill(Charge(c.hp - MaxHp, c.used - 1)) else c
  }

  /** The second loop of the setter: tanks are spent while the health is not positive. */
  function Spend(c: Charge, etanks: nat): Charge
    decreases etanks - c.used
  {
    if c.hp <= 0 && c.used < etanks then Spend(Charge(c.hp + MaxHp, c.used + 1), etanks) else c
  }

  /** What the setter leaves behind when `value` is assigned with `used` tanks in use. */
  function Settle(value: int, used: nat, etanks: nat): Charge
  {
    var c := Spend(Refill(Charge(value, used)), etanks);
    Charge(if c.hp < MaxHp then c.hp else MaxHp, c.used)
  }

  /** Refilling keeps the total, only gives tanks back, and stops once the bar fits or no tank is used. */
  lemma {:induction false} RefillFacts(c: Charge, etanks: nat)
    decreases c.used
    ensures Reserve(Refill(c), etanks) == Reserve(c, etanks)
    ensures Refill(c).used <= c.used
    ensures Refill(c).hp <= MaxHp || Refill(c).used == 0
    ensures c.hp <= MaxHp ==> Refill(c) == c
    ensures c.hp > 0 ==> Refill(c).hp > 0
  {
    if c.hp > MaxHp && c.used > 0 {
      RefillFacts(Charge(c.hp - MaxHp, c.used - 1), etanks);
    }
  }

  /** Spending keeps the total, only uses tanks up to the collected count, and stops once the health is positive or every tank is used. */
  lemma {:induction false} SpendFacts(c: Charge, etanks: nat)
    decreases etanks - c.used
    ensures Reserve(Spend(c, etanks), etanks) == Reserve(c, etanks)
    ensures c.used <= Spend(c, etanks).used
    ensures c.used <= etanks ==> Spend(c, etanks).used <= etanks
    ensures Spend(c, etanks).hp > 0 || Spend(c, etanks).used >= etanks
    ensures c.hp <= MaxHp ==> Spend(c, etanks).hp <= MaxHp
    ensures c.hp > 0 ==> Spend(c, etanks) == c
  {
    if c.hp <= 0 && c.used < etanks {
      SpendFacts(Charge(c.hp + MaxHp, c.used + 1), etanks);
    }
  }

  /**
   * After any assignment the health is at most the maximum, the used-tank
   * count stays within the collected tanks, and a health at or below zero
   * means every tank has been spent.
   */
  lemma SettleBounds(value: int, used: nat, etanks: nat)
    requires used <= etanks
    ensures Settle(value, used, etanks).hp <= MaxHp
    ensures Settle(value, used, etanks).used <= etanks
    ensures Settle(value, used, etanks).hp <= 0 ==> Settle(value, used, etanks).used == etanks
  {
    var r := Refill(Charge(value, used));
    RefillFacts(Charge(value, used), etanks);
    SpendFacts(r, etanks);
  }

  /**
   * The two loops move energy between the bar and the tanks without losing
   * any; only the final cap can discard energy, and only when the bar ends
   * up full.
   */
  lemma SettleConserves(value: int, used: nat, etanks: nat)
    ensures Reserve(Settle(value, used, etanks), etanks) <= Reserve(Charge(value, used), etanks)
    ensures Settle(value, used, etanks).hp < MaxHp ==>
              Reserve(Settle(value, used, etanks), etanks) == Reserve(Charge(value, used), etanks)
  {
    var r := Refill(Charge(value, used));
    RefillFacts(Charge(value, used), etanks);
    SpendFacts(r, etanks);
  }

  /** Energy is discarded only when there was more than a full bar and every tank was already full. */
  lemma SettleLosesOnlyOverflow(value: int, used: nat, etanks: nat)
    requires Reserve(Settle(value, used, etanks), etanks) < Reserve(Charge(value, used), etanks)
    ensures value > MaxHp
    ensures Settle(value, used, etanks) == Charge(MaxHp, 0)
  {
    var r := Refill(Charge(value, used));
    RefillFacts(Charge(value, used), etanks);
    SpendFacts(r, etanks);
  }

  /** Assigning a full bar leaves every tank as it is. */
  lemma SettleFull(used: nat, etanks: nat)
    ensures Settle(MaxHp, used, etanks) == Charge(MaxHp, used)
  {
    RefillFacts(Charge(MaxHp, used), etanks);
    SpendFacts(Charge(MaxHp, used), etanks);
  }

  class Player {
    var hp: int
    var etanksUsed: nat
    var aimDirection: Option<int>
    var aimDirectionTime: nat
    var lastXr: Option<int>
    var lastYr: Option<int>

    /** A new player starts with a full bar, no tank in use, not aiming, and in no map cell yet. */
    constructor ()
      ensures hp == MaxHp && etanksUsed == 0
      ensures aimDirection.None? && aimDirectionTime == 0
      ensures lastXr.None? && lastYr.None?
    {
      hp := MaxHp;
      etanksUsed := 0;
      aimDirection := None;
      aimDirectionTime := 0;
      lastXr := None;
      lastYr := None;
    }

    /** The aim update at the start of `event_begin_step`. */
    method BeginStepAim(inp: AimInput)
      modifies this
      ensures Aim(aimDirection, aimDirectionTime) == AimStep(Aim(old(aimDirection), old(aimDirectionTime)), inp)
      ensures hp == old(hp) && etanksUsed == old(etanksUsed)
      ensures lastXr == old(lastXr) && lastYr == old(lastYr)
    {
      var prev := aimDirection;
      aimDirection := if inp.shooting then Some(0) else None;
      var v := VControl(inp);
      if v != 0 {
        aimDirection := if inp.aimDiag then Some(-v) else Some(-2 * v);
      }
      if inp.aimUp && inp.aimDown {
        aimDirection := Some(2);
      } else if inp.aimUp {
        aimDirection := Some(1);
      } else if inp.aimDown {
        aimDirection := Some(-1);
      }
      if aimDirection == prev {
        aimDirectionTime := aimDirectionTime + 1;
      } else {
        aimDirectionTime := 0;
      }
    }

    /** The `hp` setter. */
    method SetHp(value: int, etanks: nat)
      modifies this
      ensures aimDirection == old(aimDirection) && aimDirectionTime == old(aimDirectionTime)
      ensures lastXr == old(lastXr) && lastYr == old(lastYr)
      ensures Charge(hp, etanksUsed) == Settle(value, old(etanksUsed), etanks)
      ensures hp <= MaxHp
      ensures old(etanksUsed) <= etanks ==> etanksUsed <= etanks
      ensures old(etanksUsed) <= etanks && hp <= 0 ==> etanksUsed == etanks
    {
      ghost var start := Charge(value, etanksUsed);
      hp := value;
      while hp > MaxHp && etanksUsed > 0
        invariant Refill(Charge(hp, etanksUsed)) == Refill(start)
        invariant aimDirection == old(aimDirection) && aimDirectionTime == old(aimDirectionTime)
        invariant lastXr == old(lastXr) && lastYr == old(lastYr)
        decreases etanksUsed
      {
        etanksUsed := etanksUsed - 1;
        hp := hp - MaxHp;
      }
      ghost var refilled := Charge(hp, etanksUsed);
      while hp <= 0 && etanksUsed < etanks
        invariant Spend(Charge(hp, etanksUsed), etanks) == Spend(refilled, etanks)
        invariant aimDirection == old(aimDirection) && aimDirectionTime == old(aimDirectionTime)
        invariant lastXr == old(lastXr) && lastYr == old(lastYr)
        decreases etanks - etanksUsed
      {
        etanksUsed := etanksUsed + 1;
        hp := hp + MaxHp;
      }
      hp := if hp < MaxHp then hp else MaxHp;
      if old(etanksUsed) <= etanks {
        SettleBounds(value, old(etanksUsed), etanks);
      }
    }

    /** `refresh`: a full bar, and every tank restored. */
    method Refresh(etanks: nat)
      modifies this
      ensures aimDirection == old(aimDirection) && aimDirectionTime == old(aimDirectionTime)
      ensures lastXr == old(lastXr) && lastYr == old(lastYr)
      ensures hp == MaxHp && etanksUsed == 0
    {
      SettleFull(etanksUsed, etanks);
      SetHp(MaxHp, etanks);
      etanksUsed := 0;
    }
  }
}
