/** The clamped battery arithmetic shared by the robot and the battery sensor. */
module Battery {

  /** `max(0, level - amount)`: consumption never drives the level below zero. */
  function Consume(level: int, amount: int): (r: int)
    ensures r >= 0 && r >= level - amount
    ensures r == 0 || r == level - amount
  {
    if level - amount < 0 then 0 else level - amount
  }

  /** `min(maxLevel, level + amount)`: charging never passes the capacity. */
  function Charge(level: int, maxLevel: int, amount: int): (r: int)
    ensures r <= maxLevel && r <= level + amount
    ensures r == maxLevel || r == level + amount
  {
    if level + amount > maxLevel then maxLevel else level + amount
  }

  /** Both operations keep a level inside [0, maxLevel] for non-negative amounts. */
  lemma ClampKeepsRange(level: int, maxLevel: int, amount: nat)
    requires 0 <= level <= maxLevel
    ensures 0 <= Consume(level, amount) <= level
    ensures level <= Charge(level, maxLevel, amount) <= maxLevel
  {
  }

  /** The level after `n` moves that each consume one unit. */
  function ConsumeEach(level: int, n: nat): int {
    if n == 0 then level else Consume(ConsumeEach(level, n - 1), 1)
  }

  /** n unit consumptions from a non-negative level leave max(0, level - n). */
  lemma {:induction false} ConsumeEachIsClampedDifference(level: int, n: nat)
    requires level >= 0
    ensures ConsumeEach(level, n) == if level - n < 0 then 0 else level - n
  {
    if n > 0 {
      ConsumeEachIsClampedDifference(level, n - 1);
    }
  }
}
