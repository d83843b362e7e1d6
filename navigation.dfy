/** The Navigation Controller's arithmetic: where `moveActive` puts the active index. */
module Navigation {

  /**
   * The index `moveActive(step)` moves to in a non-empty list of `count` entries. From
   * -1 a step down lands on the first entry and a step up on the last; otherwise the
   * index wraps around, never clamps.
   */
  function NextIndex(active: int, step: int, count: nat): (r: int)
    requires count > 0 && -1 <= active < count
    requires step == 1 || step == -1
    ensures 0 <= r < count
    ensures active == -1 && step == 1 ==> r == 0
    ensures active == -1 && step == -1 ==> r == count - 1
    ensures active != -1 && step == 1 ==> r == (if active == count - 1 then 0 else active + 1)
    ensures active != -1 && step == -1 ==> r == (if active == 0 then count - 1 else active - 1)
  {
    if active == -1 then
      (if step > 0 then 0 else count - 1)
    else
      ModWrap(active + step + count, count);
      (active + step + count) % count
  }

  /** Reducing a number below twice the modulus subtracts the modulus at most once. */
  lemma ModWrap(x: int, n: int)
    requires 0 < n && 0 <= x <= 2 * n
    ensures x % n == (if x < n then x else if x < 2 * n then x - n else 0)
  {
    var q := if x < n then 0 else if x < 2 * n then 1 else 2;
    assert x == n * q + (x - n * q);
  }

  /** A step up undoes a step down, and a step down undoes a step up. */
  lemma StepsCancel(active: int, count: nat)
    requires count > 0 && 0 <= active < count
    ensures NextIndex(NextIndex(active, 1, count), -1, count) == active
    ensures NextIndex(NextIndex(active, -1, count), 1, count) == active
  {
  }

  /** The index after `k` steps down from `active`. */
  function StepsDown(active: int, k: nat, count: nat): (r: int)
    requires count > 0 && -1 <= active < count
    ensures -1 <= r < count
  {
    if k == 0 then active else NextIndex(StepsDown(active, k - 1, count), 1, count)
  }

  /** Taking `m` steps and then `n` more is taking `m + n` steps. */
  lemma {:induction false} StepsDownCompose(active: int, m: nat, n: nat, count: nat)
    requires count > 0 && -1 <= active < count
    ensures StepsDown(active, m + n, count) == StepsDown(StepsDown(active, m, count), n, count)
  {
    if n > 0 {
      StepsDownCompose(active, m, n - 1, count);
    }
  }

  /** From the first entry, the `j`-th step down (for `j < count`) reaches entry `j`. */
  lemma {:induction false} StepsDownFromFirst(j: nat, count: nat)
    requires j < count
    ensures StepsDown(0, j, count) == j
  {
    if j > 0 {
      StepsDownFromFirst(j - 1, count);
    }
  }

  /**
   * Stepping down through a list of `count` entries from the first one visits every
   * entry in order, is back at the first after `count` steps, and repeats from there.
   */
  lemma StepsDownCycle(k: nat, count: nat)
    requires count > 0
    ensures forall j :: 0 <= j < count ==> StepsDown(0, j, count) == j
    ensures StepsDown(0, count, count) == 0
    ensures StepsDown(0, k + count, count) == StepsDown(0, k, count)
  {
    forall j | 0 <= j < count ensures StepsDown(0, j, count) == j {
      StepsDownFromFirst(j, count);
    }
    StepsDownFromFirst(count - 1, count);
    StepsDownCompose(0, count, k, count);
  }

  /** From no active entry, the first step down reaches the first entry; the rest follow on. */
  lemma StepsDownFromNone(k: nat, count: nat)
    requires count > 0
    ensures StepsDown(-1, k + 1, count) == StepsDown(0, k, count)
  {
    StepsDownCompose(-1, 1, k, count);
  }
}
