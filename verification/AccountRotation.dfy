// Round-robin account selection with cooldowns.
module AccountRotation {
  /** Index `i` steps after `next` in a ring of `n`. */
  function Ring(n: nat, next: nat, i: nat): (idx: nat)
    requires n > 0
    ensures idx < n
  {
    (next + i) % n
  }

  /** The first ready account from `next` on; if none is ready, the one at `next`. */
  function Choice(ready: seq<bool>, next: nat, from: nat): (idx: nat)
    requires ready != []
    ensures idx < |ready|
    decreases |ready| - from
  {
    if from >= |ready| then next % |ready|
    else if ready[Ring(|ready|, next, from)] then Ring(|ready|, next, from)
    else Choice(ready, next, from + 1)
  }

  class Rotation {
    var nextAccountIdx: nat

    constructor ()
      ensures nextAccountIdx == 0
    {
      nextAccountIdx := 0;
    }

    /** `ready[i]` is what `isReady` says of account `i` at this pick. */
    method PickAccount(ready: seq<bool>) returns (picked: nat)
      requires ready != []
      modifies this
      ensures picked == Choice(ready, old(nextAccountIdx), 0)
      ensures nextAccountIdx == (picked + 1) % |ready|
    {
      for i := 0 to |ready|
        invariant nextAccountIdx == old(nextAccountIdx)
        invariant Choice(ready, nextAccountIdx, 0) == Choice(ready, nextAccountIdx, i)
      {
        var idx := (nextAccountIdx + i) % |ready|;
        if ready[idx] {
          nextAccountIdx := (idx + 1) % |ready|;
          return idx;
        }
      }
      picked := nextAccountIdx % |ready|;
      NextAfterFallback(nextAccountIdx, |ready|);
      nextAccountIdx := (nextAccountIdx + 1) % |ready|;
    }
  }

  lemma NextAfterFallback(next: nat, n: nat)
    requires n > 0
    ensures (next + 1) % n == (next % n + 1) % n
  {
    var q, r := next / n, next % n;
    assert next == q * n + r;
    if r + 1 < n {
      ModOf(next + 1, q, n, r + 1);
    } else {
      assert next + 1 == (q + 1) * n + 0;
      ModOf(next + 1, q + 1, n, 0);
    }
  }

  lemma ModOf(x: nat, q: nat, n: nat, r: nat)
    requires r < n && x == q * n + r
    ensures x % n == r
  {
    var q', r' := x / n, x % n;
    assert x == q' * n + r' && 0 <= r' < n;
    assert q' < q ==> (q' + 1) * n <= q * n;
    assert q < q' ==> (q + 1) * n <= q' * n;
  }

  /** How many accounts lie before `a`, counting from `next`. */
  function Distance(n: nat, next: nat, a: nat): (d: nat)
    requires next < n && a < n
    ensures d < n
  {
    if a >= next then a - next else a + n - next
  }

  lemma RingAtDistance(n: nat, next: nat, i: nat)
    requires next < n && i < n
    ensures Distance(n, next, Ring(n, next, i)) == i
  {
    if next + i < n {
      ModOf(next + i, 0, n, next + i);
    } else {
      ModOf(next + i, 1, n, next + i - n);
    }
  }

  // The pick is ready and no ready account comes earlier, or nobody is ready.
  lemma {:induction false} ChoiceIsFirst(ready: seq<bool>, next: nat, from: nat)
    requires next < |ready| && from <= |ready|
    requires forall a :: 0 <= a < |ready| && Distance(|ready|, next, a) < from ==> !ready[a]
    ensures var p := Choice(ready, next, from);
            if ready[p] then forall a :: 0 <= a < |ready| && ready[a] ==>
                Distance(|ready|, next, p) <= Distance(|ready|, next, a)
            else p == next && forall a :: 0 <= a < |ready| ==> !ready[a]
    decreases |ready| - from
  {
    var n := |ready|;
    if from >= n {
      ModOf(next, 0, n, next);
    } else {
      var idx := Ring(n, next, from);
      RingAtDistance(n, next, from);
      if !ready[idx] {
        forall a | 0 <= a < n && Distance(n, next, a) < from + 1 ensures !ready[a] {
          if Distance(n, next, a) == from {
            SameDistance(n, next, a, idx);
          }
        }
        ChoiceIsFirst(ready, next, from + 1);
      }
    }
  }

  lemma SameDistance(n: nat, next: nat, a: nat, b: nat)
    requires next < n && a < n && b < n && Distance(n, next, a) == Distance(n, next, b)
    ensures a == b
  {
  }

  /** An unready account is picked only when none is ready. */
  lemma UnreadyOnlyAsLastResort(ready: seq<bool>, next: nat, a: nat)
    requires next < |ready| && a < |ready| && ready[a]
    ensures ready[Choice(ready, next, 0)]
  {
    ChoiceIsFirst(ready, next, 0);
  }

  // ---------- Starvation freedom ----------

  /** The pointer after the picks for a sequence of readiness snapshots. */
  function NextAfter(n: nat, next: nat, snapshots: seq<seq<bool>>): (r: nat)
    requires n > 0 && next < n && forall i :: 0 <= i < |snapshots| ==> |snapshots[i]| == n
    ensures r < n
    decreases |snapshots|
  {
    if snapshots == [] then next
    else NextAfter(n, (Choice(snapshots[0], next, 0) + 1) % n, snapshots[1..])
  }

  /** Whether one of those picks is `a`. */
  predicate PickedAmong(n: nat, next: nat, snapshots: seq<seq<bool>>, a: nat)
    requires n > 0 && next < n && forall i :: 0 <= i < |snapshots| ==> |snapshots[i]| == n
    decreases |snapshots|
  {
    snapshots != [] &&
    (Choice(snapshots[0], next, 0) == a || PickedAmong(n, (Choice(snapshots[0], next, 0) + 1) % n, snapshots[1..], a))
  }

  // Picking another account moves the pointer closer to `a`.
  lemma PickApproaches(ready: seq<bool>, next: nat, a: nat)
    requires next < |ready| && a < |ready| && ready[a]
    ensures var p, n := Choice(ready, next, 0), |ready|;
            p == a || Distance(n, (p + 1) % n, a) < Distance(n, next, a)
  {
    var n, p := |ready|, Choice(ready, next, 0);
    ChoiceIsFirst(ready, next, 0);
    if p != a {
      if p + 1 < n {
        ModOf(p + 1, 0, n, p + 1);
      } else {
        ModOf(p + 1, 1, n, 0);
      }
    }
  }

  lemma {:induction false} PickedWithinDistance(n: nat, next: nat, snapshots: seq<seq<bool>>, a: nat)
    requires n > 0 && next < n && a < n
    requires forall i :: 0 <= i < |snapshots| ==> |snapshots[i]| == n && snapshots[i][a]
    requires |snapshots| > Distance(n, next, a)
    ensures PickedAmong(n, next, snapshots, a)
    decreases |snapshots|
  {
    PickApproaches(snapshots[0], next, a);
    var p := Choice(snapshots[0], next, 0);
    if p != a {
      PickedWithinDistance(n, (p + 1) % n, snapshots[1..], a);
    }
  }

  /** An account that stays ready is picked within as many picks as there are accounts. */
  lemma NoStarvation(n: nat, next: nat, snapshots: seq<seq<bool>>, a: nat)
    requires n > 0 && next < n && a < n && |snapshots| == n
    requires forall i :: 0 <= i < |snapshots| ==> |snapshots[i]| == n && snapshots[i][a]
    ensures PickedAmong(n, next, snapshots, a)
  {
    PickedWithinDistance(n, next, snapshots, a);
  }

  // ---------- Cooldowns ----------

  const COOLDOWN_BASE_MS := 30_000
  const COOLDOWN_MAX_MS := 60_000

  function Pow2(k: nat): (r: nat)
    ensures r >= 1 && (k > 0 ==> r >= 2)
  {
    if k == 0 then 1 else 2 * Pow2(k - 1)
  }

  /** Cooldown in milliseconds after `fails` consecutive failures, before jitter. */
  function Backoff(fails: nat): (ms: nat)
    requires fails > 0
    ensures COOLDOWN_BASE_MS <= ms <= COOLDOWN_MAX_MS
  {
    var raw := COOLDOWN_BASE_MS * Pow2(fails - 1);
    if raw < COOLDOWN_MAX_MS then raw else COOLDOWN_MAX_MS
  }

  lemma {:induction false} Pow2Monotone(a: nat, b: nat)
    requires a <= b
    ensures Pow2(a) <= Pow2(b)
  {
    if a < b {
      Pow2Monotone(a, b - 1);
    }
  }

  lemma BackoffMonotone(a: nat, b: nat)
    requires 0 < a <= b
    ensures Backoff(a) <= Backoff(b)
  {
    Pow2Monotone(a - 1, b - 1);
  }

  /** Thirty seconds after the first failure, a minute after any further one. */
  lemma BackoffIs(fails: nat)
    requires fails > 0
    ensures Backoff(fails) == if fails == 1 then 30_000 else 60_000
  {
  }

  /** The cooldown bookkeeping of one account; times in milliseconds. */
  class Account {
    var cooldownUntil: real
    var consecutiveFails: nat

    constructor ()
      ensures cooldownUntil == 0.0 && consecutiveFails == 0
    {
      cooldownUntil, consecutiveFails := 0.0, 0;
    }

    predicate Ready(now: real)
      reads this
    {
      cooldownUntil <= now
    }

    // `jitter` is what the random source returned, scaled to under a second.
    method MarkCooldown(now: real, jitter: real)
      requires 0.0 <= jitter < 1000.0
      modifies this
      ensures consecutiveFails == old(consecutiveFails) + 1
      ensures cooldownUntil == now + Backoff(consecutiveFails) as real + jitter
      ensures forall later: real :: later < now + COOLDOWN_BASE_MS as real ==> !Ready(later)
      ensures forall later: real :: later >= now + (COOLDOWN_MAX_MS + 1000) as real ==> Ready(later)
    {
      consecutiveFails := consecutiveFails + 1;
      var raw := COOLDOWN_BASE_MS * Pow2(consecutiveFails - 1);
      var backoff := if raw < COOLDOWN_MAX_MS then raw else COOLDOWN_MAX_MS;
      cooldownUntil := now + backoff as real + jitter;
    }

    method MarkSuccess()
      modifies this
      ensures consecutiveFails == 0 && cooldownUntil == old(cooldownUntil)
    {
      consecutiveFails := 0;
    }
  }
}
