/**
 The retry arithmetic of a failing window: the batch ceiling that halves with
 every attempt and the two loops that compute the same capped backoff.
*/
module AmbientBudget {
  import opened Common

  const MAX_WINDOW_ATTEMPTS: nat := 4
  const BACKOFF_BASE: nat := 30
  const BACKOFF_CAP: nat := 600

  function Pow2(k: nat): (p: nat)
    ensures p >= 1
  {
    if k == 0 then 1 else 2 * Pow2(k - 1)
  }

  /** full / 2^k, rounded up. */
  function CeilShare(full: nat, k: nat): nat { (full + Pow2(k) - 1) / Pow2(k) }

  /** The batch ceiling of a pass that has already failed `attempts` times. */
  function Ceiling(full: nat, minBatch: nat, attempts: nat): nat {
    Max(minBatch, CeilShare(full, attempts))
  }

  /** The delay before the retry that follows failure number `attempt`. */
  function Backoff(base: nat, cap: nat, attempt: nat): nat
    requires attempt >= 1
  {
    Min(cap, base * Pow2(attempt - 1))
  }

  /** q is f / p rounded up exactly when q * p reaches f and (q - 1) * p does not. */
  lemma CeilBracket(f: nat, p: nat, q: int)
    requires p >= 1
    ensures q == (f + p - 1) / p <==> (q - 1) * p < f <= q * p
  {
    var c := (f + p - 1) / p;
    assert c * p <= f + p - 1 < c * p + p;
    if q < c { assert q * p <= (c - 1) * p; }
    if q > c { assert (q - 1) * p >= c * p; }
  }

  /** Rounding up twice is rounding up once: halving k + 1 times is a share of 2^(k+1). */
  lemma HalveOnce(full: nat, k: nat)
    ensures (CeilShare(full, k) + 1) / 2 == CeilShare(full, k + 1)
  {
    var p: nat, q: int := Pow2(k), CeilShare(full, k);
    var h: int := (q + 1) / 2;
    CeilBracket(full, p, q);
    assert q * p <= 2 * h * p by { Scale(q, 2 * h, p); }
    assert (2 * h - 2) * p <= (q - 1) * p by { Scale(2 * h - 2, q - 1, p); }
    assert 2 * h * p == h * (2 * p) && (2 * h - 2) * p == (h - 1) * (2 * p) by { Regroup(h, p); }
    CeilBracket(full, 2 * p, h);
  }

  lemma Scale(x: int, y: int, p: nat)
    requires x <= y
    ensures x * p <= y * p
  {
  }

  lemma Regroup(h: int, p: int)
    ensures 2 * h * p == h * (2 * p)
    ensures (2 * h - 2) * p == (h - 1) * (2 * p)
  {
  }

  lemma {:induction false} SmallShare(full: nat, j: nat, k: nat)
    requires j <= k && CeilShare(full, j) <= 1
    ensures CeilShare(full, k) == CeilShare(full, j)
    decreases k - j
  {
    if j < k {
      HalveOnce(full, j);
      SmallShare(full, j + 1, k);
    }
  }

  /** The halving loop, its early exit at one, and the floor at minBatch. */
  method BatchCeiling(full: nat, minBatch: nat, attempts: nat) returns (limit: nat)
    ensures limit == Ceiling(full, minBatch, attempts)
  {
    limit := full;
    var i := 0;
    while i < attempts && limit > 1
      invariant i <= attempts && limit == CeilShare(full, i)
    {
      HalveOnce(full, i);
      limit := (limit + 1) / 2;
      i := i + 1;
    }
    SmallShareIfStopped(full, i, attempts);
    if limit < minBatch { limit := minBatch; }
  }

  lemma SmallShareIfStopped(full: nat, j: nat, k: nat)
    requires j <= k && (j == k || CeilShare(full, j) <= 1)
    ensures CeilShare(full, k) == CeilShare(full, j)
  {
    if j < k { SmallShare(full, j, k); }
  }

  lemma {:induction false} Pow2Monotone(j: nat, k: nat)
    requires j <= k
    ensures Pow2(j) <= Pow2(k)
  {
    if j < k { Pow2Monotone(j, k - 1); }
  }

  /** The doubling loop of a provider hold. */
  method HoldBackoff(base: nat, cap: nat, attempt: nat) returns (backoff: nat)
    requires 1 <= attempt && base <= cap
    ensures backoff == Backoff(base, cap, attempt)
  {
    backoff := base;
    var i := 1;
    BackoffStarts(base, cap);
    while i < attempt && backoff < cap
      invariant 1 <= i <= attempt && backoff == Backoff(base, cap, i)
    {
      BackoffDoubles(base, cap, i);
      backoff := backoff * 2;
      if backoff > cap { backoff := cap; }
      i := i + 1;
    }
    BackoffSettles(base, cap, i, attempt);
  }

  lemma BackoffStarts(base: nat, cap: nat)
    requires base <= cap
    ensures Backoff(base, cap, 1) == base
  {
    assert Pow2(0) == 1;
  }

  lemma BackoffDoubles(base: nat, cap: nat, attempt: nat)
    requires attempt >= 1
    ensures Backoff(base, cap, attempt + 1) == Min(cap, 2 * Backoff(base, cap, attempt))
  {
    assert base * Pow2(attempt) == 2 * (base * Pow2(attempt - 1));
  }

  lemma BackoffSettles(base: nat, cap: nat, j: nat, k: nat)
    requires 1 <= j <= k && (j == k || Backoff(base, cap, j) >= cap)
    ensures Backoff(base, cap, k) == Backoff(base, cap, j)
  {
    Pow2Monotone(j - 1, k - 1);
    assert base * Pow2(j - 1) <= base * Pow2(k - 1);
  }

  function ShiftLeft(x: nat, bits: nat): nat {
    if bits == 0 then x else 2 * ShiftLeft(x, bits - 1)
  }

  /** The shifted delay of a poison failure. */
  function PoisonBackoff(base: nat, cap: nat, attempts: nat): nat
    requires attempts >= 1
  {
    var backoff := ShiftLeft(base, attempts - 1);
    if backoff > cap then cap else backoff
  }

  /** A poison failure and a provider hold back off by the same schedule. */
  lemma {:induction false} BackoffFormsAgree(base: nat, cap: nat, attempt: nat)
    requires attempt >= 1
    ensures PoisonBackoff(base, cap, attempt) == Backoff(base, cap, attempt)
  {
    ShiftIsPower(base, attempt - 1);
  }

  lemma {:induction false} ShiftIsPower(x: nat, bits: nat)
    ensures ShiftLeft(x, bits) == x * Pow2(bits)
  {
    if bits > 0 { ShiftIsPower(x, bits - 1); }
  }

  /** Every retry is given a batch, and one no larger than the retry before it. */
  lemma CeilingShrinks(full: nat, minBatch: nat, j: nat, k: nat)
    requires 1 <= full && j <= k
    ensures 1 <= Ceiling(full, minBatch, k) <= Ceiling(full, minBatch, j) <= Max(full, minBatch)
    decreases k
  {
    if k == 0 {
      assert CeilShare(full, 0) == full;
    } else {
      HalveOnce(full, k - 1);
      if j < k { CeilingShrinks(full, minBatch, j, k - 1); } else { CeilingShrinks(full, minBatch, k - 1, k - 1); }
      SharePositive(full, k);
    }
  }

  lemma {:induction false} SharePositive(full: nat, k: nat)
    requires 1 <= full
    ensures 1 <= CeilShare(full, k)
  {
    if k > 0 {
      SharePositive(full, k - 1);
      HalveOnce(full, k - 1);
    }
  }
}
