/**
 The sizing arithmetic of the thread pool: how large the watcher wants the pool to be,
 and what repeating its pass over a constant load does.
 */
module PoolSizing {
  import opened Common

  const INITIAL_THREADS: nat := 100
  const MAX_INT: int := 0x7fff_ffff

  /** ceil() of the C library; every argument here is a small multiple of 0.25 and so exact in a double. */
  function Ceil(x: real): int {
    -((-x).Floor)
  }

  function GrowGoal(n: nat): int {
    Ceil(1.5 * n as real)
  }

  function ShrinkGoal(n: nat): int {
    Ceil(0.75 * n as real)
  }

  predicate WantsGrow(executing: int, n: nat) {
    executing as real > 0.75 * n as real
  }

  predicate WantsShrink(executing: int, n: nat) {
    (executing as real) < 0.25 * n as real
  }

  /** The floating-point tests and goals, in integers. */
  lemma SizingInIntegers(executing: int, n: nat)
    ensures GrowGoal(n) == (3 * n + 1) / 2
    ensures ShrinkGoal(n) == (3 * n + 3) / 4
    ensures WantsGrow(executing, n) <==> 4 * executing > 3 * n
    ensures WantsShrink(executing, n) <==> 4 * executing < n
  {
    CeilIs(1.5 * n as real, (3 * n + 1) / 2);
    CeilIs(0.75 * n as real, (3 * n + 3) / 4);
  }

  lemma CeilIs(x: real, k: int)
    requires k as real - 1.0 < x <= k as real
    ensures Ceil(x) == k
  {
  }

  /** The uncapped growth goal fits a 32-bit int exactly up to this size. */
  lemma GrowGoalFitsInt(n: nat)
    ensures GrowGoal(n) <= MAX_INT <==> n <= 1431655764
  {
    SizingInIntegers(0, n);
  }

  /** How many of the wanted thread creations succeed before the first failure. */
  function Created(want: nat, oks: seq<bool>): (k: nat)
    ensures k <= want && k <= |oks|
    ensures forall j :: 0 <= j < k ==> oks[j]
    ensures k == want || k == |oks| || !oks[k]
  {
    if want == 0 || oks == [] || !oks[0] then 0 else 1 + Created(want - 1, oks[1..])
  }

  /** Where _grow_pool stops when every creation succeeds. */
  function GrowTarget(n: nat, max: nat): (t: nat)
    requires n <= max
    ensures t == if (3 * n + 1) / 2 > max then max else (3 * n + 1) / 2
    ensures n <= t <= max
    ensures t == n <==> n == max || n == 0
  {
    SizingInIntegers(0, n);
    Min(GrowGoal(n), max)
  }

  /** Where _shrink_pool stops. */
  function ShrinkTarget(n: nat): (t: nat)
    ensures t == if n > 132 then (3 * n + 3) / 4 else n
    ensures t <= n
    ensures t < n ==> t >= INITIAL_THREADS
    ensures t == n <==> n <= 132
  {
    SizingInIntegers(0, n);
    if ShrinkGoal(n) < INITIAL_THREADS || ShrinkGoal(n) == n then n else ShrinkGoal(n)
  }

  /**
   The size after one pass of the watcher over the load sample `executing`, with `oks` the outcomes of pthread_create.
   */
  function PassSize(n: nat, executing: int, max: nat, oks: seq<bool>): nat
    requires n <= max
  {
    if WantsGrow(executing, n) then n + Created(GrowTarget(n, max) - n, oks)
    else if WantsShrink(executing, n) then ShrinkTarget(n)
    else n
  }

  /**
   The same in integers: grow by half when more than three quarters are busy, shrink by a quarter when less than one is.
   */
  lemma {:induction false} PassSizeInIntegers(n: nat, executing: int, max: nat, oks: seq<bool>)
    requires INITIAL_THREADS <= n <= max
    ensures 4 * executing > 3 * n ==>
      var goal := if (3 * n + 1) / 2 > max then max else (3 * n + 1) / 2;
      goal >= n && PassSize(n, executing, max, oks) == n + Created(goal - n, oks)
    ensures 4 * executing < n ==> PassSize(n, executing, max, oks) == if n > 132 then (3 * n + 3) / 4 else n
    ensures n <= 4 * executing <= 3 * n ==> PassSize(n, executing, max, oks) == n
  {
    SizingInIntegers(executing, n);
  }

  /** One pass keeps the pool within its bounds, whatever the (possibly stale) sample and creation failures. */
  lemma PassKeepsBounds(n: nat, executing: int, max: nat, oks: seq<bool>)
    requires INITIAL_THREADS <= n <= max
    ensures INITIAL_THREADS <= PassSize(n, executing, max, oks) <= max
  {
  }

  datatype Pass = Pass(executing: int, oks: seq<bool>)

  function SizeAfter(n: nat, max: nat, passes: seq<Pass>): nat
    requires INITIAL_THREADS <= n <= max
    ensures INITIAL_THREADS <= SizeAfter(n, max, passes) <= max
    decreases |passes|
  {
    if passes == [] then n
    else
      PassKeepsBounds(n, passes[0].executing, max, passes[0].oks);
      SizeAfter(PassSize(n, passes[0].executing, max, passes[0].oks), max, passes[1..])
  }

  lemma {:induction false} SizeAfterAppend(n: nat, max: nat, passes: seq<Pass>, last: Pass)
    requires INITIAL_THREADS <= n <= max
    ensures SizeAfter(n, max, passes + [last]) == PassSize(SizeAfter(n, max, passes), last.executing, max, last.oks)
    decreases |passes|
  {
    if passes == [] {
      PassKeepsBounds(n, last.executing, max, last.oks);
      assert passes + [last] == [last];
    } else {
      var m := PassSize(n, passes[0].executing, max, passes[0].oks);
      PassKeepsBounds(n, passes[0].executing, max, passes[0].oks);
      assert (passes + [last])[0] == passes[0] && (passes + [last])[1..] == passes[1..] + [last];
      SizeAfterAppend(m, max, passes[1..], last);
    }
  }

  /** The pass was not cut short: all the threads it wanted were created, or the last attempt failed. */
  predicate IsWhole(n: nat, max: nat, pass: Pass)
    requires n <= max
  {
    WantsGrow(pass.executing, n) ==>
      || Created(GrowTarget(n, max) - n, pass.oks) == GrowTarget(n, max) - n
      || (pass.oks != [] && !pass.oks[|pass.oks| - 1])
  }

  predicate AllWhole(n: nat, max: nat, passes: seq<Pass>)
    requires INITIAL_THREADS <= n <= max
    decreases |passes|
  {
    passes == [] || (
      && IsWhole(n, max, passes[0])
      && (PassKeepsBounds(n, passes[0].executing, max, passes[0].oks);
          AllWhole(PassSize(n, passes[0].executing, max, passes[0].oks), max, passes[1..])))
  }

  lemma {:induction false} AllWholeAppend(n: nat, max: nat, passes: seq<Pass>, last: Pass)
    requires INITIAL_THREADS <= n <= max
    ensures AllWhole(n, max, passes + [last]) <==>
      AllWhole(n, max, passes) && IsWhole(SizeAfter(n, max, passes), max, last)
    decreases |passes|
  {
    if passes == [] {
      PassKeepsBounds(n, last.executing, max, last.oks);
      assert passes + [last] == [last];
    } else {
      PassKeepsBounds(n, passes[0].executing, max, passes[0].oks);
      assert (passes + [last])[0] == passes[0] && (passes + [last])[1..] == passes[1..] + [last];
      AllWholeAppend(PassSize(n, passes[0].executing, max, passes[0].oks), max, passes[1..], last);
    }
  }

  // ---------- a constant load, every creation succeeding ----------

  /** One pass at load e when no creation fails. */
  function Next(n: nat, e: nat, max: nat): (n': nat)
    requires INITIAL_THREADS <= n <= max
    ensures INITIAL_THREADS <= n' <= max
  {
    if WantsGrow(e, n) then GrowTarget(n, max) else if WantsShrink(e, n) then ShrinkTarget(n) else n
  }

  function SizeAt(n: nat, e: nat, max: nat, k: nat): (n': nat)
    requires INITIAL_THREADS <= n <= max
    ensures INITIAL_THREADS <= n' <= max
  {
    if k == 0 then n else Next(SizeAt(n, e, max, k - 1), e, max)
  }

  lemma NextIsPass(n: nat, e: nat, max: nat, oks: seq<bool>)
    requires INITIAL_THREADS <= n <= max
    requires IsWhole(n, max, Pass(e, oks)) && forall j :: 0 <= j < |oks| ==> oks[j]
    ensures Next(n, e, max) == PassSize(n, e, max, oks)
  {
  }

  lemma {:induction false} WholeBefore(n: nat, max: nat, passes: seq<Pass>, k: nat)
    requires INITIAL_THREADS <= n <= max && AllWhole(n, max, passes) && k <= |passes|
    ensures AllWhole(n, max, passes[..k])
    decreases |passes| - k
  {
    if k == |passes| {
      assert passes[..k] == passes;
    } else {
      WholeBefore(n, max, passes, k + 1);
      assert passes[..k + 1] == passes[..k] + [passes[k]];
      AllWholeAppend(n, max, passes[..k], passes[k]);
    }
  }

  /** Passes over the constant sample e in which no creation fails. */
  predicate Steady(passes: seq<Pass>, e: nat) {
    forall i :: 0 <= i < |passes| ==> passes[i].executing == e && forall j :: 0 <= j < |passes[i].oks| ==>
      passes[i].oks[j]
  }

  /** SizeAt is what the watcher's passes give under a constant load. */
  lemma {:induction false} SteadyPasses(n: nat, e: nat, max: nat, passes: seq<Pass>)
    requires INITIAL_THREADS <= n <= max && AllWhole(n, max, passes) && Steady(passes, e)
    ensures SizeAfter(n, max, passes) == SizeAt(n, e, max, |passes|)
    decreases |passes|
  {
    if passes == [] {
    } else {
      var last := |passes| - 1;
      assert passes == passes[..last] + [passes[last]];
      AllWholeAppend(n, max, passes[..last], passes[last]);
      SteadyPasses(n, e, max, passes[..last]);
      SizeAfterAppend(n, max, passes[..last], passes[last]);
      NextIsPass(SizeAt(n, e, max, last), e, max, passes[last].oks);
    }
  }

  /** A pass that grows is never followed by one that shrinks, nor the other way round. */
  lemma DirectionIsStable(n: nat, e: nat, max: nat)
    requires INITIAL_THREADS <= n <= max
    ensures WantsGrow(e, n) ==> !WantsShrink(e, Next(n, e, max))
    ensures WantsShrink(e, n) ==> !WantsGrow(e, Next(n, e, max))
    ensures !WantsGrow(e, n) && !WantsShrink(e, n) ==> Next(n, e, max) == n
  {
    SizingInIntegers(e, n);
    SizingInIntegers(e, Next(n, e, max));
  }

  /**
   Under a constant load the sequence of sizes is monotone: it never grows and then shrinks, or shrinks and then grows.
   */
  lemma {:induction false} SizesAreMonotone(n: nat, e: nat, max: nat, j: nat, k: nat)
    requires INITIAL_THREADS <= n <= max && j <= k
    ensures !WantsShrink(e, n) ==> SizeAt(n, e, max, j) <= SizeAt(n, e, max, k) && !WantsShrink(e, SizeAt(n, e, max, k))
    ensures !WantsGrow(e, n) ==> SizeAt(n, e, max, j) >= SizeAt(n, e, max, k) && !WantsGrow(e, SizeAt(n, e, max, k))
    decreases k
  {
    if k == 0 {
    } else {
      SizesAreMonotone(n, e, max, if j < k then j else k - 1, k - 1);
      DirectionIsStable(SizeAt(n, e, max, k - 1), e, max);
    }
  }

  predicate Settled(n: nat, e: nat, max: nat) {
    || n <= 4 * e <= 3 * n
    || (4 * e > 3 * n && n == max)
    || (4 * e < n && n <= 132)
  }

  /** The sizes at which a pass changes nothing. */
  lemma SettledIffFixed(n: nat, e: nat, max: nat)
    requires INITIAL_THREADS <= n <= max
    ensures Settled(n, e, max) <==> Next(n, e, max) == n
  {
    SizingInIntegers(e, n);
  }

  lemma {:induction false} SettledStays(n: nat, e: nat, max: nat, j: nat, k: nat)
    requires INITIAL_THREADS <= n <= max && j <= k
    requires Settled(SizeAt(n, e, max, j), e, max)
    ensures SizeAt(n, e, max, k) == SizeAt(n, e, max, j)
    decreases k
  {
    if j == k {
    } else {
      SettledStays(n, e, max, j, k - 1);
      SettledIffFixed(SizeAt(n, e, max, k - 1), e, max);
    }
  }

  /** Until it settles, the size moves by at least one thread a pass, always in the same direction. */
  lemma {:induction false} MovesUntilSettled(n: nat, e: nat, max: nat, k: nat)
    requires INITIAL_THREADS <= n <= max
    ensures Settled(SizeAt(n, e, max, k), e, max) || (
              if WantsShrink(e, n) then SizeAt(n, e, max, k) + k <= n else SizeAt(n, e, max, k) >= n + k)
  {
    if k == 0 {
    } else {
      MovesUntilSettled(n, e, max, k - 1);
      SizesAreMonotone(n, e, max, k - 1, k);
      SettledIffFixed(SizeAt(n, e, max, k - 1), e, max);
      assert WantsShrink(e, n) ==> !WantsGrow(e, n) by { SizingInIntegers(e, n); }
    }
  }

  /** Under a constant load the pool settles: at the latest after max passes its size never changes again. */
  lemma {:induction false} ReachesFixedPoint(n: nat, e: nat, max: nat, k: nat)
    requires INITIAL_THREADS <= n <= max <= k
    ensures Settled(SizeAt(n, e, max, k), e, max)
    ensures SizeAt(n, e, max, k) == SizeAt(n, e, max, max)
  {
    MovesUntilSettled(n, e, max, max);
    SettledStays(n, e, max, max, k);
  }

  /** The same of the watcher's passes: whatever comes after the first max of them leaves a settled size as it is. */
  lemma {:induction false} PassesSettle(n: nat, e: nat, max: nat, passes: seq<Pass>)
    requires INITIAL_THREADS <= n <= max <= |passes| && AllWhole(n, max, passes) && Steady(passes, e)
    ensures Settled(SizeAfter(n, max, passes), e, max)
    ensures SizeAfter(n, max, passes) == SizeAfter(n, max, passes[..max])
  {
    SteadyPasses(n, e, max, passes);
    WholeBefore(n, max, passes, max);
    SteadyPasses(n, e, max, passes[..max]);
    ReachesFixedPoint(n, e, max, |passes|);
  }

  // ---------- rates ----------

  function Pow(b: nat, k: nat): (p: nat)
    ensures b > 0 ==> p > 0
  {
    if k == 0 then 1 else b * Pow(b, k - 1)
  }

  /** k growing passes multiply the size by at least (3/2)^k, unless the maximum is reached. */
  lemma {:induction false} GrowthIsGeometric(n: nat, e: nat, max: nat, k: nat)
    requires INITIAL_THREADS <= n <= max
    requires forall j :: 0 <= j < k ==> WantsGrow(e, SizeAt(n, e, max, j))
    ensures SizeAt(n, e, max, k) == max || Pow(2, k) * SizeAt(n, e, max, k) >= Pow(3, k) * n
  {
    if k == 0 {
    } else {
      GrowthIsGeometric(n, e, max, k - 1);
      var m, m' := SizeAt(n, e, max, k - 1), SizeAt(n, e, max, k);
      SizingInIntegers(e, m);
      if m' != max {
        ScaleStep(3, Pow(3, k - 1), n, 2, Pow(2, k - 1), m, m');
      }
    }
  }

  /** k shrinking passes bring the size above 3 down to at most (3/4)^k of what it was. */
  lemma {:induction false} ShrinkIsGeometric(n: nat, e: nat, max: nat, k: nat)
    requires INITIAL_THREADS <= n <= max
    requires forall j :: 0 <= j < k ==> WantsShrink(e, SizeAt(n, e, max, j)) && SizeAt(n, e, max, j) > 132
    ensures Pow(4, k) * (SizeAt(n, e, max, k) - 3) <= Pow(3, k) * (n - 3)
  {
    if k == 0 {
    } else {
      ShrinkIsGeometric(n, e, max, k - 1);
      var m, m' := SizeAt(n, e, max, k - 1), SizeAt(n, e, max, k);
      SizingInIntegers(e, m);
      DirectionIsStable(m, e, max);
      ScaleStep'(3, Pow(3, k - 1), n - 3, 4, Pow(4, k - 1), m - 3, m' - 3);
    }
  }

  lemma ScaleStep(a: nat, q: nat, n: nat, b: nat, p: nat, m: nat, m': nat)
    requires p * m >= q * n && b * m' >= a * m
    ensures (b * p) * m' >= (a * q) * n
  {
    calc {
      (b * p) * m';
      p * (b * m');
    >= { MulLe(p, a * m, b * m'); }
      p * (a * m);
      a * (p * m);
    >= { MulLe(a, q * n, p * m); }
      a * (q * n);
      (a * q) * n;
    }
  }

  lemma ScaleStep'(a: nat, q: nat, n: nat, b: nat, p: nat, m: nat, m': nat)
    requires p * m <= q * n && b * m' <= a * m
    ensures (b * p) * m' <= (a * q) * n
  {
    calc {
      (b * p) * m';
      p * (b * m');
    <= { MulLe(p, b * m', a * m); }
      p * (a * m);
      a * (p * m);
    <= { MulLe(a, p * m, q * n); }
      a * (q * n);
      (a * q) * n;
    }
  }

  lemma MulLe(a: nat, b: int, c: int)
    requires b <= c
    ensures a * b <= a * c
  {
  }
}
