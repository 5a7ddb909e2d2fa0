/** Python's `random.Random(seed)`, kept opaque: a generator seeded with
    `seed` is a deterministic stream, and the draw it makes at step `step`
    is an uninterpreted function of `(seed, step)`. Only the range of each
    draw is known: `random()` lies in [0, 1) and `_randbelow(n)` in
    [0, n). The methods built on them (`choice`, `randint`, `sample`)
    follow CPython's own definitions in terms of `_randbelow`. */
module RandomSource {
  import SeqUtil

  /** `random()` of the generator seeded with `seed`, at step `step`. */
  type UnitDraw = f: (int, nat) -> real
    | forall seed: int, step: nat :: 0.0 <= f(seed, step) < 1.0
    witness (seed: int, step: nat) => 0.0

  /** `_randbelow(n)` of the generator seeded with `seed`, at step `step`. */
  type BelowDraw = f: (int, nat, nat) -> nat
    | forall seed: int, step: nat, n: nat :: n == 0 || f(seed, step, n) < n
    witness (seed: int, step: nat, n: nat) => 0

  /** The Mersenne Twister, as far as this model needs it. */
  datatype Source = Source(unit: UnitDraw, below: BelowDraw)

  /** `random()` of the generator seeded with `seed`, at step `step`. */
  function Unit(src: Source, seed: int, step: nat): (u: real)
    ensures 0.0 <= u < 1.0
  {
    src.unit(seed, step)
  }

  /** `_randbelow(n)` of the generator seeded with `seed`, at step `step`. */
  function Below(src: Source, seed: int, step: nat, n: nat): (k: nat)
    ensures n > 0 ==> k < n
  {
    src.below(seed, step, n)
  }

  /** `random.Random(seed).choice(pool)`, the first draw of a fresh
      generator: `pool[_randbelow(len(pool))]`. */
  function FreshChoice<T>(src: Source, seed: int, pool: seq<T>): (x: T)
    requires |pool| > 0
    ensures x in pool
  {
    pool[Below(src, seed, 0, |pool|)]
  }

  /** A generator object: its seed, its source of draws, and how many
      draws it has made. */
  class Rng {
    const seed: int
    const src: Source
    var step: nat

    constructor (seed: int, src: Source)
      ensures this.seed == seed && this.src == src && step == 0
    {
      this.seed := seed;
      this.src := src;
      step := 0;
    }

    /** `rng.random()`. */
    method Random() returns (u: real)
      modifies this
      ensures u == Unit(src, seed, old(step)) && 0.0 <= u < 1.0
      ensures step == old(step) + 1
    {
      u := Unit(src, seed, step);
      step := step + 1;
    }

    /** `rng._randbelow(n)`. */
    method RandBelow(n: nat) returns (k: nat)
      requires n > 0
      modifies this
      ensures k == Below(src, seed, old(step), n) && k < n
      ensures step == old(step) + 1
    {
      k := Below(src, seed, step, n);
      step := step + 1;
    }

    /** `rng.randint(a, b)`, which is `a + _randbelow(b - a + 1)`. */
    method RandInt(a: int, b: int) returns (k: int)
      requires a <= b
      modifies this
      ensures a <= k <= b
      ensures k == a + Below(src, seed, old(step), b - a + 1)
      ensures step == old(step) + 1
    {
      var d := RandBelow(b - a + 1);
      k := a + d;
    }

    /** `rng.choice(xs)`, which is `xs[_randbelow(len(xs))]`. */
    method Choice<T>(xs: seq<T>) returns (x: T)
      requires |xs| > 0
      modifies this
      ensures x == xs[Below(src, seed, old(step), |xs|)] && x in xs
      ensures step == old(step) + 1
    {
      var j := RandBelow(|xs|);
      x := xs[j];
    }

    /** `rng.sample(population, k)` for a small population (CPython's
        pool algorithm): each pick removes the chosen element from the
        pool by moving the pool's last live element into its place. The
        result is a sub-multiset of the population, so a population
        without repeats gives a sample without repeats. */
    method Sample<T>(population: seq<T>, k: nat) returns (result: seq<T>)
      requires k <= |population|
      modifies this
      ensures |result| == k
      ensures multiset(result) <= multiset(population)
      ensures SeqUtil.Distinct(population) ==> SeqUtil.Distinct(result)
      ensures step == old(step) + k
    {
      var n := |population|;
      var pool := population;
      result := [];
      assert pool[..n] == population;
      for i := 0 to k
        invariant |pool| == n && |result| == i
        invariant multiset(result) + multiset(pool[..n - i]) == multiset(population)
        invariant step == old(step) + i
      {
        var j := RandBelow(n - i);
        TakeFromPool(pool, n - i, j);
        result := result + [pool[j]];
        pool := pool[j := pool[n - i - 1]];
      }
      if SeqUtil.Distinct(population) {
        DistinctOfSubMultiset(result, population);
      }
    }
  }

  /** The pool step of `Sample` on the first m elements of the pool. */
  lemma TakeFromPool<T>(pool: seq<T>, m: nat, j: nat)
    requires j < m <= |pool|
    ensures multiset(pool[j := pool[m - 1]][..m - 1]) + multiset{pool[j]} == multiset(pool[..m])
  {
    PoolStep(pool[..m], j, pool[j := pool[m - 1]][..m - 1]);
  }

  /** Taking element j out of the live pool and moving the last live
      element into its slot leaves exactly the other elements. */
  lemma PoolStep<T>(live: seq<T>, j: nat, rest: seq<T>)
    requires j < |live|
    requires |rest| == |live| - 1
    requires forall m :: 0 <= m < |rest| ==> rest[m] == (if m == j then live[|live| - 1] else live[m])
    ensures multiset(rest) + multiset{live[j]} == multiset(live)
  {
    var last := |live| - 1;
    if j == last {
      assert live == rest + [live[j]];
    } else {
      var swapped := live[j := live[last]][last := live[j]];
      assert multiset(swapped) == multiset(live);
      assert swapped == rest + [live[j]];
    }
  }

  /** A sequence whose multiset is contained in that of a sequence without
      repeats has no repeats either. */
  lemma DistinctOfSubMultiset<T>(s: seq<T>, t: seq<T>)
    requires multiset(s) <= multiset(t)
    requires SeqUtil.Distinct(t)
    ensures SeqUtil.Distinct(s)
  {
    forall x ensures multiset(s)[x] <= 1 {
      CountInDistinct(t, x);
    }
    DistinctOfCounts(s);
  }

  /** Every element of a sequence without repeats is counted at most once. */
  lemma {:induction false} CountInDistinct<T>(t: seq<T>, x: T)
    requires SeqUtil.Distinct(t)
    ensures multiset(t)[x] <= 1
  {
    if t != [] {
      var u := t[1..];
      assert t == [t[0]] + u;
      assert SeqUtil.Distinct(u) by {
        forall i, j | 0 <= i < j < |u| ensures u[i] != u[j] {
          assert u[i] == t[i + 1] && u[j] == t[j + 1];
        }
      }
      CountInDistinct(u, x);
      assert forall m :: 0 <= m < |u| ==> u[m] == t[m + 1] && t[m + 1] != t[0];
      assert t[0] !in u;
    }
  }

  /** A sequence in which every element is counted at most once has no
      repeats. */
  lemma {:induction false} DistinctOfCounts<T>(s: seq<T>)
    requires forall x :: multiset(s)[x] <= 1
    ensures SeqUtil.Distinct(s)
  {
    if s != [] {
      var u := s[1..];
      assert s == [s[0]] + u;
      assert multiset(s) == multiset{s[0]} + multiset(u);
      forall x ensures multiset(u)[x] <= 1 {
        assert multiset(u)[x] <= multiset(s)[x];
      }
      DistinctOfCounts(u);
      assert multiset(s)[s[0]] == 1 + multiset(u)[s[0]] && multiset(s)[s[0]] <= 1;
      assert s[0] !in u;
      forall i, j | 0 <= i < j < |s| ensures s[i] != s[j] {
        assert s[j] == u[j - 1] && s[j] in u;
        if i > 0 {
          assert s[i] == u[i - 1];
        }
      }
    }
  }
}
