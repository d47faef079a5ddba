/** The leapfrog linear congruential generator: every core jumps through the one sequential sequence, and the parallel
    Monte Carlo count is the sequential one. */
module Lcg {
  import opened Arithmetic

  // ----- the generator

  /** Generates the next number; 32-bit unsigned arithmetic. */
  function Next(a: nat, c: nat, x: nat): (r: nat)
    ensures r < WORD
  {
    Wrap(x * a + c)
  }

  /** The sequential sequence from x. */
  function Nth(a: nat, c: nat, x: nat, n: nat): nat {
    if n == 0 then x else Next(a, c, Nth(a, c, x, n - 1))
  }

  /** It starts at x, and every number is a times the one before, plus c, modulo 2^32. */
  lemma NthSteps(a: nat, c: nat, x: nat, n: nat)
    ensures Nth(a, c, x, 0) == x && Nth(a, c, x, n + 1) == (a * Nth(a, c, x, n) + c) % 0x1_0000_0000
  {
    assert a * Nth(a, c, x, n) == Nth(a, c, x, n) * a;
  }

  function Pow(a: nat, n: nat): nat { if n == 0 then 1 else Pow(a, n - 1) * a }

  /** a^(n-1) + ... + a + 1 */
  function Geometric(a: nat, n: nat): nat { if n == 0 then 0 else Geometric(a, n - 1) + Pow(a, n - 1) }

  lemma WrapSum(x: int, y: int, x': int, y': int)
    requires Wrap(x) == Wrap(x') && Wrap(y) == Wrap(y')
    ensures Wrap(x + y) == Wrap(x' + y')
  {
    WrapAdd(x, y);
    WrapAdd(x', y');
    WrapAdd(y, Wrap(x));
    WrapAdd(y', Wrap(x'));
    WrapAdd(Wrap(x), y);
    WrapAdd(Wrap(x'), y');
  }

  lemma WrapProduct(x: int, y: int, x': int)
    requires Wrap(x) == Wrap(x')
    ensures Wrap(x * y) == Wrap(x' * y)
  {
    WrapMul(x, y);
    WrapMul(x', y);
  }

  /** One step from a number given modulo 2^32. */
  lemma NextWraps(a: nat, c: nat, x: nat)
    ensures Next(a, c, Wrap(x)) == Wrap(x * a + c)
  {
    WrapAdd(0, x);
    WrapProduct(Wrap(x), a, x);
    WrapSum(Wrap(x) * a, c, x * a, c);
  }

  function Affine(x: nat, p: nat, g: nat, c: nat): nat { x * p + g * c }

  /** n steps in closed form. */
  lemma {:induction false} Closed(a: nat, c: nat, x: nat, n: nat)
    requires x < WORD
    ensures Nth(a, c, x, n) == Wrap(Affine(x, Pow(a, n), Horner(a, n), c))
  {
    if n == 0 {
      assert Affine(x, 1, 0, c) == x;
    } else {
      Closed(a, c, x, n - 1);
      ClosedStep(a, c, x, Pow(a, n - 1), Horner(a, n - 1));
    }
  }

  lemma ClosedStep(a: nat, c: nat, x: nat, p: nat, g: nat)
    ensures Next(a, c, Wrap(Affine(x, p, g, c))) == Wrap(Affine(x, p * a, g * a + 1, c))
  {
    NextWraps(a, c, Affine(x, p, g, c));
    Rearrange(a, c, x, p, g);
  }

  /** The same sum the other way round: 1 + a * (1 + a * ...). */
  function Horner(a: nat, n: nat): nat { if n == 0 then 0 else Horner(a, n - 1) * a + 1 }

  lemma {:induction false} GeometricBoth(a: nat, n: nat)
    ensures Horner(a, n) == Geometric(a, n)
  {
    if n <= 1 {
    } else {
      GeometricBoth(a, n - 1);
      GeometricShift(a, n - 1);
    }
  }

  lemma {:induction false} GeometricShift(a: nat, n: nat)
    ensures Geometric(a, n) * a + 1 == Geometric(a, n + 1)
  {
    if n == 0 {
    } else {
      GeometricShift(a, n - 1);
      assert (Geometric(a, n - 1) + Pow(a, n - 1)) * a == Geometric(a, n - 1) * a + Pow(a, n - 1) * a;
    }
  }

  lemma Rearrange(a: nat, c: nat, x: nat, p: nat, g: nat)
    ensures Affine(x, p, g, c) * a + c == Affine(x, p * a, g * a + 1, c)
  {
    assert (x * p + g * c) * a == x * p * a + g * c * a;
    assert x * p * a == x * (p * a);
    assert g * c * a == g * a * c;
    assert (g * a + 1) * c == g * a * c + c;
  }

  /** Lines 20 to 35: the constants of the jump. */
  method LeapfrogConstants(sequences: nat, a: nat, c: nat) returns (ap: nat, cp: nat)
    ensures ap == Wrap(Pow(a, sequences)) && cp == Wrap(Geometric(a, sequences) * c)
  {
    ap, cp := 1, 0;
    for p := 0 to sequences
      invariant ap == Wrap(Pow(a, p)) && cp == Wrap(Geometric(a, p))
    {
      ConstantsStep(a, p);
      cp := Wrap(cp + ap);
      ap := Wrap(ap * a);
    }
    WrapMul(Geometric(a, sequences), c);
    cp := Wrap(cp * c);
  }

  lemma ConstantsStep(a: nat, p: nat)
    ensures Wrap(Wrap(Geometric(a, p)) + Wrap(Pow(a, p))) == Wrap(Geometric(a, p + 1))
    ensures Wrap(Wrap(Pow(a, p)) * a) == Wrap(Pow(a, p + 1))
  {
    WrapAdd(Geometric(a, p), Pow(a, p));
    WrapAdd(Wrap(Geometric(a, p)), Pow(a, p));
    WrapMul(Pow(a, p), a);
  }

  /** Lines 38 to 45: the first number of a sequence. */
  method RightSeed(seed: nat, a: nat, c: nat, index: nat) returns (r: nat)
    ensures r == Nth(a, c, seed, index)
  {
    r := seed;
    for p := 0 to index
      invariant r == Nth(a, c, seed, p)
    {
      r := Wrap(r * a + c);
    }
  }

  /** One step with the leapfrog constants is n plain steps. */
  lemma Leap(n: nat, a: nat, c: nat, x: nat)
    requires x < WORD
    ensures Next(Wrap(Pow(a, n)), Wrap(Geometric(a, n) * c), x) == Nth(a, c, x, n)
  {
    var p, g := Pow(a, n), Geometric(a, n) * c;
    Closed(a, c, x, n);
    GeometricBoth(a, n);
    WrapAdd(0, p);
    WrapProduct(Wrap(p), x, p);
    assert Wrap(p) * x == x * Wrap(p) && p * x == x * p;
    WrapAdd(0, g);
    WrapSum(x * Wrap(p), Wrap(g), x * p, g);
  }

  lemma {:induction false} NthAdd(a: nat, c: nat, x: nat, m: nat, n: nat)
    ensures Nth(a, c, Nth(a, c, x, m), n) == Nth(a, c, x, m + n)
  {
    if n == 0 {
    } else {
      NthAdd(a, c, x, m, n - 1);
    }
  }

  lemma {:induction false} NthRange(a: nat, c: nat, x: nat, n: nat)
    requires x < WORD
    ensures Nth(a, c, x, n) < WORD
  {}

  /** Number i of sequence k is number k + n * i of the sequential sequence. */
  lemma {:induction false} Sequence(n: nat, a: nat, c: nat, seed: nat, k: nat, i: nat)
    requires seed < WORD
    ensures Nth(Wrap(Pow(a, n)), Wrap(Geometric(a, n) * c), Nth(a, c, seed, k), i) == Nth(a, c, seed, k + n * i)
  {
    if i == 0 {
      assert n * 0 == 0;
    } else {
      Sequence(n, a, c, seed, k, i - 1);
      NthRange(a, c, seed, k + n * (i - 1));
      Leap(n, a, c, Nth(a, c, seed, k + n * (i - 1)));
      NthAdd(a, c, seed, k + n * (i - 1), n);
      assert n * i == n * (i - 1) + n;
    }
  }

  /** Every number of the sequential sequence belongs to exactly one sequence, at exactly one place. */
  lemma NoGapNoOverlap(n: nat, j: nat, k: nat, i: nat)
    requires 0 < n && k < n
    ensures j == k + n * i <==> k == j % n && i == j / n
  {
    if j == k + n * i {
      assert n * i == i * n;
      DivUnique(j, n, i, k);
    }
  }

  // ----- the Monte Carlo count

  function One(hit: bool): nat { if hit then 1 else 0 }

  /** Hits among the first m consecutive pairs of the sequential sequence, where hit(q) says that pair q hits. */
  function Sequential(hit: nat -> bool, m: nat): nat { if m == 0 then 0 else Sequential(hit, m - 1) + One(hit(m - 1)) }

  /** Hits of core p of P in its first `samples` pairs. */
  function Core(hit: nat -> bool, P: nat, p: nat, samples: nat): nat {
    if samples == 0 then 0 else Core(hit, P, p, samples - 1) + One(hit(p + P * (samples - 1)))
  }

  function Cores(hit: nat -> bool, P: nat, k: nat, samples: nat): nat {
    if k == 0 then 0 else Cores(hit, P, k - 1, samples) + Core(hit, P, k - 1, samples)
  }

  /** The sequential count is the number of hitting pairs. */
  lemma {:induction false} SequentialCounts(hit: nat -> bool, m: nat)
    ensures Sequential(hit, m) == |set q: nat | q < m && hit(q)|
  {
    var all := set q: nat | q < m && hit(q);
    if m == 0 {
      assert all == {};
    } else {
      SequentialCounts(hit, m - 1);
      var before := set q: nat | q < m - 1 && hit(q);
      assert all == if hit(m - 1) then before + {m - 1} else before;
    }
  }

  /** A core's count is the number of its samples that hit. */
  lemma CoreCounts(hit: nat -> bool, P: nat, p: nat, samples: nat)
    ensures Core(hit, P, p, samples) == |set i: nat | i < samples && hit(p + P * i)|
  {
    var mine := (i: nat) => hit(p + P * i);
    CoreIsSequential(hit, P, p, samples, mine);
    SequentialCounts(mine, samples);
    SameSets(hit, P, p, samples, mine);
  }

  lemma SameSets(hit: nat -> bool, P: nat, p: nat, samples: nat, mine: nat -> bool)
    requires forall i: nat :: mine(i) == hit(p + P * i)
    ensures (set i: nat | i < samples && mine(i)) == set i: nat | i < samples && hit(p + P * i)
  {}

  lemma {:induction false} CoreIsSequential(hit: nat -> bool, P: nat, p: nat, samples: nat, mine: nat -> bool)
    requires forall i: nat :: mine(i) == hit(p + P * i)
    ensures Core(hit, P, p, samples) == Sequential(mine, samples)
  {
    if samples == 0 {
    } else {
      CoreIsSequential(hit, P, p, samples - 1, mine);
    }
  }

  /** The pair q of the sequential sequence hits. */
  function Hits(inside: (nat, nat) -> bool, a: nat, c: nat, seed: nat): nat -> bool {
    (q: nat) => inside(Nth(a, c, seed, 2 * q), Nth(a, c, seed, 2 * q + 1))
  }

  /** Core p of P: seeds, constants and the partial sum (lcg.h, lines 57 to 63; pi_estimation.h, lines 11 to 31). `inside`
      is the test on the two numbers of a sample. */
  method PartialSum(inside: (nat, nat) -> bool, a: nat, c: nat, seed: nat, P: nat, p: nat, samples: nat) returns (result: nat)
    requires seed < WORD && p < P && samples < WORD
    ensures result == Core(Hits(inside, a, c, seed), P, p, samples)
    ensures result == |set i: nat | i < samples && inside(Nth(a, c, seed, 2 * (p + P * i)), Nth(a, c, seed, 2 * (p + P * i) + 1))|
  {
    var x1 := RightSeed(seed, a, c, 2 * p);
    var x2 := RightSeed(seed, a, c, 2 * p + 1);
    var ap, cp := LeapfrogConstants(2 * P, a, c);
    ghost var s1, s2 := x1, x2;
    result := 0;
    for i := 0 to samples
      invariant x1 == Nth(ap, cp, s1, i) && x2 == Nth(ap, cp, s2, i)
      invariant result == Core(Hits(inside, a, c, seed), P, p, i)
    {
      Sample(inside, a, c, seed, P, p, i);
      var hit := inside(x1, x2);
      x1, x2 := Next(ap, cp, x1), Next(ap, cp, x2);
      if hit {
        result := result + 1;
      }
    }
    CoreCounts(Hits(inside, a, c, seed), P, p, samples);
    SamplesHit(inside, a, c, seed, P, p, samples);
  }

  lemma SamplesHit(inside: (nat, nat) -> bool, a: nat, c: nat, seed: nat, P: nat, p: nat, samples: nat)
    ensures (set i: nat | i < samples && Hits(inside, a, c, seed)(p + P * i))
            == set i: nat | i < samples && inside(Nth(a, c, seed, 2 * (p + P * i)), Nth(a, c, seed, 2 * (p + P * i) + 1))
  {}

  /** Sample i of core p is the pair p + P * i of the sequential sequence. */
  lemma Sample(inside: (nat, nat) -> bool, a: nat, c: nat, seed: nat, P: nat, p: nat, i: nat)
    requires seed < WORD
    ensures var (ap, cp) := (Wrap(Pow(a, 2 * P)), Wrap(Geometric(a, 2 * P) * c));
            inside(Nth(ap, cp, Nth(a, c, seed, 2 * p), i), Nth(ap, cp, Nth(a, c, seed, 2 * p + 1), i))
            == Hits(inside, a, c, seed)(p + P * i)
  {
    var q := p + P * i;
    Doubled(P, p, i);
    SequenceAt(2 * P, a, c, seed, 2 * p, i, 2 * q);
    SequenceAt(2 * P, a, c, seed, 2 * p + 1, i, 2 * q + 1);
  }

  lemma Doubled(P: nat, p: nat, i: nat)
    ensures 2 * (p + P * i) == 2 * p + (2 * P) * i && 2 * (p + P * i) + 1 == 2 * p + 1 + (2 * P) * i
  {
    assert 2 * P * i == 2 * (P * i);
  }

  lemma SequenceAt(n: nat, a: nat, c: nat, seed: nat, k: nat, i: nat, j: nat)
    requires seed < WORD && j == k + n * i
    ensures Nth(Wrap(Pow(a, n)), Wrap(Geometric(a, n) * c), Nth(a, c, seed, k), i) == Nth(a, c, seed, j)
  {
    Sequence(n, a, c, seed, k, i);
  }

  /** All cores together count what one core would count on the sequential sequence. */
  lemma {:induction false} ParallelIsSequential(hit: nat -> bool, P: nat, samples: nat)
    ensures Cores(hit, P, P, samples) == Sequential(hit, P * samples) == |set q: nat | q < P * samples && hit(q)|
  {
    SequentialCounts(hit, P * samples);
    if samples == 0 {
      NoSamples(hit, P, P);
      assert P * 0 == 0;
    } else {
      ParallelIsSequential(hit, P, samples - 1);
      Round(hit, P, P, samples);
      assert P * samples == P * (samples - 1) + P;
    }
  }

  lemma {:induction false} NoSamples(hit: nat -> bool, P: nat, k: nat)
    ensures Cores(hit, P, k, 0) == 0
  {
    if k == 0 {
    } else {
      NoSamples(hit, P, k - 1);
    }
  }

  /** The first k cores' last samples are the next k pairs. */
  lemma {:induction false} Round(hit: nat -> bool, P: nat, k: nat, samples: nat)
    requires samples > 0
    ensures Cores(hit, P, k, samples) - Cores(hit, P, k, samples - 1)
            == Sequential(hit, P * (samples - 1) + k) - Sequential(hit, P * (samples - 1))
  {
    if k == 0 {
    } else {
      Round(hit, P, k - 1, samples);
    }
  }
}
