/** Static loop scheduling of the OpenMP runtime: the bounds each thread of a team receives, and when they partition the
    iterations. The loop counts up here; StaticLoops has both directions. Loop variables are mathematical integers. */
module StaticSchedule {
  import opened Arithmetic

  datatype Schedule = Static | StaticChunked

  /** A loop from `lower` up to `upper` in steps of `incr`, shared by `threads`. */
  datatype Nest = Nest(lower: int, upper: int, incr: int, threads: nat)

  /** What a thread receives. */
  datatype Part = Part(lower: int, upper: int, stride: int, last: bool)

  predicate Proper(l: Nest) { l.incr > 0 && l.lower <= l.upper && l.threads > 0 }

  /** The remainder of a division that truncates. */
  function CRem(x: int, d: int): int
    requires d != 0
  {
    if x >= 0 then x % d else -((-x) % d)
  }

  function Size(l: Nest): int
    requires Proper(l)
  {
    (l.upper - l.lower) / l.incr + 1
  }

  /** The value of the loop variable in iteration i. */
  function Value(l: Nest, i: int): int { l.lower + i * l.incr }

  lemma SpanPositive(a: int, b: int)
    requires a > 0 && b > 0
    ensures a * b > 0
  {}

  function Share(l: Nest): int
    requires Proper(l)
  {
    Size(l) / l.threads
  }

  function Left(l: Nest): int
    requires Proper(l)
  {
    Size(l) - Share(l) * l.threads
  }

  function Count(l: Nest, t: nat): int
    requires Proper(l)
  {
    if t < Left(l) then Share(l) + 1 else Share(l)
  }

  function StaticPart(l: Nest, t: nat): Part
    requires Proper(l)
  {
    var lower := if t < Left(l) then l.lower + t * Count(l, t) * l.incr else l.lower + t * Count(l, t) * l.incr + Left(l);
    var upper := lower + Count(l, t) * l.incr - l.incr;
    Part(lower, upper, Size(l), upper == l.upper && lower <= l.upper)
  }

  function ChunkedPart(l: Nest, t: nat, span: int): Part
    requires Proper(l) && span > 0
  {
    var lower := l.lower + span * t;
    SpanPositive(span, l.threads);
    Part(lower, lower + span - l.incr, span * l.threads, (l.upper - CRem(l.upper, span) - lower) % (span * l.threads) == 0)
  }

  // ----- no chunk size

  /** Where thread t should start, counted in iterations. */
  function First(l: Nest, t: nat): int
    requires Proper(l)
  {
    if t == 0 then 0 else First(l, t - 1) + Count(l, t - 1)
  }

  lemma ShareLeft(l: Nest)
    requires Proper(l)
    ensures Size(l) >= 1 && 0 <= Left(l) < l.threads && Share(l) >= 0 && (Share(l) == 0 ==> Left(l) == Size(l))
  {
    QuotNat(l.upper - l.lower, l.incr);
    QuotNat(Size(l), l.threads);
  }

  /** In closed form. */
  lemma {:induction false} FirstIs(l: Nest, t: nat)
    requires Proper(l) && t <= l.threads
    ensures First(l, t) == t * Share(l) + if t < Left(l) then t else Left(l)
  {
    ShareLeft(l);
    if t == 0 {
    } else {
      FirstIs(l, t - 1);
      assert (t - 1) * Share(l) == t * Share(l) - Share(l);
    }
  }

  lemma FirstAll(l: Nest)
    requires Proper(l)
    ensures First(l, l.threads) == Size(l)
  {
    FirstIs(l, l.threads);
    ShareLeft(l);
    assert l.threads * Share(l) == Share(l) * l.threads;
  }

  lemma {:induction false} FirstMonotone(l: Nest, t: nat, u: nat)
    requires Proper(l) && t <= u
    ensures First(l, t) <= First(l, u)
    decreases u
  {
    ShareLeft(l);
    if t >= u {
    } else {
      FirstMonotone(l, t, u - 1);
    }
  }

  /** Iteration i belongs to thread t. */
  predicate Owns(l: Nest, t: nat, i: int)
    requires Proper(l)
  {
    First(l, t) <= i < First(l, t + 1)
  }

  /** The ranges are disjoint and cover the loop, and their sizes differ by at most one. */
  lemma OneOwner(l: Nest, i: int) returns (t: nat)
    requires Proper(l) && 0 <= i < Size(l)
    ensures t < l.threads && Owns(l, t, i)
    ensures forall u: nat :: u < l.threads && Owns(l, u, i) ==> u == t
    ensures forall u: nat :: u < l.threads ==> Share(l) <= First(l, u + 1) - First(l, u) <= Share(l) + 1
  {
    FirstAll(l);
    t := Find(l, i, l.threads);
    forall u: nat | u < l.threads && Owns(l, u, i)
      ensures u == t
    {
      if u < t {
        FirstMonotone(l, u + 1, t);
      } else if t < u {
        FirstMonotone(l, t + 1, u);
      }
    }
  }

  lemma {:induction false} Find(l: Nest, i: int, k: nat) returns (t: nat)
    requires Proper(l) && 0 <= i < First(l, k)
    ensures t < k && Owns(l, t, i)
  {
    if i >= First(l, k - 1) {
      t := k - 1;
    } else {
      t := Find(l, i, k - 1);
    }
  }

  /** The thread runs the value v: it is on the grid from its lower bound and not beyond its upper bound. */
  predicate Runs(p: Part, incr: int, v: int)
    requires incr > 0
  {
    p.lower <= v <= p.upper && (v - p.lower) % incr == 0
  }

  /** The left-over iterations are added without the increment, so the bounds are right when the increment is one, when
      nothing is left over, or when the threads they are wrong for have no iterations at all. */
  predicate Sound(l: Nest)
    requires Proper(l)
  {
    l.incr == 1 || Left(l) == 0 || Share(l) == 0
  }

  /** A thread with iterations starts where it should. */
  lemma SoundStart(l: Nest, t: nat)
    requires Proper(l) && Sound(l) && t < l.threads && Count(l, t) > 0
    ensures StaticPart(l, t).lower == l.lower + First(l, t) * l.incr
    ensures StaticPart(l, t).upper == l.lower + (First(l, t + 1) - 1) * l.incr
  {
    FirstIs(l, t);
    ShareLeft(l);
    if t < Left(l) {
      Early(t, Share(l), l.incr);
    } else {
      Late(t, Share(l), Left(l), l.incr);
    }
    Minus(First(l, t), Count(l, t), l.incr);
  }

  lemma Early(t: int, q: int, c: int)
    ensures t * (q + 1) * c == (t * q + t) * c
  {
    assert t * (q + 1) == t * q + t;
  }

  lemma Late(t: int, q: int, r: int, c: int)
    requires c == 1 || r == 0
    ensures t * q * c + r == (t * q + r) * c
  {}

  lemma Minus(f: int, n: int, c: int)
    ensures (f + n - 1) * c == f * c + n * c - c
  {}

  lemma GridRange(lower: int, incr: int, a: int, b: int, i: int)
    requires incr > 0
    ensures lower + a * incr <= lower + i * incr <= lower + (b - 1) * incr <==> a <= i < b
    ensures (lower + i * incr - (lower + a * incr)) % incr == 0
  {
    MulFar(i - a, incr);
    MulFar(b - 1 - i, incr);
    assert (i - a) * incr == i * incr - a * incr;
    assert (b - 1 - i) * incr == (b - 1) * incr - i * incr;
    DivUnique((i - a) * incr, incr, i - a, 0);
  }

  /** With sound bounds, thread t runs exactly its own iterations. */
  lemma SoundRuns(l: Nest, t: nat, i: int)
    requires Proper(l) && Sound(l) && t < l.threads && 0 <= i < Size(l)
    ensures Runs(StaticPart(l, t), l.incr, l.lower + i * l.incr) <==> Owns(l, t, i)
  {
    ShareLeft(l);
    if Count(l, t) > 0 {
      SoundStart(l, t);
      GridRange(l.lower, l.incr, First(l, t), First(l, t + 1), i);
    } else {
      assert First(l, t + 1) == First(l, t);
      assert 0 * l.incr == 0;
    }
  }

  /** Every iteration is run by exactly one thread, and nothing else is run. */
  ghost predicate Partitions(l: Nest)
    requires Proper(l)
  {
    && (forall i :: 0 <= i < Size(l) ==> RunOnce(l, i))
    && forall t: nat, v :: t < l.threads && Runs(StaticPart(l, t), l.incr, v) ==> Iteration(l, v)
  }

  predicate Iteration(l: Nest, v: int)
    requires Proper(l)
  {
    l.lower <= v <= l.upper && (v - l.lower) % l.incr == 0
  }

  /** With sound bounds, no thread strays from the loop. */
  lemma SoundStays(l: Nest, t: nat, v: int)
    requires Proper(l) && Sound(l) && t < l.threads && Runs(StaticPart(l, t), l.incr, v)
    ensures Iteration(l, v)
  {
    ShareLeft(l);
    if Count(l, t) == 0 {
      assert false;
    }
    SoundStart(l, t);
    FirstAll(l);
    FirstMonotone(l, t + 1, l.threads);
    FirstMonotone(l, 0, t);
    Upper(l);
    Stays(l.lower, l.upper, l.incr, First(l, t), First(l, t + 1), Size(l), v);
  }

  lemma Upper(l: Nest)
    requires Proper(l)
    ensures l.lower + (Size(l) - 1) * l.incr <= l.upper
    ensures (l.upper - l.lower) % l.incr == 0 ==> l.lower + (Size(l) - 1) * l.incr == l.upper
  {}

  lemma Stays(lower: int, upper: int, c: int, f: int, g: int, n: int, v: int)
    requires c > 0 && 0 <= f && g <= n && lower + (n - 1) * c <= upper
    requires lower + f * c <= v <= lower + (g - 1) * c && (v - (lower + f * c)) % c == 0
    ensures lower <= v <= upper && (v - lower) % c == 0
  {
    Shifted(v - lower, f, c);
    assert f * c >= 0;
    Scale(g - 1, n - 1, c);
  }

  lemma Shifted(x: int, f: int, c: int)
    requires c > 0 && (x - f * c) % c == 0
    ensures x % c == 0
  {
    var q := (x - f * c) / c;
    assert x - f * c == q * c;
    assert (q + f) * c == q * c + f * c;
    DivUnique(x, c, q + f, 0);
  }

  lemma Scale(a: int, b: int, c: int)
    requires a <= b && c > 0
    ensures a * c <= b * c
  {
    assert (b - a) * c >= 0;
    assert (b - a) * c == b * c - a * c;
  }

  ghost predicate RunOnce(l: Nest, i: int)
    requires Proper(l)
  {
    exists t: nat :: t < l.threads && Runner(l, t, i) && forall u: nat :: u < l.threads && Runner(l, u, i) ==> u == t
  }

  predicate Runner(l: Nest, t: nat, i: int)
    requires Proper(l)
  {
    Runs(StaticPart(l, t), l.incr, l.lower + i * l.incr)
  }

  /** Otherwise nobody runs the last iteration. */
  lemma LastMissed(l: Nest, t: nat)
    requires Proper(l) && !Sound(l) && t < l.threads
    ensures !Runner(l, t, Size(l) - 1)
  {
    ShareLeft(l);
    var q, r, n, c := Share(l), Left(l), l.threads, l.incr;
    if t < r {
      MissedEarly(t, q, r, n, c);
      UpperMissed(l, t, t * (q + 1) * c + (q + 1) * c - c);
    } else {
      MissedLate(t, q, r, n, c);
      UpperMissed(l, t, t * q * c + r + q * c - c);
    }
  }

  /** Thread t ends x beyond the start of the loop. */
  lemma UpperMissed(l: Nest, t: nat, x: int)
    requires Proper(l) && t < l.threads && StaticPart(l, t).upper <= l.lower + x && x < (l.threads * Share(l) + Left(l) - 1) * l.incr
    ensures !Runner(l, t, Size(l) - 1)
  {
    assert Size(l) == l.threads * Share(l) + Left(l);
  }

  lemma MissedEarly(t: nat, q: nat, r: nat, n: nat, c: nat)
    requires t < r < n && q > 0 && c > 0
    ensures t * (q + 1) * c + (q + 1) * c - c < (n * q + r - 1) * c
  {
    var e := (t + 1) * (q + 1);
    assert e == t * (q + 1) + (q + 1);
    assert e * c == t * (q + 1) * c + (q + 1) * c;
    assert e < n * q + r by {
      Ends(t + 1, q + 1, r, 1);
      assert r * (q + 1) == r * q + r;
      Strict(r, n, q);
    }
    Strict(e, n * q + r, c);
    assert (n * q + r - 1) * c == (n * q + r) * c - c;
  }

  lemma MissedLate(t: nat, q: nat, r: nat, n: nat, c: nat)
    requires t < n && 0 < r && c > 1
    ensures t * q * c + r + q * c - c < (n * q + r - 1) * c
  {
    assert (t + 1) * q == t * q + q;
    assert (t + 1) * q * c == t * q * c + q * c;
    Ends(t + 1, q, n, c);
    Strict(1, c, r);
    assert c * r == r * c;
    assert (n * q + r - 1) * c == n * q * c + r * c - c;
  }

  lemma Ends(t: nat, q: nat, n: nat, c: nat)
    requires t <= n
    ensures t * q * c <= n * q * c
  {
    assert (n - t) * q >= 0;
    assert (n - t) * q == n * q - t * q;
    assert (n * q - t * q) * c >= 0;
    assert (n * q - t * q) * c == n * q * c - t * q * c;
  }

  lemma Strict(a: int, b: int, c: int)
    requires a < b && c > 0
    ensures a * c < b * c
  {
    MulFar(b - a, c);
    assert (b - a) * c == b * c - a * c;
  }

  /** The bounds partition the loop exactly when they are sound. */
  lemma PartitionsExactly(l: Nest)
    requires Proper(l)
    ensures Partitions(l) <==> Sound(l)
  {
    ShareLeft(l);
    if Sound(l) {
      forall i | 0 <= i < Size(l)
        ensures RunOnce(l, i)
      {
        var t := OneOwner(l, i);
        SoundRuns(l, t, i);
        assert Runner(l, t, i);
        forall u: nat | u < l.threads && Runner(l, u, i) ensures u == t { SoundRuns(l, u, i); }
      }
      forall t: nat, v | t < l.threads && Runs(StaticPart(l, t), l.incr, v) ensures Iteration(l, v) { SoundStays(l, t, v); }
    } else {
      var i := Size(l) - 1;
      forall t: nat | t < l.threads ensures !Runner(l, t, i) { LastMissed(l, t); }
      assert !RunOnce(l, i);
    }
  }

  /** With sound bounds and the upper bound an iteration, the last-iteration flag goes to the thread that runs it. */
  lemma LastFlag(l: Nest, t: nat)
    requires Proper(l) && Sound(l) && t < l.threads && (l.upper - l.lower) % l.incr == 0
    ensures StaticPart(l, t).last <==> Owns(l, t, Size(l) - 1)
  {
    ShareLeft(l);
    Upper(l);
    if Count(l, t) > 0 {
      SoundStart(l, t);
      FirstAll(l);
      FirstMonotone(l, t + 1, l.threads);
      LastIn(l.lower, l.incr, First(l, t), First(l, t + 1), Size(l));
    } else {
      assert 0 * l.incr == 0;
      Idle(Size(l), l.incr);
    }
  }

  /** The upper bound is e beyond the last iteration. */
  predicate Beyond(l: Nest, e: nat)
    requires Proper(l)
  {
    e < l.incr && l.upper - l.lower == (Size(l) - 1) * l.incr + e && Size(l) == l.threads * Share(l) + Left(l)
  }

  lemma Excess(l: Nest) returns (e: nat)
    requires Proper(l)
    ensures Beyond(l, e) && (e == 0 <==> (l.upper - l.lower) % l.incr == 0)
  {
    e := (l.upper - l.lower) % l.incr;
  }

  lemma NoFlagAt(l: Nest, t: nat, e: nat)
    requires Proper(l) && t < l.threads && Beyond(l, e) && !(Sound(l) && e == 0)
    ensures !StaticPart(l, t).last
  {
    ShareLeft(l);
    var p := StaticPart(l, t);
    if t < Left(l) {
      FlagEarly(t, Share(l), Left(l), l.threads, l.incr, e);
      assert p.upper == l.lower + t * (Share(l) + 1) * l.incr + (Share(l) + 1) * l.incr - l.incr;
    } else if Share(l) > 0 {
      FlagLate(t, Share(l), Left(l), l.threads, l.incr, e);
      assert p.upper == l.lower + t * Share(l) * l.incr + Left(l) + Share(l) * l.incr - l.incr;
    } else {
      assert p.upper == p.lower - l.incr;
    }
  }

  /** Otherwise it goes to nobody. */
  lemma NoFlag(l: Nest, t: nat)
    requires Proper(l) && t < l.threads && !(Sound(l) && (l.upper - l.lower) % l.incr == 0)
    ensures !StaticPart(l, t).last
  {
    var e := Excess(l);
    NoFlagAt(l, t, e);
  }

  lemma FlagEarly(t: nat, q: nat, r: nat, n: nat, c: nat, e: nat)
    requires t < r < n && c > 0 && e < c && (e > 0 || (q > 0 && c > 1))
    ensures t * (q + 1) * c + (q + 1) * c - c != (n * q + r - 1) * c + e
  {
    if e == 0 {
      MissedEarly(t, q, r, n, c);
    } else {
      assert (t * (q + 1) + q) * c == t * (q + 1) * c + q * c && (q + 1) * c == q * c + c;
      NotBetween(t * (q + 1) + q, n * q + r - 1, c, e);
    }
  }

  lemma FlagLate(t: nat, q: nat, r: nat, n: nat, c: nat, e: nat)
    requires r <= t < n && q > 0 && c > 0 && e < c && (e > 0 || (r > 0 && c > 1))
    ensures t * q * c + r + q * c - c != (n * q + r - 1) * c + e
  {
    if r > 0 {
      MissedLate(t, q, r, n, c);
    } else {
      assert (t * q + q - 1) * c == t * q * c + q * c - c;
      NotBetween(t * q + q - 1, n * q + r - 1, c, e);
    }
  }

  lemma NotBetween(x: int, y: int, c: int, e: int)
    requires 0 < e < c
    ensures x * c != y * c + e
  {
    MulFar(x - y, c);
    assert (x - y) * c == x * c - y * c;
  }

  /** The last-iteration flag is on exactly the thread that should have the last iteration. */
  ghost predicate LastRight(l: Nest)
    requires Proper(l)
  {
    forall t: nat :: t < l.threads ==> (StaticPart(l, t).last <==> Owns(l, t, Size(l) - 1))
  }

  /** That is so exactly when the bounds are sound and the upper bound is an iteration; otherwise no thread gets it. */
  lemma LastRightExactly(l: Nest)
    requires Proper(l)
    ensures LastRight(l) <==> Sound(l) && (l.upper - l.lower) % l.incr == 0
    ensures !LastRight(l) ==> forall t: nat :: t < l.threads ==> !StaticPart(l, t).last
  {
    if Sound(l) && (l.upper - l.lower) % l.incr == 0 {
      forall t: nat | t < l.threads ensures StaticPart(l, t).last <==> Owns(l, t, Size(l) - 1) { LastFlag(l, t); }
    } else {
      ShareLeft(l);
      var t := OneOwner(l, Size(l) - 1);
      forall u: nat | u < l.threads ensures !StaticPart(l, u).last { NoFlag(l, u); }
      assert !(StaticPart(l, t).last <==> Owns(l, t, Size(l) - 1));
    }
  }

  lemma LastIn(lower: int, c: int, f: int, g: int, n: int)
    requires c > 0 && f < g <= n
    ensures lower + (g - 1) * c == lower + (n - 1) * c && lower + f * c <= lower + (n - 1) * c <==> f <= n - 1 < g
  {
    if g < n { Strict(g - 1, n - 1, c); }
    Scale(f, n - 1, c);
  }

  lemma Idle(n: int, c: int)
    requires n >= 1 && c >= 1
    ensures n - c == (n - 1) * c ==> c == 1
  {
    if c > 1 {
      Strict(1, c, n);
      assert (n - 1) * c == c * n - c;
    }
  }

  /** Five iterations in steps of two on two threads: the last one is not run. */
  lemma StaticCanMiss()
    ensures Proper(Nest(0, 8, 2, 2)) && !Partitions(Nest(0, 8, 2, 2))
  {
    PartitionsExactly(Nest(0, 8, 2, 2));
  }

  // ----- with a chunk size

  /** The thread runs v in one of its chunks, with the compiled loop stopping at the loop's upper bound. */
  ghost predicate RunsChunked(p: Part, l: Nest, v: int)
    requires Proper(l)
  {
    v <= l.upper && exists k: nat :: InChunk(p, l.incr, v, k)
  }

  predicate InChunk(p: Part, incr: int, v: int, k: nat)
    requires incr > 0
  {
    p.lower + k * p.stride <= v <= p.upper + k * p.stride && (v - p.lower - k * p.stride) % incr == 0
  }

  /** The chunk of iteration i, and the thread whose turn it is. */
  function Turn(l: Nest, chunk: nat, i: nat): nat
    requires Proper(l) && chunk > 0
  {
    Rem(Quot(i, chunk), l.threads)
  }

  /** Chunk k of thread t is chunk t + threads * k of the loop. */
  lemma ChunkIs(l: Nest, t: nat, chunk: nat, i: nat, k: nat)
    requires Proper(l) && t < l.threads && chunk > 0 && l.incr * chunk > 0
    ensures InChunk(ChunkedPart(l, t, l.incr * chunk), l.incr, l.lower + i * l.incr, k) <==> Quot(i, chunk) == t + l.threads * k
  {
    var c, m := l.incr, t + l.threads * k;
    Offset(c, chunk, t, l.threads, k);
    OnGrid(c, i, chunk * m, chunk);
    ChunkOf(i, chunk, m);
  }

  lemma Offset(c: int, chunk: int, t: int, n: int, k: int)
    ensures c * chunk * t + k * (c * chunk * n) == c * (chunk * (t + n * k))
  {
    assert k * (c * chunk * n) == c * (chunk * (n * k));
    assert c * chunk * t == c * (chunk * t);
    assert chunk * (t + n * k) == chunk * t + chunk * (n * k);
    assert c * (chunk * t + chunk * (n * k)) == c * (chunk * t) + c * (chunk * (n * k));
  }

  lemma OnGrid(c: int, i: int, a: int, n: int)
    requires c > 0
    ensures c * a <= i * c <= c * a + c * n - c <==> a <= i < a + n
    ensures (i * c - c * a) % c == 0
  {
    GridRange(0, c, a, a + n, i);
    assert c * a == a * c && (a + n - 1) * c == a * c + n * c - c;
  }

  lemma ChunkOf(i: nat, chunk: nat, m: nat)
    requires chunk > 0
    ensures chunk * m <= i < chunk * m + chunk <==> Quot(i, chunk) == m
  {
    assert i == Quot(i, chunk) * chunk + Rem(i, chunk);
    if chunk * m <= i < chunk * m + chunk { DivUnique(i, chunk, m, i - chunk * m); }
  }

  /** Every iteration is run by exactly one thread: the one whose turn its chunk is. */
  lemma ChunkedPartition(l: Nest, t: nat, chunk: nat, i: nat)
    requires Proper(l) && t < l.threads && chunk > 0 && l.incr * chunk > 0 && i < Size(l)
    ensures RunsChunked(ChunkedPart(l, t, l.incr * chunk), l, l.lower + i * l.incr) <==> t == Turn(l, chunk, i)
    ensures Turn(l, chunk, i) == i / chunk % l.threads
  {
    var q, p, v := Quot(i, chunk), ChunkedPart(l, t, l.incr * chunk), l.lower + i * l.incr;
    Upper(l);
    Scale(i, Size(l) - 1, l.incr);
    if t == Turn(l, chunk, i) {
      var k := Quot(q, l.threads);
      assert q == k * l.threads + t;
      ChunkIs(l, t, chunk, i, k);
    }
    if RunsChunked(p, l, v) {
      var k: nat :| InChunk(p, l.incr, v, k);
      ChunkIs(l, t, chunk, i, k);
      DivUnique(q, l.threads, k, t);
    }
  }

  // ----- the last-iteration flag with a chunk size

  /** The code takes the last chunk to begin at a multiple of the span, rounded towards zero. */
  function LastBegin(upper: int, span: int): int
    requires span > 0
  {
    upper - CRem(upper, span)
  }

  /** The multiple in question, and how it relates to the rounded-down one. */
  function Rounded(upper: int, span: int): int
    requires span > 0
  {
    if upper >= 0 || upper % span == 0 then upper / span else upper / span + 1
  }

  lemma LastBeginIs(upper: int, span: int)
    requires span > 0
    ensures LastBegin(upper, span) == Rounded(upper, span) * span
  {
    var q, r := upper / span, upper % span;
    assert upper == q * span + r;
    if upper < 0 {
      if r == 0 {
        assert -upper == (-q) * span;
        DivUnique(-upper, span, -q, 0);
      } else {
        assert -upper == (-q - 1) * span + (span - r) by { assert (-q - 1) * span == -(q * span) - span; }
        DivUnique(-upper, span, -q - 1, span - r);
        assert (q + 1) * span == q * span + span;
      }
    }
  }

  /** A difference of span * x is a multiple of the stride when x is one of the number of threads. */
  lemma StrideDivides(span: int, n: int, x: int)
    requires span > 0 && n > 0 && span * n > 0
    ensures (span * x) % (span * n) == 0 <==> x % n == 0
  {
    var q, r := x / n, x % n;
    assert x == q * n + r;
    assert span * x == q * (span * n) + span * r by { assert span * (q * n + r) == span * (q * n) + span * r; assert span * (q * n) == q * (span * n); }
    Strict(r, n, span);
    assert r * span == span * r && n * span == span * n;
    assert span * r >= 0;
    DivUnique(span * x, span * n, q, span * r);
    if r > 0 { Strict(0, r, span); }
  }

  /** A multiple of the stride is one of the span. */
  lemma StrideOfSpan(span: int, n: int, y: int)
    requires span > 0 && n > 0 && span * n > 0 && y % (span * n) == 0
    ensures y % span == 0
  {
    var q := y / (span * n);
    assert y == q * (span * n);
    assert y == (q * n) * span by { assert q * (span * n) == (q * n) * span; }
    DivUnique(y, span, q * n, 0);
  }

  /** The flag of thread t, when the loop starts at w * span. */
  lemma FlagIs(l: Nest, t: nat, span: int, w: int)
    requires Proper(l) && span > 0 && span * l.threads > 0 && l.lower == w * span
    ensures ChunkedPart(l, t, span).last <==> (Rounded(l.upper, span) - w - t) % l.threads == 0
  {
    var z := Rounded(l.upper, span);
    LastBeginIs(l.upper, span);
    Apart(span, z, w, t);
    StrideDivides(span, l.threads, z - w - t);
    FlagBy(l, t, span, span * (z - w - t));
  }

  lemma Apart(span: int, z: int, w: int, t: int)
    ensures z * span - (w * span + span * t) == span * (z - w - t)
  {}

  /** The flag is a divisibility test on the distance d of the last chunk. */
  lemma FlagBy(l: Nest, t: nat, span: int, d: int)
    requires Proper(l) && span > 0 && span * l.threads > 0 && LastBegin(l.upper, span) - (l.lower + span * t) == d
    ensures ChunkedPart(l, t, span).last <==> d % (span * l.threads) == 0
  {}

  /** Off the multiples of the span, no thread gets the flag. */
  lemma FlagLost(l: Nest, t: nat, span: int)
    requires Proper(l) && span > 0 && span * l.threads > 0 && l.lower % span != 0
    ensures !ChunkedPart(l, t, span).last
  {
    var z, y := Rounded(l.upper, span), LastBegin(l.upper, span) - (l.lower + span * t);
    LastBeginIs(l.upper, span);
    if y % (span * l.threads) == 0 {
      StrideOfSpan(span, l.threads, y);
      var q := y / span;
      assert l.lower == (z - t - q) * span by {
        assert y == q * span;
        assert (z - t - q) * span == z * span - t * span - q * span;
        assert span * t == t * span;
      }
      DivUnique(l.lower, span, z - t - q, 0);
    }
  }

  /** The last iteration is in chunk upper / span - w. */
  lemma LastChunk(l: Nest, chunk: nat, w: int)
    requires Proper(l) && chunk > 0 && l.incr * chunk > 0 && l.lower == w * (l.incr * chunk)
    ensures Size(l) >= 1 && Quot(Size(l) - 1, chunk) == l.upper / (l.incr * chunk) - w
  {
    ShareLeft(l);
    var c, x := l.incr, l.upper - l.lower;
    var span, q := c * chunk, x / c / chunk;
    var r := x - q * span;
    assert 0 <= r < span by {
      assert x == (x / c) * c + x % c;
      assert x / c == q * chunk + (x / c) % chunk;
      Inside(c, chunk, (x / c) % chunk, x % c);
      assert (q * chunk + (x / c) % chunk) * c == q * span + (x / c) % chunk * c by { assert q * chunk * c == q * (c * chunk); }
    }
    assert l.upper == (q + w) * span + r by { assert (q + w) * span == q * span + w * span; }
    DivUnique(l.upper, span, q + w, r);
  }

  lemma Inside(c: int, n: int, a: int, b: int)
    requires 0 <= a < n && 0 <= b < c
    ensures 0 <= a * c + b < c * n
  {
    Scale(a, n - 1, c);
    assert (n - 1) * c == c * n - c;
    assert a * c >= 0;
  }

  lemma Congruent(x: int, t: nat, n: nat)
    requires t < n
    ensures (x - t) % n == 0 <==> x % n == t
  {
    var q := x / n;
    assert x == q * n + x % n;
    if (x - t) % n == 0 {
      var p := (x - t) / n;
      assert x == p * n + t;
      DivUnique(x, n, p, t);
    }
    if x % n == t {
      DivUnique(x - t, n, q, 0);
    }
  }

  lemma NextCongruent(x: int, n: nat)
    requires n > 0
    ensures (x + 1) % n == x % n <==> n == 1
  {
    var q := x / n;
    assert x == q * n + x % n;
    if x % n == n - 1 {
      assert (q + 1) * n == q * n + n;
      DivUnique(x + 1, n, q + 1, 0);
    } else {
      DivUnique(x + 1, n, q, x % n + 1);
    }
  }

  function Flags(l: Nest, span: int): nat -> bool
    requires Proper(l) && span > 0
  {
    (t: nat) => ChunkedPart(l, t, span).last
  }

  /** Of n flags, only that of thread t is set. */
  ghost predicate Only(flag: nat -> bool, n: nat, t: nat) {
    forall u: nat :: u < n ==> (flag(u) <==> u == t)
  }

  lemma OnlyOne(flag: nat -> bool, n: nat, t: nat, t': nat)
    requires t < n && t' < n && Only(flag, n, t)
    ensures Only(flag, n, t') <==> t == t'
  {
    assert flag(t);
  }

  /** The flag is on exactly the thread that runs the last iteration. */
  ghost predicate FlagRight(l: Nest, chunk: nat)
    requires Proper(l) && chunk > 0 && l.incr * chunk > 0 && Size(l) >= 1
  {
    Only(Flags(l, l.incr * chunk), l.threads, Turn(l, chunk, Size(l) - 1))
  }

  /** That is so exactly when the loop starts at a multiple of the span and, with more than one thread, its upper bound is
      not a negative number off these multiples. */
  lemma FlagExactly(l: Nest, chunk: nat)
    requires Proper(l) && chunk > 0 && l.incr * chunk > 0
    ensures Size(l) >= 1
    ensures var span := l.incr * chunk;
            FlagRight(l, chunk) <==> l.lower % span == 0 && (l.upper >= 0 || l.upper % span == 0 || l.threads == 1)
  {
    ShareLeft(l);
    SpanPositive(l.incr * chunk, l.threads);
    if l.lower % (l.incr * chunk) != 0 {
      FlagOff(l, l.incr * chunk, Turn(l, chunk, Size(l) - 1));
    } else {
      FlagOn(l, l.incr * chunk);
      OnlyOne(Flags(l, l.incr * chunk), l.threads, Flagged(l, l.incr * chunk), Turn(l, chunk, Size(l) - 1));
      FlaggedTurn(l, chunk);
    }
  }

  lemma FlagOff(l: Nest, span: int, t: nat)
    requires Proper(l) && span > 0 && span * l.threads > 0 && l.lower % span != 0 && t < l.threads
    ensures !Only(Flags(l, span), l.threads, t)
  {
    FlagLost(l, t, span);
    assert !Flags(l, span)(t);
  }

  lemma FlagOn(l: Nest, span: int)
    requires Proper(l) && span > 0 && span * l.threads > 0 && l.lower % span == 0
    ensures Only(Flags(l, span), l.threads, Flagged(l, span))
  {
    forall u: nat | u < l.threads
      ensures Flags(l, span)(u) <==> u == Flagged(l, span)
    {
      FlagOf(l, u, span);
    }
  }

  /** The thread with the flag, when the loop starts at a multiple of the span. */
  function Flagged(l: Nest, span: int): (t: nat)
    requires Proper(l) && span > 0
    ensures t < l.threads
  {
    (Rounded(l.upper, span) - l.lower / span) % l.threads
  }

  lemma FlagOf(l: Nest, u: nat, span: int)
    requires Proper(l) && span > 0 && span * l.threads > 0 && l.lower % span == 0 && u < l.threads
    ensures ChunkedPart(l, u, span).last <==> u == Flagged(l, span)
  {
    FlagIs(l, u, span, l.lower / span);
    Congruent(Rounded(l.upper, span) - l.lower / span, u, l.threads);
  }

  lemma FlaggedTurn(l: Nest, chunk: nat)
    requires Proper(l) && chunk > 0 && l.incr * chunk > 0 && l.lower % (l.incr * chunk) == 0 && Size(l) >= 1
    ensures var span := l.incr * chunk;
            Flagged(l, span) == Turn(l, chunk, Size(l) - 1) <==> l.upper >= 0 || l.upper % span == 0 || l.threads == 1
  {
    var w := l.lower / (l.incr * chunk);
    LastChunk(l, chunk, w);
    NextCongruent(l.upper / (l.incr * chunk) - w, l.threads);
  }

  /** A loop from 1 to 8 in chunks of two on two threads: neither is told that it runs the last iteration. */
  lemma FlagCanBeLost(t: nat)
    requires t < 2
    ensures !ChunkedPart(Nest(1, 8, 1, 2), t, 2).last
  {
    FlagLost(Nest(1, 8, 1, 2), t, 2);
  }
}
