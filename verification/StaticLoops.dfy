/** The static schedule of a loop in either direction. One that counts down is treated as the loop with all signs changed, but for
    two places where the code does not: the left-over iterations, and the comparison in the last-iteration flag. */
module StaticLoops {
  import opened Arithmetic
  import opened StaticSchedule

  /** A loop with at least one iteration. */
  predicate Counted(l: Nest) {
    l.threads > 0 && l.incr != 0 && if l.incr > 0 then l.lower <= l.upper else l.lower >= l.upper
  }

  /** The loop counting up, signs changed if need be. */
  function Up(l: Nest): (u: Nest)
    requires Counted(l)
    ensures Proper(u)
  {
    if l.incr > 0 then l else Nest(-l.lower, -l.upper, -l.incr, l.threads)
  }

  function Turned(p: Part): Part { Part(-p.lower, -p.upper, -p.stride, p.last) }

  /** Truncating division. */
  function CQuot(x: int, d: int): int
    requires d != 0
  {
    if d > 0 then if x >= 0 then x / d else -((-x) / d)
    else if x <= 0 then (-x) / (-d) else -(x / (-d))
  }

  /** What a thread receives of a loop that counts down, without a chunk size. */
  function DownPart(l: Nest, t: nat): Part
    requires Counted(l) && l.incr < 0
  {
    var u := Up(l);
    var lower := l.lower + t * Count(u, t) * l.incr + if t < Left(u) then 0 else Left(u);
    var upper := lower + Count(u, t) * l.incr - l.incr;
    Part(lower, upper, Size(u), upper == l.upper && lower <= l.upper)
  }

  function PartOf(l: Nest, sched: Schedule, t: nat, chunk: nat): Part
    requires Counted(l) && (sched.StaticChunked? ==> chunk > 0)
  {
    if sched.Static? then
      if l.incr > 0 then StaticPart(l, t) else DownPart(l, t)
    else
      SpanPositive(Up(l).incr, chunk);
      var p := ChunkedPart(Up(l), t, Up(l).incr * chunk);
      if l.incr > 0 then p else Turned(p)
  }

  // ----- what a part stands for

  predicate RunsDown(p: Part, c: int, v: int)
    requires c > 0
  {
    p.upper <= v <= p.lower && (p.lower - v) % c == 0
  }

  ghost predicate ChunksDown(p: Part, l: Nest, v: int)
    requires Counted(l) && l.incr < 0
  {
    v >= l.upper && exists k: nat :: InChunkDown(p, Up(l).incr, v, k)
  }

  predicate InChunkDown(p: Part, c: int, v: int, k: nat)
    requires c > 0
  {
    p.upper + k * p.stride <= v <= p.lower + k * p.stride && (p.lower + k * p.stride - v) % c == 0
  }

  /** The thread with part p runs the loop body with v. */
  ghost predicate Gets(l: Nest, sched: Schedule, p: Part, v: int)
    requires Counted(l)
  {
    if sched.Static? then
      if l.incr > 0 then Runs(p, l.incr, v) else RunsDown(p, -l.incr, v)
    else
      if l.incr > 0 then RunsChunked(p, l, v) else ChunksDown(p, l, v)
  }

  /** The unchunked bounds are right: counting down, the left-over iterations must not matter. */
  predicate BothSound(l: Nest)
    requires Counted(l)
  {
    if l.incr > 0 then Sound(l) else DownSound(l)
  }

  predicate DownSound(l: Nest)
    requires Counted(l)
  {
    Left(Up(l)) == 0 || Share(Up(l)) == 0
  }

  /** The computation as it is written (lines 243 to 292). */
  method StaticInit(l: Nest, sched: Schedule, t: nat, chunkSize: nat) returns (p: Part)
    requires Counted(l) && t < l.threads && (sched.StaticChunked? ==> chunkSize > 0)
    ensures p == PartOf(l, sched, t, chunkSize)
    ensures sched.Static? && BothSound(l) ==> forall i :: 0 <= i < Size(Up(l)) ==> (Gets(l, sched, p, Value(l, i)) <==> Owns(Up(l), t, i))
    ensures sched.StaticChunked? ==> forall i: nat :: i < Size(Up(l)) ==> (Gets(l, sched, p, Value(l, i)) <==> t == Turn(Up(l), chunkSize, i))
  {
    var lower, upper, stride, last := l.lower, l.upper, 0, false;
    var loopSize, globalUpper := CQuot(upper - lower, l.incr) + 1, upper;
    if sched.StaticChunked? {
      var span := l.incr * chunkSize;
      SpanSigned(l, chunkSize);
      stride := span * l.threads;
      lower := lower + span * t;
      upper := lower + span - l.incr;
      var beginLastChunk := globalUpper - CRem(globalUpper, span);
      last := CRem(beginLastChunk - lower, stride) == 0;
      p := Part(lower, upper, stride, last);
      ChunkedIs(l, t, chunkSize, p);
    } else {
      var chunk := loopSize / l.threads;
      var leftOver := loopSize - chunk * l.threads;
      assert chunk == Share(Up(l)) && leftOver == Left(Up(l));
      if t < leftOver {
        chunk := chunk + 1;
        lower := lower + t * chunk * l.incr;
      } else {
        lower := lower + t * chunk * l.incr + leftOver;
      }
      upper := lower + chunk * l.incr - l.incr;
      last := upper == globalUpper && lower <= globalUpper;
      stride := loopSize;
      p := Part(lower, upper, stride, last);
    }
    PartMeans(l, sched, t, chunkSize);
  }

  /** Without a chunk size, for a loop of n iterations, q each and r left over: the first r threads get one iteration more, and the
      others start r values, not r iterations, later. */
  lemma Unchunked(l: Nest, t: nat, n: int, q: int, r: int)
    requires Counted(l) && t < l.threads
    requires n == if l.incr > 0 then (l.upper - l.lower) / l.incr + 1 else (l.lower - l.upper) / (-l.incr) + 1
    requires q == n / l.threads && r == n % l.threads
    ensures var p := PartOf(l, Static, t, 0);
            && p.lower == (if t < r then l.lower + t * (q + 1) * l.incr else l.lower + t * q * l.incr + r)
            && p.upper == (if t < r then p.lower + (q + 1) * l.incr - l.incr else p.lower + q * l.incr - l.incr)
            && p.stride == n && (p.last <==> p.upper == l.upper && p.lower <= l.upper)
  {
    Remainder(n, l.threads);
    assert n == Size(Up(l)) && q == Share(Up(l)) && r == Left(Up(l));
    assert Count(Up(l), t) == if t < r then q + 1 else q;
  }

  lemma Remainder(n: int, d: int)
    requires d > 0
    ensures n - n / d * d == n % d
  {}

  /** With one: the first chunk starts at the thread's own, and chunks are one round of the team apart. */
  lemma Chunked(l: Nest, t: nat, chunk: nat, span: int, round: int)
    requires Counted(l) && chunk > 0 && span == l.incr * chunk && round == span * l.threads
    ensures span != 0 && round != 0
    ensures var p := PartOf(l, StaticChunked, t, chunk);
            && p.lower == l.lower + span * t && p.upper == p.lower + span - l.incr && p.stride == round
            && (p.last <==> (l.upper - (if l.upper >= 0 then l.upper % span else -((-l.upper) % span)) - p.lower) % round == 0)
  {
    SpanSigned(l, chunk);
    Signs(Up(l).incr * chunk, t);
    ChunkedFlag(l, chunk, PartOf(l, StaticChunked, t, chunk));
  }

  lemma ChunkedFlag(l: Nest, chunk: nat, p: Part)
    requires Counted(l) && chunk > 0 && Up(l).incr * chunk > 0 && p.stride != 0
    requires l.incr * chunk == if l.incr > 0 then Up(l).incr * chunk else -(Up(l).incr * chunk)
    requires var u, q := Up(l), if l.incr > 0 then p else Turned(p);
             p.last <==> (u.upper - CRem(u.upper, u.incr * chunk) - q.lower) % q.stride == 0
    ensures p.last <==> (l.upper - CRem(l.upper, l.incr * chunk) - p.lower) % p.stride == 0
  {
    if l.incr < 0 {
      RemTurned(l.upper, Up(l).incr * chunk);
      Divides(l.upper - CRem(l.upper, l.incr * chunk) - p.lower, p.stride);
      Divides(-(l.upper - CRem(l.upper, l.incr * chunk) - p.lower), p.stride);
    }
  }

  lemma SpanSigned(l: Nest, chunk: nat)
    requires Counted(l) && chunk > 0
    ensures Up(l).incr * chunk > 0 && Up(l).incr * chunk * l.threads > 0
    ensures l.incr * chunk == if l.incr > 0 then Up(l).incr * chunk else -(Up(l).incr * chunk)
    ensures l.incr * chunk * l.threads == if l.incr > 0 then Up(l).incr * chunk * l.threads else -(Up(l).incr * chunk * l.threads)
  {
    SpanPositive(Up(l).incr, chunk);
    SpanPositive(Up(l).incr * chunk, l.threads);
    Signs(Up(l).incr, chunk);
    Signs(Up(l).incr * chunk, l.threads);
  }

  lemma Signs(x: int, y: int)
    ensures (-x) * y == -(x * y)
  {}

  /** The chunked computation does not mind the direction. */
  lemma ChunkedIs(l: Nest, t: nat, chunk: nat, p: Part)
    requires Counted(l) && chunk > 0 && l.incr * chunk != 0 && l.incr * chunk * l.threads != 0
    requires p.lower == l.lower + l.incr * chunk * t && p.upper == p.lower + l.incr * chunk - l.incr && p.stride == l.incr * chunk * l.threads
    requires p.last <==> CRem(l.upper - CRem(l.upper, l.incr * chunk) - p.lower, p.stride) == 0
    ensures p == PartOf(l, StaticChunked, t, chunk)
  {
    SpanSigned(l, chunk);
    Signs(Up(l).incr * chunk, t);
    var d := l.upper - CRem(l.upper, l.incr * chunk) - p.lower;
    if l.incr < 0 {
      RemTurned(l.upper, Up(l).incr * chunk);
    }
    Divides(d, p.stride);
    Divides(-d, p.stride);
  }

  lemma RemTurned(x: int, d: int)
    requires d > 0
    ensures CRem(x, -d) == -CRem(-x, d)
  {
    ModTurned(if x >= 0 then x else -x, d);
  }

  lemma ModTurned(x: int, d: int)
    requires d != 0
    ensures x % (-d) == x % d
  {}

  lemma Opposite(x: int, d: int)
    requires d > 0 && x % d == 0
    ensures (-x) % d == 0
  {
    var q := x / d;
    assert x == q * d;
    Signs(q, d);
    DivUnique(-x, d, -q, 0);
  }

  /** Whether a remainder is zero depends on no sign. */
  lemma Divides(x: int, d: int)
    requires d != 0
    ensures CRem(x, d) == 0 <==> x % d == 0
    ensures x % d == 0 <==> x % (-d) == 0
    ensures x % d == 0 <==> (-x) % d == 0
  {
    var m := if d > 0 then d else -d;
    ModTurned(x, d);
    ModTurned(-x, d);
    if x % m == 0 { Opposite(x, m); }
    if (-x) % m == 0 { Opposite(-x, m); }
  }

  // ----- counting down

  lemma ChunksTurned(p: Part, l: Nest, v: int)
    requires Counted(l) && l.incr < 0
    ensures ChunksDown(Turned(p), l, v) <==> RunsChunked(p, Up(l), -v)
  {
    var c, w := Up(l).incr, -v;
    forall k: nat ensures InChunkDown(Turned(p), c, v, k) <==> InChunk(p, c, w, k) {
      assert k * -p.stride == -(k * p.stride);
    }
    if k: nat :| InChunkDown(Turned(p), c, v, k) { assert InChunk(p, c, w, k); }
    if k: nat :| InChunk(p, c, w, k) { assert InChunkDown(Turned(p), c, v, k); }
  }

  lemma ValueTurned(l: Nest, i: int)
    requires Counted(l) && l.incr < 0
    ensures Value(l, i) == -Value(Up(l), i)
  {
    Signs(l.incr, i);
  }

  /** Where nothing is left over for it, a thread's part is the turned one. */
  lemma DownTurned(l: Nest, t: nat)
    requires Counted(l) && l.incr < 0 && (t < Left(Up(l)) || Left(Up(l)) == 0)
    ensures DownPart(l, t).lower == -StaticPart(Up(l), t).lower && DownPart(l, t).upper == -StaticPart(Up(l), t).upper
  {
    Signs(l.incr, t * Count(Up(l), t));
    Signs(l.incr, Count(Up(l), t));
  }

  /** A part without iterations. */
  lemma NoneDown(l: Nest, t: nat, v: int)
    requires Counted(l) && l.incr < 0 && Count(Up(l), t) == 0
    ensures !RunsDown(DownPart(l, t), -l.incr, v) && !Runs(StaticPart(Up(l), t), -l.incr, -v) && !DownPart(l, t).last
  {
    ShareLeft(Up(l));
  }

  lemma SameDown(l: Nest, t: nat, v: int)
    requires Counted(l) && l.incr < 0 && t < l.threads && DownSound(l)
    ensures RunsDown(DownPart(l, t), -l.incr, v) <==> Runs(StaticPart(Up(l), t), -l.incr, -v)
  {
    if t < Left(Up(l)) || Left(Up(l)) == 0 {
      DownTurned(l, t);
    } else {
      NoneDown(l, t, v);
    }
  }

  lemma PartMeans(l: Nest, sched: Schedule, t: nat, chunk: nat)
    requires Counted(l) && t < l.threads && (sched.StaticChunked? ==> chunk > 0)
    ensures sched.Static? && BothSound(l) ==>
              forall i :: 0 <= i < Size(Up(l)) ==> (Gets(l, sched, PartOf(l, sched, t, chunk), Value(l, i)) <==> Owns(Up(l), t, i))
    ensures sched.StaticChunked? ==>
              forall i: nat :: i < Size(Up(l)) ==> (Gets(l, sched, PartOf(l, sched, t, chunk), Value(l, i)) <==> t == Turn(Up(l), chunk, i))
  {
    var u := Up(l);
    if sched.StaticChunked? {
      forall i: nat | i < Size(u) ensures Gets(l, sched, PartOf(l, sched, t, chunk), Value(l, i)) <==> t == Turn(u, chunk, i) {
        SpanSigned(l, chunk);
        ChunkedPartition(u, t, chunk, i);
        if l.incr < 0 {
          ValueTurned(l, i);
          ChunksTurned(ChunkedPart(u, t, u.incr * chunk), l, Value(l, i));
        }
      }
    } else if BothSound(l) {
      forall i | 0 <= i < Size(u) ensures Gets(l, sched, PartOf(l, sched, t, chunk), Value(l, i)) <==> Owns(u, t, i) {
        SoundRuns(u, t, i);
        if l.incr < 0 {
          ValueTurned(l, i);
          SameDown(l, t, Value(l, i));
        }
      }
    }
  }

  // ----- when the unchunked bounds partition a loop that counts down

  predicate RunnerDown(l: Nest, t: nat, i: int)
    requires Counted(l) && l.incr < 0
  {
    RunsDown(DownPart(l, t), -l.incr, Value(l, i))
  }

  ghost predicate OnceDown(l: Nest, i: int)
    requires Counted(l) && l.incr < 0
  {
    exists t: nat :: t < l.threads && RunnerDown(l, t, i) && forall u: nat :: u < l.threads && RunnerDown(l, u, i) ==> u == t
  }

  /** Every iteration is run by exactly one thread, and nothing else is run. */
  ghost predicate PartitionsDown(l: Nest)
    requires Counted(l) && l.incr < 0
  {
    && (forall i :: 0 <= i < Size(Up(l)) ==> OnceDown(l, i))
    && forall t: nat, v :: t < l.threads && RunsDown(DownPart(l, t), Up(l).incr, v) ==> IterationDown(l, v)
  }

  predicate IterationDown(l: Nest, v: int)
    requires Counted(l) && l.incr < 0
  {
    l.upper <= v <= l.lower && (l.lower - v) % -l.incr == 0
  }

  /** They do exactly when nothing is left over, or no thread gets a full share. */
  lemma DownExactly(l: Nest)
    requires Counted(l) && l.incr < 0
    ensures PartitionsDown(l) <==> DownSound(l)
  {
    var u := Up(l);
    ShareLeft(u);
    if DownSound(l) {
      forall i | 0 <= i < Size(u) ensures OnceDown(l, i) {
        var t := OneOwner(u, i);
        forall s: nat | s < l.threads ensures RunnerDown(l, s, i) <==> Owns(u, s, i) { PartMeans(l, Static, s, 0); }
        assert RunnerDown(l, t, i);
      }
      forall t: nat, v | t < l.threads && RunsDown(DownPart(l, t), u.incr, v) ensures IterationDown(l, v) {
        SameDown(l, t, v);
        SoundStays(u, t, -v);
      }
    } else {
      var i := Size(u) - 1;
      forall t: nat | t < l.threads ensures !RunnerDown(l, t, i) { LastMissedDown(l, t); }
      assert !OnceDown(l, i);
    }
  }

  /** How far thread t gets in a loop that counts down, in terms of the one that counts up. */
  function Reach(u: Nest, t: nat): int
    requires Proper(u)
  {
    t * Count(u, t) * u.incr + Count(u, t) * u.incr - u.incr - if t < Left(u) then 0 else Left(u)
  }

  lemma ReachDown(l: Nest, t: nat)
    requires Counted(l) && l.incr < 0
    ensures DownPart(l, t).upper == l.lower - Reach(Up(l), t)
  {
    Signs(l.incr, t * Count(Up(l), t));
    Signs(l.incr, Count(Up(l), t));
  }

  lemma ReachShort(u: Nest, t: nat)
    requires Proper(u) && t < u.threads && Left(u) > 0 && Share(u) > 0
    ensures Reach(u, t) < (Size(u) - 1) * u.incr
  {
    ShareLeft(u);
    var q, r, n, c := Share(u), Left(u), u.threads, u.incr;
    assert Size(u) - 1 == n * q + r - 1;
    if t < r {
      MissedEarly(t, q, r, n, c);
    } else {
      ShortLate(t, q, r, n, c);
    }
  }

  /** That is short of the last iteration. */
  lemma LastMissedDown(l: Nest, t: nat)
    requires Counted(l) && l.incr < 0 && !DownSound(l) && t < l.threads
    ensures !RunnerDown(l, t, Size(Up(l)) - 1) && l.upper < DownPart(l, t).upper
  {
    ShareLeft(Up(l));
    ReachShort(Up(l), t);
    ReachDown(l, t);
    ValueTurned(l, Size(Up(l)) - 1);
    Upper(Up(l));
  }

  lemma ShortLate(t: nat, q: nat, r: nat, n: nat, c: nat)
    requires t < n && 0 < r && c > 0
    ensures t * q * c + q * c - c - r < (n * q + r - 1) * c
  {
    assert (t + 1) * q * c == t * q * c + q * c by { assert (t + 1) * q == t * q + q; }
    Ends(t + 1, q, n, c);
    assert (n * q + r - 1) * c == n * q * c + (r - 1) * c;
  }

  // ----- the last-iteration flags

  ghost predicate FlagsRightDown(l: Nest)
    requires Counted(l) && l.incr < 0
  {
    forall t: nat :: t < l.threads ==> (DownPart(l, t).last <==> Owns(Up(l), t, Size(Up(l)) - 1))
  }

  /** The unchunked flag of a loop that counts down is on exactly the thread that should have the last iteration if and only if
      the upper bound is an iteration and there are no more iterations than threads: it compares the wrong way round. */
  lemma DownFlagExactly(l: Nest)
    requires Counted(l) && l.incr < 0
    ensures FlagsRightDown(l) <==> (l.lower - l.upper) % -l.incr == 0 && Size(Up(l)) <= l.threads
  {
    var u := Up(l);
    ShareLeft(u);
    FewIsSound(u);
    if (l.lower - l.upper) % -l.incr == 0 && Size(u) <= l.threads {
      forall t: nat | t < l.threads ensures DownPart(l, t).last <==> Owns(u, t, Size(u) - 1) { FlagDown(l, t); }
    } else {
      var t := OneOwner(u, Size(u) - 1);
      if !DownSound(l) {
        LastMissedDown(l, t);
      } else if (l.lower - l.upper) % -l.incr != 0 {
        NoFlagDown(l, t);
      } else {
        ManyEach(u, t);
        LongNoFlag(l, t);
      }
      assert !(DownPart(l, t).last <==> Owns(u, t, Size(u) - 1));
    }
  }

  /** With no more iterations than threads the bounds are sound, and no thread has more than one. */
  lemma FewIsSound(u: Nest)
    requires Proper(u)
    ensures Size(u) <= u.threads ==> (Left(u) == 0 || Share(u) == 0) && forall t: nat :: t < u.threads ==> Count(u, t) <= 1
  {
    ShareLeft(u);
    if Share(u) >= 1 && Size(u) <= u.threads {
      MulFar(Share(u) - 1, u.threads);
      assert Share(u) * u.threads == (Share(u) - 1) * u.threads + u.threads;
    }
  }

  /** With more, and sound bounds, every thread has at least two. */
  lemma ManyEach(u: Nest, t: nat)
    requires Proper(u) && (Left(u) == 0 || Share(u) == 0) && Size(u) > u.threads
    ensures Count(u, t) >= 2
  {
    ShareLeft(u);
  }

  lemma FlagDown(l: Nest, t: nat)
    requires Counted(l) && l.incr < 0 && t < l.threads && (l.lower - l.upper) % -l.incr == 0 && Size(Up(l)) <= l.threads
    ensures DownPart(l, t).last <==> Owns(Up(l), t, Size(Up(l)) - 1)
  {
    var u := Up(l);
    FewIsSound(u);
    LastFlag(u, t);
    if Count(u, t) == 0 {
      NoneDown(l, t, 0);
      NoneUp(u, t);
    } else {
      DownTurned(l, t);
    }
  }

  lemma NoneUp(u: Nest, t: nat)
    requires Proper(u) && t < u.threads && Count(u, t) == 0 && (u.upper - u.lower) % u.incr == 0
    ensures !Owns(u, t, Size(u) - 1)
  {}

  lemma NoFlagDown(l: Nest, t: nat)
    requires Counted(l) && l.incr < 0 && t < l.threads && DownSound(l) && (l.lower - l.upper) % -l.incr != 0
    ensures !DownPart(l, t).last
  {
    if t < Left(Up(l)) || Left(Up(l)) == 0 {
      DownTurned(l, t);
      OffTheGrid(Up(l), t);
    } else {
      NoneDown(l, t, 0);
    }
  }

  /** An upper bound that is no iteration is no thread's. */
  lemma OffTheGrid(u: Nest, t: nat)
    requires Proper(u) && t < u.threads && (u.upper - u.lower) % u.incr != 0 && (t < Left(u) || Left(u) == 0)
    ensures StaticPart(u, t).upper != u.upper
  {
    var n := Count(u, t);
    LastOfPart(t, n, u.incr);
    var k := t * n + n - 1;
    if u.upper - u.lower == k * u.incr { DivUnique(u.upper - u.lower, u.incr, k, 0); }
  }

  lemma LastOfPart(t: int, n: int, c: int)
    ensures t * n * c + n * c - c == (t * n + n - 1) * c
  {}

  lemma LongNoFlag(l: Nest, t: nat)
    requires Counted(l) && l.incr < 0 && Count(Up(l), t) >= 2
    ensures !DownPart(l, t).last
  {
    MulFar(Count(Up(l), t) - 1, -l.incr);
    Signs(l.incr, Count(Up(l), t));
    assert (Count(Up(l), t) - 1) * -l.incr == Count(Up(l), t) * -l.incr + l.incr;
  }

  /** The chunked flag is on exactly the thread that runs the last iteration: the condition in both directions. */
  lemma ChunkedFlagExactly(l: Nest, chunk: nat)
    requires Counted(l) && chunk > 0
    ensures Up(l).incr * chunk > 0 && Size(Up(l)) >= 1
    ensures (forall t: nat :: t < l.threads ==> (PartOf(l, StaticChunked, t, chunk).last <==> t == Turn(Up(l), chunk, Size(Up(l)) - 1)))
            <==> Up(l).lower % (Up(l).incr * chunk) == 0
                 && (Up(l).upper >= 0 || Up(l).upper % (Up(l).incr * chunk) == 0 || l.threads == 1)
  {
    var u := Up(l);
    SpanSigned(l, chunk);
    FlagExactly(u, chunk);
    forall t: nat | t < l.threads ensures Flags(u, u.incr * chunk)(t) == PartOf(l, StaticChunked, t, chunk).last {
    }
  }
}
