/** The tree reduction over clusters: who sends to whom in which level, and what the destination buffers end up holding.
    Levels are taken in lock step. */
module ReductionTree {
  import opened Arithmetic

  /** ceil(log2(n)) */
  function Levels(n: nat): (k: nat)
    requires n > 0
    ensures n <= Pow2(k) && (k > 0 ==> Pow2(k - 1) < n)
  {
    LevelsFrom(n, 0)
  }

  function LevelsFrom(n: nat, k: nat): (r: nat)
    requires k > 0 ==> Pow2(k - 1) < n
    ensures n <= Pow2(r) && (r > 0 ==> Pow2(r - 1) < n)
    decreases n - Pow2(k)
  {
    if n <= Pow2(k) then k else LevelsFrom(n, k + 1)
  }

  predicate Active(c: nat, level: nat) { c % Pow2(level) == 0 }
  predicate Sender(c: nat, level: nat) { c % Pow2(level + 1) != 0 }
  predicate Sends(c: nat, level: nat) { Active(c, level) && Sender(c, level) }

  // ----- the schedule

  /** How often two divides c. */
  function Twos(c: nat): nat
    requires c > 0
  {
    if c % 2 == 1 then 0 else 1 + Twos(c / 2)
  }

  lemma EvenMod(c: nat, p: nat)
    requires p > 0
    ensures c % 2 == 0 ==> (c % (2 * p) == 0 <==> (c / 2) % p == 0)
    ensures c % (2 * p) == 0 ==> c % 2 == 0
  {
    var q, r := c / (2 * p), c % (2 * p);
    assert c == q * (2 * p) + r;
    assert q * (2 * p) == 2 * (q * p);
    if r == 0 {
      assert c / 2 == q * p + 0;
      DivUnique(c / 2, p, q, 0);
    }
    if c % 2 == 0 && (c / 2) % p == 0 {
      var d := c / 2 / p;
      assert c / 2 == d * p;
      assert c == d * (2 * p) + 0 by { assert d * (2 * p) == 2 * (d * p); }
      DivUnique(c, 2 * p, d, 0);
    }
  }

  /** Cluster c sends in the level given by its factors of two, and in no other. */
  lemma {:induction false} SendsOnce(c: nat, level: nat)
    requires c > 0
    ensures Sends(c, level) <==> level == Twos(c)
    ensures level == Twos(c) <==> c % Pow2(level) == 0 && c % Pow2(level + 1) != 0
    decreases level
  {
    EvenMod(c, Pow2(level));
    if level == 0 {
      assert Pow2(0) == 1 && Pow2(1) == 2 * Pow2(0);
    } else {
      EvenMod(c, Pow2(level - 1));
      if c % 2 == 0 { SendsOnce(c / 2, level - 1); }
    }
  }

  lemma {:induction false} TwosBelow(c: nat)
    requires c > 0
    ensures Pow2(Twos(c)) <= c
  {
    if c % 2 != 0 {
    } else {
      TwosBelow(c / 2);
    }
  }

  lemma {:induction false} Pow2Grows(j: nat, k: nat)
    requires j <= k
    ensures Pow2(j) <= Pow2(k)
  {
    if j >= k {
    } else {
      Pow2Grows(j, k - 1);
    }
  }

  /** Its level is one of the tree's. */
  lemma SendsInTree(n: nat, c: nat)
    requires 0 < c < n
    ensures Twos(c) < Levels(n) && Sends(c, Twos(c))
  {
    SendsOnce(c, Twos(c));
    TwosBelow(c);
    if Levels(n) <= Twos(c) { Pow2Grows(Levels(n), Twos(c)); }
  }

  /** A sender's target is a cluster that takes part in the level and does not send in it. */
  lemma TargetReceives(n: nat, c: nat, level: nat)
    requires c < n && Sends(c, level)
    ensures Pow2(level) <= c && Active(c - Pow2(level), level) && !Sender(c - Pow2(level), level)
  {
    var p := Pow2(level);
    assert Pow2(level + 1) == 2 * p;
    var q := c / p;
    assert c == q * p;
    if q % 2 == 0 {
      Twice(c, q / 2, p);
      assert false;
    }
    MulFar(q, p);
    assert c - p == (q - 1) * p;
    DivUnique(c - p, p, q - 1, 0);
    Twice(c - p, (q - 1) / 2, p);
  }

  lemma Twice(c: int, h: int, p: int)
    requires p > 0 && c == 2 * h * p
    ensures c % (2 * p) == 0
  {
    assert 2 * h * p == h * (2 * p);
    DivUnique(c, 2 * p, h, 0);
  }

  /** No two senders of a level share a target. */
  lemma TargetsDistinct(c: nat, c': nat, level: nat)
    requires Sends(c, level) && Sends(c', level) && c - Pow2(level) == c' - Pow2(level)
    ensures c == c'
  {}

  /** Cluster 0 never sends, and in every level of the tree some cluster sends to it. */
  lemma RootReceives(n: nat, level: nat)
    requires 0 < n && level < Levels(n)
    ensures !Sends(0, level) && Pow2(level) < n && Sends(Pow2(level), level)
  {
    Pow2Grows(level, Levels(n) - 1);
    var p := Pow2(level);
    assert Pow2(level + 1) == 2 * p;
    DivUnique(0, 2 * p, 0, 0);
    DivUnique(p, p, 1, 0);
    assert 0 * (2 * p) == 0;
    DivUnique(p, 2 * p, 0, p);
  }

  // ----- what the buffers hold

  type Buffer = seq<real>

  /** The elements that the compute cores cover: each takes the same number of them. */
  function Covered(len: nat, cores: nat): nat
    requires cores > 0
  {
    cores * Quot(len, cores)
  }

  lemma CoveredFits(len: nat, cores: nat)
    requires cores > 0
    ensures Covered(len, cores) <= len && (len % cores == 0 ==> Covered(len, cores) == len)
  {}

  lemma Multiple(q: int, d: int)
    requires d > 0
    ensures (q * d) % d == 0
  {
    DivUnique(q * d, d, q, 0);
  }

  /** All cores add their share of the source buffer (lines 163 to 172). */
  method AddShares(d: Buffer, s: Buffer, cores: nat) returns (r: Buffer)
    requires cores > 0 && |d| == |s|
    ensures |r| == |d| && forall i :: 0 <= i < |d| ==> r[i] == if i < Covered(|d|, cores) then d[i] + s[i] else d[i]
  {
    r := d;
    var items := |d| / cores;
    CoveredFits(|d|, cores);
    assert 0 * items == 0;
    for core := 0 to cores
      invariant |r| == |d| && forall i :: 0 <= i < |d| ==> r[i] == if i < core * items then d[i] + s[i] else d[i]
    {
      var offset := core * items;
      ShareFits(core, cores, items);
      for i := 0 to items
        invariant |r| == |d| && forall k :: 0 <= k < |d| ==> r[k] == if k < offset + i then d[k] + s[k] else d[k]
      {
        r := r[offset + i := r[offset + i] + s[offset + i]];
      }
    }
  }

  lemma ShareFits(core: nat, cores: nat, items: nat)
    requires core < cores
    ensures core * items + items == (core + 1) * items <= cores * items
  {
    assert (cores - core - 1) * items >= 0;
    assert (cores - core - 1) * items == cores * items - core * items - items;
  }

  predicate Shaped(b: seq<Buffer>, n: nat, len: nat) { |b| == n && forall c :: 0 <= c < n ==> |b[c]| == len }

  /** The senders of a level copy their source buffer over the target's destination buffer (lines 149 to 157). */
  method Send(src: seq<Buffer>, dst: seq<Buffer>, level: nat) returns (r: seq<Buffer>)
    requires |src| == |dst| > 0
    ensures |r| == |dst|
    ensures forall c :: 0 <= c < |dst| ==> r[c] == Received(src, dst, level, c, |dst|)
  {
    r := dst;
    var p := Pow2(level);
    for c := 0 to |dst|
      invariant |r| == |dst| && forall k :: 0 <= k < |dst| ==> r[k] == Received(src, dst, level, k, c)
    {
      if Sends(c, level) {
        TargetReceives(|dst|, c, level);
        r := r[c - p := src[c]];
      }
    }
  }

  /** The destination buffer of cluster c once the senders below `upto` are through. */
  function Received(src: seq<Buffer>, dst: seq<Buffer>, level: nat, c: nat, upto: nat): Buffer
    requires |src| == |dst| && c < |dst| && upto <= |dst|
  {
    if c + Pow2(level) < upto && Sends(c + Pow2(level), level) then src[c + Pow2(level)] else dst[c]
  }

  /** Every cluster of a level that does not send adds its source buffer (lines 160 to 174). */
  method Add(src: seq<Buffer>, dst: seq<Buffer>, level: nat, cores: nat, len: nat) returns (r: seq<Buffer>)
    requires cores > 0 && Shaped(src, |dst|, len) && Shaped(dst, |dst|, len)
    ensures Shaped(r, |dst|, len)
    ensures |dst| > 0 ==> forall i :: 0 <= i < len ==> r[0][i] == if i < Covered(len, cores) then dst[0][i] + src[0][i] else dst[0][i]
  {
    r := dst;
    RootAdds(level);
    for c := 0 to |dst|
      invariant Shaped(r, |dst|, len) && forall k :: c <= k < |dst| ==> r[k] == dst[k]
      invariant c > 0 ==> forall i :: 0 <= i < len ==> r[0][i] == if i < Covered(len, cores) then dst[0][i] + src[0][i] else dst[0][i]
    {
      if Active(c, level) && !Sender(c, level) {
        var sum := AddShares(r[c], src[c], cores);
        r := r[c := sum];
      }
    }
  }

  lemma RootAdds(level: nat)
    ensures Active(0, level) && !Sender(0, level)
  {
    DivUnique(0, Pow2(level), 0, 0);
    DivUnique(0, Pow2(level + 1), 0, 0);
  }

  /** What cluster 0 gets: the buffer of the last level's sender plus its own, where the cores reach. Whatever arrived
      before is overwritten, and nobody sends on what it received. */
  ghost predicate RootHolds(src: seq<Buffer>, d: Buffer, from: nat, cores: nat, len: nat)
    requires cores > 0 && Shaped(src, |src|, len) && 0 < from < |src|
  {
    |d| == len && forall i :: 0 <= i < len ==> d[i] == if i < Covered(len, cores) then src[from][i] + src[0][i] else src[from][i]
  }

  /** The whole reduction, for every number of clusters (lines 127 to 178). */
  method Reduce(src: seq<Buffer>, dst: seq<Buffer>, cores: nat, len: nat) returns (r: seq<Buffer>)
    requires cores > 0 && |src| > 0 && Shaped(src, |src|, len) && Shaped(dst, |src|, len)
    ensures Shaped(r, |src|, len)
    ensures |src| == 1 ==> r[0] == src[0]
    ensures |src| > 1 ==> Levels(|src|) > 0 && Pow2(Levels(|src|) - 1) < |src| && RootHolds(src, r[0], Pow2(Levels(|src|) - 1), cores, len)
    ensures |src| > 1 ==>
              forall i: nat :: i < len ==>
                r[0][i] == if i < cores * (len / cores) then src[Pow2(Levels(|src|) - 1)][i] + src[0][i] else src[Pow2(Levels(|src|) - 1)][i]
  {
    var n := |src|;
    if n == 1 {
      return src;
    }
    r := dst;
    var levels := Levels(n);
    for level := 0 to levels
      invariant Shaped(r, n, len)
      invariant level > 0 ==> Pow2(level - 1) < n && RootHolds(src, r[0], Pow2(level - 1), cores, len)
    {
      RootReceives(n, level);
      r := Send(src, r, level);
      assert r[0] == src[Pow2(level)];
      r := Add(src, r, level, cores, len);
    }
  }

  // ----- when that is the sum

  function SumOver(src: seq<Buffer>, i: nat): real
    requires forall c :: 0 <= c < |src| ==> i < |src[c]|
  {
    if src == [] then 0.0 else SumOver(src[..|src| - 1], i) + src[|src| - 1][i]
  }

  ghost predicate IsSum(src: seq<Buffer>, d: Buffer, len: nat)
    requires Shaped(src, |src|, len)
  {
    |d| == len && forall i: nat :: i < len ==> d[i] == SumOver(src, i)
  }

  /** With two clusters, and cores that divide the length, cluster 0 holds the sum. */
  lemma TwoClusters(src: seq<Buffer>, d: Buffer, cores: nat, len: nat)
    requires cores > 0 && len % cores == 0 && |src| == 2 && Shaped(src, 2, len) && RootHolds(src, d, 1, cores, len)
    ensures IsSum(src, d, len)
  {
    CoveredFits(len, cores);
    forall i: nat | i < len
      ensures d[i] == SumOver(src, i)
    {
      assert SumOver(src[..1], i) == SumOver(src[..1][..0], i) + src[0][i];
    }
  }

  /** Buffers of zeros, but of ones in cluster c. */
  function Unit(n: nat, len: nat, c: nat): (b: seq<Buffer>)
    ensures Shaped(b, n, len)
  {
    seq(n, k => seq(len, _ => if k == c then 1.0 else 0.0))
  }

  lemma {:induction false} UnitTotal(n: nat, len: nat, c: nat, i: nat)
    requires i < len
    ensures SumOver(Unit(n, len, c), i) == if c < n then 1.0 else 0.0
  {
    if n == 0 {
    } else {
      assert Unit(n, len, c)[..n - 1] == Unit(n - 1, len, c);
      UnitTotal(n - 1, len, c, i);
    }
  }

  /** What the reduction leaves in cluster 0 is the sum of all clusters' buffers, whatever they hold. */
  ghost predicate Sums(n: nat, from: nat, cores: nat, len: nat)
    requires cores > 0 && 0 < from < n
  {
    forall src: seq<Buffer>, d: Buffer :: Shaped(src, n, len) && RootHolds(src, d, from, cores, len) ==> IsSum(src, d, len)
  }

  /** A cluster whose buffer gets lost. */
  lemma Lost(n: nat, from: nat, cores: nat, len: nat, c: nat)
    requires cores > 0 && 0 < from < n && len > 0 && 0 < c < n && c != from
    ensures !Sums(n, from, cores, len)
  {
    var src, d := Unit(n, len, c), seq(len, _ => 0.0);
    UnitTotal(n, len, c, 0);
    assert RootHolds(src, d, from, cores, len);
    assert d[0] == 0.0 && !IsSum(src, d, len);
  }

  /** An element that no core reaches. */
  lemma Unreached(n: nat, from: nat, cores: nat, len: nat)
    requires cores > 0 && 0 < from < n && Covered(len, cores) < len
    ensures !Sums(n, from, cores, len)
  {
    var src := Unit(n, len, 0);
    var d := seq(len, i => if i < Covered(len, cores) then 1.0 else 0.0);
    UnitTotal(n, len, 0, len - 1);
    assert RootHolds(src, d, from, cores, len);
    assert d[len - 1] == 0.0 && !IsSum(src, d, len);
  }

  /** Over several clusters, the reduction is a sum exactly for two of them and cores that divide the length. */
  lemma SumsExactly(n: nat, cores: nat, len: nat)
    requires n > 1 && cores > 0 && len > 0
    ensures Levels(n) > 0
    ensures Sums(n, Pow2(Levels(n) - 1), cores, len) <==> n == 2 && len % cores == 0
  {
    assert Levels(n) > 0 by { assert Pow2(0) == 1; }
    var from := Pow2(Levels(n) - 1);
    CoveredAll(len, cores);
    if n > 2 {
      Lost(n, from, cores, len, if from == 1 then 2 else 1);
    } else if len % cores != 0 {
      Unreached(n, from, cores, len);
    } else {
      forall src: seq<Buffer>, d: Buffer | Shaped(src, n, len) && RootHolds(src, d, from, cores, len)
        ensures IsSum(src, d, len)
      {
        TwoClusters(src, d, cores, len);
      }
    }
  }

  lemma CoveredAll(len: nat, cores: nat)
    requires cores > 0
    ensures Covered(len, cores) < len <==> len % cores != 0
  {
    assert len == Quot(len, cores) * cores + Rem(len, cores);
  }
}
