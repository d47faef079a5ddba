/** What a matrix multiply in place is: a row-major sweep over C in which every entry is accumulated over k in
    order from the initial contents of a memory. The element type and its multiply-add are uninterpreted. */
module MatMul {

  /** mac(a, b, c) is c + a * b. */
  datatype Arith<!T> = Arith(zero: T, mul: (T, T) -> T, mac: (T, T, T) -> T)

  /** Exact arithmetic. */
  const EXACT: Arith<real> := Arith(0.0, (x, y) => x * y, (a, b, c) => a * b + c)

  /** The sizes, and the memory cells of A[m, k] as read for column n, of B[k, n], and of C[m, n]. */
  datatype View = View(M: nat, N: nat, K: nat, a: (nat, nat, nat) -> nat, b: (nat, nat) -> nat, c: (nat, nat) -> nat)

  /** How the old C enters: multiplied by a number, or switched by a flag. */
  datatype Scale<T> = Times(beta: T) | Flag(on: bool)

  function Start<T(==)>(ar: Arith<T>, sc: Scale<T>, c: T): T {
    match sc
    case Times(beta) => if beta != ar.zero then ar.mul(c, beta) else ar.zero
    case Flag(on) => if on then c else ar.zero
  }

  /** All cells are in the memory. */
  ghost predicate InMemory(v: View, size: nat) {
    && (forall m: nat, n: nat, k: nat :: m < v.M && n < v.N && k < v.K ==> v.a(m, n, k) < size)
    && (forall k: nat, n: nat :: k < v.K && n < v.N ==> v.b(k, n) < size)
    && (forall m: nat, n: nat :: m < v.M && n < v.N ==> v.c(m, n) < size)
  }

  /** Every entry of C has its own cell. */
  ghost predicate OwnCells(v: View) {
    forall m: nat, n: nat, m': nat, n': nat ::
      m < v.M && m' < v.M && n < v.N && n' < v.N && v.c(m, n) == v.c(m', n') ==> m == m' && n == n'
  }

  /** No entry of C is a cell of A or B. */
  ghost predicate OperandsApart(v: View) {
    && (forall m: nat, n: nat, m': nat, n': nat, k: nat ::
          m < v.M && n < v.N && m' < v.M && n' < v.N && k < v.K ==> v.c(m, n) != v.a(m', n', k))
    && (forall m: nat, n: nat, k: nat, n': nat ::
          m < v.M && n < v.N && k < v.K && n' < v.N ==> v.c(m, n) != v.b(k, n'))
  }

  ghost predicate Apart(v: View, size: nat) {
    var apart := InMemory(v, size) && OwnCells(v) && OperandsApart(v);
    apart
  }

  /** c accumulated with the first k products of row m and column n, in order. */
  ghost function Sum<T>(ar: Arith<T>, mem: seq<T>, v: View, m: nat, n: nat, c: T, k: nat): T
    requires Apart(v, |mem|) && m < v.M && n < v.N && k <= v.K
  {
    if k == 0 then c else ar.mac(mem[v.a(m, n, k - 1)], mem[v.b(k - 1, n)], Sum(ar, mem, v, m, n, c, k - 1))
  }

  /** acc goes on from product x as the sum does. */
  ghost predicate Adds<T>(ar: Arith<T>, mem: seq<T>, v: View, m: nat, n: nat, acc: nat -> T, x: nat)
    requires Apart(v, |mem|) && m < v.M && n < v.N && x < v.K
  {
    acc(x + 1) == ar.mac(mem[v.a(m, n, x)], mem[v.b(x, n)], acc(x))
  }

  lemma {:induction false} SumIs<T>(ar: Arith<T>, mem: seq<T>, v: View, m: nat, n: nat, acc: nat -> T, k: nat)
    requires Apart(v, |mem|) && m < v.M && n < v.N && k <= v.K
    requires forall x: nat :: x < v.K ==> Adds(ar, mem, v, m, n, acc, x)
    ensures Sum(ar, mem, v, m, n, acc(0), k) == acc(k)
  {
    if k == 0 {
    } else {
      SumIs(ar, mem, v, m, n, acc, k - 1);
      assert Adds(ar, mem, v, m, n, acc, k - 1);
    }
  }

  ghost function Entry<T>(ar: Arith<T>, mem: seq<T>, v: View, sc: Scale<T>, m: nat, n: nat): T
    requires Apart(v, |mem|) && m < v.M && n < v.N
  {
    Sum(ar, mem, v, m, n, Start(ar, sc, mem[v.c(m, n)]), v.K)
  }

  /** m whole rows and n entries of the next. */
  ghost predicate Reached(v: View, size: nat, m: nat, n: nat) {
    var reached := Apart(v, size) && m <= v.M && n <= v.N && (n == 0 || m < v.M);
    reached
  }

  /** The memory when the first m rows and n entries of the next are done. */
  ghost function Upto<T>(ar: Arith<T>, mem: seq<T>, v: View, sc: Scale<T>, m: nat, n: nat): (r: seq<T>)
    requires Reached(v, |mem|, m, n)
    ensures |r| == |mem|
    decreases m, n
  {
    if n > 0 then Upto(ar, mem, v, sc, m, n - 1)[v.c(m, n - 1) := Entry(ar, mem, v, sc, m, n - 1)]
    else if m > 0 then Upto(ar, mem, v, sc, m - 1, v.N)
    else mem
  }

  ghost function Gemm<T>(ar: Arith<T>, mem: seq<T>, v: View, sc: Scale<T>): (r: seq<T>)
    requires Apart(v, |mem|)
    ensures |r| == |mem|
  {
    Upto(ar, mem, v, sc, v.M, 0)
  }

  predicate Before(m: nat, n: nat, m': nat, n': nat) { m < m' || (m == m' && n < n') }

  /** w is not an entry of C. */
  ghost predicate Outside(v: View, w: nat) {
    forall m: nat, n: nat :: m < v.M && n < v.N ==> v.c(m, n) != w
  }

  /** `after` is `before` with every entry of C replaced by the initial one scaled and accumulated over k in order. */
  ghost predicate Multiplied<T>(ar: Arith<T>, before: seq<T>, after: seq<T>, v: View, sc: Scale<T>)
    requires Apart(v, |before|) && |after| == |before|
  {
    && (forall m: nat, n: nat :: m < v.M && n < v.N ==> after[v.c(m, n)] == Entry(ar, before, v, sc, m, n))
    && (forall w: nat :: w < |before| && Outside(v, w) ==> after[w] == before[w])
  }

  /** What Gemm means, entry by entry and elsewhere. */
  lemma GemmMeaning<T>(ar: Arith<T>, mem: seq<T>, v: View, sc: Scale<T>)
    requires Apart(v, |mem|)
    ensures Multiplied(ar, mem, Gemm(ar, mem, v, sc), v, sc)
  {
    UptoSwept(ar, mem, v, sc, v.M, 0);
  }

  /** That meaning determines the memory. */
  lemma MeaningUnique<T>(ar: Arith<T>, mem: seq<T>, x: seq<T>, v: View, sc: Scale<T>)
    requires Apart(v, |mem|) && |x| == |mem| && Multiplied(ar, mem, x, v, sc)
    ensures x == Gemm(ar, mem, v, sc)
  {
    GemmMeaning(ar, mem, v, sc);
    forall w: nat | w < |mem| ensures x[w] == Gemm(ar, mem, v, sc)[w] {
      if !Outside(v, w) {
        var m: nat, n: nat :| m < v.M && n < v.N && v.c(m, n) == w;
      }
    }
  }

  // ----- the sweep as it goes on

  /** From m0, m whole rows and n entries of the next have been computed: they hold their entry, and nothing else is changed. */
  ghost predicate Swept<T>(ar: Arith<T>, m0: seq<T>, now: seq<T>, v: View, sc: Scale<T>, m: nat, n: nat)
    requires Apart(v, |m0|)
  {
    var swept :=
      && |now| == |m0|
      && (forall i: nat, j: nat :: i < v.M && j < v.N ==>
            now[v.c(i, j)] == if Before(i, j, m, n) then Entry(ar, m0, v, sc, i, j) else m0[v.c(i, j)])
      && (forall w: nat :: w < |m0| && Outside(v, w) ==> now[w] == m0[w]);
    swept
  }

  lemma SweptStart<T>(ar: Arith<T>, m0: seq<T>, v: View, sc: Scale<T>)
    requires Apart(v, |m0|)
    ensures Swept(ar, m0, m0, v, sc, 0, 0)
  {}

  lemma SweptNext<T>(ar: Arith<T>, m0: seq<T>, now: seq<T>, v: View, sc: Scale<T>, m: nat, n: nat, now': seq<T>)
    requires Apart(v, |m0|) && m < v.M && n < v.N && Swept(ar, m0, now, v, sc, m, n)
    requires now' == now[v.c(m, n) := Entry(ar, m0, v, sc, m, n)]
    ensures Swept(ar, m0, now', v, sc, m, n + 1)
  {}

  lemma SweptRow<T>(ar: Arith<T>, m0: seq<T>, now: seq<T>, v: View, sc: Scale<T>, m: nat)
    requires Apart(v, |m0|) && m < v.M && Swept(ar, m0, now, v, sc, m, v.N)
    ensures Swept(ar, m0, now, v, sc, m + 1, 0)
  {}

  lemma SweptEnd<T>(ar: Arith<T>, m0: seq<T>, now: seq<T>, v: View, sc: Scale<T>)
    requires Apart(v, |m0|) && Swept(ar, m0, now, v, sc, v.M, 0)
    ensures now == Gemm(ar, m0, v, sc)
  {
    MeaningUnique(ar, m0, now, v, sc);
  }

  lemma {:induction false} UptoSwept<T>(ar: Arith<T>, mem: seq<T>, v: View, sc: Scale<T>, m: nat, n: nat)
    requires Reached(v, |mem|, m, n)
    ensures Swept(ar, mem, Upto(ar, mem, v, sc, m, n), v, sc, m, n)
    decreases m, n
  {
    if n > 0 {
      UptoSwept(ar, mem, v, sc, m, n - 1);
      var before, after := Upto(ar, mem, v, sc, m, n - 1), Upto(ar, mem, v, sc, m, n);
      SweptNext(ar, mem, before, v, sc, m, n - 1, after);
    } else if m > 0 {
      UptoSwept(ar, mem, v, sc, m - 1, v.N);
      SweptRow(ar, mem, Upto(ar, mem, v, sc, m - 1, v.N), v, sc, m - 1);
    } else {
      SweptStart(ar, mem, v, sc);
    }
  }

  /** In the middle of the sweep the operands, and the entries still to come, are the initial ones. */
  lemma OperandsKept<T>(ar: Arith<T>, m0: seq<T>, now: seq<T>, v: View, sc: Scale<T>, m: nat, n: nat, i: nat, j: nat, k: nat)
    requires Apart(v, |m0|) && Swept(ar, m0, now, v, sc, m, n) && i < v.M && j < v.N && k < v.K
    ensures now[v.a(i, j, k)] == m0[v.a(i, j, k)] && now[v.b(k, j)] == m0[v.b(k, j)]
  {
    assert Outside(v, v.a(i, j, k)) && Outside(v, v.b(k, j));
  }

  lemma EntryKept<T>(ar: Arith<T>, m0: seq<T>, now: seq<T>, v: View, sc: Scale<T>, m: nat, n: nat, j: nat)
    requires Apart(v, |m0|) && Swept(ar, m0, now, v, sc, m, n) && m < v.M && n <= j < v.N
    ensures now[v.c(m, j)] == m0[v.c(m, j)]
  {}

  /** The two ways to scale agree on 0 and 1, given that multiplying by one changes nothing. */
  lemma ScalesAgree<T>(ar: Arith<T>, mem: seq<T>, v: View, one: T, on: bool)
    requires Apart(v, |mem|) && one != ar.zero && forall x: T :: x in mem ==> ar.mul(x, one) == x
    ensures Gemm(ar, mem, v, Times(if on then one else ar.zero)) == Gemm(ar, mem, v, Flag(on))
  {
    SameStart(ar, mem, v, Times(if on then one else ar.zero), Flag(on));
  }

  /** The same matrices: equal sizes, and equal cells within them. */
  ghost predicate Same(v: View, w: View) {
    && v.M == w.M && v.N == w.N && v.K == w.K
    && (forall m: nat, n: nat, k: nat :: m < v.M && n < v.N && k < v.K ==> v.a(m, n, k) == w.a(m, n, k))
    && (forall k: nat, n: nat :: k < v.K && n < v.N ==> v.b(k, n) == w.b(k, n))
    && (forall m: nat, n: nat :: m < v.M && n < v.N ==> v.c(m, n) == w.c(m, n))
  }

  lemma {:induction false} SameSum<T>(ar: Arith<T>, mem: seq<T>, v: View, w: View, m: nat, n: nat, c: T, k: nat)
    requires Apart(v, |mem|) && Apart(w, |mem|) && Same(v, w) && m < v.M && n < v.N && k <= v.K
    ensures Sum(ar, mem, v, m, n, c, k) == Sum(ar, mem, w, m, n, c, k)
  {
    if k == 0 {
    } else {
      SameSum(ar, mem, v, w, m, n, c, k - 1);
    }
  }

  lemma SameEntry<T>(ar: Arith<T>, mem: seq<T>, v: View, w: View, sc: Scale<T>, m: nat, n: nat)
    requires Apart(v, |mem|) && Apart(w, |mem|) && Same(v, w) && m < v.M && n < v.N
    ensures v.c(m, n) == w.c(m, n) && Entry(ar, mem, v, sc, m, n) == Entry(ar, mem, w, sc, m, n)
  {
    SameSum(ar, mem, v, w, m, n, Start(ar, sc, mem[v.c(m, n)]), v.K);
  }

  lemma SameGemm<T>(ar: Arith<T>, mem: seq<T>, v: View, w: View, sc: Scale<T>)
    requires Apart(v, |mem|) && Apart(w, |mem|) && Same(v, w)
    ensures Gemm(ar, mem, v, sc) == Gemm(ar, mem, w, sc)
  {
    var x := Gemm(ar, mem, w, sc);
    GemmMeaning(ar, mem, w, sc);
    forall m: nat, n: nat | m < v.M && n < v.N ensures x[v.c(m, n)] == Entry(ar, mem, v, sc, m, n) {
      SameEntry(ar, mem, v, w, sc, m, n);
    }
    forall o: nat | o < |mem| && Outside(v, o) ensures x[o] == mem[o] {
      assert Outside(w, o);
    }
    MeaningUnique(ar, mem, x, v, sc);
  }

  /** Scalings that give the same initial values give the same result. */
  lemma SameStart<T>(ar: Arith<T>, mem: seq<T>, v: View, sc: Scale<T>, sc': Scale<T>)
    requires Apart(v, |mem|) && forall x: T :: x in mem ==> Start(ar, sc, x) == Start(ar, sc', x)
    ensures Gemm(ar, mem, v, sc) == Gemm(ar, mem, v, sc')
  {
    var x := Gemm(ar, mem, v, sc');
    GemmMeaning(ar, mem, v, sc');
    forall m: nat, n: nat | m < v.M && n < v.N ensures x[v.c(m, n)] == Entry(ar, mem, v, sc, m, n) {
      assert mem[v.c(m, n)] in mem;
    }
    MeaningUnique(ar, mem, x, v, sc);
  }

  // ----- the entries in any order

  predicate Inside(v: View, e: (nat, nat)) { e.0 < v.M && e.1 < v.N }

  /** Entries of C, none twice. */
  ghost predicate Distinct(v: View, order: seq<(nat, nat)>) {
    && (forall i :: 0 <= i < |order| ==> Inside(v, order[i]))
    && (forall i, j :: 0 <= i < j < |order| ==> order[i] != order[j])
  }

  /** The memory when these entries have been computed one after the other, each from the memory as it was then. */
  ghost function InOrder<T>(ar: Arith<T>, mem: seq<T>, v: View, sc: Scale<T>, order: seq<(nat, nat)>): (r: seq<T>)
    requires Apart(v, |mem|) && Distinct(v, order)
    ensures |r| == |mem|
  {
    if order == [] then mem
    else
      var (m, n) := order[|order| - 1];
      assert Inside(v, order[|order| - 1]);
      var before := InOrder(ar, mem, v, sc, order[..|order| - 1]);
      before[v.c(m, n) := Entry(ar, before, v, sc, m, n)]
  }

  lemma {:induction false} OrderFrame<T>(ar: Arith<T>, mem: seq<T>, v: View, sc: Scale<T>, order: seq<(nat, nat)>, w: nat)
    requires Apart(v, |mem|) && Distinct(v, order) && w < |mem|
    requires forall i :: 0 <= i < |order| ==> v.c(order[i].0, order[i].1) != w
    ensures InOrder(ar, mem, v, sc, order)[w] == mem[w]
  {
    if order == [] {
    } else {
      OrderFrame(ar, mem, v, sc, order[..|order| - 1], w);
    }
  }

  lemma {:induction false} SumKept<T>(ar: Arith<T>, mem: seq<T>, now: seq<T>, v: View, m: nat, n: nat, c: T, k: nat)
    requires Apart(v, |mem|) && |now| == |mem| && m < v.M && n < v.N && k <= v.K
    requires forall k: nat :: k < v.K ==> now[v.a(m, n, k)] == mem[v.a(m, n, k)] && now[v.b(k, n)] == mem[v.b(k, n)]
    ensures Sum(ar, now, v, m, n, c, k) == Sum(ar, mem, v, m, n, c, k)
  {
    if k == 0 {
    } else {
      SumKept(ar, mem, now, v, m, n, c, k - 1);
    }
  }

  /** An entry that is not yet computed comes out as from the initial memory. */
  lemma OrderEntry<T>(ar: Arith<T>, mem: seq<T>, v: View, sc: Scale<T>, order: seq<(nat, nat)>, m: nat, n: nat)
    requires Apart(v, |mem|) && Distinct(v, order) && m < v.M && n < v.N && (m, n) !in order
    ensures Entry(ar, InOrder(ar, mem, v, sc, order), v, sc, m, n) == Entry(ar, mem, v, sc, m, n)
  {
    var now := InOrder(ar, mem, v, sc, order);
    OrderFrame(ar, mem, v, sc, order, v.c(m, n));
    forall k: nat | k < v.K ensures now[v.a(m, n, k)] == mem[v.a(m, n, k)] && now[v.b(k, n)] == mem[v.b(k, n)] {
      OrderFrame(ar, mem, v, sc, order, v.a(m, n, k));
      OrderFrame(ar, mem, v, sc, order, v.b(k, n));
    }
    SumKept(ar, mem, now, v, m, n, Start(ar, sc, mem[v.c(m, n)]), v.K);
  }

  lemma {:induction false} OrderDone<T>(ar: Arith<T>, mem: seq<T>, v: View, sc: Scale<T>, order: seq<(nat, nat)>, i: nat)
    requires Apart(v, |mem|) && Distinct(v, order) && i < |order|
    ensures InOrder(ar, mem, v, sc, order)[v.c(order[i].0, order[i].1)] == Entry(ar, mem, v, sc, order[i].0, order[i].1)
  {
    var last := |order| - 1;
    OrderEntry(ar, mem, v, sc, order[..last], order[last].0, order[last].1);
    if i >= last {
    } else {
      OrderDone(ar, mem, v, sc, order[..last], i);
    }
  }

  lemma Position<X>(s: seq<X>, x: X) returns (i: nat)
    requires x in s
    ensures i < |s| && s[i] == x
  {
    i :| 0 <= i < |s| && s[i] == x;
  }

  /** However the cores' entries interleave, the multiply comes out the same: it only takes that every entry is computed
      once, since an entry reads no other. */
  lemma AnyOrder<T>(ar: Arith<T>, mem: seq<T>, v: View, sc: Scale<T>, order: seq<(nat, nat)>)
    requires Apart(v, |mem|) && Distinct(v, order) && forall m: nat, n: nat :: m < v.M && n < v.N ==> (m, n) in order
    ensures InOrder(ar, mem, v, sc, order) == Gemm(ar, mem, v, sc)
  {
    var x := InOrder(ar, mem, v, sc, order);
    forall m: nat, n: nat | m < v.M && n < v.N ensures x[v.c(m, n)] == Entry(ar, mem, v, sc, m, n) {
      assert (m, n) in order;
      var i := Position(order, (m, n));
      OrderDone(ar, mem, v, sc, order, i);
    }
    forall w: nat | w < |mem| && Outside(v, w) ensures x[w] == mem[w] {
      OrderFrame(ar, mem, v, sc, order, w);
    }
    MeaningUnique(ar, mem, x, v, sc);
  }

  // ----- the free arithmetic: results are the expressions that compute them

  datatype Term = Leaf(cell: nat) | Zero | Product(x: Term, y: Term) | MultiplyAdd(x: Term, y: Term, acc: Term)

  const FREE: Arith<Term> := Arith(Zero, (x: Term, y: Term) => Product(x, y), (x: Term, y: Term, z: Term) => MultiplyAdd(x, y, z))

  function Leaves(size: nat): (r: seq<Term>)
    ensures |r| == size && forall i :: 0 <= i < size ==> r[i] == Leaf(i)
  {
    seq(size, i requires 0 <= i < size => Leaf(i))
  }

  /** Over the free arithmetic, equal sums have read equal cells. */
  lemma {:induction false} FreeSum(v: View, w: View, size: nat, m: nat, n: nat, c: Term, k: nat, j: nat)
    requires Apart(v, size) && Apart(w, size) && m < v.M && m < w.M && n < v.N && n < w.N && k <= v.K && k <= w.K && j < k
    requires Sum(FREE, Leaves(size), v, m, n, c, k) == Sum(FREE, Leaves(size), w, m, n, c, k)
    ensures v.a(m, n, j) == w.a(m, n, j) && v.b(j, n) == w.b(j, n)
  {
    if j >= k - 1 {
    } else {
      FreeSum(v, w, size, m, n, c, k - 1, j);
    }
  }
}
