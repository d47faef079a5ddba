/** Counting the elements of a sequence that satisfy a predicate, and adding up a
    measure over a sequence: what shared counters of a protocol are compared with. */
module Counting {

  function CountIf<T>(f: T -> bool, s: seq<T>): (n: nat)
    ensures n <= |s|
  {
    if s == [] then 0 else CountIf(f, s[..|s| - 1]) + (if f(s[|s| - 1]) then 1 else 0)
  }

  lemma {:induction false} CountUpdate<T>(f: T -> bool, s: seq<T>, i: nat, x: T)
    requires i < |s|
    ensures CountIf(f, s[i := x]) == CountIf(f, s) - (if f(s[i]) then 1 else 0) + (if f(x) then 1 else 0)
  {
    var n := |s| - 1;
    if i == n {
      assert s[i := x][..n] == s[..n];
    } else {
      CountUpdate(f, s[..n], i, x);
      assert s[i := x][..n] == s[..n][i := x];
    }
  }

  lemma {:induction false} CountFull<T>(f: T -> bool, s: seq<T>)
    ensures CountIf(f, s) == |s| <==> forall i :: 0 <= i < |s| ==> f(s[i])
  {
    if s == [] {
    } else {
      var n := |s| - 1;
      CountFull(f, s[..n]);
      assert forall i :: 0 <= i < n ==> s[..n][i] == s[i];
    }
  }

  lemma {:induction false} CountNone<T>(f: T -> bool, s: seq<T>)
    ensures CountIf(f, s) == 0 <==> forall i :: 0 <= i < |s| ==> !f(s[i])
  {
    if s == [] {
    } else {
      var n := |s| - 1;
      CountNone(f, s[..n]);
      assert forall i :: 0 <= i < n ==> s[..n][i] == s[i];
    }
  }

  function Total<T>(f: T -> nat, s: seq<T>): (n: nat)
  {
    if s == [] then 0 else Total(f, s[..|s| - 1]) + f(s[|s| - 1])
  }

  lemma {:induction false} TotalUpdate<T>(f: T -> nat, s: seq<T>, i: nat, x: T)
    requires i < |s|
    ensures Total(f, s[i := x]) == Total(f, s) - f(s[i]) + f(x)
  {
    var n := |s| - 1;
    if i == n {
      assert s[i := x][..n] == s[..n];
    } else {
      TotalUpdate(f, s[..n], i, x);
      assert s[i := x][..n] == s[..n][i := x];
    }
  }

  lemma {:induction false} TotalBound<T>(f: T -> nat, s: seq<T>, b: nat)
    requires forall i :: 0 <= i < |s| ==> f(s[i]) <= b
    ensures Total(f, s) <= b * |s|
  {
    if s == [] {
    } else {
      var n := |s| - 1;
      assert forall i :: 0 <= i < n ==> s[..n][i] == s[i];
      TotalBound(f, s[..n], b);
    }
  }

  lemma {:induction false} TotalLeast<T>(f: T -> nat, s: seq<T>, s': seq<T>)
    requires |s| == |s'| && forall i :: 0 <= i < |s| ==> f(s'[i]) <= f(s[i])
    ensures Total(f, s') <= Total(f, s)
  {
    if s == [] {
    } else {
      var n := |s| - 1;
      TotalLeast(f, s[..n], s'[..n]);
    }
  }

  lemma {:induction false} TotalFalls<T>(f: T -> nat, s: seq<T>, s': seq<T>, i: nat)
    requires i < |s| == |s'| && f(s'[i]) < f(s[i]) && forall j :: 0 <= j < |s| ==> f(s'[j]) <= f(s[j])
    ensures Total(f, s') < Total(f, s)
  {
    var n := |s| - 1;
    if i < n {
      TotalFalls(f, s[..n], s'[..n], i);
    } else {
      TotalLeast(f, s[..n], s'[..n]);
    }
  }
}
