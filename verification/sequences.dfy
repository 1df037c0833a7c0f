/** Facts about duplicate-free sequences, shared by the timer modules. */
module Sequences {

  ghost predicate NoDup<T>(l: seq<T>) {
    forall i, j :: 0 <= i < j < |l| ==> l[i] != l[j]
  }

  /** `l` with the first occurrence of `x` taken out: what unlinking one node does to a list. */
  function Without<T(==)>(l: seq<T>, x: T): (r: seq<T>)
    ensures x !in l ==> r == l
    ensures x in l ==> |r| == |l| - 1
    ensures forall y :: y in r ==> y in l
    ensures forall y :: y in l && y != x ==> y in r
  {
    if l == [] then []
    else if l[0] == x then l[1..]
    else
      var r := [l[0]] + Without(l[1..], x);
      assert l == [l[0]] + l[1..];
      r
  }

  lemma ConsNoDup<T>(x: T, l: seq<T>)
    requires NoDup(l) && x !in l
    ensures NoDup([x] + l)
  {
    var r := [x] + l;
    forall i, j | 0 <= i < j < |r| ensures r[i] != r[j] {
      assert r[j] == l[j - 1];
    }
  }

  lemma {:induction false} WithoutKeepsNoDup<T>(l: seq<T>, x: T)
    requires NoDup(l)
    ensures NoDup(Without(l, x))
    ensures x !in Without(l, x)
  {
    if l != [] {
      if l[0] == x {
        assert forall i :: 0 <= i < |l[1..]| ==> l[1..][i] == l[i + 1] != l[0];
      } else {
        assert forall i :: 0 <= i < |l[1..]| ==> l[1..][i] == l[i + 1];
        WithoutKeepsNoDup(l[1..], x);
        ConsNoDup(l[0], Without(l[1..], x));
      }
    }
  }

  /** Removing an element acts on the prefix that holds it and leaves the rest alone. */
  lemma {:induction false} WithoutSplit<T>(a: seq<T>, b: seq<T>, x: T)
    requires NoDup(a + b)
    ensures Without(a + b, x) == Without(a, x) + Without(b, x)
  {
    var l := a + b;
    if a == [] {
      assert l == b;
    } else {
      assert l[1..] == a[1..] + b;
      assert forall i :: 0 <= i < |l[1..]| ==> l[1..][i] == l[i + 1];
      if a[0] == x {
        assert forall i :: 0 <= i < |b| ==> b[i] == l[|a| + i] && l[0] != l[|a| + i];
        assert x !in b;
      } else {
        WithoutSplit(a[1..], b, x);
      }
    }
  }
}
