/** Stable sorting by a comparator, as `slice::sort_by` does it, and the order on
    strings that `String`'s `Ord` gives. */
module Ordering {

  ghost predicate TotalPreorder<T(!new)>(le: (T, T) -> bool) {
    && (forall a, b :: le(a, b) || le(b, a))
    && (forall a, b, c :: le(a, b) && le(b, c) ==> le(a, c))
  }

  ghost predicate Antisymmetric<T(!new)>(le: (T, T) -> bool) {
    forall a, b :: le(a, b) && le(b, a) ==> a == b
  }

  /** Elements that the order cannot tell apart are equal, among those of `xs`. */
  ghost predicate Distinguishes<T>(le: (T, T) -> bool, xs: seq<T>) {
    forall a, b | a in xs && b in xs && le(a, b) && le(b, a) :: a == b
  }

  ghost predicate SortedBy<T>(xs: seq<T>, le: (T, T) -> bool) {
    forall i, j | 0 <= i < j < |xs| :: le(xs[i], xs[j])
  }

  function Insert<T>(x: T, ys: seq<T>, le: (T, T) -> bool): seq<T> {
    if ys == [] then [x]
    else if le(x, ys[0]) then [x] + ys
    else [ys[0]] + Insert(x, ys[1..], le)
  }

  /** Stable: an element goes in front of later ones it does not exceed. */
  function Sort<T>(xs: seq<T>, le: (T, T) -> bool): seq<T> {
    if xs == [] then [] else Insert(xs[0], Sort(xs[1..], le), le)
  }

  lemma {:induction false} InsertPermutes<T>(x: T, ys: seq<T>, le: (T, T) -> bool)
    ensures multiset(Insert(x, ys, le)) == multiset{x} + multiset(ys)
  {
    if ys != [] && !le(x, ys[0]) {
      InsertPermutes(x, ys[1..], le);
      assert ys == [ys[0]] + ys[1..];
    }
  }

  lemma {:induction false} SortPermutes<T>(xs: seq<T>, le: (T, T) -> bool)
    ensures multiset(Sort(xs, le)) == multiset(xs)
    ensures |Sort(xs, le)| == |xs|
    ensures forall x :: x in Sort(xs, le) <==> x in xs
  {
    if xs != [] {
      SortPermutes(xs[1..], le);
      InsertPermutes(xs[0], Sort(xs[1..], le), le);
      assert xs == [xs[0]] + xs[1..];
    }
    SamePermutation(Sort(xs, le), xs);
  }

  lemma SamePermutation<T>(xs: seq<T>, ys: seq<T>)
    requires multiset(xs) == multiset(ys)
    ensures |xs| == |ys|
    ensures forall x :: x in xs <==> x in ys
  {
    assert |multiset(xs)| == |xs| && |multiset(ys)| == |ys|;
    forall x ensures x in xs <==> x in ys {
      assert x in xs <==> x in multiset(xs);
      assert x in ys <==> x in multiset(ys);
    }
  }

  lemma {:induction false} InsertSorts<T(!new)>(x: T, ys: seq<T>, le: (T, T) -> bool)
    requires TotalPreorder(le) && SortedBy(ys, le)
    ensures SortedBy(Insert(x, ys, le), le)
  {
    if ys != [] {
      if le(x, ys[0]) {
        forall i | 0 <= i < |ys| ensures le(x, ys[i]) {
          assert le(ys[0], ys[i]) || i == 0;
        }
      } else {
        InsertSorts(x, ys[1..], le);
        var r := Insert(x, ys[1..], le);
        InsertPermutes(x, ys[1..], le);
        forall i | 0 <= i < |r| ensures le(ys[0], r[i]) {
          assert r[i] in multiset(r);
          assert r[i] == x || r[i] in ys[1..];
        }
      }
    }
  }

  lemma {:induction false} SortSorts<T(!new)>(xs: seq<T>, le: (T, T) -> bool)
    requires TotalPreorder(le)
    ensures SortedBy(Sort(xs, le), le)
  {
    if xs != [] {
      SortSorts(xs[1..], le);
      InsertSorts(xs[0], Sort(xs[1..], le), le);
    }
  }

  /** A sorted arrangement is unique once the order tells its elements apart. */
  lemma {:induction false} SortedUnique<T(!new)>(xs: seq<T>, ys: seq<T>, le: (T, T) -> bool)
    requires TotalPreorder(le) && Distinguishes(le, xs)
    requires SortedBy(xs, le) && SortedBy(ys, le) && multiset(xs) == multiset(ys)
    ensures xs == ys
  {
    SamePermutation(xs, ys);
    if xs != [] {
      LeastFirst(xs, ys, le);
      LeastFirst(ys, xs, le);
      TailPermutes(xs, ys);
      forall a, b | a in xs[1..] && b in xs[1..] && le(a, b) && le(b, a) ensures a == b {
        assert a in xs && b in xs;
      }
      SortedUnique(xs[1..], ys[1..], le);
      assert xs == [xs[0]] + xs[1..] && ys == [ys[0]] + ys[1..];
    }
  }

  lemma LeastFirst<T(!new)>(xs: seq<T>, ys: seq<T>, le: (T, T) -> bool)
    requires TotalPreorder(le) && SortedBy(xs, le) && xs != [] && ys != []
    requires forall x :: x in xs <==> x in ys
    ensures le(xs[0], ys[0])
  {
    assert ys[0] in xs;
    var i :| 0 <= i < |xs| && xs[i] == ys[0];
    assert le(xs[0], xs[0]);
    assert le(xs[0], xs[i]);
  }

  lemma TailPermutes<T>(xs: seq<T>, ys: seq<T>)
    requires xs != [] && ys != [] && xs[0] == ys[0] && multiset(xs) == multiset(ys)
    ensures multiset(xs[1..]) == multiset(ys[1..])
  {
    assert xs == [xs[0]] + xs[1..] && ys == [ys[0]] + ys[1..];
    assert multiset(xs[1..]) == multiset(xs) - multiset{xs[0]};
    assert multiset(ys[1..]) == multiset(ys) - multiset{ys[0]};
  }

  /** First by `le1`; where that sees no difference, by `le2`. */
  ghost predicate Then<T>(le1: (T, T) -> bool, le2: (T, T) -> bool, a: T, b: T) {
    le1(a, b) && (le1(b, a) ==> le2(a, b))
  }

  lemma {:induction false} InsertStable<T(!new)>(x: T, ys: seq<T>, le1: (T, T) -> bool, le2: (T, T) -> bool)
    requires TotalPreorder(le1) && (forall y | y in ys :: le2(x, y))
    requires forall i, j | 0 <= i < j < |ys| :: Then(le1, le2, ys[i], ys[j])
    ensures forall i, j | 0 <= i < j < |Insert(x, ys, le1)| ::
      Then(le1, le2, Insert(x, ys, le1)[i], Insert(x, ys, le1)[j])
  {
    if ys != [] {
      if le1(x, ys[0]) {
        forall j | 0 <= j < |ys| ensures Then(le1, le2, x, ys[j]) {
          assert j == 0 || Then(le1, le2, ys[0], ys[j]);
        }
      } else {
        InsertStable(x, ys[1..], le1, le2);
        InsertPermutes(x, ys[1..], le1);
        var r := Insert(x, ys[1..], le1);
        forall j | 0 <= j < |r| ensures Then(le1, le2, ys[0], r[j]) {
          assert r[j] in multiset(r);
          if r[j] in ys[1..] {
            var k :| 0 <= k < |ys[1..]| && ys[1..][k] == r[j];
            assert Then(le1, le2, ys[0], ys[k+1]);
          }
        }
      }
    }
  }

  /** Sorting is stable: what was in order by `le2` stays so among elements that `le1`
      does not tell apart. */
  lemma {:induction false} SortIsStable<T(!new)>(xs: seq<T>, le1: (T, T) -> bool, le2: (T, T) -> bool)
    requires TotalPreorder(le1) && SortedBy(xs, le2)
    ensures forall i, j | 0 <= i < j < |Sort(xs, le1)| :: Then(le1, le2, Sort(xs, le1)[i], Sort(xs, le1)[j])
  {
    if xs != [] {
      SortIsStable(xs[1..], le1, le2);
      SortPermutes(xs[1..], le1);
      forall y | y in Sort(xs[1..], le1) ensures le2(xs[0], y) {
        var k :| 0 <= k < |xs[1..]| && xs[1..][k] == y;
        assert le2(xs[0], xs[k+1]);
      }
      InsertStable(xs[0], Sort(xs[1..], le1), le1, le2);
    }
  }

  // ---- Vec::dedup_by -------------------------------------------------------------------

  /** Of each run of consecutive same elements, the first. */
  function Dedup<T>(xs: seq<T>, same: (T, T) -> bool): seq<T> {
    if |xs| < 2 then xs
    else
      var n := |xs| - 1;
      if same(xs[n], xs[n-1]) then Dedup(xs[..n], same) else Dedup(xs[..n], same) + [xs[n]]
  }

  ghost predicate Equivalence<T(!new)>(same: (T, T) -> bool) {
    && (forall a :: same(a, a))
    && (forall a, b :: same(a, b) ==> same(b, a))
    && (forall a, b, c :: same(a, b) && same(b, c) ==> same(a, c))
  }

  /** In this order, elements that are the same stand together. */
  ghost predicate KeepsTogether<T(!new)>(le: (T, T) -> bool, same: (T, T) -> bool) {
    forall a, b, c :: le(a, b) && le(b, c) && same(a, c) ==> same(a, b)
  }

  ghost predicate AllDiffer<T>(xs: seq<T>, same: (T, T) -> bool) {
    forall i, j | 0 <= i < j < |xs| :: !same(xs[i], xs[j])
  }

  ghost predicate HasRep<T>(xs: seq<T>, le: (T, T) -> bool, same: (T, T) -> bool, x: T) {
    exists y :: y in xs && same(y, x) && le(y, x)
  }

  lemma BeforeLast<T(!new)>(xs: seq<T>, le: (T, T) -> bool, same: (T, T) -> bool, y: T)
    requires TotalPreorder(le) && Equivalence(same) && KeepsTogether(le, same) && SortedBy(xs, le)
    requires |xs| >= 2 && y in xs[..|xs|-1]
    ensures var n := |xs| - 1; le(y, xs[n]) && (same(y, xs[n]) ==> same(xs[n], xs[n-1]))
  {
    var n := |xs| - 1;
    var i :| 0 <= i < n && xs[i] == y;
    if i < n - 1 {
      assert le(xs[i], xs[n-1]) && le(xs[n-1], xs[n]);
      assert same(y, xs[n]) ==> same(y, xs[n-1]);
    }
  }

  /** Deduplicating a sorted sequence leaves no two elements that are the same. */
  lemma {:induction false} DedupSorted<T(!new)>(xs: seq<T>, le: (T, T) -> bool, same: (T, T) -> bool)
    requires TotalPreorder(le) && Equivalence(same) && KeepsTogether(le, same) && SortedBy(xs, le)
    ensures AllDiffer(Dedup(xs, same), same) && SortedBy(Dedup(xs, same), le)
    ensures forall y | y in Dedup(xs, same) :: y in xs
  {
    if |xs| >= 2 {
      var n := |xs| - 1;
      DedupSorted(xs[..n], le, same);
      var kept := Dedup(xs[..n], same);
      if !same(xs[n], xs[n-1]) {
        forall i | 0 <= i < |kept| ensures le(kept[i], xs[n]) && !same(kept[i], xs[n]) {
          BeforeLast(xs, le, same, kept[i]);
        }
      }
    }
  }

  /** Deduplicating a sorted sequence keeps of every class its first element. */
  lemma {:induction false} DedupRepresents<T(!new)>(xs: seq<T>, le: (T, T) -> bool, same: (T, T) -> bool, x: T)
    requires TotalPreorder(le) && Equivalence(same) && KeepsTogether(le, same) && SortedBy(xs, le)
    requires x in xs
    ensures HasRep(Dedup(xs, same), le, same, x)
  {
    if |xs| < 2 {
      assert le(x, x) && same(x, x);
    } else {
      var n := |xs| - 1;
      var init, kept := xs[..n], Dedup(xs[..n], same);
      if x in init {
        DedupRepresents(init, le, same, x);
        var y :| y in kept && same(y, x) && le(y, x);
        assert y in Dedup(xs, same);
      } else if same(xs[n], xs[n-1]) {
        assert xs[n-1] == init[n-1] && le(xs[n-1], xs[n]);
        DedupRepresents(init, le, same, xs[n-1]);
        var y :| y in kept && same(y, xs[n-1]) && le(y, xs[n-1]);
        assert same(y, x) && le(y, x);
      } else {
        assert x == xs[n] && le(x, x) && same(x, x);
        assert x in Dedup(xs, same);
      }
    }
  }

  // ---- Vec::truncate --------------------------------------------------------------------

  function Truncate<T>(xs: seq<T>, n: nat): seq<T> {
    if |xs| <= n then xs else xs[..n]
  }

  // ---- duplicate-free sequences ---------------------------------------------------

  ghost predicate NoDup<T>(xs: seq<T>) {
    forall i, j | 0 <= i < j < |xs| :: xs[i] != xs[j]
  }

  lemma {:induction false} NoDupMultiset<T>(xs: seq<T>)
    requires NoDup(xs)
    ensures forall x :: multiset(xs)[x] == if x in xs then 1 else 0
  {
    if xs != [] {
      NoDupMultiset(xs[1..]);
      assert xs == [xs[0]] + xs[1..];
      assert xs[0] !in xs[1..];
    }
  }

  /** Two duplicate-free sequences of the same elements are permutations. */
  lemma NoDupPermutation<T>(xs: seq<T>, ys: seq<T>)
    requires NoDup(xs) && NoDup(ys)
    requires forall x :: x in xs <==> x in ys
    ensures multiset(xs) == multiset(ys)
  {
    NoDupMultiset(xs);
    NoDupMultiset(ys);
  }

  lemma SubsetSize<T>(a: set<T>, b: set<T>)
    requires a <= b
    ensures |a| <= |b|
  {
    assert b == a + (b - a);
  }

  lemma {:induction false} NoDupSetSize<T>(xs: seq<T>)
    requires NoDup(xs)
    ensures |set x | x in xs| == |xs|
  {
    var s := set x | x in xs;
    if xs == [] {
      assert s == {};
    } else {
      NoDupSetSize(xs[1..]);
      assert s == {xs[0]} + set x | x in xs[1..];
      assert xs[0] !in xs[1..];
    }
  }

  /** A permutation of a non-empty sequence, with its last element taken out. */
  lemma TakeOut<T>(a: seq<T>, b: seq<T>) returns (i: nat)
    requires a != [] && multiset(a) == multiset(b)
    ensures i < |b| && b[i] == a[|a|-1] && multiset(a[..|a|-1]) == multiset(b[..i] + b[i+1..])
  {
    var x := a[|a|-1];
    SamePermutation(a, b);
    assert x in b;
    i :| 0 <= i < |b| && b[i] == x;
    CountsWithout(b, i);
    CountsWithout(a, |a| - 1);
    assert a[..|a|-1] + a[|a|..] == a[..|a|-1];
  }

  lemma CountsWithout<T>(b: seq<T>, i: nat)
    requires i < |b|
    ensures multiset(b[..i] + b[i+1..]) == multiset(b) - multiset{b[i]}
  {
    assert b == b[..i] + ([b[i]] + b[i+1..]);
  }

  lemma PermutationKeepsNoDup<T>(xs: seq<T>, ys: seq<T>)
    requires multiset(xs) == multiset(ys) && NoDup(xs)
    ensures NoDup(ys)
  {
    NoDupMultiset(xs);
    forall i, j | 0 <= i < j < |ys| ensures ys[i] != ys[j] {
      TwiceCounted(ys, i, j);
    }
  }

  lemma TwiceCounted<T>(ys: seq<T>, i: int, j: int)
    requires 0 <= i < j < |ys|
    ensures ys[i] == ys[j] ==> multiset(ys)[ys[i]] >= 2
  {
    assert ys == ys[..i] + ([ys[i]] + (ys[i+1..j] + ([ys[j]] + ys[j+1..])));
  }

  // ---- strings -----------------------------------------------------------------

  predicate StrLe(a: string, b: string) {
    a == [] || (b != [] && (a[0] < b[0] || (a[0] == b[0] && StrLe(a[1..], b[1..]))))
  }

  lemma {:induction false} StrLeRefl(a: string)
    ensures StrLe(a, a)
  {
    if a != [] { StrLeRefl(a[1..]); }
  }

  lemma {:induction false} StrLeTotal(a: string, b: string)
    ensures StrLe(a, b) || StrLe(b, a)
  {
    if a != [] && b != [] { StrLeTotal(a[1..], b[1..]); }
  }

  lemma {:induction false} StrLeAntisym(a: string, b: string)
    requires StrLe(a, b) && StrLe(b, a)
    ensures a == b
  {
    if a != [] {
      StrLeAntisym(a[1..], b[1..]);
      assert a == [a[0]] + a[1..] && b == [b[0]] + b[1..];
    }
  }

  lemma {:induction false} StrLeTrans(a: string, b: string, c: string)
    requires StrLe(a, b) && StrLe(b, c)
    ensures StrLe(a, c)
  {
    if a != [] && a[0] == b[0] && b[0] == c[0] { StrLeTrans(a[1..], b[1..], c[1..]); }
  }

  lemma StrLeTotalOrder()
    ensures TotalPreorder(StrLe) && Antisymmetric(StrLe)
  {
    forall a, b ensures StrLe(a, b) || StrLe(b, a) { StrLeTotal(a, b); }
    forall a, b, c | StrLe(a, b) && StrLe(b, c) ensures StrLe(a, c) { StrLeTrans(a, b, c); }
    forall a, b | StrLe(a, b) && StrLe(b, a) ensures a == b { StrLeAntisym(a, b); }
  }
}
