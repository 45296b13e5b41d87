/** Orders on strings and what `table.sort` promises: an ordered permutation, nothing
    about the order of equal elements. */
module Ordering {

  /** Lua's `<=` on strings in the C locale. */
  predicate StringLe(a: string, b: string) {
    if a == "" then true
    else if b == "" then false
    else if a[0] != b[0] then a[0] < b[0]
    else StringLe(a[1..], b[1..])
  }

  lemma {:induction false} StringLeTotal(a: string, b: string)
    ensures StringLe(a, b) || StringLe(b, a)
    ensures StringLe(a, b) && StringLe(b, a) ==> a == b
  {
    if a != "" && b != "" && a[0] == b[0] {
      StringLeTotal(a[1..], b[1..]);
      assert a == [a[0]] + a[1..] && b == [b[0]] + b[1..];
    }
  }

  /** Shorter first, or the smaller character at the first place where they differ. */
  ghost predicate ComesFirst(a: string, b: string) {
    a <= b || exists i :: 0 <= i < |a| && i < |b| && a[..i] == b[..i] && a[i] < b[i]
  }

  lemma {:induction false} StringLeIs(a: string, b: string)
    ensures StringLe(a, b) <==> ComesFirst(a, b)
  {
    if a != "" && b != "" {
      if a[0] == b[0] {
        StringLeIs(a[1..], b[1..]);
        ComesFirstTail(a, b);
      } else {
        assert a[0] < b[0] ==> a[..0] == b[..0];
        assert forall i :: 0 < i < |a| && i < |b| ==> a[..i][0] != b[..i][0];
      }
    }
  }

  lemma ComesFirstTail(a: string, b: string)
    requires a != "" && b != "" && a[0] == b[0]
    ensures ComesFirst(a, b) <==> ComesFirst(a[1..], b[1..])
  {
    assert a == [a[0]] + a[1..] && b == [b[0]] + b[1..];
    if i :| 0 <= i < |a| && i < |b| && a[..i] == b[..i] && a[i] < b[i] {
      assert a[1..][..i - 1] == a[..i][1..] && b[1..][..i - 1] == b[..i][1..];
      assert a[1..][i - 1] < b[1..][i - 1];
    }
    if i :| 0 <= i < |a| - 1 && i < |b| - 1 && a[1..][..i] == b[1..][..i] && a[1..][i] < b[1..][i] {
      assert a[..i + 1] == [a[0]] + a[1..][..i] && b[..i + 1] == [b[0]] + b[1..][..i];
      assert a[i + 1] < b[i + 1];
    }
  }

  lemma {:induction false} StringLeTransitive(a: string, b: string, c: string)
    requires StringLe(a, b) && StringLe(b, c)
    ensures StringLe(a, c)
  {
    if a != "" && b != "" && c != "" && a[0] == b[0] == c[0] {
      StringLeTransitive(a[1..], b[1..], c[1..]);
    }
  }

  ghost predicate TotalPreorder<T(!new)>(le: (T, T) -> bool) {
    && (forall a, b :: le(a, b) || le(b, a))
    && (forall a, b, c :: le(a, b) && le(b, c) ==> le(a, c))
  }

  predicate SortedBy<T>(le: (T, T) -> bool, xs: seq<T>) {
    forall i, j :: 0 <= i < j < |xs| ==> le(xs[i], xs[j])
  }

  /** `table.sort`, in place on a list: an ordered permutation of the list. */
  method TableSort<T(!new)>(le: (T, T) -> bool, xs: seq<T>) returns (ys: seq<T>)
    requires TotalPreorder(le)
    ensures SortedBy(le, ys) && multiset(ys) == multiset(xs)
  {
    ys := [];
    for i := 0 to |xs|
      invariant SortedBy(le, ys) && multiset(ys) == multiset(xs[..i])
    {
      ys := Insert(le, ys, xs[i]);
      assert xs[..i + 1] == xs[..i] + [xs[i]];
    }
    assert xs[..|xs|] == xs;
  }

  method Insert<T(!new)>(le: (T, T) -> bool, ys: seq<T>, x: T) returns (zs: seq<T>)
    requires TotalPreorder(le) && SortedBy(le, ys)
    ensures SortedBy(le, zs) && multiset(zs) == multiset(ys) + multiset{x}
  {
    var k := |ys|;
    while k > 0 && !le(ys[k - 1], x)
      invariant 0 <= k <= |ys|
      invariant forall j :: k <= j < |ys| ==> le(x, ys[j])
    {
      k := k - 1;
    }
    InsertSorted(le, ys, x, k);
    zs := ys[..k] + [x] + ys[k..];
    assert ys == ys[..k] + ys[k..];
  }

  lemma InsertSorted<T(!new)>(le: (T, T) -> bool, ys: seq<T>, x: T, k: nat)
    requires TotalPreorder(le) && SortedBy(le, ys) && k <= |ys|
    requires forall j :: k <= j < |ys| ==> le(x, ys[j])
    requires k > 0 ==> le(ys[k - 1], x)
    ensures SortedBy(le, ys[..k] + [x] + ys[k..])
  {
    var zs := ys[..k] + [x] + ys[k..];
    forall i, j | 0 <= i < j < |zs| ensures le(zs[i], zs[j]) {
      if i < k == j {
        assert i < k - 1 ==> le(ys[i], ys[k - 1]);
      }
    }
  }

  /** When equal elements cannot be told apart, a list has only one ordered permutation. */
  lemma {:induction false} SortUnique<T>(le: (T, T) -> bool, xs: seq<T>, ys: seq<T>)
    requires SortedBy(le, xs) && SortedBy(le, ys) && multiset(xs) == multiset(ys)
    requires forall a, b :: a in xs && b in xs && le(a, b) && le(b, a) ==> a == b
    ensures xs == ys
    decreases |xs|
  {
    SameLength(xs, ys);
    if xs != [] {
      SameHead(le, xs, ys);
      Tail(xs);
      Tail(ys);
      SortedTail(le, xs);
      SortedTail(le, ys);
      hide SortedBy;
      SortUnique(le, xs[1..], ys[1..]);
      HeadAndTail(xs);
      HeadAndTail(ys);
    }
  }

  lemma SortedTail<T>(le: (T, T) -> bool, xs: seq<T>)
    requires SortedBy(le, xs) && xs != []
    ensures SortedBy(le, xs[1..]) && forall a :: a in xs[1..] ==> a in xs
  {
  }

  lemma HeadAndTail<T>(xs: seq<T>)
    requires xs != []
    ensures xs == [xs[0]] + xs[1..]
  {
  }

  lemma SameHead<T>(le: (T, T) -> bool, xs: seq<T>, ys: seq<T>)
    requires SortedBy(le, xs) && SortedBy(le, ys) && multiset(xs) == multiset(ys) && xs != [] && ys != []
    requires forall a, b :: a in xs && b in xs && le(a, b) && le(b, a) ==> a == b
    ensures xs[0] == ys[0]
  {
    assert xs[0] in multiset(ys) && ys[0] in multiset(xs);
    var i :| 0 <= i < |ys| && ys[i] == xs[0];
    var j :| 0 <= j < |xs| && xs[j] == ys[0];
    if i > 0 && j > 0 {
      assert le(ys[0], ys[i]) && le(xs[0], xs[j]);
    }
  }

  lemma Tail<T>(xs: seq<T>)
    requires xs != []
    ensures multiset(xs[1..]) == multiset(xs) - multiset{xs[0]}
  {
    assert xs == [xs[0]] + xs[1..];
  }

  lemma SameLength<T>(xs: seq<T>, ys: seq<T>)
    requires multiset(xs) == multiset(ys)
    ensures |xs| == |ys|
  {
    assert |multiset(xs)| == |xs| && |multiset(ys)| == |ys|;
  }

  lemma StringLeIsOrder()
    ensures TotalPreorder(StringLe)
  {
    forall a: string, b: string ensures StringLe(a, b) || StringLe(b, a) {
      StringLeTotal(a, b);
    }
    forall a: string, b: string, c: string | StringLe(a, b) && StringLe(b, c) ensures StringLe(a, c) {
      StringLeTransitive(a, b, c);
    }
  }

  // --- lists without duplicates ---

  predicate NoDups<T(==)>(xs: seq<T>) {
    forall i, j :: 0 <= i < j < |xs| ==> xs[i] != xs[j]
  }

  lemma {:induction false} NoDupsCount<T>(xs: seq<T>, x: T)
    requires NoDups(xs)
    ensures multiset(xs)[x] == if x in xs then 1 else 0
  {
    if xs != [] {
      NoDupsCount(xs[1..], x);
      assert xs == [xs[0]] + xs[1..];
    }
  }

  /** Lists without duplicates that have the same elements are permutations of each other. */
  lemma NoDupsPermutation<T>(xs: seq<T>, ys: seq<T>)
    requires NoDups(xs) && NoDups(ys) && forall x :: x in xs <==> x in ys
    ensures multiset(xs) == multiset(ys)
  {
    forall x | x in multiset(xs) + multiset(ys) ensures multiset(xs)[x] == multiset(ys)[x] {
      NoDupsCount(xs, x);
      NoDupsCount(ys, x);
    }
  }

  /** A permutation of a list without duplicates has none, and the same elements. */
  lemma Permuted<T>(xs: seq<T>, ys: seq<T>)
    requires multiset(xs) == multiset(ys) && NoDups(ys)
    ensures NoDups(xs) && forall x :: x in xs <==> x in ys
  {
    forall x ensures x in xs <==> x in ys {
      assert x in multiset(xs) <==> x in multiset(ys);
    }
    forall i, j | 0 <= i < j < |xs| ensures xs[i] != xs[j] {
      NoDupsCount(ys, xs[i]);
      CountTwo(xs, i, j);
    }
  }

  lemma CountTwo<T>(xs: seq<T>, i: nat, j: nat)
    requires i < j < |xs|
    ensures xs[i] == xs[j] ==> multiset(xs)[xs[i]] >= 2
  {
    assert xs == xs[..i] + [xs[i]] + xs[i + 1..j] + [xs[j]] + xs[j + 1..];
  }

  // --- taking one element out of a permutation ---

  lemma CutBoth<T>(a: seq<T>, b: seq<T>, k: nat)
    requires a != [] && k < |b| && b[k] == a[0] && multiset(a) == multiset(b)
    ensures a[..0] + a[1..] == a[1..]
    ensures multiset(a[1..]) == multiset(b[..k] + b[k + 1..])
  {
    NoFront(a);
    Cut(a, 0);
    Cut(b, k);
  }

  lemma NoFront<T>(xs: seq<T>)
    requires xs != []
    ensures xs[..0] + xs[1..] == xs[1..]
  {
  }

  lemma Cut<T>(xs: seq<T>, k: nat)
    requires k < |xs|
    ensures multiset(xs) == multiset{xs[k]} + multiset(xs[..k] + xs[k + 1..])
    ensures multiset(xs[..k] + xs[k + 1..]) == multiset(xs) - multiset{xs[k]}
  {
    var rest := xs[..k] + xs[k + 1..];
    assert xs == xs[..k] + [xs[k]] + xs[k + 1..];
    assert multiset(xs) == multiset(xs[..k]) + multiset{xs[k]} + multiset(xs[k + 1..]);
    assert multiset(rest) == multiset(xs[..k]) + multiset(xs[k + 1..]);
  }

}
