/** Keeping the first of several items with the same key. */
module Dedup {

  function Keys<T, K>(key: T -> K, xs: seq<T>): seq<K> {
    seq(|xs|, i requires 0 <= i < |xs| => key(xs[i]))
  }

  /** The items that no earlier item shares its key with. */
  function FirstOf<T, K(==)>(key: T -> K, xs: seq<T>): seq<T> {
    if xs == [] then []
    else
      var init, x := xs[..|xs| - 1], xs[|xs| - 1];
      FirstOf(key, init) + if key(x) in Keys(key, init) then [] else [x]
  }

  /** The positions of those items. */
  function Positions<T, K(==)>(key: T -> K, xs: seq<T>): seq<nat> {
    if xs == [] then []
    else
      var init, x := xs[..|xs| - 1], xs[|xs| - 1];
      Positions(key, init) + if key(x) in Keys(key, init) then [] else [|xs| - 1]
  }

  /** `i` is the first position with its key. */
  predicate IsFirst<T, K(==)>(key: T -> K, xs: seq<T>, i: nat)
    requires i < |xs|
  {
    forall j :: 0 <= j < i ==> key(xs[j]) != key(xs[i])
  }

  lemma FirstOfMore<T, K>(key: T -> K, xs: seq<T>, x: T)
    ensures FirstOf(key, xs + [x]) == FirstOf(key, xs) + if key(x) in Keys(key, xs) then [] else [x]
  {
    assert (xs + [x])[..|xs|] == xs;
  }

  lemma KeysMore<T, K>(key: T -> K, xs: seq<T>, x: T)
    ensures Keys(key, xs + [x]) == Keys(key, xs) + [key(x)]
  {
  }

  /** The kept items, in order, are those at the first position of their key: positions
      increase, and a position is among them exactly when it is the first of its key. */
  lemma {:induction false} KeepsFirsts<T, K>(key: T -> K, xs: seq<T>)
    ensures var p := Positions(key, xs);
            && |p| == |FirstOf(key, xs)|
            && (forall j :: 0 <= j < |p| ==> p[j] < |xs| && FirstOf(key, xs)[j] == xs[p[j]])
            && (forall i, j :: 0 <= i < j < |p| ==> p[i] < p[j])
            && (forall i :: 0 <= i < |xs| ==> (i in p <==> IsFirst(key, xs, i)))
  {
    if xs != [] {
      var n := |xs| - 1;
      var init := xs[..n];
      KeepsFirsts(key, init);
      var p := Positions(key, init);
      assert IsFirst(key, xs, n) <==> key(xs[n]) !in Keys(key, init) by {
        KeyMember(key, init, key(xs[n]));
      }
      forall i | 0 <= i < n ensures IsFirst(key, xs, i) <==> IsFirst(key, init, i) {
        assert forall j :: 0 <= j <= i ==> init[j] == xs[j];
      }
    }
  }

  lemma KeyMember<T, K>(key: T -> K, xs: seq<T>, k: K)
    ensures k in Keys(key, xs) <==> exists j :: 0 <= j < |xs| && key(xs[j]) == k
  {
    if k in Keys(key, xs) {
      var j :| 0 <= j < |Keys(key, xs)| && Keys(key, xs)[j] == k;
      assert key(xs[j]) == k;
    }
    if j :| 0 <= j < |xs| && key(xs[j]) == k {
      assert Keys(key, xs)[j] == k;
    }
  }

  /** Every key is kept exactly once. */
  lemma {:induction false} EachKeyOnce<T, K>(key: T -> K, xs: seq<T>)
    ensures forall k :: k in Keys(key, FirstOf(key, xs)) <==> k in Keys(key, xs)
    ensures forall i, j :: 0 <= i < j < |FirstOf(key, xs)| ==> key(FirstOf(key, xs)[i]) != key(FirstOf(key, xs)[j])
  {
    if xs != [] {
      var n := |xs| - 1;
      var init, x := xs[..n], xs[n];
      EachKeyOnce(key, init);
      var kept := FirstOf(key, init);
      assert forall k :: k in Keys(key, kept) <==> k in Keys(key, init);
      assert xs == init + [x];
      assert Keys(key, xs) == Keys(key, init) + [key(x)];
      assert Keys(key, kept + [x]) == Keys(key, kept) + [key(x)];
      if key(x) !in Keys(key, init) {
        forall i | 0 <= i < |kept| ensures key(kept[i]) != key(x) {
          KeepsFirsts(key, init);
          var p := Positions(key, init);
          assert kept[i] == init[p[i]];
          KeyMember(key, init, key(x));
        }
      } else {
        assert FirstOf(key, xs) == kept;
      }
    }
  }

  /** Items with distinct keys are all kept. */
  lemma {:induction false} DistinctKept<T, K>(key: T -> K, xs: seq<T>)
    requires forall i, j :: 0 <= i < j < |xs| ==> key(xs[i]) != key(xs[j])
    ensures FirstOf(key, xs) == xs
  {
    if xs != [] {
      var n := |xs| - 1;
      DistinctKept(key, xs[..n]);
      KeyMember(key, xs[..n], key(xs[n]));
      assert xs == xs[..n] + [xs[n]];
    }
  }
}
