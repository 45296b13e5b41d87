/** The positions that a filter keeps, in order. */
module Positions {

  /** Positions below `n`, upwards. */
  ghost predicate Ascend(pos: seq<nat>, n: nat) {
    && (forall j :: 0 <= j < |pos| ==> pos[j] < n)
    && (forall i, j :: 0 <= i < j < |pos| ==> pos[i] < pos[j])
  }

  lemma OneMore(pos: seq<nat>, n: nat, take: bool) returns (more: seq<nat>)
    requires Ascend(pos, n)
    ensures more == pos + if take then [n] else []
    ensures Ascend(more, n + 1)
    ensures forall i :: i in more <==> i in pos || (take && i == n)
    ensures n !in pos
  {
    more := pos + if take then [n] else [];
  }

  lemma All(n: nat) returns (pos: seq<nat>)
    ensures |pos| == n && Ascend(pos, n) && forall i :: 0 <= i < n ==> pos[i] == i && i in pos
  {
    pos := seq(n, i => i);
    forall i | 0 <= i < n ensures pos[i] == i && i in pos {
      assert pos[i] in pos;
    }
  }
}
