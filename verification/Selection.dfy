/** lib/runner.lua, `select_testcases`: running only the named tests. */
module Selection {
  import opened Suite

  function Keep(tests: seq<Test>, names: set<string>): seq<Test> {
    if tests == [] then [] else KeepOne(tests[0], names) + Keep(tests[1..], names)
  }

  function KeepOne(test: Test, names: set<string>): seq<Test> {
    if test.name in names then [test] else []
  }

  /** A source with only its selected tests; it is dropped if it loses all of them. */
  function SelectOne(src: Source, names: set<string>): seq<Source> {
    var tests := Keep(src.tests, names);
    if tests == [] then [] else [src.(tests := tests)]
  }

  function Select(list: seq<Source>, names: set<string>): seq<Source> {
    if list == [] then [] else SelectOne(list[0], names) + Select(list[1..], names)
  }

  function CountIn(tests: seq<Test>, name: string): nat {
    if tests == [] then 0 else (if tests[0].name == name then 1 else 0) + CountIn(tests[1..], name)
  }

  /** Number of tests of that name over all sources. */
  function Count(list: seq<Source>, name: string): nat {
    if list == [] then 0 else CountIn(list[0].tests, name) + Count(list[1..], name)
  }

  function NameSet(names: seq<string>): set<string> {
    set n | n in names
  }

  // --- the loops of the source ---

  method SelectTestcases(list: seq<Source>, testcases: seq<string>)
    returns (newlist: seq<Source>, targets: map<string, nat>)
    ensures newlist == Select(list, NameSet(testcases))
    ensures targets.Keys == NameSet(testcases)
    ensures forall n :: n in testcases ==> targets[n] == Count(list, n)
  {
    targets := map[];
    for i := 0 to |testcases|
      invariant targets.Keys == NameSet(testcases[..i])
      invariant forall n :: n in targets ==> targets[n] == 0
    {
      targets := targets[testcases[i] := 0];
      assert testcases[..i + 1] == testcases[..i] + [testcases[i]];
    }
    assert testcases[..|testcases|] == testcases;
    hide Select, Count;
    ghost var names := NameSet(testcases);
    newlist := [];
    SelectNone(names);
    for i := 0 to |list|
      invariant targets.Keys == names
      invariant newlist == Select(list[..i], names)
      invariant forall n :: n in names ==> targets[n] == Count(list[..i], n)
    {
      var src := list[i];
      var tests;
      tests, targets := SelectTests(src.tests, targets, names);
      SelectNext(list, i, names);
      if |tests| > 0 {
        newlist := newlist + [src.(tests := tests)];
      }
    }
    assert list[..|list|] == list;
  }

  /** The inner loop of `select_testcases`. */
  method SelectTests(all: seq<Test>, before: map<string, nat>, ghost names: set<string>)
    returns (tests: seq<Test>, targets: map<string, nat>)
    requires before.Keys == names
    ensures tests == Keep(all, names)
    ensures targets.Keys == names
    ensures forall n :: n in names ==> targets[n] == before[n] + CountIn(all, n)
  {
    hide Keep, CountIn;
    tests, targets := [], before;
    KeepNone(names);
    for i := 0 to |all|
      invariant targets.Keys == names
      invariant tests == Keep(all[..i], names)
      invariant forall n :: n in names ==> targets[n] == before[n] + CountIn(all[..i], n)
    {
      var test := all[i];
      KeepNext(all, i, names);
      if test.name in targets {
        tests := tests + [test];
        targets := targets[test.name := targets[test.name] + 1];
      }
    }
    assert all[..|all|] == all;
  }

  lemma KeepNone(names: set<string>)
    ensures Keep([], names) == [] && forall n :: CountIn([], n) == 0
  {
  }

  lemma {:induction false} KeepNext(all: seq<Test>, i: nat, names: set<string>)
    requires i < |all|
    ensures Keep(all[..i + 1], names) == Keep(all[..i], names) + KeepOne(all[i], names)
    ensures forall n :: CountIn(all[..i + 1], n) == CountIn(all[..i], n) + if all[i].name == n then 1 else 0
  {
    assert all[..i + 1][1..] == all[1..][..i];
    if i > 0 {
      assert all[..i][1..] == all[1..][..i - 1];
      KeepNext(all[1..], i - 1, names);
    }
  }

  lemma SelectNone(names: set<string>)
    ensures Select([], names) == [] && forall n :: Count([], n) == 0
  {
  }

  lemma {:induction false} SelectNext(list: seq<Source>, i: nat, names: set<string>)
    requires i < |list|
    ensures Select(list[..i + 1], names) == Select(list[..i], names) + SelectOne(list[i], names)
    ensures forall n :: Count(list[..i + 1], n) == Count(list[..i], n) + CountIn(list[i].tests, n)
  {
    assert list[..i + 1][1..] == list[1..][..i];
    if i > 0 {
      assert list[..i][1..] == list[1..][..i - 1];
      SelectNext(list[1..], i - 1, names);
    }
  }

  // --- what selection means ---

  lemma {:induction false} KeepKeep(tests: seq<Test>, a: set<string>, b: set<string>)
    ensures Keep(Keep(tests, a), b) == Keep(tests, a * b)
  {
    if tests != [] {
      KeepKeep(tests[1..], a, b);
      KeepConcat(KeepOne(tests[0], a), Keep(tests[1..], a), b);
    }
  }

  lemma {:induction false} KeepConcat(s: seq<Test>, t: seq<Test>, names: set<string>)
    ensures Keep(s + t, names) == Keep(s, names) + Keep(t, names)
  {
    if s == [] {
      assert s + t == t;
    } else {
      assert (s + t)[1..] == s[1..] + t;
      KeepConcat(s[1..], t, names);
      hide KeepOne;
    }
  }

  /** Selecting by `a` and then by `b` is selecting by the names in both. */
  lemma {:induction false} SelectSelect(list: seq<Source>, a: set<string>, b: set<string>)
    ensures Select(Select(list, a), b) == Select(list, a * b)
  {
    if list != [] {
      SelectSelect(list[1..], a, b);
      SelectConcat(SelectOne(list[0], a), Select(list[1..], a), b);
      SelectOneTwice(list[0], a, b);
    }
  }

  lemma SelectOneTwice(src: Source, a: set<string>, b: set<string>)
    ensures Select(SelectOne(src, a), b) == SelectOne(src, a * b)
  {
    KeepKeep(src.tests, a, b);
    if Keep(src.tests, a) != [] {
      SelectSingle(src.(tests := Keep(src.tests, a)), b);
    }
  }

  lemma SelectSingle(src: Source, names: set<string>)
    ensures Select([src], names) == SelectOne(src, names)
  {
    assert [src][1..] == [];
  }

  lemma {:induction false} SelectConcat(x: seq<Source>, y: seq<Source>, names: set<string>)
    ensures Select(x + y, names) == Select(x, names) + Select(y, names)
  {
    if x == [] {
      assert x + y == y;
    } else {
      assert (x + y)[1..] == x[1..] + y;
      SelectConcat(x[1..], y, names);
      hide SelectOne;
    }
  }

  /** Indices of the sources that keep a test. */
  function Kept(list: seq<Source>, names: set<string>): seq<nat> {
    if list == [] then []
    else
      (if Keep(list[|list| - 1].tests, names) == [] then Kept(list[..|list| - 1], names)
       else Kept(list[..|list| - 1], names) + [|list| - 1])
  }

  /** `out` is `list` filtered: item `j` is source `kept[j]` with its hooks and the rest
      of its record untouched, in order, and a source is missing exactly when it keeps no test. */
  ghost predicate IsFilter(list: seq<Source>, names: set<string>, kept: seq<nat>, out: seq<Source>) {
    && |kept| == |out|
    && (forall j :: 0 <= j < |kept| ==>
          kept[j] < |list| && out[j] == list[kept[j]].(tests := Keep(list[kept[j]].tests, names)))
    && (forall i, j :: 0 <= i < j < |kept| ==> kept[i] < kept[j])
    && (forall i :: 0 <= i < |list| ==> (i in kept <==> Keep(list[i].tests, names) != []))
  }

  /** Selection is an order-preserving filter that keeps the hooks. */
  lemma {:induction false} SelectIsFilter(list: seq<Source>, names: set<string>)
    ensures IsFilter(list, names, Kept(list, names), Select(list, names))
  {
    if list != [] {
      hide *;
      var init, src := list[..|list| - 1], list[|list| - 1];
      SelectIsFilter(init, names);
      KeptSnoc(list, names);
      SelectSnoc(list, names);
      if Keep(src.tests, names) == [] {
        FilterSkip(list, names, Kept(init, names), Select(init, names));
      } else {
        FilterTake(list, names, Kept(init, names), Select(init, names), src.(tests := Keep(src.tests, names)));
      }
    }
  }

  lemma SelectSnoc(list: seq<Source>, names: set<string>)
    requires list != []
    ensures var n := |list| - 1;
            var tests := Keep(list[n].tests, names);
            && (tests == [] ==> Select(list, names) == Select(list[..n], names))
            && (tests != [] ==> Select(list, names) == Select(list[..n], names) + [list[n].(tests := tests)])
  {
    var n := |list| - 1;
    assert list == list[..n] + [list[n]];
    SelectConcat(list[..n], [list[n]], names);
    SelectSingle(list[n], names);
  }

  lemma KeptSnoc(list: seq<Source>, names: set<string>)
    requires list != []
    ensures var n := |list| - 1;
            && (Keep(list[n].tests, names) == [] ==> Kept(list, names) == Kept(list[..n], names))
            && (Keep(list[n].tests, names) != [] ==> Kept(list, names) == Kept(list[..n], names) + [n])
  {
  }

  lemma FilterSkip(list: seq<Source>, names: set<string>, kept: seq<nat>, out: seq<Source>)
    requires list != [] && IsFilter(list[..|list| - 1], names, kept, out)
    requires Keep(list[|list| - 1].tests, names) == []
    ensures IsFilter(list, names, kept, out)
  {
    hide Keep;
  }

  lemma FilterTake(list: seq<Source>, names: set<string>, kept: seq<nat>, out: seq<Source>, src: Source)
    requires list != [] && IsFilter(list[..|list| - 1], names, kept, out)
    requires Keep(list[|list| - 1].tests, names) != []
    requires src == list[|list| - 1].(tests := Keep(list[|list| - 1].tests, names))
    ensures IsFilter(list, names, kept + [|list| - 1], out + [src])
  {
    hide Keep;
    var n := |list| - 1;
    assert forall i :: 0 <= i < n ==> list[..n][i] == list[i];
    forall i | 0 <= i <= n
      ensures i in kept + [n] <==> i in kept || i == n
    {
    }
  }

  /** A source keeps a test exactly when one of its tests is named. */
  lemma {:induction false} KeepMembers(tests: seq<Test>, names: set<string>)
    ensures Keep(tests, names) != [] <==> exists t :: t in tests && t.name in names
  {
    if tests != [] {
      KeepMembers(tests[1..], names);
      if t :| t in tests && t.name in names {
        assert t == tests[0] || t in tests[1..];
      }
    }
  }

  function SumCounts(list: seq<Source>, names: seq<string>): nat {
    if names == [] then 0 else Count(list, names[0]) + SumCounts(list, names[1..])
  }

  predicate Distinct(names: seq<string>) {
    forall i, j :: 0 <= i < j < |names| ==> names[i] != names[j]
  }

  /** The per-name counts add up to the number of tests that are kept. */
  lemma {:induction false} CountsAddUp(list: seq<Source>, names: seq<string>)
    requires Distinct(names)
    ensures SumCounts(list, names) == TotalTests(Select(list, NameSet(names)))
  {
    if names == [] {
      assert NameSet(names) == {};
      SelectNothing(list);
    } else {
      CountsAddUp(list, names[1..]);
      assert NameSet(names) == {names[0]} + NameSet(names[1..]);
      assert names[0] !in names[1..];
      SelectOneMore(list, names[0], NameSet(names[1..]));
    }
  }

  lemma {:induction false} SelectNothing(list: seq<Source>)
    ensures Select(list, {}) == []
  {
    if list != [] {
      KeepMembers(list[0].tests, {});
      SelectNothing(list[1..]);
    }
  }

  lemma {:induction false} SelectOneMore(list: seq<Source>, name: string, names: set<string>)
    requires name !in names
    ensures TotalTests(Select(list, {name} + names)) == Count(list, name) + TotalTests(Select(list, names))
  {
    if list != [] {
      KeepOneMore(list[0].tests, name, names);
      SelectOneMore(list[1..], name, names);
      SelectTotal(list, names);
      SelectTotal(list, {name} + names);
    }
  }

  lemma SelectTotal(list: seq<Source>, names: set<string>)
    requires list != []
    ensures TotalTests(Select(list, names)) == |Keep(list[0].tests, names)| + TotalTests(Select(list[1..], names))
  {
    var one := SelectOne(list[0], names);
    TotalConcat(one, Select(list[1..], names));
    assert one != [] ==> one[1..] == [];
  }

  lemma {:induction false} TotalConcat(x: seq<Source>, y: seq<Source>)
    ensures TotalTests(x + y) == TotalTests(x) + TotalTests(y)
  {
    if x == [] {
      assert x + y == y;
    } else {
      assert (x + y)[1..] == x[1..] + y;
      TotalConcat(x[1..], y);
    }
  }

  lemma {:induction false} KeepOneMore(tests: seq<Test>, name: string, names: set<string>)
    requires name !in names
    ensures |Keep(tests, {name} + names)| == CountIn(tests, name) + |Keep(tests, names)|
  {
    if tests != [] {
      KeepOneMore(tests[1..], name, names);
    }
  }
}
