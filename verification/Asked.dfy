/** Which tests a run calls, in the terms of its caller: the files it was given, and the
    names it was asked for. */
module Asked {
  import opened Suite
  import opened Trace
  import opened Runs
  import opened Runner
  import opened Paths
  import Positions
  import Selection

  /** Every test is asked for when no names are given. */
  predicate IsAsked(testcases: seq<string>, t: Test) {
    testcases == [] || t.name in testcases
  }

  /** The calls of a file: its tests that are asked for are called in their order, up to a
      failed hook, and no others. */
  ghost predicate CallsAsked(src: Source, testcases: seq<string>, dir: string, part: seq<Event>, pos: seq<nat>) {
    && Positions.Ascend(pos, |src.tests|)
    && (forall i :: 0 <= i < |src.tests| ==> (i in pos <==> IsAsked(testcases, src.tests[i])))
    && |Cases(part)| <= |pos|
    && (forall j :: 0 <= j < |Cases(part)| ==>
          && Cases(part)[j].phase == Case(src.tests[pos[j]].name)
          && Cases(part)[j].func == src.tests[pos[j]].func)
    && (|Cases(part)| < |pos| ==> exists k :: 0 <= k < |part| && !part[k].phase.Case? && part[k].outcome.Failed?)
    && (forall k :: 0 <= k < |part| ==> part[k].dir == dir)
  }

  /** The calls of a file below `home`. */
  ghost predicate PartCallsAsked(home: AbsPath, src: Source, testcases: seq<string>, part: seq<Event>) {
    exists pos :: CallsAsked(src, testcases, Resolve(home, src.dirname), part, pos)
  }

  /** Each file that has a test to call contributes its part of the calls, in the order of
      the files; without names every file does. */
  lemma RunCallsAsked(home: AbsPath, list: seq<Source>, testcases: seq<string>, parts: seq<seq<Event>>)
    returns (files: seq<nat>)
    requires RunTrace(home, Chosen(list, testcases), parts)
    ensures Positions.Ascend(files, |list|) && |files| == |parts|
    ensures forall i :: 0 <= i < |list| ==> (i in files <==> HasWork(list[i], testcases))
    ensures forall j :: 0 <= j < |parts| ==>
              PartCallsAsked(home, list[files[j]], testcases, parts[j])
  {
    files := ChosenPositions(list, testcases);
    assert |parts| == |files|;
    hide Chosen, CallsAsked, HasWork;
    forall j | 0 <= j < |parts| ensures PartCallsAsked(home, list[files[j]], testcases, parts[j]) {
      var src := list[files[j]];
      assert Chosen(list, testcases)[j] == src.(tests := AskedTests(src.tests, testcases));
      var pos := PartCalls(src, testcases, Resolve(home, src.dirname), parts[j]);
    }
  }

  /** A file is run when no names are given, or when one of its tests is named. */
  predicate HasWork(src: Source, testcases: seq<string>) {
    testcases == [] || exists t :: t in src.tests && t.name in testcases
  }

  /** A name is missing when no test of any file has it. */
  lemma MissingIff(list: seq<Source>, testcases: seq<string>)
    ensures SomeMissing(list, testcases) <==>
            exists n :: n in testcases && forall i, t :: 0 <= i < |list| && t in list[i].tests ==> t.name != n
  {
    hide Selection.Count;
    forall n ensures Selection.Count(list, n) == 0 <==> IsMissing(list, n) {
      NotCounted(list, n);
    }
    assert SomeMissing(list, testcases) <==> exists n :: n in testcases && IsMissing(list, n);
  }

  predicate IsMissing(list: seq<Source>, name: string) {
    forall i, t :: 0 <= i < |list| && t in list[i].tests ==> t.name != name
  }

  lemma {:induction false} NotCounted(list: seq<Source>, name: string)
    ensures Selection.Count(list, name) == 0 <==> IsMissing(list, name)
  {
    if list != [] {
      NotCounted(list[1..], name);
      NoneNamed(list[0].tests, name);
      assert forall i :: 0 < i < |list| ==> list[i] == list[1..][i - 1];
    }
  }

  lemma {:induction false} NoneNamed(tests: seq<Test>, name: string)
    ensures Selection.CountIn(tests, name) == 0 <==> forall t :: t in tests ==> t.name != name
  {
    if tests != [] {
      NoneNamed(tests[1..], name);
      assert forall t :: t in tests <==> t == tests[0] || t in tests[1..];
    }
  }

  // --- the parts ---

  function AskedTests(tests: seq<Test>, testcases: seq<string>): seq<Test> {
    if testcases == [] then tests else Selection.Keep(tests, Selection.NameSet(testcases))
  }

  lemma ChosenPositions(list: seq<Source>, testcases: seq<string>) returns (files: seq<nat>)
    ensures Positions.Ascend(files, |list|)
    ensures forall i :: 0 <= i < |list| ==> (i in files <==> HasWork(list[i], testcases))
    ensures |files| == |Chosen(list, testcases)|
    ensures forall j :: 0 <= j < |files| ==>
              Chosen(list, testcases)[j] == list[files[j]].(tests := AskedTests(list[files[j]].tests, testcases))
  {
    if testcases == [] {
      files := Positions.All(|list|);
    } else {
      var names := Selection.NameSet(testcases);
      files := Selection.Kept(list, names);
      Selection.SelectIsFilter(list, names);
      hide Selection.Kept, Selection.Select, Selection.Keep;
      forall i | 0 <= i < |list| ensures i in files <==> HasWork(list[i], testcases) {
        Selection.KeepMembers(list[i].tests, names);
      }
    }
  }

  lemma {:induction false} KeptPositions(tests: seq<Test>, names: set<string>) returns (pos: seq<nat>)
    ensures Positions.Ascend(pos, |tests|) && |pos| == |Selection.Keep(tests, names)|
    ensures forall i :: 0 <= i < |tests| ==> (i in pos <==> tests[i].name in names)
    ensures forall j :: 0 <= j < |pos| ==> Selection.Keep(tests, names)[j] == tests[pos[j]]
  {
    if tests == [] {
      pos := [];
    } else {
      var n := |tests| - 1;
      var before := KeptPositions(tests[..n], names);
      Selection.KeepNext(tests, n, names);
      assert tests[..n + 1] == tests;
      pos := Positions.OneMore(before, n, tests[n].name in names);
      hide Selection.Keep;
      assert forall i :: 0 <= i < n ==> tests[..n][i] == tests[i];
    }
  }

  lemma AskedPositions(tests: seq<Test>, testcases: seq<string>) returns (pos: seq<nat>)
    ensures Positions.Ascend(pos, |tests|)
    ensures forall i :: 0 <= i < |tests| ==> (i in pos <==> IsAsked(testcases, tests[i]))
    ensures |pos| == |AskedTests(tests, testcases)|
    ensures forall j :: 0 <= j < |pos| ==> AskedTests(tests, testcases)[j] == tests[pos[j]]
  {
    if testcases == [] {
      pos := Positions.All(|tests|);
    } else {
      pos := KeptPositions(tests, Selection.NameSet(testcases));
      hide Selection.Keep;
    }
  }

  lemma PartCalls(src: Source, testcases: seq<string>, dir: string, part: seq<Event>) returns (pos: seq<nat>)
    requires FileTrace(src.(tests := AskedTests(src.tests, testcases)), dir, part)
    ensures CallsAsked(src, testcases, dir, part, pos)
  {
    var chosen := src.(tests := AskedTests(src.tests, testcases));
    pos := AskedPositions(src.tests, testcases);
    FileHasShape(chosen, dir, part);
    hide FileTrace, AskedTests, Cases;
    forall k | 0 <= k < |part| ensures part[k].dir == dir {
      assert FileAt(chosen, dir, part, k);
    }
  }
}
