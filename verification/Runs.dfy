/** A whole run: the calls of all files, and what the report says about them. */
module Runs {
  import opened Suite
  import opened Trace
  import opened Paths
  import Positions

  function Flatten(parts: seq<seq<Event>>): seq<Event> {
    if parts == [] then [] else parts[0] + Flatten(parts[1..])
  }

  /** The errors of one file, as `run` collects them. */
  datatype FileErrors = FileErrors(name: string, entries: seq<Entry>)

  /** What `run` returns on completion. */
  datatype Report = Report(nsuccess: nat, nfailure: int, errors: seq<FileErrors>, count: nat)

  /** The calls of a run: for each file in order a complete trace, every call of it
      starting in the directory of that file below `home`. */
  ghost predicate RunTrace(home: AbsPath, list: seq<Source>, parts: seq<seq<Event>>) {
    && |parts| == |list|
    && forall i :: 0 <= i < |list| ==> FileTrace(list[i], Resolve(home, list[i].dirname), parts[i])
  }

  function ErrorOf(src: Source, part: seq<Event>): seq<FileErrors> {
    if Failures(part) == [] then [] else [FileErrors(src.name, Failures(part))]
  }

  function Errors(list: seq<Source>, parts: seq<seq<Event>>): seq<FileErrors>
    requires |list| == |parts|
  {
    if list == [] then [] else ErrorOf(list[0], parts[0]) + Errors(list[1..], parts[1..])
  }

  function AllEntries(errors: seq<FileErrors>): seq<Entry> {
    if errors == [] then [] else errors[0].entries + AllEntries(errors[1..])
  }

  /** The report that the calls of a run call for. */
  function ReportOf(list: seq<Source>, parts: seq<seq<Event>>): Report
    requires |list| == |parts|
  {
    var tr := Flatten(parts);
    Report(Passes(tr), TotalTests(list) - Passes(tr), Errors(list, parts), |Failures(tr)|)
  }

  // --- one more file ---

  lemma {:induction false} FlattenSnoc(parts: seq<seq<Event>>, part: seq<Event>)
    ensures Flatten(parts + [part]) == Flatten(parts) + part
  {
    if parts == [] {
      assert parts + [part] == [part] && [part][1..] == [];
    } else {
      assert (parts + [part])[1..] == parts[1..] + [part];
      FlattenSnoc(parts[1..], part);
    }
  }

  lemma {:induction false} ErrorsSnoc(list: seq<Source>, parts: seq<seq<Event>>, src: Source, part: seq<Event>)
    requires |list| == |parts|
    ensures Errors(list + [src], parts + [part]) == Errors(list, parts) + ErrorOf(src, part)
  {
    if list == [] {
      assert list + [src] == [src] && parts + [part] == [part];
    } else {
      assert (parts + [part])[1..] == parts[1..] + [part];
      assert (list + [src])[1..] == list[1..] + [src];
      ErrorsSnoc(list[1..], parts[1..], src, part);
      hide ErrorOf;
    }
  }

  lemma {:induction false} TotalSnoc(list: seq<Source>, i: nat)
    requires i < |list|
    ensures TotalTests(list[..i + 1]) == TotalTests(list[..i]) + |list[i].tests|
  {
    assert list[..i + 1][1..] == list[1..][..i];
    if i > 0 {
      assert list[..i][1..] == list[1..][..i - 1];
      TotalSnoc(list[1..], i - 1);
    }
  }

  /** The report after one more file. */
  lemma ReportSnoc(list: seq<Source>, parts: seq<seq<Event>>, i: nat, part: seq<Event>)
    requires i < |list| && |parts| == i
    ensures var old_, new_ := ReportOf(list[..i], parts), ReportOf(list[..i + 1], parts + [part]);
            && new_.nsuccess == old_.nsuccess + Passes(part)
            && new_.nfailure == old_.nfailure + |list[i].tests| - Passes(part)
            && new_.errors == old_.errors + ErrorOf(list[i], part)
            && new_.count == old_.count + |Failures(part)|
  {
    hide *;
    assert list[..i + 1] == list[..i] + [list[i]];
    FlattenSnoc(parts, part);
    ErrorsSnoc(list[..i], parts, list[i], part);
    TotalSnoc(list, i);
    Concat(Flatten(parts), part);
    ReportUnfold(list[..i], parts);
    ReportUnfold(list[..i + 1], parts + [part]);
  }

  lemma ReportUnfold(list: seq<Source>, parts: seq<seq<Event>>)
    requires |list| == |parts|
    ensures var tr, r := Flatten(parts), ReportOf(list, parts);
            && r.nsuccess == Passes(tr) && r.nfailure == TotalTests(list) - Passes(tr)
            && r.errors == Errors(list, parts) && r.count == |Failures(tr)|
  {
  }

  // --- the report is right ---

  /** The error lists, flattened, are exactly the failed calls in call order. */
  lemma {:induction false} ErrorsAreFailures(list: seq<Source>, parts: seq<seq<Event>>)
    requires |list| == |parts|
    ensures AllEntries(Errors(list, parts)) == Failures(Flatten(parts))
  {
    if list != [] {
      ErrorsAreFailures(list[1..], parts[1..]);
      Concat(parts[0], Flatten(parts[1..]));
      var one, rest := ErrorOf(list[0], parts[0]), Errors(list[1..], parts[1..]);
      if one != [] {
        assert (one + rest)[1..] == rest;
      } else {
        assert one + rest == rest;
      }
    }
  }

  /** The entries are those of the files in which a call failed, in order: the name of the
      file, and the failed calls in it. */
  ghost predicate AreErrors(list: seq<Source>, parts: seq<seq<Event>>, pos: seq<nat>, errors: seq<FileErrors>)
    requires |list| == |parts|
  {
    && Positions.Ascend(pos, |list|) && |pos| == |errors|
    && (forall j :: 0 <= j < |pos| ==>
          errors[j].name == list[pos[j]].name && errors[j].entries == Failures(parts[pos[j]]))
    && (forall i :: 0 <= i < |list| ==> (i in pos <==> Failures(parts[i]) != []))
  }

  lemma {:induction false} ErrorsInOrder(list: seq<Source>, parts: seq<seq<Event>>) returns (pos: seq<nat>)
    requires |list| == |parts|
    ensures AreErrors(list, parts, pos, Errors(list, parts))
    decreases |list|
  {
    if list == [] {
      pos := [];
    } else {
      var n := |list| - 1;
      var before := ErrorsInOrder(list[..n], parts[..n]);
      ErrorsSnoc(list[..n], parts[..n], list[n], parts[n]);
      assert list == list[..n] + [list[n]] && parts == parts[..n] + [parts[n]];
      hide *;
      pos := ErrorsNext(list[..n], parts[..n], before, Errors(list[..n], parts[..n]), list[n], parts[n]);
    }
  }

  lemma ErrorsNext(list: seq<Source>, parts: seq<seq<Event>>, pos: seq<nat>, errors: seq<FileErrors>,
                   src: Source, part: seq<Event>) returns (more: seq<nat>)
    requires |list| == |parts| && AreErrors(list, parts, pos, errors)
    ensures AreErrors(list + [src], parts + [part], more, errors + ErrorOf(src, part))
  {
    more := Positions.OneMore(pos, |list|, Failures(part) != []);
    hide Failures;
  }

  /** Every selected test of every file was called, in order. */
  ghost predicate AllTestsRan(list: seq<Source>, parts: seq<seq<Event>>) {
    && |parts| == |list|
    && forall i :: 0 <= i < |list| ==> Enters(list[i].tests, Cases(parts[i])) && |Cases(parts[i])| == |list[i].tests|
  }

  lemma RunTraceTail(home: AbsPath, list: seq<Source>, parts: seq<seq<Event>>)
    requires RunTrace(home, list, parts) && list != []
    ensures FileTrace(list[0], Resolve(home, list[0].dirname), parts[0])
    ensures RunTrace(home, list[1..], parts[1..])
  {
  }

  lemma AllTestsRanCons(list: seq<Source>, parts: seq<seq<Event>>)
    requires list != [] && |parts| == |list|
    ensures AllTestsRan(list, parts) <==>
            && Enters(list[0].tests, Cases(parts[0])) && |Cases(parts[0])| == |list[0].tests|
            && AllTestsRan(list[1..], parts[1..])
  {
    hide Enters, Cases;
    if AllTestsRan(list[1..], parts[1..]) && Enters(list[0].tests, Cases(parts[0])) &&
       |Cases(parts[0])| == |list[0].tests| {
      forall i | 0 <= i < |list|
        ensures Enters(list[i].tests, Cases(parts[i])) && |Cases(parts[i])| == |list[i].tests|
      {
        if i > 0 {
          assert list[1..][i - 1] == list[i] && parts[1..][i - 1] == parts[i];
        }
      }
    }
  }

  /** Success count, failure count and error count agree with the calls. A run without
      errors has run every test, and every test passed; so a failure count above zero
      always comes with an error. */
  lemma {:induction false} RunAccounts(home: AbsPath, list: seq<Source>, parts: seq<seq<Event>>)
    requires RunTrace(home, list, parts)
    ensures var tr := Flatten(parts);
            && Passes(tr) <= TotalTests(list)
            && |Failures(tr)| <= TotalTests(list) - Passes(tr) + 2 * |list|
            && (Failures(tr) == [] <==> AllPassed(tr))
            && (Failures(tr) == [] ==> Passes(tr) == TotalTests(list) && AllTestsRan(list, parts))
  {
    if list != [] {
      RunTraceTail(home, list, parts);
      RunAccounts(home, list[1..], parts[1..]);
      hide RunTrace;
      FileAccounts(list[0], Resolve(home, list[0].dirname), parts[0]);
      FileHasShape(list[0], Resolve(home, list[0].dirname), parts[0]);
      hide FileTrace;
      AccountsCons(list, parts);
    }
  }

  lemma AccountsCons(list: seq<Source>, parts: seq<seq<Event>>)
    requires list != [] && |parts| == |list|
    requires var p := parts[0];
             && Passes(p) <= |list[0].tests| && |Failures(p)| <= |list[0].tests| - Passes(p) + 2
             && (Failures(p) == [] <==> AllPassed(p))
             && (Failures(p) == [] ==> Passes(p) == |list[0].tests| == |Cases(p)|)
             && Enters(list[0].tests, Cases(p))
    requires var tr := Flatten(parts[1..]);
             && Passes(tr) <= TotalTests(list[1..])
             && |Failures(tr)| <= TotalTests(list[1..]) - Passes(tr) + 2 * (|list| - 1)
             && (Failures(tr) == [] <==> AllPassed(tr))
             && (Failures(tr) == [] ==> Passes(tr) == TotalTests(list[1..]) && AllTestsRan(list[1..], parts[1..]))
    ensures var tr := Flatten(parts);
            && Passes(tr) <= TotalTests(list)
            && |Failures(tr)| <= TotalTests(list) - Passes(tr) + 2 * |list|
            && (Failures(tr) == [] <==> AllPassed(tr))
            && (Failures(tr) == [] ==> Passes(tr) == TotalTests(list) && AllTestsRan(list, parts))
  {
    hide Passes, Failures, Cases, Enters;
    var tr := Flatten(parts[1..]);
    Concat(parts[0], tr);
    PassedConcat(parts[0], tr);
    AllTestsRanCons(list, parts);
    hide AllPassed, AllTestsRan;
  }

  lemma PassedConcat(a: seq<Event>, b: seq<Event>)
    ensures AllPassed(a + b) <==> AllPassed(a) && AllPassed(b)
  {
    if AllPassed(a + b) {
      forall k | 0 <= k < |a| ensures a[k].outcome.Passed? { assert (a + b)[k] == a[k]; }
      forall k | 0 <= k < |b| ensures b[k].outcome.Passed? { assert (a + b)[|a| + k] == b[k]; }
    }
  }

  /** The final check of bin/testcase.lua on the reported numbers holds exactly when no
      file failed to load, every call succeeded and every selected test ran. */
  lemma CleanIff(home: AbsPath, list: seq<Source>, parts: seq<seq<Event>>, nload: nat)
    requires RunTrace(home, list, parts)
    ensures var r := ReportOf(list, parts);
            (r.nfailure > 0 || r.count > 0 || nload > 0) <==>
            !(nload == 0 && AllPassed(Flatten(parts)) && AllTestsRan(list, parts))
  {
    assert |parts| == |list|;
    hide *;
    RunAccounts(home, list, parts);
    ReportUnfold(list, parts);
  }

  /** A failure count above zero always comes with an entry in the error lists. */
  lemma FailuresAreExplained(home: AbsPath, list: seq<Source>, parts: seq<seq<Event>>)
    requires RunTrace(home, list, parts)
    ensures var r := ReportOf(list, parts);
            && r.nsuccess + r.nfailure == TotalTests(list) && r.nfailure >= 0
            && r.count == |AllEntries(r.errors)|
            && (r.nfailure > 0 ==> r.count > 0)
  {
    assert |parts| == |list|;
    hide *;
    RunAccounts(home, list, parts);
    ErrorsAreFailures(list, parts);
    ReportUnfold(list, parts);
  }

  // --- the run is determined by the outcomes ---

  /** Two complete runs of the same files with the same outcomes made the same calls. */
  lemma {:induction false} RunDetermined(home: AbsPath, list: seq<Source>, a: seq<seq<Event>>, b: seq<seq<Event>>)
    requires RunTrace(home, list, a) && RunTrace(home, list, b) && Agree(Flatten(a), Flatten(b))
    ensures a == b
    decreases |list|
  {
    if list != [] {
      RunTraceTail(home, list, a);
      RunTraceTail(home, list, b);
      hide RunTrace;
      AgreeHead(a[0], Flatten(a[1..]), b[0], Flatten(b[1..]));
      FileDetermined(list[0], Resolve(home, list[0].dirname), a[0], b[0]);
      hide FileTrace;
      AgreeTail(a[0], Flatten(a[1..]), Flatten(b[1..]));
      RunDetermined(home, list[1..], a[1..], b[1..]);
      assert a == [a[0]] + a[1..] && b == [b[0]] + b[1..];
    }
  }

  lemma AgreeHead(a: seq<Event>, at: seq<Event>, b: seq<Event>, bt: seq<Event>)
    requires Agree(a + at, b + bt)
    ensures Agree(a, b)
  {
    forall k | 0 <= k < |a| && k < |b| ensures a[k].outcome == b[k].outcome {
      assert (a + at)[k] == a[k] && (b + bt)[k] == b[k];
    }
  }

  lemma AgreeTail(p: seq<Event>, a: seq<Event>, b: seq<Event>)
    requires Agree(p + a, p + b)
    ensures Agree(a, b)
  {
    forall k | 0 <= k < |a| && k < |b| ensures a[k].outcome == b[k].outcome {
      assert (p + a)[|p| + k] == a[k] && (p + b)[|p| + k] == b[k];
    }
  }
}
