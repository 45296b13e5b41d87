/** lib/runner.lua: running the files. User functions are an oracle: for the `n`-th
    call of the process it says how the call ends and where it leaves the working
    directory, so every claim here holds for all user code. */
module Runner {
  import opened Prelude
  import opened Suite
  import opened Trace
  import opened Runs
  import opened Paths
  import Selection

  datatype Verdict = Verdict(outcome: Outcome, cwd: AbsPath)

  /** Why a run stops before it completes: the process is a forked child and exits, or
      an `assert` on a working-directory call fails. */
  datatype Halt = LeftAsChild | CwdLost | ChdirFailed

  datatype Refusal = Blocking | NotFound

  datatype RunResult = Refused(reason: Refusal) | Done(report: Report)

  datatype FileReport = FileReport(nsuccess: nat, entries: seq<Entry>)

  predicate NoChild(tr: seq<Event>) {
    forall k :: 0 <= k < |tr| ==> !tr[k].outcome.InChild?
  }

  /** The calls of a part of a run that was cut short by `h`: only the last one can
      have returned in a child, and the process leaves as a child exactly then. */
  predicate CutShort(tr: seq<Event>, h: Halt) {
    && (forall k :: 0 <= k < |tr| - 1 ==> !tr[k].outcome.InChild?)
    && (h == LeftAsChild <==> tr != [] && tr[|tr| - 1].outcome.InChild?)
  }

  lemma CutShortAfter(a: seq<Event>, b: seq<Event>, h: Halt)
    requires NoChild(a) && CutShort(b, h)
    ensures CutShort(a + b, h)
  {
  }

  lemma NoChildConcat(a: seq<Event>, b: seq<Event>)
    requires NoChild(a) && NoChild(b)
    ensures NoChild(a + b)
  {
  }

  /** The sources that `run` executes. */
  function Chosen(list: seq<Source>, testcases: seq<string>): seq<Source> {
    if testcases == [] then list else Selection.Select(list, Selection.NameSet(testcases))
  }

  /** Some requested name matches no test in any file. */
  predicate SomeMissing(list: seq<Source>, testcases: seq<string>) {
    exists n :: n in testcases && Selection.Count(list, n) == 0
  }

  class Runner {
    /** How the `n`-th user call ends. */
    const verdict: nat -> Verdict
    /** Whether the `n`-th chdir succeeds, and whether the directory is known before the `n`-th call. */
    const chdirOk: nat -> bool
    const cwdKnown: nat -> bool
    /** `CWD` of lib/filesystem.lua: where the process was started. */
    const home: AbsPath

    var cwd: AbsPath
    var moves: nat
    var trace: seq<Event>
    /** `DO_NOT_RUN` */
    var blocked: bool

    constructor (home: AbsPath, verdict: nat -> Verdict, chdirOk: nat -> bool, cwdKnown: nat -> bool)
      ensures this.home == home && this.verdict == verdict && this.chdirOk == chdirOk && this.cwdKnown == cwdKnown
      ensures cwd == home && trace == [] && !blocked && Valid()
    {
      this.home, this.verdict, this.chdirOk, this.cwdKnown := home, verdict, chdirOk, cwdKnown;
      cwd, moves, trace, blocked := home, 0, [], false;
    }

    /** The outcomes on record are those of the oracle. */
    predicate Valid()
      reads `trace
    {
      forall i :: 0 <= i < |trace| ==> trace[i].outcome == verdict(i).outcome
    }

    /** Nothing refused in the calls from `c` up to `d` and the moves from `m` up to `k`. */
    predicate WentWell(c: nat, d: nat, m: nat, k: nat) {
      && (forall n :: c <= n < d ==> cwdKnown(n) && !verdict(n).outcome.InChild?)
      && (forall n :: m <= n < k ==> chdirOk(n))
    }

    /** Nothing ever refuses. */
    ghost predicate Obliging() {
      && (forall n: nat :: cwdKnown(n)) && (forall n: nat :: chdirOk(n))
      && (forall n: nat :: !verdict(n).outcome.InChild?)
    }

    /** What `h` means where the run stopped: since the calls `c` and the moves `m`, the
        oracle consulted last refused, and none before it did. */
    predicate Stopped(h: Halt, c: nat, m: nat)
      reads `trace, `moves
    {
      && c <= |trace| && m <= moves
      && match h
         case CwdLost => WentWell(c, |trace|, m, moves) && !cwdKnown(|trace|)
         case LeftAsChild =>
           && c < |trace| && WentWell(c, |trace| - 1, m, moves)
           && cwdKnown(|trace| - 1) && verdict(|trace| - 1).outcome.InChild?
         case ChdirFailed => m < moves && WentWell(c, |trace|, m, moves - 1) && !chdirOk(moves - 1)
    }

    lemma StoppedSince(h: Halt, c: nat, d: nat, m: nat, k: nat)
      requires c <= d && m <= k && WentWell(c, d, m, k) && Stopped(h, d, k)
      ensures Stopped(h, c, m)
    {
    }

    lemma WellFrom(c: nat, m: nat)
      ensures WentWell(c, c, m, m)
    {
    }

    lemma Onward(c: nat, d: nat, e: nat, m: nat, k: nat, l: nat)
      requires WentWell(c, d, m, k) && WentWell(d, e, k, l)
      ensures WentWell(c, e, m, l)
    {
    }

    /** From `start` and `m`, the calls `tr` led to `end` and `k`, and nothing refused. */
    predicate Went(start: seq<Event>, m: nat, tr: seq<Event>, end: seq<Event>, k: nat) {
      end == start + tr && k == m + |tr| && WentWell(|start|, |end|, m, k)
    }

    lemma WentFirst(start: seq<Event>, m: nat, tr: seq<Event>, end: seq<Event>, k: nat)
      requires end == start + tr && k == m + |tr| && WentWell(|start|, |end|, m, k)
      ensures Went(start, m, tr + [], end, k)
    {
      assert tr + [] == tr;
    }

    lemma WentOn(start: seq<Event>, m: nat, tr: seq<Event>, mid: seq<Event>, k: nat,
                 more: seq<Event>, end: seq<Event>, l: nat)
      requires Went(start, m, tr, mid, k)
      requires end == mid + more && l == k + |more| && WentWell(|mid|, |end|, k, l)
      ensures Went(start, m, tr + more, end, l)
    {
    }

    lemma WentUntil(start: seq<Event>, m: nat, tr: seq<Event>, mid: seq<Event>, k: nat, more: seq<Event>, h: Halt)
      requires Went(start, m, tr, mid, k) && trace == mid + more && Stopped(h, |mid|, k)
      ensures trace == start + (tr + more) && Stopped(h, |start|, m)
    {
    }

    lemma WentAll(start: seq<Event>, m: nat, tr: seq<Event>, end: seq<Event>, k: nat)
      requires Went(start, m, tr, end, k)
      ensures end == start + tr && k == m + |tr| && WentWell(|start|, |end|, m, k)
    {
    }

    method Block()
      modifies `blocked
      ensures blocked
    {
      blocked := true;
    }

    method Unblock()
      modifies `blocked
      ensures !blocked
    {
      blocked := false;
    }

    /** `chdir` of lib/filesystem.lua. */
    method Chdir(p: string) returns (ok: bool)
      modifies `cwd, `moves
      ensures ok == chdirOk(old(moves)) && moves == old(moves) + 1
      ensures cwd == if ok then Resolve(old(cwd), p) else old(cwd)
    {
      ok := chdirOk(moves);
      moves := moves + 1;
      if ok {
        cwd := Resolve(cwd, p);
      }
    }

    /** `call`: a protected call after which the process is back where it was. It is
        made when the directory is known, and returns unless the function came back in a
        child or the way back is barred. */
    method Call(phase: Phase, func: Func) returns (r: Result<Outcome, Halt>, ghost tr: seq<Event>)
      requires Valid()
      modifies `cwd, `moves, `trace
      ensures Valid() && trace == old(trace) + tr
      ensures var o := verdict(|old(trace)|).outcome;
              && r == (if !cwdKnown(|old(trace)|) then Failure(CwdLost)
                       else if o.InChild? then Failure(LeftAsChild)
                       else if !chdirOk(old(moves)) then Failure(ChdirFailed)
                       else Success(o))
              && tr == (if !cwdKnown(|old(trace)|) then [] else [Event(phase, func, old(cwd), o)])
              && moves == old(moves) + (if !cwdKnown(|old(trace)|) || o.InChild? then 0 else 1)
      ensures r.Success? ==> cwd == old(cwd)
    {
      if !cwdKnown(|trace|) {
        return Failure(CwdLost), [];
      }
      var saved := cwd;
      var v := verdict(|trace|);
      tr := [Event(phase, func, saved, v.outcome)];
      trace := trace + [Event(phase, func, saved, v.outcome)];
      cwd := v.cwd;
      if v.outcome.InChild? {
        return Failure(LeftAsChild), tr;
      }
      var ok := Chdir(saved);
      if !ok {
        return Failure(ChdirFailed), tr;
      }
      return Success(v.outcome), tr;
    }

    /** `run_test` */
    method RunTest(name: string, func: Func) returns (r: Result<(bool, Option<string>), Halt>, ghost tr: seq<Event>)
      requires Valid()
      modifies `cwd, `moves, `trace
      ensures Valid() && trace == old(trace) + tr
      ensures r.Success? ==>
                && cwd == old(cwd) && (r.value.0 ==> r.value.1.None?)
                && tr == [Event(Case(name), func, old(cwd), OutcomeOf(r.value))]
                && WentWell(|old(trace)|, |trace|, old(moves), moves) && moves == old(moves) + 1
      ensures r.Failure? ==>
                Stopped(r.error, |old(trace)|, old(moves)) && CallBegun(Case(name), func, old(cwd), tr, r.error)
    {
      hide Valid;
      var o;
      o, tr := Call(Case(name), func);
      if o.Failure? {
        return Failure(o.error), tr;
      } else if o.value.Passed? {
        return Success((true, None)), tr;
      }
      return Success((false, o.value.err)), tr;
    }

    /** `run_setup_teadown`; a hook may fail without an error value. */
    method RunSetupTeardown(phase: Phase, func: Func)
      returns (r: Result<(bool, Option<string>), Halt>, ghost tr: seq<Event>)
      requires Valid()
      modifies `cwd, `moves, `trace
      ensures Valid() && trace == old(trace) + tr
      ensures r.Success? ==>
                && cwd == old(cwd) && (r.value.0 ==> r.value.1.None?)
                && tr == [Event(phase, func, old(cwd), OutcomeOf(r.value))]
                && WentWell(|old(trace)|, |trace|, old(moves), moves) && moves == old(moves) + 1
      ensures r.Failure? ==> Stopped(r.error, |old(trace)|, old(moves)) && CallBegun(phase, func, old(cwd), tr, r.error)
    {
      hide Valid;
      var o;
      o, tr := Call(phase, func);
      if o.Failure? {
        return Failure(o.error), tr;
      } else if o.value.Failed? && o.value.err.Some? {
        return Success((false, o.value.err)), tr;
      }
      return Success((o.value.Passed?, None)), tr;
    }

    /** A hook, if the file defines it; the entry that a failure adds to the error list. */
    method RunHook(phase: Phase, hook: Option<Func>)
      returns (r: Result<seq<Entry>, Halt>, ghost tr: seq<Event>)
      requires Valid() && !phase.Case?
      modifies `cwd, `moves, `trace
      ensures Valid() && trace == old(trace) + tr
      ensures r.Success? ==>
                && cwd == old(cwd) && HookCalls(phase, hook, old(cwd), tr)
                && r.value == Failures(tr) && Passes(tr) == 0
                && (r.value == [] <==> AllPassed(tr))
                && WentWell(|old(trace)|, |trace|, old(moves), moves) && moves == old(moves) + |tr|
      ensures r.Failure? ==>
                && Stopped(r.error, |old(trace)|, old(moves))
                && hook.Some? && CallBegun(phase, hook.value, old(cwd), tr, r.error)
    {
      hide Valid, CallBegun, Stopped, WentWell;
      if hook.None? {
        assert WentWell(|trace|, |trace|, moves, moves) by { WellFrom(|trace|, moves); }
        return Success([]), [];
      }
      var res;
      res, tr := RunSetupTeardown(phase, hook.value);
      if res.Failure? {
        return Failure(res.error), tr;
      }
      assert tr[1..] == [];
      if !res.value.0 {
        return Success([Entry(Label(phase), res.value.1)]), tr;
      }
      return Success([]), tr;
    }

    /** The body of the loop of `run_file`: one test with its hooks. `goOn` is false
        where the source breaks out of the loop. */
    method RunRound(src: Source, test: Test) returns (r: Result<RoundReport, Halt>, ghost tr: seq<Event>)
      requires Valid()
      modifies `cwd, `moves, `trace
      ensures Valid() && trace == old(trace) + tr
      ensures r.Success? ==>
                && cwd == old(cwd)
                && (if r.value.goOn then Round(src, test, old(cwd), tr) else BrokenRound(src, test, old(cwd), tr))
                && r.value.nsuccess == Passes(tr) && r.value.entries == Failures(tr)
                && WentWell(|old(trace)|, |trace|, old(moves), moves) && moves == old(moves) + |tr|
      ensures r.Failure? ==>
                && Stopped(r.error, |old(trace)|, old(moves)) && CutShort(tr, r.error)
                && RoundBegun(src, test, old(cwd), tr)
    {
      hide *;
      ghost var dir, calls, from := cwd, |trace|, moves;
      var setup, a := RunHook(BeforeEach, src.beforeEach);
      if setup.Failure? {
        RoundBegunBefore(src, test, dir, a, setup.error);
        return Failure(setup.error), a;
      } else if setup.value != [] {
        BrokenBefore(src, test, dir, a);
        return Success(RoundReport(false, 0, setup.value)), a;
      }
      HookNoChild(BeforeEach, src.beforeEach, dir, a);
      ghost var calls1, moves1 := |trace|, moves;
      var called, c := RunTest(test.name, test.func);
      if called.Failure? {
        RoundBegunTest(src, test, dir, a, c, called.error);
        StoppedSince(called.error, calls, calls1, from, moves1);
        return Failure(called.error), a + c;
      }
      Onward(calls, calls1, |trace|, from, moves1, moves);
      var nsuccess := if called.value.0 then 1 else 0;
      var errs := if called.value.0 then [] else [Entry(test.name, called.value.1)];
      TestCounted(test, dir, called.value, c, a);
      ghost var calls2, moves2 := |trace|, moves;
      var teardown, b := RunHook(AfterEach, src.afterEach);
      if teardown.Failure? {
        RoundBegunAfter(src, test, dir, a, c, b, called.value, teardown.error);
        StoppedSince(teardown.error, calls, calls2, from, moves2);
        return Failure(teardown.error), a + c + b;
      }
      Onward(calls, calls2, |trace|, from, moves2, moves);
      RoundComplete(src, test, dir, a, c, b, called.value);
      return Success(RoundReport(teardown.value == [], nsuccess, errs + teardown.value)), a + c + b;
    }

    /** `run_file` */
    method RunFile(src: Source) returns (r: Result<FileReport, Halt>, ghost tr: seq<Event>)
      requires Valid()
      modifies `cwd, `moves, `trace
      ensures Valid() && trace == old(trace) + tr
      ensures r.Success? ==>
                && FileTrace(src, old(cwd), tr) && cwd == old(cwd)
                && r.value == FileReport(Passes(tr), Failures(tr))
                && WentWell(|old(trace)|, |trace|, old(moves), moves) && moves == old(moves) + |tr|
      ensures r.Failure? ==>
                && Stopped(r.error, |old(trace)|, old(moves)) && CutShort(tr, r.error)
                && Begun(src, old(cwd), tr)
    {
      hide *;
      ghost var start, dir, from := trace, cwd, moves;
      var setup, pre := RunHook(BeforeAll, src.beforeAll);
      if setup.Failure? {
        BegunBefore(src, dir, pre, setup.error);
        return Failure(setup.error), pre;
      } else if setup.value != [] {
        BeforeAllOnly(src, dir, pre);
        return Success(FileReport(0, setup.value)), pre;
      }
      HookNoChild(BeforeAll, src.beforeAll, dir, pre);
      var nsuccess: nat, errs: seq<Entry> := 0, [];
      ghost var done: seq<Event>, broken := [], false;
      WentFirst(start, from, pre, trace, moves);
      NoneSoFar(src, dir);
      var i := 0;
      while i < |src.tests|
        invariant i <= |src.tests| && cwd == dir && Valid()
        invariant Went(start, from, pre + done, trace, moves)
        invariant !broken && SoFar(src, dir, i, done, FileReport(nsuccess, errs), broken)
      {
        ghost var before, moved := trace, moves;
        var res, round := RunRound(src, src.tests[i]);
        Appended(pre, done, round);
        if res.Failure? {
          BegunRound(src, dir, pre, done, i, FileReport(nsuccess, errs), round, res.error);
          WentUntil(start, from, pre + done, before, moved, round, res.error);
          return Failure(res.error), pre + done + round;
        }
        WentOn(start, from, pre + done, before, moved, round, trace, moves);
        RoundMore(src, dir, i, done, FileReport(nsuccess, errs), round, res.value.goOn);
        nsuccess := nsuccess + res.value.nsuccess;
        errs := errs + res.value.entries;
        done, broken := done + round, !res.value.goOn;
        if !res.value.goOn {
          break;
        }
        i := i + 1;
      }
      AllRounds(src, dir, i, done, FileReport(nsuccess, errs), broken);
      ghost var before, moved := trace, moves;
      var teardown, post := RunHook(AfterAll, src.afterAll);
      if teardown.Failure? {
        BegunAfter(src, dir, pre, done, post, teardown.error);
        WentUntil(start, from, pre + done, before, moved, post, teardown.error);
        return Failure(teardown.error), pre + done + post;
      }
      WentOn(start, from, pre + done, before, moved, post, trace, moves);
      WentAll(start, from, pre + done + post, trace, moves);
      FileComplete(src, dir, pre, done, post);
      return Success(FileReport(nsuccess, errs + teardown.value)), pre + done + post;
    }

    /** The check in `run` that every requested name was found. */
    method CheckFound(testcases: seq<string>, targets: map<string, nat>) returns (notfound: bool)
      requires targets.Keys == Selection.NameSet(testcases)
      ensures notfound <==> exists n :: n in testcases && targets[n] == 0
    {
      notfound := false;
      for i := 0 to |testcases|
        invariant notfound <==> exists k :: 0 <= k < i && targets[testcases[k]] == 0
      {
        if targets[testcases[i]] == 0 {
          notfound := true;
        }
      }
    }

    /** To the start directory, and from there to the directory of a file. */
    method EnterDirectory(dirname: string) returns (ok: bool)
      modifies `cwd, `moves
      ensures ok == (chdirOk(old(moves)) && chdirOk(old(moves) + 1))
      ensures moves == old(moves) + if chdirOk(old(moves)) then 2 else 1
      ensures cwd == if ok then Resolve(home, dirname) else if chdirOk(old(moves)) then home else old(cwd)
      ensures if ok then WentWell(|trace|, |trace|, old(moves), moves) else Stopped(ChdirFailed, |trace|, old(moves))
    {
      ok := Chdir(home);
      if ok {
        ok := Chdir(dirname);
      }
    }

    /** One file of the loop of `run`, from the directory of that file. */
    method RunNext(src: Source) returns (r: Result<FileReport, Halt>, ghost tr: seq<Event>)
      requires Valid()
      modifies `cwd, `moves, `trace
      ensures Valid() && trace == old(trace) + tr
      ensures r.Success? ==>
                && FileTrace(src, Resolve(home, src.dirname), tr) && cwd == Resolve(home, src.dirname)
                && r.value == FileReport(Passes(tr), Failures(tr))
                && WentWell(|old(trace)|, |trace|, old(moves), moves) && moves == old(moves) + 2 + |tr|
      ensures r.Failure? ==>
                && Stopped(r.error, |old(trace)|, old(moves)) && CutShort(tr, r.error)
                && Begun(src, Resolve(home, src.dirname), tr)
    {
      hide Valid, FileTrace, Passes, Failures, CutShort, WentWell, Begun, Stopped;
      ghost var calls, from := |trace|, moves;
      var entered := EnterDirectory(src.dirname);
      if !entered {
        EmptyCut(ChdirFailed);
        NothingBegun(src, Resolve(home, src.dirname));
        return Failure(ChdirFailed), [];
      }
      ghost var moved := moves;
      r, tr := RunFile(src);
      if r.Success? {
        Onward(calls, calls, |trace|, from, moved, moves);
      } else {
        StoppedSince(r.error, calls, calls, from, moved);
      }
    }

    /** The loop of `run` over the chosen files. */
    method RunFiles(list: seq<Source>)
      returns (r: Result<Report, Halt>, ghost parts: seq<seq<Event>>, ghost cut: seq<Event>)
      requires Valid()
      modifies `cwd, `moves, `trace
      ensures Valid()
      ensures r.Success? ==>
                && RunTrace(home, list, parts) && trace == old(trace) + Flatten(parts)
                && r.value == ReportOf(list, parts)
                && moves == old(moves) + 2 * |list| + |Flatten(parts)| + 1
                && cwd == (if chdirOk(moves - 1) then home
                           else if list == [] then old(cwd)
                           else Resolve(home, list[|list| - 1].dirname))
                && WentWell(|old(trace)|, |trace|, old(moves), moves - 1)
      ensures r.Failure? ==>
                && CutShort(cut, r.error) && trace == old(trace) + (Flatten(parts) + cut)
                && |parts| < |list| && RunTrace(home, list[..|parts|], parts)
                && Stopped(r.error, |old(trace)|, old(moves))
                && Begun(list[|parts|], Resolve(home, list[|parts|].dirname), cut)
    {
      hide Valid, FileTrace, Passes, Failures, Flatten, Ran, CutShort, ReportOf, RunTrace, WentWell, Begun, Stopped;
      ghost var start, from := trace, moves;
      parts, cut := [], [];
      var nsuccess: nat, ntest: nat, errors: seq<FileErrors>, nerrors: nat := 0, 0, [], 0;
      NothingRun(home, list);
      assert start + [] == start;
      WellFrom(|start|, from);
      var i := 0;
      while i < |list|
        invariant i <= |list| && Valid()
        invariant WentWell(|start|, |trace|, from, moves) && moves == from + 2 * i + |Flatten(parts)|
        invariant Ran(home, list, parts, i, Report(nsuccess, ntest - nsuccess, errors, nerrors))
        invariant trace == start + Flatten(parts)
        invariant cwd == if i == 0 then old(cwd) else Resolve(home, list[i - 1].dirname)
      {
        var src := list[i];
        ghost var calls, moved := |trace|, moves;
        var res, tr := RunNext(src);
        Associate(start, Flatten(parts), tr);
        if res.Failure? {
          RanSoFar(home, list, parts, i, Report(nsuccess, ntest - nsuccess, errors, nerrors));
          StoppedSince(res.error, |start|, calls, from, moved);
          return Failure(res.error), parts, tr;
        }
        Onward(|start|, calls, |trace|, from, moved, moves);
        FileRun(home, list, parts, i, tr, Report(nsuccess, ntest - nsuccess, errors, nerrors));
        assert errors + [] == errors;
        ntest := ntest + |src.tests|;
        nsuccess := nsuccess + res.value.nsuccess;
        if |res.value.entries| > 0 {
          errors := errors + [FileErrors(src.name, res.value.entries)];
          nerrors := nerrors + |res.value.entries|;
        }
        parts := parts + [tr];
        i := i + 1;
      }
      RanSoFar(home, list, parts, i, Report(nsuccess, ntest - nsuccess, errors, nerrors));
      assert list[..|list|] == list;
      var _ := Chdir(home);
      return Success(Report(nsuccess, ntest - nsuccess, errors, nerrors)), parts, cut;
    }

    /** `run`. It refuses while blocked, or when a requested name is in no file, without
        calling anything. Otherwise it makes the calls of one complete trace per file,
        reports what they amount to, and returns to where the process was started: every
        directory call but the last one succeeded, and no function came back in a child.
        Otherwise the oracle it consulted last refused, and none before it. Such a run has completed the files
        before the one it stopped in, and what it did of that one is the beginning of a
        complete trace of it. */
    method Run(list: seq<Source>, testcases: seq<string>)
      returns (r: Result<RunResult, Halt>, ghost parts: seq<seq<Event>>, ghost cut: seq<Event>)
      requires Valid()
      modifies `cwd, `moves, `trace
      ensures Valid()
      ensures r == Success(Refused(Blocking)) <==> blocked
      ensures r == Success(Refused(NotFound)) <==> !blocked && SomeMissing(list, testcases)
      ensures r.Success? && r.value.Refused? ==> trace == old(trace) && cwd == old(cwd)
      ensures r.Success? && r.value.Done? ==>
                var chosen := Chosen(list, testcases);
                && RunTrace(home, chosen, parts) && trace == old(trace) + Flatten(parts)
                && r.value.report == ReportOf(chosen, parts)
                && moves == old(moves) + 2 * |chosen| + |Flatten(parts)| + 1
                && cwd == (if chdirOk(moves - 1) then home
                           else if chosen == [] then old(cwd)
                           else Resolve(home, chosen[|chosen| - 1].dirname))
                && WentWell(|old(trace)|, |trace|, old(moves), moves - 1)
      ensures r.Failure? ==>
                var chosen := Chosen(list, testcases);
                && CutShort(cut, r.error) && trace == old(trace) + (Flatten(parts) + cut)
                && |parts| < |chosen| && RunTrace(home, chosen[..|parts|], parts)
                && Stopped(r.error, |old(trace)|, old(moves))
                && Begun(chosen[|parts|], Resolve(home, chosen[|parts|].dirname), cut)
      ensures testcases == [] && r.Success? && r.value.Done? ==>
                RunTrace(home, list, parts) && r.value.report == ReportOf(list, parts)
      ensures testcases == [] && r.Failure? ==>
                && |parts| < |list| && RunTrace(home, list[..|parts|], parts)
                && Begun(list[|parts|], Resolve(home, list[|parts|].dirname), cut)
      ensures Obliging() ==> r.Success?
    {
      hide Valid, Selection.Select, Selection.Count, RunTrace, ReportOf, Flatten, CutShort, WentWell, Begun;
      parts, cut := [], [];
      if blocked {
        return Success(Refused(Blocking)), parts, cut;
      }
      var chosen := list;
      if |testcases| > 0 {
        var newlist, targets := Selection.SelectTestcases(list, testcases);
        chosen := newlist;
        var notfound := CheckFound(testcases, targets);
        if notfound {
          return Success(Refused(NotFound)), parts, cut;
        }
      }
      var res;
      res, parts, cut := RunFiles(chosen);
      if res.Failure? {
        return Failure(res.error), parts, cut;
      }
      return Success(Done(res.value)), parts, cut;
    }
  }

  lemma EmptyCut(h: Halt)
    requires h != LeftAsChild
    ensures CutShort([], h)
  {
  }

  /** The first `i` files have been run, with this report. */
  ghost predicate Ran(home: AbsPath, list: seq<Source>, parts: seq<seq<Event>>, i: nat, r: Report) {
    i <= |list| && |parts| == i && RunTrace(home, list[..i], parts) && ReportOf(list[..i], parts) == r
  }

  lemma RanSoFar(home: AbsPath, list: seq<Source>, parts: seq<seq<Event>>, i: nat, r: Report)
    requires Ran(home, list, parts, i, r)
    ensures i <= |list| && |parts| == i && RunTrace(home, list[..i], parts) && ReportOf(list[..i], parts) == r
  {
  }

  lemma Associate(a: seq<Event>, b: seq<Event>, c: seq<Event>)
    ensures (a + b) + c == a + (b + c)
  {
  }

  lemma NothingRun(home: AbsPath, list: seq<Source>)
    ensures Ran(home, list, [], 0, Report(0, 0, [], 0)) && Flatten([]) == []
  {
    assert list[..0] == [];
  }

  /** One more file has been run. */
  lemma FileRun(home: AbsPath, list: seq<Source>, parts: seq<seq<Event>>, i: nat, tr: seq<Event>, r: Report)
    requires i < |list| && Ran(home, list, parts, i, r)
    requires FileTrace(list[i], Resolve(home, list[i].dirname), tr)
    ensures Flatten(parts + [tr]) == Flatten(parts) + tr
    ensures Ran(home, list, parts + [tr], i + 1,
                Report(r.nsuccess + Passes(tr), r.nfailure + |list[i].tests| - Passes(tr),
                       r.errors + (if Failures(tr) == [] then [] else [FileErrors(list[i].name, Failures(tr))]),
                       r.count + |Failures(tr)|))
  {
    hide FileTrace, Passes, Failures, ReportOf, Flatten;
    FlattenSnoc(parts, tr);
    ReportSnoc(list, parts, i, tr);
  }

  datatype RoundReport = RoundReport(goOn: bool, nsuccess: nat, entries: seq<Entry>)

  function OutcomeOf(r: (bool, Option<string>)): Outcome {
    if r.0 then Passed else Failed(r.1)
  }

  /** The calls that an optional hook makes. */
  predicate HookCalls(p: Phase, hook: Option<Func>, dir: string, tr: seq<Event>) {
    |tr| == One(hook) && (hook.Some? ==> Is(tr[0], p, hook.value, dir))
  }

  lemma HookNoChild(p: Phase, hook: Option<Func>, dir: string, tr: seq<Event>)
    requires HookCalls(p, hook, dir, tr)
    ensures NoChild(tr)
  {
  }

  lemma CountedNone()
    ensures Passes([]) == 0 && Failures([]) == [] && NoChild([])
  {
  }

  lemma BrokenBefore(src: Source, t: Test, dir: string, a: seq<Event>)
    requires HookCalls(BeforeEach, src.beforeEach, dir, a) && !AllPassed(a)
    ensures BrokenRound(src, t, dir, a)
  {
  }

  lemma TestCounted(t: Test, dir: string, v: (bool, Option<string>), c: seq<Event>, a: seq<Event>)
    requires c == [Event(Case(t.name), t.func, dir, OutcomeOf(v))] && NoChild(a)
    ensures Passes(c) == if v.0 then 1 else 0
    ensures Failures(c) == if v.0 then [] else [Entry(t.name, v.1)]
    ensures NoChild(a + c)
  {
    assert c[1..] == [];
  }

  /** The calls of a round, put together from its three parts. */
  lemma RoundComplete(src: Source, t: Test, dir: string, a: seq<Event>, c: seq<Event>, b: seq<Event>,
                     v: (bool, Option<string>))
    requires HookCalls(BeforeEach, src.beforeEach, dir, a) && AllPassed(a)
    requires c == [Event(Case(t.name), t.func, dir, OutcomeOf(v))]
    requires HookCalls(AfterEach, src.afterEach, dir, b)
    ensures if AllPassed(b) then Round(src, t, dir, a + c + b) else BrokenRound(src, t, dir, a + c + b)
    ensures Passes(a + c + b) == Passes(a) + Passes(c) + Passes(b)
    ensures Failures(a + c + b) == Failures(a) + Failures(c) + Failures(b)
  {
    hide *;
    Concat(a, c);
    Concat(a + c, b);
    RoundJoined(src, t, dir, a, c, b, v);
  }

  lemma RoundJoined(src: Source, t: Test, dir: string, a: seq<Event>, c: seq<Event>, b: seq<Event>,
                     v: (bool, Option<string>))
    requires HookCalls(BeforeEach, src.beforeEach, dir, a) && AllPassed(a)
    requires c == [Event(Case(t.name), t.func, dir, OutcomeOf(v))]
    requires HookCalls(AfterEach, src.afterEach, dir, b)
    ensures if AllPassed(b) then Round(src, t, dir, a + c + b) else BrokenRound(src, t, dir, a + c + b)
  {
    var r := a + c + b;
    assert |r| == RoundLength(src) && r[|a|] == c[0];
    assert src.beforeEach.Some? ==> r[0] == a[0];
    assert src.afterEach.Some? ==> r[|r| - 1] == b[0];
    assert Opens(src, t, dir, r);
    hide Opens;
  }

  /** The counts over a round that follows complete rounds. */
  lemma Joined(src: Source, t: Test, dir: string, done: seq<Event>, round: seq<Event>, goOn: bool)
    requires NoChild(done)
    requires if goOn then Round(src, t, dir, round) else BrokenRound(src, t, dir, round)
    ensures Passes(done + round) == Passes(done) + Passes(round)
    ensures Failures(done + round) == Failures(done) + Failures(round)
    ensures NoChild(done + round)
  {
    RoundNoChild(src, t, dir, round, goOn);
    hide *;
    Concat(done, round);
    NoChildConcat(done, round);
  }

  lemma RoundNoChild(src: Source, t: Test, dir: string, round: seq<Event>, goOn: bool)
    requires if goOn then Round(src, t, dir, round) else BrokenRound(src, t, dir, round)
    ensures NoChild(round)
  {
    forall k | 0 <= k < |round| ensures !round[k].outcome.InChild? {
      assert k == 0 || k == One(src.beforeEach) || k == |round| - 1;
    }
  }

  /** After `i` complete rounds, or `i` and a broken one: their calls, and what they amount to. */
  ghost predicate SoFar(src: Source, dir: string, i: nat, done: seq<Event>, r: FileReport, broken: bool) {
    && i <= |src.tests| && NoChild(done) && r == FileReport(Passes(done), Failures(done))
    && if broken then Rounds(src, src.tests, dir, done) else Covers(src, dir, i, done)
  }

  lemma NoneSoFar(src: Source, dir: string)
    ensures SoFar(src, dir, 0, [], FileReport(0, []), false)
  {
    CoversNone(src, dir);
    CountedNone();
  }

  lemma RoundMore(src: Source, dir: string, i: nat, done: seq<Event>, r: FileReport, round: seq<Event>, goOn: bool)
    requires i < |src.tests| && SoFar(src, dir, i, done, r, false)
    requires if goOn then Round(src, src.tests[i], dir, round) else BrokenRound(src, src.tests[i], dir, round)
    ensures SoFar(src, dir, if goOn then i + 1 else i, done + round,
                  FileReport(r.nsuccess + Passes(round), r.entries + Failures(round)), !goOn)
  {
    hide Round, BrokenRound, Rounds, Covers, NoChild, Passes, Failures;
    Joined(src, src.tests[i], dir, done, round, goOn);
    if goOn {
      CoversRound(src, dir, i, done, round);
    } else {
      CoversBroken(src, dir, i, done, round);
    }
  }

  lemma AllRounds(src: Source, dir: string, i: nat, done: seq<Event>, r: FileReport, broken: bool)
    requires SoFar(src, dir, i, done, r, broken) && (broken || i == |src.tests|)
    ensures NoChild(done) && r == FileReport(Passes(done), Failures(done)) && Rounds(src, src.tests, dir, done)
  {
    if !broken {
      CoversAll(src, dir, done);
    }
  }

  lemma BeforeAllOnly(src: Source, dir: string, tr: seq<Event>)
    requires HookCalls(BeforeAll, src.beforeAll, dir, tr) && !AllPassed(tr)
    ensures FileTrace(src, dir, tr)
  {
  }

  /** before_all (passed), the rounds and after_all make up the file's calls, and the
      numbers counted along the way are those of all of them. */
  lemma FileComplete(src: Source, dir: string, pre: seq<Event>, mid: seq<Event>, post: seq<Event>)
    requires HookCalls(BeforeAll, src.beforeAll, dir, pre) && AllPassed(pre)
    requires Rounds(src, src.tests, dir, mid)
    requires HookCalls(AfterAll, src.afterAll, dir, post)
    ensures FileTrace(src, dir, pre + mid + post)
    ensures Passes(pre + mid + post) == Passes(pre) + Passes(mid) + Passes(post)
    ensures Failures(pre + mid + post) == Failures(pre) + Failures(mid) + Failures(post)
  {
    hide *;
    Concat(pre, mid);
    Concat(pre + mid, post);
    BodyComplete(src, dir, mid, post);
    FileOfBody(src, dir, pre, mid + post);
    assert pre + mid + post == pre + (mid + post);
  }

  lemma FileOfBody(src: Source, dir: string, pre: seq<Event>, body: seq<Event>)
    requires HookCalls(BeforeAll, src.beforeAll, dir, pre) && AllPassed(pre) && Body(src, dir, body)
    ensures FileTrace(src, dir, pre + body)
  {
    hide Body;
    assert pre == [] ==> pre + body == body;
    assert pre != [] ==> (pre + body)[1..] == body;
  }

  lemma BodyComplete(src: Source, dir: string, mid: seq<Event>, post: seq<Event>)
    requires Rounds(src, src.tests, dir, mid) && HookCalls(AfterAll, src.afterAll, dir, post)
    ensures Body(src, dir, mid + post)
  {
    hide Rounds;
    assert post == [] ==> mid + post == mid;
    assert post != [] ==> (mid + post)[..|mid + post| - 1] == mid;
  }

  // --- the beginning of a trace ---

  /** A call that was cut short by `h`: not made, or made and not returned from. */
  predicate CallBegun(phase: Phase, func: Func, dir: string, tr: seq<Event>, h: Halt) {
    if h == CwdLost then tr == []
    else
      && |tr| == 1 && tr[0].phase == phase && tr[0].func == func && tr[0].dir == dir
      && (h == LeftAsChild <==> tr[0].outcome.InChild?)
  }

  /** The calls as the parent of a forked child might have seen them: returned from. */
  function Returned(tr: seq<Event>): (r: seq<Event>)
    ensures |r| == |tr|
  {
    if tr != [] && tr[|tr| - 1].outcome.InChild?
    then tr[..|tr| - 1] + [tr[|tr| - 1].(outcome := Passed)]
    else tr
  }

  /** `tr` begins a round, complete or broken, of the test. */
  ghost predicate RoundBegun(src: Source, t: Test, dir: string, tr: seq<Event>) {
    exists r :: (Round(src, t, dir, r) || BrokenRound(src, t, dir, r)) && Returned(tr) <= r
  }

  /** `tr` begins a complete trace of the file. */
  ghost predicate Begun(src: Source, dir: string, tr: seq<Event>) {
    exists all :: FileTrace(src, dir, all) && Returned(tr) <= all
  }

  lemma ReturnedAfter(a: seq<Event>, b: seq<Event>)
    requires NoChild(a)
    ensures Returned(a + b) == a + Returned(b)
  {
    if b == [] {
      assert a + b == a && a + Returned(b) == a;
    } else {
      assert (a + b)[|a + b| - 1] == b[|b| - 1];
    }
  }

  lemma CallCut(phase: Phase, func: Func, dir: string, tr: seq<Event>, h: Halt)
    requires CallBegun(phase, func, dir, tr, h)
    ensures CutShort(tr, h)
  {
  }

  // --- what would complete it: everything passes ---

  function PassHook(p: Phase, hook: Option<Func>, dir: string): seq<Event> {
    if hook.None? then [] else [Event(p, hook.value, dir, Passed)]
  }

  /** A hook's calls, completed. */
  function Whole(p: Phase, hook: Option<Func>, dir: string, tr: seq<Event>): seq<Event> {
    if tr == [] then PassHook(p, hook, dir) else Returned(tr)
  }

  lemma WholeCalls(p: Phase, hook: Option<Func>, dir: string, tr: seq<Event>, h: Halt)
    requires hook.Some? && CallBegun(p, hook.value, dir, tr, h)
    ensures HookCalls(p, hook, dir, Whole(p, hook, dir, tr)) && Returned(tr) <= Whole(p, hook, dir, tr)
  {
  }

  function PassCase(t: Test, dir: string): seq<Event> {
    [Event(Case(t.name), t.func, dir, Passed)]
  }

  function PassRound(src: Source, t: Test, dir: string): seq<Event> {
    PassHook(BeforeEach, src.beforeEach, dir) + PassCase(t, dir) + PassHook(AfterEach, src.afterEach, dir)
  }

  function PassRounds(src: Source, tests: seq<Test>, dir: string): seq<Event> {
    if tests == [] then [] else PassRound(src, tests[0], dir) + PassRounds(src, tests[1..], dir)
  }

  lemma PassHookCalls(p: Phase, hook: Option<Func>, dir: string)
    ensures HookCalls(p, hook, dir, PassHook(p, hook, dir)) && AllPassed(PassHook(p, hook, dir))
  {
  }

  lemma PassRoundIsRound(src: Source, t: Test, dir: string)
    ensures Round(src, t, dir, PassRound(src, t, dir))
  {
    PassHookCalls(BeforeEach, src.beforeEach, dir);
    PassHookCalls(AfterEach, src.afterEach, dir);
    hide HookCalls, AllPassed, PassHook, Round;
    RoundJoined(src, t, dir, PassHook(BeforeEach, src.beforeEach, dir), PassCase(t, dir),
                PassHook(AfterEach, src.afterEach, dir), (true, None));
  }

  lemma {:induction false} PassRoundsAreRounds(src: Source, tests: seq<Test>, dir: string)
    ensures Rounds(src, tests, dir, PassRounds(src, tests, dir))
  {
    if tests != [] {
      var r, rest := PassRound(src, tests[0], dir), PassRounds(src, tests[1..], dir);
      PassRoundIsRound(src, tests[0], dir);
      PassRoundsAreRounds(src, tests[1..], dir);
      hide PassRound, Opens;
      assert (r + rest)[..|r|] == r && (r + rest)[|r|..] == rest;
    }
  }

  // --- every point where a run can stop lies on a complete trace ---

  lemma Longer(tr: seq<Event>, a: seq<Event>, b: seq<Event>, c: seq<Event>)
    requires tr <= a
    ensures tr <= a + b + c && tr <= a + (b + c) && tr <= a + b
  {
  }

  lemma Further(a: seq<Event>, tr: seq<Event>, b: seq<Event>, c: seq<Event>)
    requires tr <= b
    ensures a + tr <= a + b && a + tr <= a + b + c
  {
  }

  /** A round put together from its parts, of which `tr` is the beginning. */
  lemma RoundBegins(src: Source, t: Test, dir: string, a: seq<Event>, o: Outcome, b: seq<Event>, tr: seq<Event>)
    requires HookCalls(BeforeEach, src.beforeEach, dir, a) && AllPassed(a) && !o.InChild?
    requires HookCalls(AfterEach, src.afterEach, dir, b)
    requires Returned(tr) <= a + [Event(Case(t.name), t.func, dir, o)] + b
    ensures RoundBegun(src, t, dir, tr)
  {
    var v := (o.Passed?, if o.Failed? then o.err else None);
    assert OutcomeOf(v) == o;
    hide HookCalls, AllPassed, Round, BrokenRound, Returned;
    RoundJoined(src, t, dir, a, [Event(Case(t.name), t.func, dir, o)], b, v);
    assert AllPassed(b) || !AllPassed(b);
  }

  lemma RoundBegunBefore(src: Source, t: Test, dir: string, a: seq<Event>, h: Halt)
    requires src.beforeEach.Some? && CallBegun(BeforeEach, src.beforeEach.value, dir, a, h)
    ensures CutShort(a, h) && RoundBegun(src, t, dir, a)
  {
    CallCut(BeforeEach, src.beforeEach.value, dir, a, h);
    WholeCalls(BeforeEach, src.beforeEach, dir, a, h);
    var w, post := Whole(BeforeEach, src.beforeEach, dir, a), PassHook(AfterEach, src.afterEach, dir);
    if AllPassed(w) {
      PassHookCalls(AfterEach, src.afterEach, dir);
      hide *;
      Longer(Returned(a), w, [Event(Case(t.name), t.func, dir, Passed)], post);
      RoundBegins(src, t, dir, w, Passed, post, a);
    } else {
      BrokenBefore(src, t, dir, w);
    }
  }

  lemma RoundBegunTest(src: Source, t: Test, dir: string, a: seq<Event>, c: seq<Event>, h: Halt)
    requires HookCalls(BeforeEach, src.beforeEach, dir, a) && AllPassed(a) && NoChild(a)
    requires CallBegun(Case(t.name), t.func, dir, c, h)
    ensures CutShort(a + c, h) && RoundBegun(src, t, dir, a + c)
  {
    CallCut(Case(t.name), t.func, dir, c, h);
    CutShortAfter(a, c, h);
    ReturnedAfter(a, c);
    PassHookCalls(AfterEach, src.afterEach, dir);
    var o := if c == [] then Passed else Returned(c)[0].outcome;
    var post := PassHook(AfterEach, src.afterEach, dir);
    assert Returned(c) <= [Event(Case(t.name), t.func, dir, o)] && !o.InChild?;
    hide *;
    Further(a, Returned(c), [Event(Case(t.name), t.func, dir, o)], post);
    RoundBegins(src, t, dir, a, o, post, a + c);
  }

  lemma RoundBegunAfter(src: Source, t: Test, dir: string, a: seq<Event>, c: seq<Event>, b: seq<Event>,
                        v: (bool, Option<string>), h: Halt)
    requires HookCalls(BeforeEach, src.beforeEach, dir, a) && AllPassed(a) && NoChild(a + c)
    requires c == [Event(Case(t.name), t.func, dir, OutcomeOf(v))]
    requires src.afterEach.Some? && CallBegun(AfterEach, src.afterEach.value, dir, b, h)
    ensures CutShort(a + c + b, h) && RoundBegun(src, t, dir, a + c + b)
  {
    CallCut(AfterEach, src.afterEach.value, dir, b, h);
    CutShortAfter(a + c, b, h);
    ReturnedAfter(a + c, b);
    WholeCalls(AfterEach, src.afterEach, dir, b, h);
    var w := Whole(AfterEach, src.afterEach, dir, b);
    assert !OutcomeOf(v).InChild?;
    hide *;
    Further(a + c, Returned(b), w, []);
    RoundBegins(src, t, dir, a, OutcomeOf(v), w, a + c + b);
  }

  /** A trace of the file put together from its parts, of which `tr` is the beginning. */
  lemma Begins(src: Source, dir: string, pre: seq<Event>, mid: seq<Event>, post: seq<Event>, tr: seq<Event>)
    requires HookCalls(BeforeAll, src.beforeAll, dir, pre) && AllPassed(pre)
    requires Rounds(src, src.tests, dir, mid) && HookCalls(AfterAll, src.afterAll, dir, post)
    requires Returned(tr) <= pre + mid + post
    ensures Begun(src, dir, tr)
  {
    hide HookCalls, AllPassed, Rounds, FileTrace, Returned;
    FileComplete(src, dir, pre, mid, post);
  }

  lemma NothingBegun(src: Source, dir: string)
    ensures Begun(src, dir, [])
  {
    var pre, mid, post :=
      PassHook(BeforeAll, src.beforeAll, dir), PassRounds(src, src.tests, dir), PassHook(AfterAll, src.afterAll, dir);
    PassHookCalls(BeforeAll, src.beforeAll, dir);
    PassRoundsAreRounds(src, src.tests, dir);
    PassHookCalls(AfterAll, src.afterAll, dir);
    assert Returned([]) <= pre + mid + post;
    hide *;
    Begins(src, dir, pre, mid, post, []);
  }

  lemma BegunBefore(src: Source, dir: string, pre: seq<Event>, h: Halt)
    requires src.beforeAll.Some? && CallBegun(BeforeAll, src.beforeAll.value, dir, pre, h)
    ensures CutShort(pre, h) && Begun(src, dir, pre)
  {
    CallCut(BeforeAll, src.beforeAll.value, dir, pre, h);
    WholeCalls(BeforeAll, src.beforeAll, dir, pre, h);
    var w := Whole(BeforeAll, src.beforeAll, dir, pre);
    var mid, post := PassRounds(src, src.tests, dir), PassHook(AfterAll, src.afterAll, dir);
    if AllPassed(w) {
      PassRoundsAreRounds(src, src.tests, dir);
      PassHookCalls(AfterAll, src.afterAll, dir);
      hide *;
      Longer(Returned(pre), w, mid, post);
      Begins(src, dir, w, mid, post, pre);
    } else {
      BeforeAllOnly(src, dir, w);
    }
  }

  /** A file that stops in its `i`th round. */
  lemma BegunRound(src: Source, dir: string, pre: seq<Event>, done: seq<Event>, i: nat, r: FileReport,
                   round: seq<Event>, h: Halt)
    requires HookCalls(BeforeAll, src.beforeAll, dir, pre) && AllPassed(pre) && NoChild(pre)
    requires i < |src.tests| && SoFar(src, dir, i, done, r, false)
    requires CutShort(round, h) && RoundBegun(src, src.tests[i], dir, round)
    ensures CutShort(pre + done + round, h) && Begun(src, dir, pre + done + round)
  {
    NoChildConcat(pre, done);
    CutShortAfter(pre + done, round, h);
    ReturnedAfter(pre + done, round);
    var mid := RoundsBegun(src, dir, done, i, round);
    var post := PassHook(AfterAll, src.afterAll, dir);
    PassHookCalls(AfterAll, src.afterAll, dir);
    hide *;
    Associate(pre, done, Returned(round));
    Further(pre, done + Returned(round), mid, post);
    Begins(src, dir, pre, mid, post, pre + done + round);
  }

  lemma RoundsBegun(src: Source, dir: string, done: seq<Event>, i: nat, round: seq<Event>) returns (mid: seq<Event>)
    requires i < |src.tests| && Covers(src, dir, i, done) && RoundBegun(src, src.tests[i], dir, round)
    ensures Rounds(src, src.tests, dir, mid) && done + Returned(round) <= mid
  {
    var t := src.tests[i];
    var r :| (Round(src, t, dir, r) || BrokenRound(src, t, dir, r)) && Returned(round) <= r;
    var rest := PassRounds(src, src.tests[i + 1..], dir);
    PassRoundsAreRounds(src, src.tests[i + 1..], dir);
    hide PassRounds, Rounds, Round, BrokenRound, Returned;
    Further(done, Returned(round), r, rest);
    if Round(src, t, dir, r) {
      CoversRound(src, dir, i, done, r);
      mid := done + r + rest;
    } else {
      CoversBroken(src, dir, i, done, r);
      mid := done + r;
    }
  }

  lemma BegunAfter(src: Source, dir: string, pre: seq<Event>, done: seq<Event>, post: seq<Event>, h: Halt)
    requires HookCalls(BeforeAll, src.beforeAll, dir, pre) && AllPassed(pre) && NoChild(pre) && NoChild(done)
    requires Rounds(src, src.tests, dir, done)
    requires src.afterAll.Some? && CallBegun(AfterAll, src.afterAll.value, dir, post, h)
    ensures CutShort(pre + done + post, h) && Begun(src, dir, pre + done + post)
  {
    CallCut(AfterAll, src.afterAll.value, dir, post, h);
    NoChildConcat(pre, done);
    CutShortAfter(pre + done, post, h);
    ReturnedAfter(pre + done, post);
    WholeCalls(AfterAll, src.afterAll, dir, post, h);
    var w := Whole(AfterAll, src.afterAll, dir, post);
    hide *;
    Further(pre + done, Returned(post), w, []);
    Begins(src, dir, pre, done, w, pre + done + post);
  }

  lemma Appended(pre: seq<Event>, done: seq<Event>, more: seq<Event>)
    ensures pre + done + more == pre + (done + more)
  {
  }
}
