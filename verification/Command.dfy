/** bin/testcase.lua: from the command line arguments to the exit status. */
module Command {
  import opened Prelude
  import opened Suite
  import opened Trace
  import opened Runs
  import opened Runner
  import opened Paths
  import Dedup
  import Positions

  /** The program gives up: it exits with status -1, or a Lua error ends it. */
  datatype Stop = Exit | Raise

  type Realpath = string -> Result<string, ()>

  /** `check_pathname` */
  function CheckPathname(realpath: Realpath, pathname: string): Result<string, Stop> {
    match realpath(pathname)
    case Success(path) => Success(path)
    case Failure(_) => Failure(Exit)
  }

  predicate AllResolve(realpath: Realpath, names: seq<string>) {
    forall i :: 0 <= i < |names| ==> realpath(names[i]).Success?
  }

  /** `get_pathnames`: the real paths of all arguments, if they exist and differ. */
  method GetPathnames(realpath: Realpath, args: seq<string>) returns (r: Result<seq<string>, Stop>)
    ensures r.Success? <==>
            && AllResolve(realpath, args)
            && forall i, j :: 0 <= i < j < |args| ==> realpath(args[i]) != realpath(args[j])
    ensures r.Success? ==>
              |r.value| == |args| && forall i :: 0 <= i < |args| ==> realpath(args[i]) == Success(r.value[i])
    ensures r.Failure? ==> r.error == Exit
  {
    var pathnames: seq<string>, seen: set<string> := [], {};
    for i := 0 to |args|
      invariant |pathnames| == i && forall k :: 0 <= k < i ==> realpath(args[k]) == Success(pathnames[k])
      invariant forall k, l :: 0 <= k < l < i ==> pathnames[k] != pathnames[l]
      invariant forall p :: p in seen <==> p in pathnames
    {
      var path :- CheckPathname(realpath, args[i]);
      if path in seen {
        ghost var k :| 0 <= k < i && pathnames[k] == path;
        assert realpath(args[k]) == realpath(args[i]);
        return Failure(Exit);
      }
      seen := seen + {path};
      pathnames := pathnames + [path];
    }
    return Success(pathnames);
  }

  // --- the files of all path names ---

  type Listing = string -> Result<Option<seq<string>>, ()>

  function KeyOf(realpath: Realpath): string -> Option<string> {
    (name: string) => match realpath(name) case Success(p) => Some(p) case Failure(_) => None
  }

  /** All names that `getfiles` lists, in order. */
  function Listed(listing: Listing, pathnames: seq<string>): seq<string> {
    if pathnames == [] then []
    else
      (match listing(pathnames[0])
       case Success(Some(list)) => list
       case _ => []) + Listed(listing, pathnames[1..])
  }

  predicate AllListed(listing: Listing, pathnames: seq<string>) {
    forall i :: 0 <= i < |pathnames| ==> listing(pathnames[i]).Success? && listing(pathnames[i]).value.Some?
  }

  lemma {:induction false} ListedNext(listing: Listing, pathnames: seq<string>, i: nat)
    requires i < |pathnames| && listing(pathnames[i]).Success? && listing(pathnames[i]).value.Some?
    ensures Listed(listing, pathnames[..i + 1]) == Listed(listing, pathnames[..i]) + listing(pathnames[i]).value.value
  {
    assert pathnames[..i + 1][1..] == pathnames[1..][..i];
    if i > 0 {
      assert pathnames[..i][1..] == pathnames[1..][..i - 1];
      ListedNext(listing, pathnames[1..], i - 1);
    }
  }

  /** What the loop of `get_files` has collected from the names `done`. */
  ghost predicate Collected(realpath: Realpath, done: seq<string>, files: seq<string>, seen: set<string>) {
    && AllResolve(realpath, done)
    && files == Dedup.FirstOf(KeyOf(realpath), done)
    && forall p :: p in seen <==> Some(p) in Dedup.Keys(KeyOf(realpath), done)
  }

  lemma CollectedNone(realpath: Realpath)
    ensures Collected(realpath, [], [], {})
  {
  }

  lemma CollectedNext(realpath: Realpath, done: seq<string>, files: seq<string>, seen: set<string>,
                      name: string, path: string)
    requires Collected(realpath, done, files, seen) && realpath(name) == Success(path)
    ensures Collected(realpath, done + [name], files + (if path in seen then [] else [name]), seen + {path})
  {
    hide *;
    var key := KeyOf(realpath);
    AllCollected(realpath, done, files, seen);
    ResolvesMore(realpath, done, name);
    Dedup.FirstOfMore(key, done, name);
    Dedup.KeysMore(key, done, name);
    KeyIs(realpath, name, path);
    SeenNext(Dedup.Keys(key, done), seen, path);
    CollectedIs(realpath, done + [name], files + (if path in seen then [] else [name]), seen + {path});
  }

  lemma ResolvesMore(realpath: Realpath, done: seq<string>, name: string)
    requires AllResolve(realpath, done) && realpath(name).Success?
    ensures AllResolve(realpath, done + [name])
  {
  }

  lemma KeyIs(realpath: Realpath, name: string, path: string)
    requires realpath(name) == Success(path)
    ensures KeyOf(realpath)(name) == Some(path)
  {
  }

  lemma SeenNext(keys: seq<Option<string>>, seen: set<string>, path: string)
    requires forall p :: p in seen <==> Some(p) in keys
    ensures path in seen <==> Some(path) in keys
    ensures forall p :: p in seen + {path} <==> Some(p) in keys + [Some(path)]
  {
  }

  lemma CollectedIs(realpath: Realpath, done: seq<string>, files: seq<string>, seen: set<string>)
    requires AllResolve(realpath, done) && files == Dedup.FirstOf(KeyOf(realpath), done)
    requires forall p :: p in seen <==> Some(p) in Dedup.Keys(KeyOf(realpath), done)
    ensures Collected(realpath, done, files, seen)
  {
    hide AllResolve, Dedup.FirstOf, Dedup.Keys, KeyOf;
  }

  /** `get_files` goes no further than this path name: it cannot be listed, or a name
      below it cannot be resolved. */
  predicate Stops(realpath: Realpath, listing: Listing, pathname: string) {
    match listing(pathname)
    case Success(Some(list)) => !AllResolve(realpath, list)
    case _ => true
  }

  lemma StopsIff(realpath: Realpath, listing: Listing, pathname: string)
    ensures Stops(realpath, listing, pathname) <==>
            || listing(pathname).Failure? || listing(pathname).value.None?
            || exists k :: 0 <= k < |listing(pathname).value.value| &&
                           realpath(listing(pathname).value.value[k]).Failure?
  {
  }

  /** `get_files`: every file once, at its first occurrence. */
  method GetFiles(realpath: Realpath, listing: Listing, pathnames: seq<string>) returns (r: Result<seq<string>, Stop>)
    ensures r.Success? <==> AllListed(listing, pathnames) && AllResolve(realpath, Listed(listing, pathnames))
    ensures r.Success? ==> r.value == Dedup.FirstOf(KeyOf(realpath), Listed(listing, pathnames))
    ensures r.Failure? ==>
              exists i :: && 0 <= i < |pathnames| && Stops(realpath, listing, pathnames[i])
                          && (forall j :: 0 <= j < i ==> !Stops(realpath, listing, pathnames[j]))
                          && r.error == if listing(pathnames[i]) == Success(None) then Raise else Exit
  {
    hide Collected, Listed, AllResolve, Dedup.FirstOf, Stops;
    var files: seq<string>, seen: set<string> := [], {};
    ghost var done: seq<string> := [];
    CollectedNone(realpath);
    ListedNone(listing, pathnames);
    for i := 0 to |pathnames|
      invariant Collected(realpath, done, files, seen) && done == Listed(listing, pathnames[..i])
      invariant forall k :: 0 <= k < i ==> listing(pathnames[k]).Success? && listing(pathnames[k]).value.Some?
      invariant forall k :: 0 <= k < i ==> !Stops(realpath, listing, pathnames[k])
    {
      var res := listing(pathnames[i]);
      StopsIff(realpath, listing, pathnames[i]);
      if res.Failure? {
        return Failure(Exit);
      } else if res.value.None? {
        return Failure(Raise);
      }
      var list := res.value.value;
      ListedNext(listing, pathnames, i);
      ghost var before := done;
      assert before + list[..0] == before;
      for j := 0 to |list|
        invariant Collected(realpath, done, files, seen) && done == before + list[..j]
        invariant forall k :: 0 <= k < j ==> realpath(list[k]).Success?
      {
        var path := CheckPathname(realpath, list[j]);
        if path.Failure? {
          Unresolved(realpath, listing, pathnames, i, before, list, j);
          return Failure(path.error);
        }
        CollectedNext(realpath, done, files, seen, list[j], path.value);
        assert files + [] == files && seen + {path.value} == if path.value in seen then seen else seen + {path.value};
        assert before + list[..j + 1] == (before + list[..j]) + [list[j]];
        done := done + [list[j]];
        if path.value !in seen {
          seen := seen + {path.value};
          files := files + [list[j]];
        }
      }
      assert list[..|list|] == list;
    }
    assert pathnames[..|pathnames|] == pathnames;
    AllCollected(realpath, done, files, seen);
    return Success(files);
  }

  lemma ListedNone(listing: Listing, pathnames: seq<string>)
    ensures Listed(listing, pathnames[..0]) == []
  {
  }

  lemma AllCollected(realpath: Realpath, done: seq<string>, files: seq<string>, seen: set<string>)
    requires Collected(realpath, done, files, seen)
    ensures AllResolve(realpath, done) && files == Dedup.FirstOf(KeyOf(realpath), done)
    ensures forall p :: p in seen <==> Some(p) in Dedup.Keys(KeyOf(realpath), done)
  {
    hide AllResolve, Dedup.FirstOf, Dedup.Keys, KeyOf;
  }

  lemma Unresolved(realpath: Realpath, listing: Listing, pathnames: seq<string>, i: nat,
                   before: seq<string>, list: seq<string>, j: nat)
    requires i < |pathnames| && j < |list| && listing(pathnames[i]) == Success(Some(list))
    requires before == Listed(listing, pathnames[..i]) && realpath(list[j]).Failure?
    ensures !AllResolve(realpath, Listed(listing, pathnames))
  {
    hide *;
    ListedNext(listing, pathnames, i);
    ListedPrefix(listing, pathnames, i + 1);
    UnresolvedIn(realpath, before + list, Listed(listing, pathnames), |before| + j);
  }

  lemma UnresolvedIn(realpath: Realpath, part: seq<string>, all: seq<string>, k: nat)
    requires part <= all && k < |part| && realpath(part[k]).Failure?
    ensures !AllResolve(realpath, all)
  {
    assert all[k] == part[k];
  }

  lemma {:induction false} ListedPrefix(listing: Listing, pathnames: seq<string>, i: nat)
    requires i <= |pathnames|
    ensures Listed(listing, pathnames[..i]) <= Listed(listing, pathnames)
  {
    if i > 0 {
      assert pathnames[..i][1..] == pathnames[1..][..i - 1];
      ListedPrefix(listing, pathnames[1..], i - 1);
    }
  }

  /** The names of a path name follow those of the path names before it, in their order. */
  lemma ListedInOrder(listing: Listing, pathnames: seq<string>, i: nat, k: nat)
    requires i < |pathnames| && listing(pathnames[i]).Success? && listing(pathnames[i]).value.Some?
    requires k < |listing(pathnames[i]).value.value|
    ensures var at := |Listed(listing, pathnames[..i])| + k;
            at < |Listed(listing, pathnames)| && Listed(listing, pathnames)[at] == listing(pathnames[i]).value.value[k]
  {
    ListedNext(listing, pathnames, i);
    ListedPrefix(listing, pathnames, i + 1);
    hide Listed;
    var upTo := Listed(listing, pathnames[..i + 1]);
    assert upTo <= Listed(listing, pathnames);
    assert Listed(listing, pathnames)[..|upTo|] == upTo;
  }

  /** Across all path names, every canonical file is kept exactly once. */
  lemma EveryFileOnce(realpath: Realpath, listing: Listing, pathnames: seq<string>)
    requires AllResolve(realpath, Listed(listing, pathnames))
    ensures var all, files := Listed(listing, pathnames), Dedup.FirstOf(KeyOf(realpath), Listed(listing, pathnames));
            && (forall n :: n in files ==> n in all)
            && (forall i, j :: 0 <= i < j < |files| ==> realpath(files[i]) != realpath(files[j]))
            && (forall n :: n in all ==> exists f :: f in files && realpath(f) == realpath(n))
  {
    hide *;
    KeptOnce(realpath, Listed(listing, pathnames));
  }

  lemma KeptOnce(realpath: Realpath, all: seq<string>)
    requires AllResolve(realpath, all)
    ensures var files := Dedup.FirstOf(KeyOf(realpath), all);
            && (forall n :: n in files ==> n in all)
            && (forall i, j :: 0 <= i < j < |files| ==> realpath(files[i]) != realpath(files[j]))
            && (forall n :: n in all ==> exists f :: f in files && realpath(f) == realpath(n))
  {
    var key := KeyOf(realpath);
    var files := Dedup.FirstOf(key, all);
    FilesAreListed(key, all);
    Dedup.EachKeyOnce(key, all);
    hide Dedup.FirstOf, Dedup.Keys;
    assert forall n :: n in all ==> realpath(n).Success?;
    forall i, j | 0 <= i < j < |files| ensures realpath(files[i]) != realpath(files[j]) {
      assert key(files[i]) != key(files[j]) && files[i] in all && files[j] in all;
    }
    forall n | n in all ensures exists f :: f in files && realpath(f) == realpath(n) {
      var f := FileOf(key, all, n);
      assert f in all && key(f) == key(n);
    }
  }

  lemma FilesAreListed(key: string -> Option<string>, all: seq<string>)
    ensures forall n :: n in Dedup.FirstOf(key, all) ==> n in all
  {
    Dedup.KeepsFirsts(key, all);
    hide Dedup.FirstOf, Dedup.Positions;
  }

  lemma FileOf(key: string -> Option<string>, all: seq<string>, n: string) returns (f: string)
    requires n in all
    ensures f in Dedup.FirstOf(key, all) && key(f) == key(n)
  {
    var files := Dedup.FirstOf(key, all);
    Dedup.EachKeyOnce(key, all);
    Dedup.KeyMember(key, all, key(n));
    Dedup.KeyMember(key, files, key(n));
    hide Dedup.FirstOf, Dedup.Keys;
    var i :| 0 <= i < |all| && all[i] == n;
    assert key(all[i]) == key(n);
    var j :| 0 <= j < |files| && key(files[j]) == key(n);
    f := files[j];
  }

  // --- loading, running, exiting ---

  type Loader = string -> Option<string>

  function LoadErrors(eval: Loader, files: seq<string>): seq<(string, string)> {
    if files == [] then []
    else
      LoadErrors(eval, files[..|files| - 1]) +
      match eval(files[|files| - 1])
      case None => []
      case Some(err) => [(files[|files| - 1], err)]
  }

  /** `loadfiles`: one entry per file that fails to load, in order. */
  method LoadFiles(eval: Loader, files: seq<string>) returns (errfiles: seq<(string, string)>)
    ensures errfiles == LoadErrors(eval, files)
  {
    errfiles := [];
    for i := 0 to |files|
      invariant errfiles == LoadErrors(eval, files[..i])
    {
      assert files[..i + 1][..i] == files[..i];
      var res := eval(files[i]);
      if res.Some? {
        errfiles := errfiles + [(files[i], res.value)];
      }
    }
    assert files[..|files|] == files;
  }

  /** The entries are those of the files that fail to load, in order, each with its error. */
  ghost predicate AreLoadErrors(eval: Loader, files: seq<string>, pos: seq<nat>, errfiles: seq<(string, string)>) {
    && Positions.Ascend(pos, |files|) && |pos| == |errfiles|
    && (forall j :: 0 <= j < |pos| ==>
          errfiles[j].0 == files[pos[j]] && eval(files[pos[j]]) == Some(errfiles[j].1))
    && (forall i :: 0 <= i < |files| ==> (i in pos <==> eval(files[i]).Some?))
  }

  lemma {:induction false} LoadErrorsInOrder(eval: Loader, files: seq<string>) returns (pos: seq<nat>)
    ensures AreLoadErrors(eval, files, pos, LoadErrors(eval, files))
  {
    if files == [] {
      pos := [];
    } else {
      var init, last := files[..|files| - 1], files[|files| - 1];
      var before := LoadErrorsInOrder(eval, init);
      var more := if eval(last).Some? then [(last, eval(last).value)] else [];
      assert LoadErrors(eval, files) == LoadErrors(eval, init) + more;
      assert files == init + [last];
      hide *;
      pos := LoadErrorsNext(eval, init, before, LoadErrors(eval, init), last);
    }
  }

  lemma LoadErrorsNext(eval: Loader, files: seq<string>, pos: seq<nat>, errfiles: seq<(string, string)>, file: string)
    returns (more: seq<nat>)
    requires AreLoadErrors(eval, files, pos, errfiles)
    ensures AreLoadErrors(eval, files + [file], more,
                          errfiles + if eval(file).Some? then [(file, eval(file).value)] else [])
  {
    more := Positions.OneMore(pos, |files|, eval(file).Some?);
  }

  lemma {:induction false} NoLoadErrors(eval: Loader, files: seq<string>)
    ensures LoadErrors(eval, files) == [] <==> forall i :: 0 <= i < |files| ==> eval(files[i]).None?
  {
    if files != [] {
      var n := |files| - 1;
      NoLoadErrors(eval, files[..n]);
      assert forall i :: 0 <= i < n ==> files[..n][i] == files[i];
    }
  }

  /** Without names no name is missing, and every file is run. */
  lemma AllChosen(list: seq<Source>)
    ensures Chosen(list, []) == list && !SomeMissing(list, [])
  {
  }

  /** From the loaded list to the exit status: 0 exactly when the process gets to it, no
      file failed to load, every requested name was found, every call of user code
      succeeded and every selected test ran. When nothing refuses, it does get there.
      Otherwise the oracle consulted last refused, the files before are complete, and
      what was done of the next one begins a complete trace of it. */
  method Finish(runner: Runner, list: seq<Source>, errfiles: seq<(string, string)>, testcases: seq<string>)
    returns (exit: Result<int, Halt>, ghost parts: seq<seq<Event>>, ghost cut: seq<Event>)
    requires runner.Valid()
    modifies runner`cwd, runner`moves, runner`trace, runner`blocked
    ensures runner.Valid() && runner.trace == old(runner.trace) + (Flatten(parts) + cut)
    ensures exit.Success? ==> exit.value == 0 || exit.value == -1
    ensures runner.Obliging() ==> exit.Success?
    ensures exit == Success(0) <==>
            && exit.Success? && errfiles == [] && !SomeMissing(list, testcases)
            && AllPassed(Flatten(parts)) && AllTestsRan(Chosen(list, testcases), parts)
    ensures testcases == [] ==>
              (exit == Success(0) <==>
               exit.Success? && errfiles == [] && AllPassed(Flatten(parts)) && AllTestsRan(list, parts))
    ensures testcases == [] && exit.Success? && (errfiles == [] || list != []) ==>
              RunTrace(runner.home, list, parts) && cut == []
    ensures testcases == [] && exit.Failure? ==>
              && |parts| < |list| && RunTrace(runner.home, list[..|parts|], parts)
              && Begun(list[|parts|], Resolve(runner.home, list[|parts|].dirname), cut)
    ensures exit.Success? && (errfiles == [] || list != []) && !SomeMissing(list, testcases) ==>
              RunTrace(runner.home, Chosen(list, testcases), parts) && cut == []
    ensures exit.Success? && (SomeMissing(list, testcases) || (errfiles != [] && list == [])) ==>
              parts == [] && cut == []
    ensures exit.Failure? ==>
              var chosen := Chosen(list, testcases);
              && runner.Stopped(exit.error, |old(runner.trace)|, old(runner.moves)) && CutShort(cut, exit.error)
              && |parts| < |chosen| && RunTrace(runner.home, chosen[..|parts|], parts)
              && Begun(chosen[|parts|], Resolve(runner.home, chosen[|parts|].dirname), cut)
  {
    hide Begun, SomeMissing, Chosen, CutShort, RunTrace, AllPassed, AllTestsRan, Runner.Valid, ReportOf;
    parts, cut := [], [];
    assert Flatten(parts) + cut == [];
    if testcases == [] {
      AllChosen(list);
    }
    if |errfiles| > 0 && |list| == 0 {
      return Success(-1), parts, cut;
    }
    runner.Unblock();
    var res;
    res, parts, cut := runner.Run(list, testcases);
    if res.Failure? {
      return Failure(res.error), parts, cut;
    } else if res.value.Refused? {
      assert res.value.reason == NotFound by {
        assert res.value.reason == Blocking ==> res == Success(Refused(Blocking));
      }
      assert res == Success(Refused(NotFound));
      return Success(-1), [], [];
    }
    cut := [];
    assert Flatten(parts) + cut == Flatten(parts);
    var report := res.value.report;
    CleanIff(runner.home, Chosen(list, testcases), parts, |errfiles|);
    if report.nfailure > 0 || report.count > 0 || |errfiles| > 0 {
      return Success(-1), parts, cut;
    }
    return Success(0), parts, cut;
  }
}
