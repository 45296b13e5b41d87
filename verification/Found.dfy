/** From the directory tree to the files that are loaded: `getfiles` lists shortened
    names, and `get_files` resolves them again, from the directory the process was
    started in. */
module Found {
  import opened Prelude
  import opened Paths
  import opened Discovery
  import Filenames
  import Trim
  import Command
  import Dedup

  /** Entry names as `readdir` gives them. */
  predicate IsEntryName(name: string) {
    name != "" && '/' !in name
  }

  predicate Named(node: Node)
    decreases node
  {
    node.Directory? ==> forall e :: e in node.entries ==> IsEntryName(e.name) && Named(e.node)
  }

  /** The full paths of the test files at or below a path name. */
  function PathsBelow(pathname: string, node: Node, suffix: string): seq<string> {
    match node
    case File => [pathname]
    case Directory(_, _) => FullNames(Trim.TrimSuffix(pathname, "/"), Matches(node, suffix))
    case _ => []
  }

  function FullNames(path: string, ms: seq<seq<string>>): (r: seq<string>)
    ensures |r| == |ms| && forall i :: 0 <= i < |ms| ==> r[i] == FullName(path, ms[i])
  {
    seq(|ms|, i requires 0 <= i < |ms| => FullName(path, ms[i]))
  }

  // --- the full paths are real paths ---

  /** A path with a component at its end that is no dot entry. */
  predicate Extends(path: string) {
    path == "" || (path != "/" && Filenames.IsReal(path))
  }

  lemma AddName(path: string, name: string)
    requires Extends(path) && IsEntryName(name) && !IsDot(name)
    ensures Filenames.IsReal(path + "/" + name) && Extends(path + "/" + name)
  {
    var p, n := path + "/" + name, |path|;
    assert p[n] == '/' && forall i :: n < i < |p| ==> p[i] == name[i - n - 1];
    assert forall i :: 0 <= i < n ==> p[i] == path[i];
    assert p[|p| - 1] == name[|name| - 1] && p[n + 1] == name[0];
  }

  lemma {:induction false} FullNameIsReal(path: string, comps: seq<string>)
    requires Extends(path) && NoDots(comps) && forall c :: c in comps ==> IsEntryName(c)
    ensures comps != [] ==> Filenames.IsReal(FullName(path, comps))
    decreases |comps|
  {
    if comps != [] {
      assert comps[0] in comps;
      AddName(path, comps[0]);
      hide Filenames.IsReal;
      FullNameIsReal(path + "/" + comps[0], comps[1..]);
    }
  }

  lemma {:induction false} FoundAreNamed(node: Node, comps: seq<string>)
    requires Named(node) && Lookup(node, comps).Some?
    ensures forall c :: c in comps ==> IsEntryName(c)
    decreases |comps|
  {
    if comps != [] {
      var n := Find(node.entries, comps[0]).value;
      FindWitness(node.entries, comps[0]);
      var e := Entry(comps[0], n);
      assert e in node.entries;
      FoundAreNamed(n, comps[1..]);
    }
  }

  lemma TrimmedExtends(pathname: string)
    requires Filenames.IsReal(pathname)
    ensures Extends(Trim.TrimSuffix(pathname, "/"))
  {
    var t := Trim.TrimSuffix(pathname, "/");
    assert pathname == "/" ==> pathname[|pathname| - 1..] == "/";
    if t != pathname {
      assert pathname == t + "/";
      assert pathname[|pathname| - 1] == '/';
    }
  }

  lemma PathsAreReal(pathname: string, node: Node, suffix: string, p: string)
    requires Filenames.IsReal(pathname) && Proper(node) && Named(node) && p in PathsBelow(pathname, node, suffix)
    ensures Filenames.IsReal(p)
  {
    if node.Directory? {
      var path, ms := Trim.TrimSuffix(pathname, "/"), Matches(node, suffix);
      var i :| 0 <= i < |ms| && p == FullNames(path, ms)[i];
      assert ms[i] in ms;
      MatchesAreTestFiles(node, suffix, ms[i]);
      TrimmedExtends(pathname);
      FoundAreNamed(node, ms[i]);
      hide Filenames.IsReal, Matches, Lookup, Named, Proper, FullName;
      FullNameIsReal(path, ms[i]);
    }
  }

  // --- the names that are listed are those of the files found ---

  lemma ListedNames(cwd: AbsPath, pathname: string, node: Node, suffix: string,
                    r: Result<Option<seq<string>>, ()>, n: string)
    requires IsFileList(cwd, pathname, node, suffix, r) && r.Success? && r.value.Some?
    ensures n in r.value.value <==>
            exists p :: p in PathsBelow(pathname, node, suffix) && n == Filenames.TrimCwd(cwd, p)
  {
    var list := r.value.value;
    if node.Directory? {
      var path, ms := Trim.TrimSuffix(pathname, "/"), Matches(node, suffix);
      NamesOfPaths(cwd, path, ms, n);
      hide *;
      SameMembers(list, Names(cwd, path, ms), n);
    } else if node.File? {
      assert pathname in [pathname];
    }
  }

  lemma SameMembers(xs: seq<string>, ys: seq<string>, n: string)
    requires multiset(xs) == multiset(ys)
    ensures n in xs <==> n in ys
  {
    assert n in xs <==> n in multiset(xs);
    assert n in ys <==> n in multiset(ys);
  }

  lemma NamesOfPaths(cwd: AbsPath, path: string, ms: seq<seq<string>>, n: string)
    ensures n in Names(cwd, path, ms) <==> exists p :: p in FullNames(path, ms) && n == Filenames.TrimCwd(cwd, p)
  {
    var names, full := Names(cwd, path, ms), FullNames(path, ms);
    hide FullName, Filenames.TrimCwd;
    if n in names {
      var i :| 0 <= i < |names| && names[i] == n;
      assert full[i] in full;
    }
    if p :| p in full && n == Filenames.TrimCwd(cwd, p) {
      var i :| 0 <= i < |full| && full[i] == p;
      assert names[i] == n;
    }
  }

  // --- the files that are kept ---

  /** What `getfiles` works on: `tree` is what is at each path name, and `listing` is what
      `getfiles` makes of it. */
  ghost predicate Lists(cwd: AbsPath, tree: string -> Node, suffix: string, listing: Command.Listing,
                        pathnames: seq<string>) {
    Filenames.IsReal(cwd) && forall pn :: pn in pathnames ==> Searched(cwd, tree(pn), suffix, listing, pn)
  }

  ghost predicate Searched(cwd: AbsPath, node: Node, suffix: string, listing: Command.Listing, pn: string) {
    && Filenames.IsReal(pn) && Proper(node) && Named(node)
    && listing(pn).Success? && listing(pn).value.Some? && IsFileList(cwd, pn, node, suffix, listing(pn))
  }

  /** A name resolves, if at all, to the path that it spells from the start directory. It
      does when that is one of the files found; otherwise there may be nothing there. */
  ghost predicate Resolves(cwd: AbsPath, tree: string -> Node, suffix: string, listing: Command.Listing,
                           realpath: Command.Realpath, pathnames: seq<string>) {
    forall n :: n in Command.Listed(listing, pathnames) ==>
      && (realpath(n).Success? ==> realpath(n).value == Resolve(cwd, n))
      && (IsFound(tree, suffix, pathnames, Resolve(cwd, n)) ==> realpath(n).Success?)
  }

  /** A test file at or below one of the path names. */
  ghost predicate IsFound(tree: string -> Node, suffix: string, pathnames: seq<string>, p: string) {
    exists pn :: pn in pathnames && p in PathsBelow(pn, tree(pn), suffix)
  }

  /** The files that `get_files` keeps when it goes on. */
  function Kept(realpath: Command.Realpath, listing: Command.Listing, pathnames: seq<string>): seq<string> {
    Dedup.FirstOf(Command.KeyOf(realpath), Command.Listed(listing, pathnames))
  }

  /** One of the files leads to this path. */
  ghost predicate IsKept(realpath: Command.Realpath, files: seq<string>, p: string) {
    exists f :: f in files && realpath(f) == Success(p)
  }

  lemma {:induction false} InListed(listing: Command.Listing, pathnames: seq<string>, n: string)
    requires Command.AllListed(listing, pathnames)
    ensures n in Command.Listed(listing, pathnames) <==>
            exists pn :: pn in pathnames && listing(pn).Success? && listing(pn).value.Some? &&
                         n in listing(pn).value.value
  {
    if pathnames != [] {
      var pn, rest := pathnames[0], pathnames[1..];
      assert pathnames == [pn] + rest;
      assert Command.AllListed(listing, rest);
      InListed(listing, rest, n);
    }
  }

  lemma AllAreListed(cwd: AbsPath, tree: string -> Node, suffix: string, listing: Command.Listing,
                     pathnames: seq<string>)
    requires Lists(cwd, tree, suffix, listing, pathnames)
    ensures Command.AllListed(listing, pathnames)
  {
    hide Command.Listed, IsFileList, Proper, Named, Filenames.IsReal;
    forall i | 0 <= i < |pathnames| ensures listing(pathnames[i]).Success? && listing(pathnames[i]).value.Some? {
      assert pathnames[i] in pathnames && Searched(cwd, tree(pathnames[i]), suffix, listing, pathnames[i]);
    }
  }

  /** The names that are listed are the names of the files found. */
  lemma ListedAreFound(cwd: AbsPath, tree: string -> Node, suffix: string, listing: Command.Listing,
                       pathnames: seq<string>, n: string)
    requires Lists(cwd, tree, suffix, listing, pathnames)
    ensures n in Command.Listed(listing, pathnames) <==>
            exists p :: IsFound(tree, suffix, pathnames, p) && n == Filenames.TrimCwd(cwd, p)
  {
    AllAreListed(cwd, tree, suffix, listing, pathnames);
    InListed(listing, pathnames, n);
    hide Command.Listed, PathsBelow, Filenames.TrimCwd, IsFileList, Proper, Named, Filenames.IsReal;
    if n in Command.Listed(listing, pathnames) {
      var pn :| pn in pathnames && listing(pn).Success? && listing(pn).value.Some? && n in listing(pn).value.value;
      assert Searched(cwd, tree(pn), suffix, listing, pn);
      ListedNames(cwd, pn, tree(pn), suffix, listing(pn), n);
      var p :| p in PathsBelow(pn, tree(pn), suffix) && n == Filenames.TrimCwd(cwd, p);
      assert IsFound(tree, suffix, pathnames, p);
    }
    if p :| IsFound(tree, suffix, pathnames, p) && n == Filenames.TrimCwd(cwd, p) {
      var pn :| pn in pathnames && p in PathsBelow(pn, tree(pn), suffix);
      assert Searched(cwd, tree(pn), suffix, listing, pn);
      ListedNames(cwd, pn, tree(pn), suffix, listing(pn), n);
    }
  }

  lemma FoundAreReal(cwd: AbsPath, tree: string -> Node, suffix: string, listing: Command.Listing,
                     pathnames: seq<string>, p: string)
    requires Lists(cwd, tree, suffix, listing, pathnames) && IsFound(tree, suffix, pathnames, p)
    ensures Filenames.IsReal(cwd) && Filenames.IsReal(p)
  {
    hide Command.Listed, IsFileList, Proper, Named, Filenames.IsReal, PathsBelow;
    var pn :| pn in pathnames && p in PathsBelow(pn, tree(pn), suffix);
    assert Searched(cwd, tree(pn), suffix, listing, pn);
    PathsAreReal(pn, tree(pn), suffix, p);
  }

  /** When every name resolves, the file that is kept for a file found is the one that its
      name leads to. */
  lemma FoundIsKeptAs(cwd: AbsPath, tree: string -> Node, suffix: string, listing: Command.Listing,
                      realpath: Command.Realpath, pathnames: seq<string>, p: string)
    requires Lists(cwd, tree, suffix, listing, pathnames)
    requires Resolves(cwd, tree, suffix, listing, realpath, pathnames)
    requires Command.AllResolve(realpath, Command.Listed(listing, pathnames))
    requires IsFound(tree, suffix, pathnames, p)
    ensures IsKept(realpath, Kept(realpath, listing, pathnames), Resolve(cwd, Filenames.TrimCwd(cwd, p)))
  {
    var n := Filenames.TrimCwd(cwd, p);
    ListedAreFound(cwd, tree, suffix, listing, pathnames, n);
    ResolvesTo(cwd, tree, suffix, listing, realpath, pathnames, n);
    Command.EveryFileOnce(realpath, listing, pathnames);
    hide IsFound, Lists, Resolves, Command.Listed, Dedup.FirstOf, Filenames.TrimCwd, Resolve;
  }

  lemma ResolvesTo(cwd: AbsPath, tree: string -> Node, suffix: string, listing: Command.Listing,
                   realpath: Command.Realpath, pathnames: seq<string>, n: string)
    requires Resolves(cwd, tree, suffix, listing, realpath, pathnames)
    requires Command.AllResolve(realpath, Command.Listed(listing, pathnames))
    requires n in Command.Listed(listing, pathnames)
    ensures realpath(n) == Success(Resolve(cwd, n))
  {
    hide Command.Listed, IsFound, Resolve;
  }

  /** A file that is kept is the one that the name of some file found leads to. */
  lemma KeptIsFoundAs(cwd: AbsPath, tree: string -> Node, suffix: string, listing: Command.Listing,
                      realpath: Command.Realpath, pathnames: seq<string>, p: string) returns (q: string)
    requires Lists(cwd, tree, suffix, listing, pathnames)
    requires Resolves(cwd, tree, suffix, listing, realpath, pathnames)
    requires Command.AllResolve(realpath, Command.Listed(listing, pathnames))
    requires IsKept(realpath, Kept(realpath, listing, pathnames), p)
    ensures IsFound(tree, suffix, pathnames, q) && p == Resolve(cwd, Filenames.TrimCwd(cwd, q))
  {
    var f := KeptIsListed(realpath, listing, pathnames, p);
    ResolvesTo(cwd, tree, suffix, listing, realpath, pathnames, f);
    ListedAreFound(cwd, tree, suffix, listing, pathnames, f);
    hide *;
    q :| IsFound(tree, suffix, pathnames, q) && f == Filenames.TrimCwd(cwd, q);
  }

  lemma KeptIsListed(realpath: Command.Realpath, listing: Command.Listing, pathnames: seq<string>, p: string)
    returns (f: string)
    requires IsKept(realpath, Kept(realpath, listing, pathnames), p)
    ensures f in Command.Listed(listing, pathnames) && realpath(f) == Success(p)
  {
    Command.FilesAreListed(Command.KeyOf(realpath), Command.Listed(listing, pathnames));
    hide Command.Listed, Dedup.FirstOf, Command.KeyOf;
    f :| f in Kept(realpath, listing, pathnames) && realpath(f) == Success(p);
  }

  /** The command goes on, and the files that it loads are the files found, exactly when the
      name of each of these was cut at a component boundary. Otherwise it exits for a name
      that leads nowhere, or loads another file. */
  lemma LoadedAreFoundIff(cwd: AbsPath, tree: string -> Node, suffix: string, listing: Command.Listing,
                          realpath: Command.Realpath, pathnames: seq<string>)
    requires Lists(cwd, tree, suffix, listing, pathnames)
    requires Resolves(cwd, tree, suffix, listing, realpath, pathnames)
    ensures (&& Command.AllResolve(realpath, Command.Listed(listing, pathnames))
             && forall p :: IsFound(tree, suffix, pathnames, p) <==>
                            IsKept(realpath, Kept(realpath, listing, pathnames), p)) <==>
            (forall p :: IsFound(tree, suffix, pathnames, p) ==> Filenames.AtBoundary(cwd, p))
  {
    hide *;
    if forall p :: IsFound(tree, suffix, pathnames, p) ==> Filenames.AtBoundary(cwd, p) {
      AllNamesResolve(cwd, tree, suffix, listing, realpath, pathnames);
      forall p ensures IsFound(tree, suffix, pathnames, p) <==>
                       IsKept(realpath, Kept(realpath, listing, pathnames), p) {
        FoundIsKept(cwd, tree, suffix, listing, realpath, pathnames, p);
      }
    } else {
      var p :| IsFound(tree, suffix, pathnames, p) && !Filenames.AtBoundary(cwd, p);
      if Command.AllResolve(realpath, Command.Listed(listing, pathnames)) {
        NotKept(cwd, tree, suffix, listing, realpath, pathnames, p);
      }
    }
  }

  /** The name of a file that is cut at a boundary leads to the file, so it resolves. */
  lemma AllNamesResolve(cwd: AbsPath, tree: string -> Node, suffix: string, listing: Command.Listing,
                        realpath: Command.Realpath, pathnames: seq<string>)
    requires Lists(cwd, tree, suffix, listing, pathnames)
    requires Resolves(cwd, tree, suffix, listing, realpath, pathnames)
    requires forall p :: IsFound(tree, suffix, pathnames, p) ==> Filenames.AtBoundary(cwd, p)
    ensures Command.AllResolve(realpath, Command.Listed(listing, pathnames))
  {
    var names := Command.Listed(listing, pathnames);
    hide Lists, IsFound, Command.Listed, Filenames.AtBoundary, Filenames.TrimCwd, Filenames.IsReal, Resolve;
    forall i | 0 <= i < |names| ensures realpath(names[i]).Success? {
      var n := names[i];
      assert n in names;
      ListedAreFound(cwd, tree, suffix, listing, pathnames, n);
      var p :| IsFound(tree, suffix, pathnames, p) && n == Filenames.TrimCwd(cwd, p);
      FoundAreReal(cwd, tree, suffix, listing, pathnames, p);
      LeadsBack(cwd, p);
    }
  }

  lemma FoundIsKept(cwd: AbsPath, tree: string -> Node, suffix: string, listing: Command.Listing,
                    realpath: Command.Realpath, pathnames: seq<string>, p: string)
    requires Lists(cwd, tree, suffix, listing, pathnames)
    requires Resolves(cwd, tree, suffix, listing, realpath, pathnames)
    requires Command.AllResolve(realpath, Command.Listed(listing, pathnames))
    requires forall p :: IsFound(tree, suffix, pathnames, p) ==> Filenames.AtBoundary(cwd, p)
    ensures IsFound(tree, suffix, pathnames, p) <==> IsKept(realpath, Kept(realpath, listing, pathnames), p)
  {
    hide *;
    if IsFound(tree, suffix, pathnames, p) {
      FoundAreReal(cwd, tree, suffix, listing, pathnames, p);
      LeadsBack(cwd, p);
      FoundIsKeptAs(cwd, tree, suffix, listing, realpath, pathnames, p);
    }
    if IsKept(realpath, Kept(realpath, listing, pathnames), p) {
      var q := KeptIsFoundAs(cwd, tree, suffix, listing, realpath, pathnames, p);
      FoundAreReal(cwd, tree, suffix, listing, pathnames, q);
      LeadsBack(cwd, q);
    }
  }

  lemma LeadsBack(cwd: AbsPath, p: string)
    requires Filenames.IsReal(cwd) && Filenames.IsReal(p) && Filenames.AtBoundary(cwd, p)
    ensures Resolve(cwd, Filenames.TrimCwd(cwd, p)) == p
  {
    Filenames.TrimmedLeadsBack(cwd, p);
  }

  lemma NotKept(cwd: AbsPath, tree: string -> Node, suffix: string, listing: Command.Listing,
                realpath: Command.Realpath, pathnames: seq<string>, p: string)
    requires Lists(cwd, tree, suffix, listing, pathnames)
    requires Resolves(cwd, tree, suffix, listing, realpath, pathnames)
    requires Command.AllResolve(realpath, Command.Listed(listing, pathnames))
    requires IsFound(tree, suffix, pathnames, p) && !Filenames.AtBoundary(cwd, p)
    ensures !IsKept(realpath, Kept(realpath, listing, pathnames), p)
  {
    hide IsFound, IsKept, Kept, Lists, Resolves, Filenames.AtBoundary, Filenames.TrimCwd;
    FoundAreReal(cwd, tree, suffix, listing, pathnames, p);
    if IsKept(realpath, Kept(realpath, listing, pathnames), p) {
      var q := KeptIsFoundAs(cwd, tree, suffix, listing, realpath, pathnames, p);
      FoundAreReal(cwd, tree, suffix, listing, pathnames, q);
      Filenames.Unreachable(cwd, p, q);
    }
  }

  // --- a sibling of the start directory ---

  const HERE: AbsPath := "/a/b"
  const SIBLING: string := "/a/bc"

  /** `/a/bc` holds one file. */
  function OneFile(name: string): Node {
    Directory([Entry(name, File)], false)
  }

  function SiblingTree(name: string): string -> Node {
    (pn: string) => OneFile(name)
  }

  /** What `getfiles` lists: the start directory is cut off inside `/a/bc`. */
  function SiblingListing(name: string): Command.Listing {
    (pn: string) => Success(Some(["c/" + name]))
  }

  predicate IsTestName(name: string) {
    IsEntryName(name) && !IsDot(name) && HasSuffix(name, TEST_SUFFIX)
  }

  lemma ATestName()
    ensures IsTestName("x_test.lua")
  {
    assert "x_test.lua"[1..] == TEST_SUFFIX;
  }

  lemma SiblingIsListed(name: string)
    requires IsTestName(name)
    ensures Lists(HERE, SiblingTree(name), TEST_SUFFIX, SiblingListing(name), [SIBLING])
    ensures Command.Listed(SiblingListing(name), [SIBLING]) == ["c/" + name]
    ensures forall p :: IsFound(SiblingTree(name), TEST_SUFFIX, [SIBLING], p) <==> p == SIBLING + "/" + name
  {
    SiblingSearched(name);
    SiblingNamesListed(name);
    hide *;
    SiblingLists(name);
    forall p ensures IsFound(SiblingTree(name), TEST_SUFFIX, [SIBLING], p) <==> p == SIBLING + "/" + name {
      SiblingIsFound(name, p);
    }
  }

  lemma SiblingLists(name: string)
    requires Filenames.IsReal(HERE) && Searched(HERE, OneFile(name), TEST_SUFFIX, SiblingListing(name), SIBLING)
    ensures Lists(HERE, SiblingTree(name), TEST_SUFFIX, SiblingListing(name), [SIBLING])
  {
    hide Filenames.IsReal, Searched, OneFile, SiblingListing;
  }

  lemma SiblingNamesListed(name: string)
    ensures Command.Listed(SiblingListing(name), [SIBLING]) == ["c/" + name]
  {
    assert [SIBLING][1..] == [];
    assert ["c/" + name] + [] == ["c/" + name];
  }

  lemma SiblingIsFound(name: string, p: string)
    requires IsTestName(name)
    ensures IsFound(SiblingTree(name), TEST_SUFFIX, [SIBLING], p) <==> p == SIBLING + "/" + name
  {
    SiblingPaths(name);
    hide PathsBelow, OneFile;
    assert SIBLING in [SIBLING];
  }

  lemma SiblingPaths(name: string)
    requires IsTestName(name)
    ensures PathsBelow(SIBLING, OneFile(name), TEST_SUFFIX) == [SIBLING + "/" + name]
  {
    OneMatch(name);
    assert FullName(SIBLING, [name]) == SIBLING + "/" + name;
    hide Matches, FullName, Trim.TrimSuffix, IsTestName;
    assert FullNames(SIBLING, [[name]]) == [SIBLING + "/" + name];
  }

  lemma OneMatch(name: string)
    requires IsTestName(name)
    ensures Matches(OneFile(name), TEST_SUFFIX) == [[name]] && !Fails(OneFile(name))
    ensures Proper(OneFile(name)) && Named(OneFile(name))
    ensures Trim.TrimSuffix(SIBLING, "/") == SIBLING
  {
    hide HasSuffix;
    var e := Entry(name, File);
    assert [e][1..] == [];
    assert !Fails(File) && forall x :: x in [e] ==> x == e;
    assert IsMatch(e, TEST_SUFFIX) && !IsSubdir(e);
    assert Direct([e], TEST_SUFFIX) == [[name]] + Direct([], TEST_SUFFIX) == [[name]];
    assert Subdirs([e]) == [] + Subdirs([]) == [];
    assert Matches(OneFile(name), TEST_SUFFIX) == [[name]] + Deeper(OneFile(name), [], TEST_SUFFIX) == [[name]];
    assert SIBLING[|SIBLING| - 1..] == "c";
  }

  lemma SiblingName(name: string)
    ensures Filenames.TrimCwd(HERE, SIBLING + "/" + name) == "c/" + name
  {
    assert SIBLING + "/" + name == HERE + ("c/" + name);
    Filenames.TrimSplit(HERE, "c/" + name);
  }

  lemma SiblingSearched(name: string)
    requires IsTestName(name)
    ensures Filenames.IsReal(HERE) && Searched(HERE, OneFile(name), TEST_SUFFIX, SiblingListing(name), SIBLING)
  {
    OneMatch(name);
    SiblingIsReal();
    SiblingFileList(name);
    hide *;
    assert SiblingListing(name)(SIBLING) == Success(Some(["c/" + name])) by {
      ListingIs(name);
    }
    SearchedIs(name);
  }

  lemma SiblingIsReal()
    ensures Filenames.IsReal(HERE) && Filenames.IsReal(SIBLING)
  {
  }

  lemma ListingIs(name: string)
    ensures SiblingListing(name)(SIBLING) == Success(Some(["c/" + name]))
  {
  }

  lemma SiblingFileList(name: string)
    requires IsTestName(name)
    ensures IsFileList(HERE, SIBLING, OneFile(name), TEST_SUFFIX, Success(Some(["c/" + name])))
  {
    OneMatch(name);
    SiblingNames(name);
    hide Matches, Names, Fails, Trim.TrimSuffix, IsTestName;
  }

  lemma SiblingNames(name: string)
    ensures Names(HERE, SIBLING, [[name]]) == ["c/" + name]
  {
    SiblingName(name);
    assert FullName(SIBLING, [name]) == SIBLING + "/" + name;
    hide FullName, Filenames.TrimCwd;
  }

  lemma SearchedIs(name: string)
    requires Filenames.IsReal(SIBLING) && Proper(OneFile(name)) && Named(OneFile(name))
    requires SiblingListing(name)(SIBLING) == Success(Some(["c/" + name]))
    requires IsFileList(HERE, SIBLING, OneFile(name), TEST_SUFFIX, Success(Some(["c/" + name])))
    ensures Searched(HERE, OneFile(name), TEST_SUFFIX, SiblingListing(name), SIBLING)
  {
    hide Filenames.IsReal, Proper, Named, OneFile, SiblingListing, IsFileList;
  }

  /** The wrong name may lead nowhere: then the command exits. */
  lemma WrongNameExits(name: string)
    requires IsTestName(name)
    ensures var realpath: Command.Realpath := (n: string) => Failure(());
            && Lists(HERE, SiblingTree(name), TEST_SUFFIX, SiblingListing(name), [SIBLING])
            && Resolves(HERE, SiblingTree(name), TEST_SUFFIX, SiblingListing(name), realpath, [SIBLING])
            && Command.Stops(realpath, SiblingListing(name), SIBLING)
  {
    SiblingIsListed(name);
    OtherFile(name);
    hide Lists, IsFound, Command.Listed, Filenames.TrimCwd, IsTestName, Resolve;
  }

  /** Or another file is there: then that one is loaded instead. */
  lemma WrongFileLoaded(name: string)
    requires IsTestName(name)
    ensures var realpath: Command.Realpath := (n: string) => Success(Resolve(HERE, n));
            var files := Kept(realpath, SiblingListing(name), [SIBLING]);
            && Lists(HERE, SiblingTree(name), TEST_SUFFIX, SiblingListing(name), [SIBLING])
            && Resolves(HERE, SiblingTree(name), TEST_SUFFIX, SiblingListing(name), realpath, [SIBLING])
            && !Command.Stops(realpath, SiblingListing(name), SIBLING)
            && IsKept(realpath, files, HERE + "/" + "c/" + name) && !IsKept(realpath, files, SIBLING + "/" + name)
  {
    SiblingIsListed(name);
    OtherFile(name);
    var realpath: Command.Realpath := (n: string) => Success(Resolve(HERE, n));
    var files := Kept(realpath, SiblingListing(name), [SIBLING]);
    OneKept(realpath, "c/" + name);
    hide Lists, IsFound, Command.Listed, Filenames.TrimCwd, IsTestName, Resolve, Dedup.FirstOf;
    assert files == ["c/" + name];
    assert "c/" + name in files;
  }

  lemma OneKept(realpath: Command.Realpath, n: string)
    ensures Dedup.FirstOf(Command.KeyOf(realpath), [n]) == [n]
  {
    assert [n][..0] == [];
    assert [] + [n] == [n];
  }

  lemma OtherFile(name: string)
    ensures Resolve(HERE, "c/" + name) == HERE + "/" + "c/" + name
    ensures HERE + "/" + "c/" + name != SIBLING + "/" + name
  {
    assert HERE + "/" + ("c/" + name) == HERE + "/" + "c/" + name;
    assert (HERE + "/" + "c/" + name)[4] == '/' && (SIBLING + "/" + name)[4] == 'c';
  }
}
