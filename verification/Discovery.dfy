/** lib/filesystem.lua: searching a directory tree for test files. A tree is finite;
    `stat` and `readdir` are what its nodes say. */
module Discovery {
  import opened Prelude
  import opened Ordering
  import opened Paths
  import Filenames
  import Trim

  /** What `stat` reports for a name. A directory lists its entries in some order, and
      reading it may fail after them; `Missing` is ENOENT, `Denied` any other error. */
  datatype Node = File | Directory(entries: seq<Entry>, fails: bool) | Special | Missing | Denied

  datatype Entry = Entry(name: string, node: Node)

  predicate IsDot(name: string) {
    name != "" && name[0] == '.'
  }

  /** `sub(entry, -#suffix) == suffix` */
  predicate HasSuffix(name: string, suffix: string) {
    Trim.SubFromEnd(name, |suffix|) == suffix
  }

  predicate IsMatch(e: Entry, suffix: string) {
    !IsDot(e.name) && e.node.File? && HasSuffix(e.name, suffix)
  }

  predicate IsSubdir(e: Entry) {
    !IsDot(e.name) && e.node.Directory?
  }

  // --- the order in which the walk collects, as lists of path components ---

  function Direct(entries: seq<Entry>, suffix: string): seq<seq<string>> {
    if entries == [] then []
    else (if IsMatch(entries[0], suffix) then [[entries[0].name]] else []) + Direct(entries[1..], suffix)
  }

  function Subdirs(entries: seq<Entry>): (ds: seq<Entry>)
    ensures forall d :: d in ds <==> d in entries && IsSubdir(d)
  {
    if entries == [] then []
    else (if IsSubdir(entries[0]) then [entries[0]] else []) + Subdirs(entries[1..])
  }

  function Prefixed(name: string, ms: seq<seq<string>>): (r: seq<seq<string>>)
    ensures |r| == |ms| && forall i :: 0 <= i < |ms| ==> r[i] == [name] + ms[i]
  {
    seq(|ms|, i requires 0 <= i < |ms| => [name] + ms[i])
  }

  /** The files that the walk of a directory collects: its own first, then those of its
      directories in turn. */
  function Matches(node: Node, suffix: string): seq<seq<string>>
    decreases node, 1, 0
  {
    if !node.Directory? then []
    else Direct(node.entries, suffix) + Deeper(node, Subdirs(node.entries), suffix)
  }

  function Deeper(parent: Node, ds: seq<Entry>, suffix: string): seq<seq<string>>
    requires parent.Directory? && forall d :: d in ds ==> d in parent.entries
    decreases parent, 0, |ds|
  {
    if ds == [] then []
    else
      assert ds[0] in parent.entries;
      Prefixed(ds[0].name, Matches(ds[0].node, suffix)) + Deeper(parent, ds[1..], suffix)
  }

  /** Some name that the walk comes across cannot be examined, or some directory read. */
  predicate Fails(node: Node)
    decreases node
  {
    node.Directory? &&
    (|| node.fails
     || exists e :: e in node.entries && !IsDot(e.name) && (e.node.Denied? || Fails(e.node)))
  }

  // --- what is in a tree, whatever the order of its entries ---

  function Find(entries: seq<Entry>, name: string): Option<Node> {
    if entries == [] then None
    else if entries[0].name == name then Some(entries[0].node)
    else Find(entries[1..], name)
  }

  /** The node that the components lead to. */
  function Lookup(node: Node, comps: seq<string>): Option<Node>
    decreases |comps|
  {
    if comps == [] then Some(node)
    else if !node.Directory? then None
    else
      match Find(node.entries, comps[0])
      case None => None
      case Some(n) => Lookup(n, comps[1..])
  }

  predicate NoDots(comps: seq<string>) {
    forall i :: 0 <= i < |comps| ==> !IsDot(comps[i])
  }

  predicate UniqueNames(entries: seq<Entry>) {
    forall i, j :: 0 <= i < j < |entries| ==> entries[i].name != entries[j].name
  }

  /** No directory lists a name twice. */
  predicate Proper(node: Node)
    decreases node
  {
    node.Directory? ==>
      UniqueNames(node.entries) && forall e :: e in node.entries ==> Proper(e.node)
  }

  lemma {:induction false} FindUnique(entries: seq<Entry>, e: Entry)
    requires UniqueNames(entries) && e in entries
    ensures Find(entries, e.name) == Some(e.node)
  {
    if e != entries[0] {
      assert e in entries[1..];
      FindUnique(entries[1..], e);
      var i :| 0 <= i < |entries| && entries[i] == e;
      assert entries[0].name != entries[i].name;
    }
  }

  lemma {:induction false} FindWitness(entries: seq<Entry>, name: string)
    requires Find(entries, name).Some?
    ensures Entry(name, Find(entries, name).value) in entries
  {
    if entries[0].name == name {
      assert entries[0] == Entry(name, entries[0].node);
    } else {
      FindWitness(entries[1..], name);
    }
  }

  /** The file at `comps` is one that the search is for. */
  predicate IsTestFile(node: Node, comps: seq<string>, suffix: string) {
    && comps != [] && NoDots(comps)
    && Lookup(node, comps) == Some(File) && HasSuffix(comps[|comps| - 1], suffix)
  }

  /** A regular file below a directory, not through a name that starts with a dot, and with a
      name that ends in the suffix. No name ends in the empty suffix but the empty one, since
      `sub(s, -0)` is all of `s`. */
  ghost predicate IsWanted(node: Node, comps: seq<string>, suffix: string) {
    && comps != [] && Lookup(node, comps) == Some(File)
    && (forall i :: 0 <= i < |comps| && comps[i] != "" ==> comps[i][0] != '.')
    && (if suffix == "" then comps[|comps| - 1] == "" else exists x :: comps[|comps| - 1] == x + suffix)
  }

  lemma WantedIsTestFile(node: Node, comps: seq<string>, suffix: string)
    ensures IsTestFile(node, comps, suffix) <==> IsWanted(node, comps, suffix)
  {
    hide Lookup;
    if comps != [] {
      SuffixForm(comps[|comps| - 1], suffix);
    }
  }

  lemma SuffixForm(name: string, suffix: string)
    ensures HasSuffix(name, suffix) <==> if suffix == "" then name == "" else exists x :: name == x + suffix
  {
    if suffix != "" {
      if HasSuffix(name, suffix) {
        var k := |name| - |suffix|;
        assert name == name[..k] + suffix;
      }
      if x :| name == x + suffix {
        assert name[|name| - |suffix|..] == suffix;
      }
    }
  }

  lemma {:induction false} DirectMember(entries: seq<Entry>, suffix: string, m: seq<string>)
    ensures m in Direct(entries, suffix) <==>
            exists e :: e in entries && IsMatch(e, suffix) && m == [e.name]
  {
    if entries != [] {
      DirectMember(entries[1..], suffix, m);
      assert entries == [entries[0]] + entries[1..];
    }
  }

  lemma {:induction false} DeeperMember(parent: Node, ds: seq<Entry>, suffix: string, m: seq<string>)
    requires parent.Directory? && forall d :: d in ds ==> d in parent.entries
    ensures m in Deeper(parent, ds, suffix) <==>
            exists d :: d in ds && m != [] && m[0] == d.name && m[1..] in Matches(d.node, suffix)
    decreases |ds|
  {
    if ds != [] {
      DeeperMember(parent, ds[1..], suffix, m);
      PrefixedMember(ds[0].name, Matches(ds[0].node, suffix), m);
      assert ds == [ds[0]] + ds[1..];
    }
  }

  lemma PrefixedMember(name: string, ms: seq<seq<string>>, m: seq<string>)
    ensures m in Prefixed(name, ms) <==> m != [] && m[0] == name && m[1..] in ms
  {
    var r := Prefixed(name, ms);
    if m != [] && m[0] == name && m[1..] in ms {
      var i :| 0 <= i < |ms| && ms[i] == m[1..];
      assert r[i] == m;
    }
    if m in r {
      var i :| 0 <= i < |r| && r[i] == m;
      assert m[1..] == ms[i];
    }
  }

  /** The walk collects exactly the regular files with the suffix that are reached
      without passing a name that starts with a dot. */
  lemma {:induction false} MatchesAreTestFiles(node: Node, suffix: string, m: seq<string>)
    requires Proper(node)
    ensures m in Matches(node, suffix) <==> IsTestFile(node, m, suffix) && node.Directory?
    decreases node
  {
    if node.Directory? {
      DirectMember(node.entries, suffix, m);
      DeeperMember(node, Subdirs(node.entries), suffix, m);
      if m in Matches(node, suffix) {
        CollectedIsTestFile(node, suffix, m);
      }
      if IsTestFile(node, m, suffix) {
        TestFileIsCollected(node, suffix, m);
      }
    }
  }

  lemma {:induction false} CollectedIsTestFile(node: Node, suffix: string, m: seq<string>)
    requires Proper(node) && node.Directory? && m in Matches(node, suffix)
    ensures IsTestFile(node, m, suffix)
    decreases node, 0
  {
    DirectMember(node.entries, suffix, m);
    DeeperMember(node, Subdirs(node.entries), suffix, m);
    if m in Direct(node.entries, suffix) {
      var e :| e in node.entries && IsMatch(e, suffix) && m == [e.name];
      FindUnique(node.entries, e);
      assert m[1..] == [];
    } else {
      var d :| d in Subdirs(node.entries) && m != [] && m[0] == d.name && m[1..] in Matches(d.node, suffix);
      FindUnique(node.entries, d);
      MatchesAreTestFiles(d.node, suffix, m[1..]);
      TestFileCons(node, d, suffix, m);
    }
  }

  lemma TestFileCons(node: Node, d: Entry, suffix: string, m: seq<string>)
    requires node.Directory? && m != [] && m[0] == d.name && Find(node.entries, d.name) == Some(d.node)
    requires !IsDot(d.name) && IsTestFile(d.node, m[1..], suffix)
    ensures IsTestFile(node, m, suffix)
  {
    forall i | 0 <= i < |m| ensures !IsDot(m[i]) {
      if i > 0 { assert m[i] == m[1..][i - 1]; }
    }
  }

  lemma {:induction false} TestFileIsCollected(node: Node, suffix: string, m: seq<string>)
    requires Proper(node) && node.Directory? && IsTestFile(node, m, suffix)
    ensures m in Matches(node, suffix)
    decreases node, 0
  {
    var n := Find(node.entries, m[0]).value;
    FindWitness(node.entries, m[0]);
    var e := Entry(m[0], n);
    assert Lookup(n, m[1..]) == Some(File);
    MatchesMember(node, suffix, m);
    if |m| == 1 {
      assert m[1..] == [];
      OwnIsCollected(node, e, suffix, m);
    } else {
      BelowIsTestFile(node, n, suffix, m);
      MatchesAreTestFiles(n, suffix, m[1..]);
      DeeperIsCollected(node, e, suffix, m);
    }
    hide *;
  }

  lemma MatchesMember(node: Node, suffix: string, m: seq<string>)
    requires node.Directory?
    ensures m in Matches(node, suffix) <==>
            m in Direct(node.entries, suffix) || m in Deeper(node, Subdirs(node.entries), suffix)
  {
    hide Direct, Deeper, Subdirs;
  }

  lemma OwnIsCollected(node: Node, e: Entry, suffix: string, m: seq<string>)
    requires node.Directory? && e in node.entries && e.node.File? && |m| == 1 && m[0] == e.name
    requires IsTestFile(node, m, suffix)
    ensures m in Direct(node.entries, suffix)
  {
    hide Lookup, HasSuffix;
    assert m == [e.name] && IsMatch(e, suffix);
    DirectMember(node.entries, suffix, m);
  }

  lemma BelowIsTestFile(node: Node, n: Node, suffix: string, m: seq<string>)
    requires node.Directory? && |m| > 1 && IsTestFile(node, m, suffix) && Lookup(n, m[1..]) == Some(File)
    ensures IsTestFile(n, m[1..], suffix) && n.Directory?
  {
    hide HasSuffix;
    assert m[1..] != [] && m[1..][|m| - 2] == m[|m| - 1];
  }

  lemma DeeperIsCollected(node: Node, e: Entry, suffix: string, m: seq<string>)
    requires node.Directory? && e in node.entries && |m| > 1 && m[0] == e.name && IsTestFile(node, m, suffix)
    requires e.node.Directory? && m[1..] in Matches(e.node, suffix)
    ensures m in Deeper(node, Subdirs(node.entries), suffix)
  {
    hide Lookup, HasSuffix, Matches;
    assert e in Subdirs(node.entries);
    DeeperMember(node, Subdirs(node.entries), suffix, m);
  }

  // --- no file is collected twice ---

  lemma {:induction false} DirectNoDups(entries: seq<Entry>, suffix: string)
    requires UniqueNames(entries)
    ensures NoDups(Direct(entries, suffix))
  {
    if entries != [] {
      DirectNoDups(entries[1..], suffix);
      if IsMatch(entries[0], suffix) {
        DirectMember(entries[1..], suffix, [entries[0].name]);
        NoDupsCons([entries[0].name], Direct(entries[1..], suffix));
      }
    }
  }

  lemma NoDupsCons<T>(x: T, xs: seq<T>)
    requires NoDups(xs) && x !in xs
    ensures NoDups([x] + xs)
  {
  }

  lemma NoDupsConcat<T>(xs: seq<T>, ys: seq<T>)
    requires NoDups(xs) && NoDups(ys) && forall x :: x in xs ==> x !in ys
    ensures NoDups(xs + ys)
  {
    var zs := xs + ys;
    forall i, j | 0 <= i < j < |zs| ensures zs[i] != zs[j] {
      if i < |xs| <= j {
        assert zs[i] in xs && zs[j] in ys;
      }
    }
  }

  lemma {:induction false} MatchesNoDups(node: Node, suffix: string)
    requires Proper(node)
    ensures NoDups(Matches(node, suffix))
    decreases node, 1, 0
  {
    if node.Directory? {
      var direct, deeper := Direct(node.entries, suffix), Deeper(node, Subdirs(node.entries), suffix);
      DirectNoDups(node.entries, suffix);
      SubdirsUnique(node.entries);
      DeeperNoDups(node, Subdirs(node.entries), suffix);
      forall m | m in direct ensures m !in deeper {
        DirectMember(node.entries, suffix, m);
        if m in deeper {
          ShortNotDeeper(node, suffix, m);
        }
      }
      NoDupsConcat(direct, deeper);
    }
  }

  lemma ShortNotDeeper(node: Node, suffix: string, m: seq<string>)
    requires Proper(node) && node.Directory? && |m| == 1
    ensures m !in Deeper(node, Subdirs(node.entries), suffix)
  {
    DeeperMember(node, Subdirs(node.entries), suffix, m);
    forall d | d in Subdirs(node.entries) ensures m[1..] !in Matches(d.node, suffix) {
      MatchesAreTestFiles(d.node, suffix, m[1..]);
      assert m[1..] == [];
    }
  }

  lemma {:induction false} SubdirsUnique(entries: seq<Entry>)
    requires UniqueNames(entries)
    ensures UniqueNames(Subdirs(entries))
  {
    if entries != [] {
      SubdirsUnique(entries[1..]);
      forall d | d in Subdirs(entries[1..]) ensures d.name != entries[0].name {
        assert d in entries[1..];
      }
    }
  }

  lemma {:induction false} DeeperNoDups(parent: Node, ds: seq<Entry>, suffix: string)
    requires Proper(parent) && parent.Directory? && UniqueNames(ds)
    requires forall d :: d in ds ==> d in parent.entries
    ensures NoDups(Deeper(parent, ds, suffix))
    decreases parent, 0, |ds|
  {
    if ds != [] {
      assert ds[0] in parent.entries;
      MatchesNoDups(ds[0].node, suffix);
      DeeperNoDups(parent, ds[1..], suffix);
      var first, rest := Prefixed(ds[0].name, Matches(ds[0].node, suffix)), Deeper(parent, ds[1..], suffix);
      PrefixedNoDups(ds[0].name, Matches(ds[0].node, suffix));
      forall m | m in first ensures m !in rest {
        PrefixedMember(ds[0].name, Matches(ds[0].node, suffix), m);
        DeeperMember(parent, ds[1..], suffix, m);
      }
      NoDupsConcat(first, rest);
    }
  }

  lemma PrefixedNoDups(name: string, ms: seq<seq<string>>)
    requires NoDups(ms)
    ensures NoDups(Prefixed(name, ms))
  {
    var r := Prefixed(name, ms);
    forall i, j | 0 <= i < j < |r| ensures r[i] != r[j] {
      assert r[i][1..] == ms[i] && r[j][1..] == ms[j];
    }
  }

  // --- when the search fails ---

  /** Something on the way that the walk cannot get past: a name that cannot be examined,
      or a directory that cannot be read. */
  predicate IsObstacle(node: Node, comps: seq<string>) {
    && NoDots(comps) && Lookup(node, comps).Some?
    && var n := Lookup(node, comps).value;
       (n.Denied? && comps != []) || (n.Directory? && n.fails)
  }

  /** The search fails exactly when there is an obstacle in the tree. */
  lemma {:induction false} FailsIff(node: Node)
    requires Proper(node)
    ensures Fails(node) <==> exists comps :: IsObstacle(node, comps)
    decreases node
  {
    if Fails(node) {
      if node.fails {
        assert IsObstacle(node, []);
      } else {
        var e :| e in node.entries && !IsDot(e.name) && (e.node.Denied? || Fails(e.node));
        FindUnique(node.entries, e);
        FailsIff(e.node);
        var rest: seq<string> :| if e.node.Denied? then rest == [] else IsObstacle(e.node, rest);
        ObstacleCons(node, e, rest);
      }
    }
    if comps :| IsObstacle(node, comps) {
      if comps != [] {
        var e := Entry(comps[0], Find(node.entries, comps[0]).value);
        FindWitness(node.entries, comps[0]);
        FailsIff(e.node);
        if !e.node.Denied? {
          ObstacleTail(node, e, comps);
        }
      }
    }
  }

  lemma ObstacleCons(node: Node, e: Entry, rest: seq<string>)
    requires node.Directory? && Find(node.entries, e.name) == Some(e.node) && !IsDot(e.name)
    requires IsObstacle(e.node, rest) || (e.node.Denied? && rest == [])
    ensures IsObstacle(node, [e.name] + rest)
  {
    var comps := [e.name] + rest;
    assert comps[1..] == rest;
    forall i | 0 <= i < |comps| ensures !IsDot(comps[i]) {
      if i > 0 { assert comps[i] == rest[i - 1]; }
    }
  }

  lemma ObstacleTail(node: Node, e: Entry, comps: seq<string>)
    requires node.Directory? && comps != [] && comps[0] == e.name && Find(node.entries, e.name) == Some(e.node)
    requires IsObstacle(node, comps) && !e.node.Denied?
    ensures IsObstacle(e.node, comps[1..])
  {
  }

  // --- the names that are reported ---

  function FullName(path: string, comps: seq<string>): string
    decreases |comps|
  {
    if comps == [] then path else FullName(path + "/" + comps[0], comps[1..])
  }

  function Names(cwd: AbsPath, path: string, ms: seq<seq<string>>): (r: seq<string>)
    ensures |r| == |ms| && forall i :: 0 <= i < |ms| ==> r[i] == Filenames.TrimCwd(cwd, FullName(path, ms[i]))
  {
    seq(|ms|, i requires 0 <= i < |ms| => Filenames.TrimCwd(cwd, FullName(path, ms[i])))
  }

  lemma NamesConcat(cwd: AbsPath, path: string, a: seq<seq<string>>, b: seq<seq<string>>)
    ensures Names(cwd, path, a + b) == Names(cwd, path, a) + Names(cwd, path, b)
  {
    hide FullName, Filenames.TrimCwd;
  }

  lemma NamesPrefixed(cwd: AbsPath, path: string, name: string, ms: seq<seq<string>>)
    ensures Names(cwd, path, Prefixed(name, ms)) == Names(cwd, path + "/" + name, ms)
  {
    hide Filenames.TrimCwd;
    forall i | 0 <= i < |ms| ensures FullName(path, [name] + ms[i]) == FullName(path + "/" + name, ms[i]) {
      assert ([name] + ms[i])[1..] == ms[i];
    }
  }

  lemma DirectSnoc(entries: seq<Entry>, i: nat, suffix: string)
    requires i < |entries|
    ensures Direct(entries[..i + 1], suffix) ==
            Direct(entries[..i], suffix) + (if IsMatch(entries[i], suffix) then [[entries[i].name]] else [])
    ensures Subdirs(entries[..i + 1]) == Subdirs(entries[..i]) + (if IsSubdir(entries[i]) then [entries[i]] else [])
  {
    assert entries[..i + 1] == entries[..i] + [entries[i]];
    DirectMore(entries[..i], entries[i], suffix);
    SubdirsMore(entries[..i], entries[i]);
    hide Direct, Subdirs, IsMatch, IsSubdir;
  }

  lemma {:induction false} DirectMore(entries: seq<Entry>, e: Entry, suffix: string)
    ensures Direct(entries + [e], suffix) == Direct(entries, suffix) + (if IsMatch(e, suffix) then [[e.name]] else [])
  {
    hide IsMatch;
    if entries == [] {
      assert entries + [e] == [e] && [e][1..] == [];
    } else {
      assert (entries + [e])[1..] == entries[1..] + [e];
      DirectMore(entries[1..], e, suffix);
    }
  }

  lemma {:induction false} SubdirsMore(entries: seq<Entry>, e: Entry)
    ensures Subdirs(entries + [e]) == Subdirs(entries) + (if IsSubdir(e) then [e] else [])
  {
    hide IsSubdir;
    if entries == [] {
      assert entries + [e] == [e] && [e][1..] == [];
    } else {
      assert (entries + [e])[1..] == entries[1..] + [e];
      SubdirsMore(entries[1..], e);
    }
  }

  lemma {:induction false} DeeperSnoc(parent: Node, ds: seq<Entry>, i: nat, suffix: string)
    requires parent.Directory? && i < |ds| && forall d :: d in ds ==> d in parent.entries
    ensures Deeper(parent, ds[..i + 1], suffix) ==
            Deeper(parent, ds[..i], suffix) + Prefixed(ds[i].name, Matches(ds[i].node, suffix))
  {
    assert ds[..i + 1][1..] == ds[1..][..i];
    if i > 0 {
      assert ds[..i][1..] == ds[1..][..i - 1];
      DeeperSnoc(parent, ds[1..], i - 1, suffix);
    }
  }

  // --- the code of lib/filesystem.lua ---

  /** The list `files` that `walkdir` appends to. */
  class FileList {
    var names: seq<string>

    constructor ()
      ensures names == []
    {
      names := [];
    }

    method Push(name: string)
      modifies this
      ensures names == old(names) + [name]
    {
      names := names + [name];
    }
  }

  lemma OneName(cwd: AbsPath, path: string, name: string)
    ensures Names(cwd, path, [[name]]) == [Filenames.TrimCwd(cwd, path + "/" + name)]
  {
    hide Filenames.TrimCwd;
    assert FullName(path, [name]) == FullName(path + "/" + name, [name][1..]);
    assert [name][1..] == [];
  }

  /** What the callback of `readdir` has done with the first `i` entries. */
  ghost predicate Read(cwd: AbsPath, path: string, entries: seq<Entry>, suffix: string, i: nat,
                       before: seq<string>, names: seq<string>, dirs: seq<Entry>)
    requires i <= |entries|
  {
    && names == before + Names(cwd, path, Direct(entries[..i], suffix))
    && dirs == Subdirs(entries[..i])
    && forall k :: 0 <= k < i ==> IsDot(entries[k].name) || !entries[k].node.Denied?
  }

  lemma ReadNone(cwd: AbsPath, path: string, entries: seq<Entry>, suffix: string, before: seq<string>)
    ensures Read(cwd, path, entries, suffix, 0, before, before, [])
  {
    assert entries[..0] == [];
    var none := Names(cwd, path, Direct(entries[..0], suffix));
    assert none == [] && before == before + none;
    assert Subdirs(entries[..0]) == [];
  }

  lemma ReadNext(cwd: AbsPath, path: string, entries: seq<Entry>, suffix: string, i: nat,
                 before: seq<string>, names: seq<string>, dirs: seq<Entry>)
    requires i < |entries| && Read(cwd, path, entries, suffix, i, before, names, dirs)
    requires IsDot(entries[i].name) || !entries[i].node.Denied?
    ensures var e := entries[i];
            Read(cwd, path, entries, suffix, i + 1, before,
                 names + (if IsMatch(e, suffix) then [Filenames.TrimCwd(cwd, path + "/" + e.name)] else []),
                 dirs + (if IsSubdir(e) then [e] else []))
  {
    hide Names, Filenames.TrimCwd, IsMatch, IsSubdir, Direct, Subdirs;
    DirectSnoc(entries, i, suffix);
    OneName(cwd, path, entries[i].name);
    NamesConcat(cwd, path, Direct(entries[..i], suffix), [[entries[i].name]]);
  }

  /** `walkdir`: it fails exactly when the tree calls for it, and otherwise appends the
      names of the collected files. */
  method WalkDir(files: FileList, cwd: AbsPath, path: string, node: Node, suffix: string) returns (failed: bool)
    requires node.Directory?
    modifies files
    ensures failed <==> Fails(node)
    ensures !failed ==> files.names == old(files.names) + Names(cwd, path, Matches(node, suffix))
    decreases node
  {
    hide Names, Filenames.TrimCwd, Direct, Deeper, Matches, Subdirs, Read, FullName, HasSuffix, IsDot;
    ghost var before := files.names;
    var dirs: seq<Entry> := [];
    ReadNone(cwd, path, node.entries, suffix, before);
    for i := 0 to |node.entries|
      invariant Read(cwd, path, node.entries, suffix, i, before, files.names, dirs)
    {
      var e := node.entries[i];
      if !IsDot(e.name) && e.node.Denied? {
        return true;
      }
      ReadNext(cwd, path, node.entries, suffix, i, before, files.names, dirs);
      assert files.names + [] == files.names && dirs + [] == dirs;
      if !IsDot(e.name) {
        var fullname := path + "/" + e.name;
        if e.node.Directory? {
          dirs := dirs + [e];
        } else if e.node.File? && HasSuffix(e.name, suffix) {
          files.Push(Filenames.TrimCwd(cwd, fullname));
        }
      }
    }
    if node.fails {
      return true;
    }
    ReadAll(cwd, path, node, suffix, before, files.names, dirs);
    for k := 0 to |dirs|
      invariant files.names == before + Names(cwd, path, Direct(node.entries, suffix) + Deeper(node, dirs[..k], suffix))
      invariant forall j :: 0 <= j < k ==> !Fails(dirs[j].node)
    {
      var d := dirs[k];
      assert d in node.entries;
      DescendNext(cwd, path, node, dirs, k, suffix);
      var failedBelow := WalkDir(files, cwd, path + "/" + d.name, d.node, suffix);
      if failedBelow {
        return true;
      }
    }
    assert dirs[..|dirs|] == dirs;
    WalkedAll(node, dirs, suffix);
    return false;
  }

  lemma ReadAll(cwd: AbsPath, path: string, node: Node, suffix: string,
                before: seq<string>, names: seq<string>, dirs: seq<Entry>)
    requires node.Directory? && Read(cwd, path, node.entries, suffix, |node.entries|, before, names, dirs)
    ensures names == before + Names(cwd, path, Direct(node.entries, suffix) + Deeper(node, [], suffix))
    ensures dirs == Subdirs(node.entries)
    ensures forall d :: d in dirs ==> d in node.entries && d.node.Directory? && !IsDot(d.name)
    ensures forall e :: e in node.entries && !IsDot(e.name) ==> !e.node.Denied?
  {
    hide Names, Direct, IsDot;
    assert node.entries[..|node.entries|] == node.entries;
    assert Direct(node.entries, suffix) + Deeper(node, [], suffix) == Direct(node.entries, suffix);
  }

  lemma DescendNext(cwd: AbsPath, path: string, node: Node, dirs: seq<Entry>, k: nat, suffix: string)
    requires node.Directory? && k < |dirs| && forall d :: d in dirs ==> d in node.entries
    ensures Names(cwd, path, Direct(node.entries, suffix) + Deeper(node, dirs[..k + 1], suffix)) ==
            Names(cwd, path, Direct(node.entries, suffix) + Deeper(node, dirs[..k], suffix)) +
            Names(cwd, path + "/" + dirs[k].name, Matches(dirs[k].node, suffix))
  {
    hide *;
    var direct, deeper := Direct(node.entries, suffix), Deeper(node, dirs[..k], suffix);
    var more := Prefixed(dirs[k].name, Matches(dirs[k].node, suffix));
    DeeperSnoc(node, dirs, k, suffix);
    NamesConcat(cwd, path, direct + deeper, more);
    NamesPrefixed(cwd, path, dirs[k].name, Matches(dirs[k].node, suffix));
    assert direct + (deeper + more) == (direct + deeper) + more;
  }

  lemma WalkedAll(node: Node, dirs: seq<Entry>, suffix: string)
    requires node.Directory? && !node.fails && dirs == Subdirs(node.entries)
    requires forall e :: e in node.entries && !IsDot(e.name) ==> !e.node.Denied?
    requires forall j :: 0 <= j < |dirs| ==> !Fails(dirs[j].node)
    ensures !Fails(node)
    ensures Matches(node, suffix) == Direct(node.entries, suffix) + Deeper(node, dirs, suffix)
  {
    hide Direct, Deeper, IsDot;
    forall e | e in node.entries && !IsDot(e.name) ensures !Fails(e.node) {
      if e.node.Directory? {
        assert IsSubdir(e) && e in dirs;
      }
    }
  }

  const TEST_SUFFIX: string := "_test.lua"

  /** What `getfiles` returns for a name: nothing if it does not exist, the file itself,
      or the sorted names of the test files below a directory. */
  ghost predicate IsFileList(cwd: AbsPath, pathname: string, node: Node, suffix: string,
                             r: Result<Option<seq<string>>, ()>) {
    match node
    case Missing => r == Success(None)
    case Denied => r.Failure?
    case File => r == Success(Some([Filenames.TrimCwd(cwd, pathname)]))
    case Special => r == Success(Some([]))
    case Directory(_, _) =>
      if Fails(node) then r.Failure?
      else
        && r.Success? && r.value.Some? && SortedBy(StringLe, r.value.value)
        && multiset(r.value.value) == multiset(Names(cwd, Trim.TrimSuffix(pathname, "/"), Matches(node, suffix)))
  }

  /** What is listed for a directory: the names of the wanted files below it, and no others. */
  lemma ListedIff(cwd: AbsPath, pathname: string, node: Node, suffix: string,
                  r: Result<Option<seq<string>>, ()>, n: string)
    requires Proper(node) && node.Directory? && IsFileList(cwd, pathname, node, suffix, r) && r.Success?
    ensures r.value.Some?
    ensures n in r.value.value <==>
            exists m :: IsWanted(node, m, suffix) &&
                        n == Filenames.TrimCwd(cwd, FullName(Trim.TrimSuffix(pathname, "/"), m))
  {
    var path, ms := Trim.TrimSuffix(pathname, "/"), Matches(node, suffix);
    var names := Names(cwd, path, ms);
    assert n in r.value.value <==> n in multiset(r.value.value);
    assert n in names <==> n in multiset(names);
    hide IsFileList, Fails, Proper, Matches, Names, FullName, Filenames.TrimCwd, IsWanted, Lookup, Trim.TrimSuffix;
    if n in names {
      var i :| 0 <= i < |names| && names[i] == n;
      assert ms[i] in ms;
      MatchesAreTestFiles(node, suffix, ms[i]);
      WantedIsTestFile(node, ms[i], suffix);
    }
    if m :| IsWanted(node, m, suffix) && n == Filenames.TrimCwd(cwd, FullName(path, m)) {
      MatchesAreTestFiles(node, suffix, m);
      WantedIsTestFile(node, m, suffix);
      var i :| 0 <= i < |ms| && ms[i] == m;
      assert names[i] == n;
    }
  }

  /** The list holds the names of the wanted files below the directory, and no others. */
  ghost predicate ListsWanted(cwd: AbsPath, pathname: string, node: Node, suffix: string, list: seq<string>) {
    forall n :: n in list <==>
                exists m :: IsWanted(node, m, suffix) &&
                            n == Filenames.TrimCwd(cwd, FullName(Trim.TrimSuffix(pathname, "/"), m))
  }

  lemma AllListed(cwd: AbsPath, pathname: string, node: Node, suffix: string, list: seq<string>)
    requires Proper(node) && node.Directory?
    requires IsFileList(cwd, pathname, node, suffix, Success(Some(list)))
    ensures ListsWanted(cwd, pathname, node, suffix, list)
  {
    hide IsFileList, Fails, Proper, FullName, Filenames.TrimCwd, IsWanted, Trim.TrimSuffix;
    forall n ensures n in list <==>
      exists m :: IsWanted(node, m, suffix) &&
                  n == Filenames.TrimCwd(cwd, FullName(Trim.TrimSuffix(pathname, "/"), m))
    {
      ListedIff(cwd, pathname, node, suffix, Success(Some(list)), n);
    }
  }

  /** The name of an entry: that of its directory, a slash, and its own. */
  lemma {:induction false} FullNameOf(path: string, comps: seq<string>, name: string)
    ensures FullName(path, []) == path
    ensures FullName(path, comps + [name]) == FullName(path, comps) + "/" + name
    decreases |comps|
  {
    if comps == [] {
      assert comps + [name] == [name] && [name][1..] == [];
    } else {
      assert (comps + [name])[1..] == comps[1..] + [name];
      FullNameOf(path + "/" + comps[0], comps[1..], name);
    }
  }

  /** `getfiles` */
  method GetFiles(cwd: AbsPath, pathname: string, node: Node, suffix: Option<string>)
    returns (r: Result<Option<seq<string>>, ()>)
    ensures IsFileList(cwd, pathname, node, if suffix.Some? then suffix.value else TEST_SUFFIX, r)
    ensures Proper(node) && node.Directory? && r.Success? ==>
              r.value.Some? &&
              ListsWanted(cwd, pathname, node, if suffix.Some? then suffix.value else "_test.lua", r.value.value)
  {
    hide Names, Filenames.TrimCwd, Matches, Fails, Trim.TrimSuffix, ListsWanted, Proper;
    var files := new FileList();
    if node.Missing? {
      return Success(None);
    } else if node.Denied? {
      return Failure(());
    } else if node.File? {
      files.Push(Filenames.TrimCwd(cwd, pathname));
      assert files.names == [Filenames.TrimCwd(cwd, pathname)];
      return Success(Some(files.names));
    } else if node.Directory? {
      var s := if suffix.Some? then suffix.value else TEST_SUFFIX;
      var failed := WalkDir(files, cwd, Trim.TrimSuffix(pathname, "/"), node, s);
      if failed {
        return Failure(());
      }
      ghost var names := Names(cwd, Trim.TrimSuffix(pathname, "/"), Matches(node, s));
      assert [] + names == names;
    }
    StringLeIsOrder();
    var sorted := TableSort(StringLe, files.names);
    SameLength(sorted, files.names);
    if node.Directory? && Proper(node) {
      AllListed(cwd, pathname, node, if suffix.Some? then suffix.value else TEST_SUFFIX, sorted);
    }
    return Success(Some(sorted));
  }

  // --- the order of directory entries does not matter ---

  /** A node without its list of entries. */
  function Shape(n: Option<Node>): Option<Node> {
    match n
    case Some(Directory(_, fails)) => Some(Directory([], fails))
    case _ => n
  }

  /** The same tree: every path leads to the same kind of node. */
  ghost predicate SameTree(a: Node, b: Node) {
    forall comps :: Shape(Lookup(a, comps)) == Shape(Lookup(b, comps))
  }

  /** Directories with the same entries in another order are the same tree. */
  lemma ReorderedIsSame(a: seq<Entry>, b: seq<Entry>, fails: bool)
    requires UniqueNames(a) && multiset(a) == multiset(b)
    ensures SameTree(Directory(a, fails), Directory(b, fails))
  {
    var x, y := Directory(a, fails), Directory(b, fails);
    ReorderedNames(a, b);
    hide UniqueNames, Find;
    forall comps ensures Shape(Lookup(x, comps)) == Shape(Lookup(y, comps)) {
      if comps != [] {
        FoundReordered(a, b, comps[0]);
      }
    }
  }

  lemma ReorderedNames(a: seq<Entry>, b: seq<Entry>)
    requires UniqueNames(a) && multiset(a) == multiset(b)
    ensures UniqueNames(b) && forall e :: e in a <==> e in b
  {
    forall e ensures e in a <==> e in b {
      assert e in multiset(a) <==> e in multiset(b);
    }
    Permuted(b, a);
    forall i, j | 0 <= i < j < |b| ensures b[i].name != b[j].name {
      assert b[i] in a && b[j] in a && b[i] != b[j];
    }
  }

  lemma FoundReordered(a: seq<Entry>, b: seq<Entry>, name: string)
    requires UniqueNames(a) && UniqueNames(b) && forall e :: e in a <==> e in b
    ensures Find(a, name) == Find(b, name)
  {
    if Find(a, name).Some? {
      FindWitness(a, name);
      FindUnique(b, Entry(name, Find(a, name).value));
    }
    if Find(b, name).Some? {
      FindWitness(b, name);
      FindUnique(a, Entry(name, Find(b, name).value));
    }
    hide Find, UniqueNames;
  }

  lemma SameObstacles(a: Node, b: Node)
    requires Proper(a) && Proper(b) && SameTree(a, b)
    ensures Fails(a) == Fails(b)
  {
    hide Fails, Lookup;
    FailsIff(a);
    FailsIff(b);
    if comps :| IsObstacle(a, comps) {
      assert Shape(Lookup(a, comps)) == Shape(Lookup(b, comps));
      assert IsObstacle(b, comps);
    }
    if comps :| IsObstacle(b, comps) {
      assert Shape(Lookup(a, comps)) == Shape(Lookup(b, comps));
      assert IsObstacle(a, comps);
    }
  }

  lemma SameMatches(a: Node, b: Node, suffix: string)
    requires Proper(a) && Proper(b) && SameTree(a, b) && a.Directory? && b.Directory?
    ensures multiset(Matches(a, suffix)) == multiset(Matches(b, suffix))
  {
    hide Matches, Lookup;
    MatchesNoDups(a, suffix);
    MatchesNoDups(b, suffix);
    forall m ensures m in Matches(a, suffix) <==> m in Matches(b, suffix) {
      MatchesAreTestFiles(a, suffix, m);
      MatchesAreTestFiles(b, suffix, m);
      assert Shape(Lookup(a, m)) == Shape(Lookup(b, m));
    }
    NoDupsPermutation(Matches(a, suffix), Matches(b, suffix));
  }

  lemma {:induction false} NamesPermutation(cwd: AbsPath, path: string, a: seq<seq<string>>, b: seq<seq<string>>)
    requires multiset(a) == multiset(b)
    ensures multiset(Names(cwd, path, a)) == multiset(Names(cwd, path, b))
    decreases |a|
  {
    hide *;
    SameLength(a, b);
    if a != [] {
      assert a[0] in multiset(b);
      var k :| 0 <= k < |b| && b[k] == a[0];
      CutBoth(a, b, k);
      NamesPermutation(cwd, path, a[1..], b[..k] + b[k + 1..]);
      NamesCut(cwd, path, b, k);
      NamesCut(cwd, path, a, 0);
    } else {
      assert a == b;
    }
  }

  lemma NamesCut(cwd: AbsPath, path: string, ms: seq<seq<string>>, k: nat)
    requires k < |ms|
    ensures multiset(Names(cwd, path, ms)) ==
            multiset{Filenames.TrimCwd(cwd, FullName(path, ms[k]))} + multiset(Names(cwd, path, ms[..k] + ms[k + 1..]))
  {
    hide FullName, Filenames.TrimCwd;
    var names := Names(cwd, path, ms);
    Cut(names, k);
    assert names[..k] + names[k + 1..] == Names(cwd, path, ms[..k] + ms[k + 1..]);
  }

  /** Whatever order the directories list their entries in, the result is the same:
      the same failure or the very same list. */
  lemma OrderDoesNotMatter(cwd: AbsPath, pathname: string, a: Node, b: Node, suffix: string,
                           r: Result<Option<seq<string>>, ()>, q: Result<Option<seq<string>>, ()>)
    requires Proper(a) && Proper(b) && SameTree(a, b)
    requires IsFileList(cwd, pathname, a, suffix, r) && IsFileList(cwd, pathname, b, suffix, q)
    ensures r == q
  {
    hide Names, Filenames.TrimCwd, Matches, Fails, Trim.TrimSuffix;
    assert Shape(Some(a)) == Shape(Some(b)) by {
      assert Shape(Lookup(a, [])) == Shape(Lookup(b, []));
    }
    assert r.Failure? && q.Failure? ==> r.error == q.error;
    if a.Directory? {
      SameObstacles(a, b);
      if !Fails(a) {
        SameMatches(a, b, suffix);
        NamesPermutation(cwd, Trim.TrimSuffix(pathname, "/"), Matches(a, suffix), Matches(b, suffix));
        SortedNamesEqual(r.value.value, q.value.value);
      }
    }
  }

  lemma SortedNamesEqual(xs: seq<string>, ys: seq<string>)
    requires SortedBy(StringLe, xs) && SortedBy(StringLe, ys) && multiset(xs) == multiset(ys)
    ensures xs == ys
  {
    forall a, b | a in xs && b in xs && StringLe(a, b) && StringLe(b, a) ensures a == b {
      StringLeTotal(a, b);
    }
    SortUnique(StringLe, xs, ys);
  }
}
