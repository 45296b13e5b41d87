/** Which file a registered function is filed under: lib/registry.lua takes the name that
    `getstat` of lib/filesystem.lua gives to the file for the file itself. */
module Slots {
  import opened Paths
  import opened Registry
  import opened Suite
  import opened Trace
  import Filenames

  /** `getstat` of a file whose real path is `p` */
  function InfoOf(cwd: AbsPath, p: string): FileInfo {
    var name := Filenames.TrimCwd(cwd, p);
    FileInfo(name, Filenames.BaseName(p), Filenames.DirName(name), p)
  }

  /** An add whose arguments are right, and whose file is known. */
  predicate IsWellFormed(a: Add) {
    a.name.Some? && a.value.Some? && a.value.value.stat.Some?
  }

  function FileOf(a: Add): FileInfo
    requires IsWellFormed(a)
  {
    a.value.value.stat.value
  }

  /** What is known of the files is what `getstat` says. */
  predicate FromFiles(cwd: AbsPath, adds: seq<Add>) {
    forall i :: 0 <= i < |adds| && IsWellFormed(adds[i]) ==>
      Filenames.IsReal(FileOf(adds[i]).realpath) && FileOf(adds[i]) == InfoOf(cwd, FileOf(adds[i]).realpath)
  }

  /** A slot carries the file of the first add that came under its name. */
  lemma {:induction false} SlotOfAdd(adds: seq<Add>, path: string)
    ensures path in Replay(adds) <==>
            exists i :: 0 <= i < |adds| && IsWellFormed(adds[i]) && FileOf(adds[i]).pathname == path
    ensures path in Replay(adds) ==>
              exists i :: && 0 <= i < |adds| && IsWellFormed(adds[i]) && FileOf(adds[i]).pathname == path
                          && Replay(adds)[path].info == FileOf(adds[i])
  {
    if adds != [] {
      var n := |adds| - 1;
      SlotOfAdd(adds[..n], path);
      assert adds == adds[..n] + [adds[n]];
    }
  }

  /** The names of no two of the files clash. */
  predicate NoClash(cwd: AbsPath, adds: seq<Add>) {
    forall i, j :: 0 <= i < |adds| && 0 <= j < |adds| && IsWellFormed(adds[i]) && IsWellFormed(adds[j]) ==>
      !Filenames.Clash(cwd, FileOf(adds[i]).realpath, FileOf(adds[j]).realpath)
  }

  /** Every function is filed under its own file exactly when no two names clash. */
  lemma OwnSlotIff(cwd: AbsPath, adds: seq<Add>)
    requires Filenames.IsReal(cwd) && FromFiles(cwd, adds)
    ensures NoClash(cwd, adds) <==> forall i :: 0 <= i < |adds| && IsWellFormed(adds[i]) ==> InOwnSlot(adds, i)
  {
    hide Replay, Filenames.IsReal, Filenames.Clash, InfoOf;
    if NoClash(cwd, adds) {
      forall i | 0 <= i < |adds| && IsWellFormed(adds[i]) ensures InOwnSlot(adds, i) {
        var path := FileOf(adds[i]).pathname;
        SlotOfAdd(adds, path);
        var j :| 0 <= j < |adds| && IsWellFormed(adds[j]) && FileOf(adds[j]).pathname == path &&
          Replay(adds)[path].info == FileOf(adds[j]);
        SameFileIff(cwd, adds, i, j);
      }
    } else {
      var i, j :| 0 <= i < |adds| && 0 <= j < |adds| && IsWellFormed(adds[i]) && IsWellFormed(adds[j]) &&
        Filenames.Clash(cwd, FileOf(adds[i]).realpath, FileOf(adds[j]).realpath);
      SameFileIff(cwd, adds, i, j);
      ClashDiffer(cwd, FileOf(adds[i]).realpath, FileOf(adds[j]).realpath);
    }
  }

  predicate InOwnSlot(adds: seq<Add>, i: nat)
    requires i < |adds| && IsWellFormed(adds[i])
  {
    var path := FileOf(adds[i]).pathname;
    path in Replay(adds) && Replay(adds)[path].info == FileOf(adds[i])
  }

  lemma ClashDiffer(cwd: AbsPath, p: string, q: string)
    requires Filenames.Clash(cwd, p, q)
    ensures p != q
  {
    assert |q[|cwd|..]| == 1 + |p[|cwd|..]|;
  }

  lemma SameFileIff(cwd: AbsPath, adds: seq<Add>, i: nat, j: nat)
    requires Filenames.IsReal(cwd) && FromFiles(cwd, adds) && i < |adds| && j < |adds|
    requires IsWellFormed(adds[i]) && IsWellFormed(adds[j])
    ensures FileOf(adds[i]).pathname == FileOf(adds[j]).pathname <==>
            var p, q := FileOf(adds[i]).realpath, FileOf(adds[j]).realpath;
            p == q || Filenames.Clash(cwd, p, q) || Filenames.Clash(cwd, q, p)
    ensures FileOf(adds[i]).realpath == FileOf(adds[j]).realpath <==> FileOf(adds[i]) == FileOf(adds[j])
  {
    Filenames.SameNameIff(cwd, FileOf(adds[i]).realpath, FileOf(adds[j]).realpath);
    hide Filenames.TrimCwd, Filenames.BaseName, Filenames.DirName, Filenames.Clash;
  }

  // --- from the registration to the call ---

  /** Every call of a run is one of the function that was registered under the name by
      which a failure of it is reported. */
  lemma CalledAsRegistered(slot: Slot, src: Source, dir: string, tr: seq<Event>, k: nat)
    requires IsItem(slot, src) && FileTrace(src, dir, tr) && k < |tr|
    ensures exists name :: && ReportedAs(tr[k].phase, name) && name in slot.tests
                           && slot.tests[name].func == tr[k].func
  {
    FileCallsOwn(src, dir, tr, k);
    ItemIs(slot, src);
    hide FileTrace, IsItem;
    var e := tr[k];
    var name := match e.phase
      case BeforeAll => "before_all"
      case BeforeEach => "before_each"
      case AfterEach => "after_each"
      case AfterAll => "after_all"
      case Case(test) => test;
    assert ReportedAs(e.phase, name);
    if e.phase.Case? {
      var t :| t in src.tests && t.name == name && t.func == e.func;
      assert slot.tests[t.name] == t;
    }
  }

  /** Every call of a file is made in the directory that the file is in, exactly when its
      name was cut at a component boundary. */
  lemma CalledWhereItIs(cwd: AbsPath, p: AbsPath, slot: Slot, src: Source, tr: seq<Event>, k: nat)
    requires Filenames.IsReal(cwd) && Filenames.IsReal(p) && p != "/" && p != cwd
    requires slot.info == InfoOf(cwd, p) && IsItem(slot, src)
    requires FileTrace(src, Resolve(cwd, src.dirname), tr) && k < |tr|
    ensures Filenames.Below(tr[k].dir, src.basename) == p <==> Filenames.AtBoundary(cwd, p)
  {
    FileHasShape(src, Resolve(cwd, src.dirname), tr);
    assert FileAt(src, Resolve(cwd, src.dirname), tr, k);
    Filenames.DirectoryOfFile(cwd, p);
    hide FileTrace, Filenames.Below, Filenames.AtBoundary, Filenames.IsReal, Filenames.TrimCwd;
  }
}
