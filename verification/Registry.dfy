/** lib/registry.lua: the functions that test files register, and the list made of them. */
module Registry {
  import opened Prelude
  import opened Suite
  import opened Ordering

  /** What `getstat` says about the file a function is defined in. */
  datatype FileInfo = FileInfo(pathname: string, basename: string, dirname: string, realpath: string)

  /** A function with its debug information; no `stat` when `getstat` fails. */
  datatype Defined = Defined(func: Func, lineno: int, stat: Option<FileInfo>)

  datatype AddError = NameIsNoString | ValueIsNoFunction | NoFileInfo | AlreadyDefined(lineno: int)

  /** One file: where it is, and its functions by name. */
  datatype Slot = Slot(info: FileInfo, tests: map<string, Test>)

  type Files = map<string, Slot>

  predicate IsHook(name: string) {
    name == "before_all" || name == "after_all" || name == "before_each" || name == "after_each"
  }

  /** Slots are filed under their path name, and tests under their name. */
  predicate Consistent(files: Files) {
    forall p :: p in files ==>
      files[p].info.pathname == p && forall n :: n in files[p].tests ==> files[p].tests[n].name == n
  }

  // --- adding ---

  function SlotFor(files: Files, info: FileInfo): Slot {
    if info.pathname in files then files[info.pathname] else Slot(info, map[])
  }

  /** The registry after one add; `None` stands for an argument of the wrong type. */
  function Added(files: Files, name: Option<string>, value: Option<Defined>): (Files, Option<AddError>) {
    if name.None? then (files, Some(NameIsNoString))
    else if value.None? then (files, Some(ValueIsNoFunction))
    else if value.value.stat.None? then (files, Some(NoFileInfo))
    else
      var n, d, info := name.value, value.value, value.value.stat.value;
      var slot := SlotFor(files, info);
      if n in slot.tests then (files, Some(AlreadyDefined(slot.tests[n].lineno)))
      else (files[info.pathname := slot.(tests := slot.tests[n := Test(n, d.func, d.lineno)])], None)
  }

  datatype Add = Add(name: Option<string>, value: Option<Defined>)

  /** The registry after a whole sequence of adds. */
  function Replay(adds: seq<Add>): Files {
    if adds == [] then map[]
    else Added(Replay(adds[..|adds| - 1]), adds[|adds| - 1].name, adds[|adds| - 1].value).0
  }

  /** The add is well formed and is for that name in that file. */
  predicate Defines(a: Add, path: string, name: string) {
    && a.name == Some(name) && a.value.Some? && a.value.value.stat.Some?
    && a.value.value.stat.value.pathname == path
  }

  /** The first add for a name in a file. */
  function FirstAdd(adds: seq<Add>, path: string, name: string): Option<Test> {
    if adds == [] then None
    else if Defines(adds[0], path, name) then
      Some(Test(name, adds[0].value.value.func, adds[0].value.value.lineno))
    else FirstAdd(adds[1..], path, name)
  }

  function Lookup(files: Files, path: string, name: string): Option<Test> {
    if path in files && name in files[path].tests then Some(files[path].tests[name]) else None
  }

  lemma {:induction false} FirstAddSnoc(adds: seq<Add>, a: Add, path: string, name: string)
    ensures FirstAdd(adds + [a], path, name) ==
            if FirstAdd(adds, path, name).Some? then FirstAdd(adds, path, name)
            else if Defines(a, path, name) then Some(Test(name, a.value.value.func, a.value.value.lineno))
            else None
  {
    if adds == [] {
      assert (adds + [a])[1..] == [];
    } else {
      assert (adds + [a])[1..] == adds[1..] + [a];
      FirstAddSnoc(adds[1..], a, path, name);
    }
  }

  /** Over any sequence of adds the registry is the first-wins map from path and name to
      function. */
  lemma {:induction false} FirstWins(adds: seq<Add>, path: string, name: string)
    ensures Lookup(Replay(adds), path, name) == FirstAdd(adds, path, name)
  {
    if adds != [] {
      var n := |adds| - 1;
      FirstWins(adds[..n], path, name);
      FirstAddSnoc(adds[..n], adds[n], path, name);
      assert adds == adds[..n] + [adds[n]];
    }
  }

  /** A rejected add changes nothing, and an add is rejected as a duplicate exactly when
      an earlier one is on record. */
  lemma RejectedChangesNothing(files: Files, name: Option<string>, value: Option<Defined>)
    ensures var (after, err) := Added(files, name, value);
            && (err.Some? ==> after == files)
            && (err.None? <==> name.Some? && value.Some? && value.value.stat.Some? &&
                               Lookup(files, value.value.stat.value.pathname, name.value).None?)
  {
  }

  /** What is wrong with an add, after any adds before it: the first wrong argument, or the
      line of the function that already has the name. */
  lemma WhyRejected(adds: seq<Add>, name: Option<string>, value: Option<Defined>)
    ensures var err := Added(Replay(adds), name, value).1;
            && (err == Some(NameIsNoString) <==> name.None?)
            && (err == Some(ValueIsNoFunction) <==> name.Some? && value.None?)
            && (err == Some(NoFileInfo) <==> name.Some? && value.Some? && value.value.stat.None?)
            && (name.Some? && value.Some? && value.value.stat.Some? ==>
                  var first := FirstAdd(adds, value.value.stat.value.pathname, name.value);
                  err == if first.None? then None else Some(AlreadyDefined(first.value.lineno)))
  {
    if name.Some? && value.Some? && value.value.stat.Some? {
      FirstWins(adds, value.value.stat.value.pathname, name.value);
    }
    hide Replay, FirstAdd;
  }

  lemma AddedConsistent(files: Files, name: Option<string>, value: Option<Defined>)
    requires Consistent(files)
    ensures Consistent(Added(files, name, value).0)
  {
  }

  lemma {:induction false} ReplayConsistent(adds: seq<Add>)
    ensures Consistent(Replay(adds))
  {
    if adds != [] {
      ReplayConsistent(adds[..|adds| - 1]);
      AddedConsistent(Replay(adds[..|adds| - 1]), adds[|adds| - 1].name, adds[|adds| - 1].value);
    }
  }

  // --- listing ---

  function HookOf(slot: Slot, name: string): Option<Func> {
    if name in slot.tests then Some(slot.tests[name].func) else None
  }

  function LinenoLe(): (Test, Test) -> bool {
    (a: Test, b: Test) => a.lineno <= b.lineno
  }

  function NameLe(): (Source, Source) -> bool {
    (a: Source, b: Source) => StringLe(a.name, b.name)
  }

  /** Every function of a slot appears once: as a hook, or as one of the tests, which are
      in line order. */
  ghost predicate IsItem(slot: Slot, src: Source) {
    && src.name == slot.info.pathname && src.basename == slot.info.basename
    && src.dirname == slot.info.dirname && src.realpath == slot.info.realpath
    && HooksInPlace(slot, src)
    && SortedBy(LinenoLe(), src.tests) && NoDups(src.tests)
    && TestsInPlace(slot, src.tests)
  }

  /** What an item says of its file: the hooks are the functions registered under the four
      names, the tests are all the others, each once, by ascending lines. */
  lemma ItemIs(slot: Slot, src: Source)
    requires IsItem(slot, src)
    ensures src.beforeAll == if "before_all" in slot.tests then Some(slot.tests["before_all"].func) else None
    ensures src.afterAll == if "after_all" in slot.tests then Some(slot.tests["after_all"].func) else None
    ensures src.beforeEach == if "before_each" in slot.tests then Some(slot.tests["before_each"].func) else None
    ensures src.afterEach == if "after_each" in slot.tests then Some(slot.tests["after_each"].func) else None
    ensures forall t :: t in src.tests <==>
              && t.name in slot.tests && slot.tests[t.name] == t
              && t.name !in {"before_all", "after_all", "before_each", "after_each"}
    ensures forall i, j :: 0 <= i < j < |src.tests| ==> src.tests[i].lineno <= src.tests[j].lineno
    ensures forall i, j :: 0 <= i < j < |src.tests| ==> src.tests[i] != src.tests[j]
  {
    HooksAre(slot, src);
    hide HookOf;
    forall i, j | 0 <= i < j < |src.tests| ensures src.tests[i].lineno <= src.tests[j].lineno {
      assert LinenoLe()(src.tests[i], src.tests[j]);
    }
  }

  lemma HooksAre(slot: Slot, src: Source)
    requires HooksInPlace(slot, src)
    ensures src.beforeAll == if "before_all" in slot.tests then Some(slot.tests["before_all"].func) else None
    ensures src.afterAll == if "after_all" in slot.tests then Some(slot.tests["after_all"].func) else None
    ensures src.beforeEach == if "before_each" in slot.tests then Some(slot.tests["before_each"].func) else None
    ensures src.afterEach == if "after_each" in slot.tests then Some(slot.tests["after_each"].func) else None
  {
  }

  /** One item per file, strictly ordered by name. */
  ghost predicate IsListing(files: Files, list: seq<Source>, ntest: nat) {
    && (forall i, j :: 0 <= i < j < |list| ==> StringLe(list[i].name, list[j].name) && list[i].name != list[j].name)
    && (forall p :: p in files <==> exists i :: 0 <= i < |list| && list[i].name == p)
    && (forall i :: 0 <= i < |list| ==> list[i].name in files && IsItem(files[list[i].name], list[i]))
    && ntest == TotalTests(list)
  }

  // --- the code of lib/registry.lua ---

  /** The inner loop of `getlist`: the functions of a file come in any order. */
  ghost predicate Sorted(slot: Slot, rest: set<string>, item: Source, tests: seq<Test>) {
    && item.beforeAll == (if "before_all" in rest then None else HookOf(slot, "before_all"))
    && item.afterAll == (if "after_all" in rest then None else HookOf(slot, "after_all"))
    && item.beforeEach == (if "before_each" in rest then None else HookOf(slot, "before_each"))
    && item.afterEach == (if "after_each" in rest then None else HookOf(slot, "after_each"))
    && NoDups(tests)
    && forall t :: t in tests <==> t.name in slot.tests && t.name !in rest && slot.tests[t.name] == t && !IsHook(t.name)
  }

  /** The item with a function put in its place, if that is one of the hooks. */
  function Place(item: Source, name: string, func: Func): Source {
    if name == "before_all" then item.(beforeAll := Some(func))
    else if name == "after_all" then item.(afterAll := Some(func))
    else if name == "before_each" then item.(beforeEach := Some(func))
    else if name == "after_each" then item.(afterEach := Some(func))
    else item
  }

  lemma SortedNext(slot: Slot, rest: set<string>, item: Source, tests: seq<Test>, name: string)
    requires Sorted(slot, rest, item, tests)
    requires name in rest && name in slot.tests && slot.tests[name].name == name
    ensures Sorted(slot, rest - {name}, Place(item, name, slot.tests[name].func),
                   if IsHook(name) then tests else tests + [slot.tests[name]])
  {
    PushTest(slot, rest, tests, if IsHook(name) then tests else tests + [slot.tests[name]], name);
  }

  method BuildItem(slot: Slot) returns (item: Source)
    requires forall n :: n in slot.tests ==> slot.tests[n].name == n
    ensures IsItem(slot, item)
  {
    hide Sorted, IsItem;
    var info := slot.info;
    item := Source(info.pathname, info.basename, info.dirname, info.realpath, None, None, None, None, []);
    var tests: seq<Test> := [];
    var rest := slot.tests.Keys;
    SortedNone(slot, item);
    while rest != {}
      invariant rest <= slot.tests.Keys
      invariant Sorted(slot, rest, item, tests)
      invariant item.name == info.pathname && item.basename == info.basename
      invariant item.dirname == info.dirname && item.realpath == info.realpath
    {
      var name :| name in rest;
      var test := slot.tests[name];
      SortedNext(slot, rest, item, tests, name);
      if name == "before_all" {
        item := item.(beforeAll := Some(test.func));
      } else if name == "after_all" {
        item := item.(afterAll := Some(test.func));
      } else if name == "before_each" {
        item := item.(beforeEach := Some(test.func));
      } else if name == "after_each" {
        item := item.(afterEach := Some(test.func));
      } else {
        tests := tests + [test];
      }
      rest := rest - {name};
    }
    SortedDone(slot, item, tests);
    var sorted := SortTests(tests);
    item := item.(tests := sorted);
    ItemDone(slot, item);
  }

  lemma SortedNone(slot: Slot, item: Source)
    requires item.beforeAll.None? && item.afterAll.None? && item.beforeEach.None? && item.afterEach.None?
    ensures Sorted(slot, slot.tests.Keys, item, [])
  {
  }

  predicate HooksInPlace(slot: Slot, item: Source) {
    && item.beforeAll == HookOf(slot, "before_all") && item.afterAll == HookOf(slot, "after_all")
    && item.beforeEach == HookOf(slot, "before_each") && item.afterEach == HookOf(slot, "after_each")
  }

  ghost predicate TestsInPlace(slot: Slot, tests: seq<Test>) {
    forall t :: t in tests <==> t.name in slot.tests && slot.tests[t.name] == t && !IsHook(t.name)
  }

  lemma SortedDone(slot: Slot, item: Source, tests: seq<Test>)
    requires Sorted(slot, {}, item, tests)
    ensures HooksInPlace(slot, item) && NoDups(tests) && TestsInPlace(slot, tests)
  {
  }

  lemma ItemDone(slot: Slot, item: Source)
    requires item.name == slot.info.pathname && item.basename == slot.info.basename
    requires item.dirname == slot.info.dirname && item.realpath == slot.info.realpath
    requires HooksInPlace(slot, item) && TestsInPlace(slot, item.tests)
    requires SortedBy(LinenoLe(), item.tests) && NoDups(item.tests)
    ensures IsItem(slot, item)
  {
  }

  lemma PushTest(slot: Slot, rest: set<string>, before: seq<Test>, after: seq<Test>, name: string)
    requires name in rest && name in slot.tests && slot.tests[name].name == name
    requires NoDups(before)
    requires forall t :: t in before <==>
                         t.name in slot.tests && t.name !in rest && slot.tests[t.name] == t && !IsHook(t.name)
    requires after == if IsHook(name) then before else before + [slot.tests[name]]
    ensures NoDups(after)
    ensures forall t :: t in after <==>
              t.name in slot.tests && t.name !in rest - {name} && slot.tests[t.name] == t && !IsHook(t.name)
  {
    forall t ensures t in after <==>
      t.name in slot.tests && t.name !in rest - {name} && slot.tests[t.name] == t && !IsHook(t.name)
    {
      assert t in after <==> t in before || (!IsHook(name) && t == slot.tests[name]);
    }
  }

  method SortTests(tests: seq<Test>) returns (sorted: seq<Test>)
    requires NoDups(tests)
    ensures SortedBy(LinenoLe(), sorted) && NoDups(sorted) && forall t :: t in sorted <==> t in tests
  {
    sorted := TableSort(LinenoLe(), tests);
    Permuted(sorted, tests);
  }

  class Registry {
    var files: Files

    constructor ()
      ensures files == map[]
    {
      files := map[];
    }

    method Clear()
      modifies this
      ensures files == map[]
    {
      files := map[];
    }

    /** `add` */
    method AddTest(name: Option<string>, value: Option<Defined>) returns (err: Option<AddError>)
      modifies this
      ensures (files, err) == Added(old(files), name, value)
    {
      if name.None? {
        return Some(NameIsNoString);
      } else if value.None? {
        return Some(ValueIsNoFunction);
      }
      var d := value.value;
      if d.stat.None? {
        return Some(NoFileInfo);
      }
      var stat := d.stat.value;
      if stat.pathname !in files {
        files := files[stat.pathname := Slot(stat, map[])];
      }
      var slot := files[stat.pathname];
      if name.value in slot.tests {
        return Some(AlreadyDefined(slot.tests[name.value].lineno));
      }
      files := files[stat.pathname := slot.(tests := slot.tests[name.value := Test(name.value, d.func, d.lineno)])];
      assert files == Added(old(files), name, value).0;
      return None;
    }

    /** `getlist`: the files and their functions come in any order. */
    method GetList() returns (list: seq<Source>, ntest: nat)
      requires Consistent(files)
      ensures IsListing(files, list, ntest)
    {
      hide IsItem;
      var slist: seq<Source> := [];
      ntest := 0;
      var rest := files.Keys;
      while rest != {}
        invariant rest <= files.Keys
        invariant Listed(files, rest, slist)
        invariant ntest == TotalTests(slist)
      {
        var src :| src in rest;
        var item := BuildItem(files[src]);
        ItemName(files, src, item);
        TotalPush(slist, item);
        ListedNext(files, rest, slist, src, item);
        slist := slist + [item];
        ntest := ntest + |item.tests|;
        rest := rest - {src};
      }
      NameLeIsOrder();
      list := TableSort(NameLe(), slist);
      SortedListing(files, slist, list);
    }
  }

  /** The items made so far are those of the files that are done, each once. */
  ghost predicate Listed(files: Files, rest: set<string>, slist: seq<Source>) {
    && (forall i, j :: 0 <= i < j < |slist| ==> slist[i].name != slist[j].name)
    && (forall i :: 0 <= i < |slist| ==>
          slist[i].name in files && slist[i].name !in rest && IsItem(files[slist[i].name], slist[i]))
    && (forall p :: p in files && p !in rest ==> exists i :: 0 <= i < |slist| && slist[i].name == p)
  }

  lemma ItemName(files: Files, p: string, item: Source)
    requires Consistent(files) && p in files && IsItem(files[p], item)
    ensures item.name == p
  {
  }

  lemma ListedNext(files: Files, rest: set<string>, slist: seq<Source>, p: string, item: Source)
    requires Listed(files, rest, slist) && p in rest && p in files && item.name == p && IsItem(files[p], item)
    ensures Listed(files, rest - {p}, slist + [item])
  {
    hide IsItem;
    var more := slist + [item];
    forall q | q in files && q !in rest - {p} ensures exists i :: 0 <= i < |more| && more[i].name == q {
      if q == p {
        assert more[|slist|].name == q;
      } else {
        var i :| 0 <= i < |slist| && slist[i].name == q;
        assert more[i].name == q;
      }
    }
  }

  lemma {:induction false} TotalPush(list: seq<Source>, src: Source)
    ensures TotalTests(list + [src]) == TotalTests(list) + |src.tests|
  {
    if list == [] {
      assert list + [src] == [src];
    } else {
      assert (list + [src])[1..] == list[1..] + [src];
      TotalPush(list[1..], src);
    }
  }

  lemma NameLeIsOrder()
    ensures TotalPreorder(NameLe())
  {
    StringLeIsOrder();
  }

  /** Sorting the items by name gives the listing. */
  lemma SortedListing(files: Files, slist: seq<Source>, list: seq<Source>)
    requires Listed(files, {}, slist) && SortedBy(NameLe(), list) && multiset(list) == multiset(slist)
    ensures IsListing(files, list, TotalTests(slist))
  {
    ItemsOnce(files, slist);
    Permuted(list, slist);
    TotalPermuted(list, slist);
    hide *;
    ItemsListed(files, slist, list);
    InOrder(files, slist, list);
    ListingIs(files, list, TotalTests(slist));
  }

  lemma ItemsOnce(files: Files, slist: seq<Source>)
    requires Listed(files, {}, slist)
    ensures NoDups(slist)
  {
    hide IsItem;
  }

  lemma InOrder(files: Files, slist: seq<Source>, list: seq<Source>)
    requires Listed(files, {}, slist) && SortedBy(NameLe(), list) && NoDups(list)
    requires forall x :: x in list <==> x in slist
    ensures forall i, j :: 0 <= i < j < |list| ==> StringLe(list[i].name, list[j].name) && list[i].name != list[j].name
  {
    hide *;
    forall i, j | 0 <= i < j < |list| ensures StringLe(list[i].name, list[j].name) && list[i].name != list[j].name {
      NamesOrdered(files, slist, list, i, j);
    }
  }

  lemma ListingIs(files: Files, list: seq<Source>, n: nat)
    requires forall i, j :: 0 <= i < j < |list| ==> StringLe(list[i].name, list[j].name) && list[i].name != list[j].name
    requires forall p :: p in files ==> exists i :: 0 <= i < |list| && list[i].name == p
    requires forall i :: 0 <= i < |list| ==> list[i].name in files && IsItem(files[list[i].name], list[i])
    requires n == TotalTests(list)
    ensures IsListing(files, list, n)
  {
    hide IsItem, StringLe, TotalTests;
  }

  lemma ItemsListed(files: Files, slist: seq<Source>, list: seq<Source>)
    requires Listed(files, {}, slist) && forall x :: x in list <==> x in slist
    ensures forall i :: 0 <= i < |list| ==> list[i].name in files && IsItem(files[list[i].name], list[i])
    ensures forall p :: p in files ==> exists i :: 0 <= i < |list| && list[i].name == p
  {
    hide IsItem;
    forall i | 0 <= i < |list| ensures list[i].name in files && IsItem(files[list[i].name], list[i]) {
      assert list[i] in slist;
    }
    forall p | p in files ensures exists i :: 0 <= i < |list| && list[i].name == p {
      var k :| 0 <= k < |slist| && slist[k].name == p;
      assert slist[k] in list;
    }
  }

  lemma NamesOrdered(files: Files, slist: seq<Source>, list: seq<Source>, i: nat, j: nat)
    requires Listed(files, {}, slist) && SortedBy(NameLe(), list) && NoDups(list)
    requires forall x :: x in list <==> x in slist
    requires i < j < |list|
    ensures StringLe(list[i].name, list[j].name) && list[i].name != list[j].name
  {
    hide IsItem;
    assert NameLe()(list[i], list[j]);
    assert list[i] in slist && list[j] in slist;
  }

  lemma {:induction false} TotalPermuted(xs: seq<Source>, ys: seq<Source>)
    requires multiset(xs) == multiset(ys)
    ensures TotalTests(xs) == TotalTests(ys)
    decreases |xs|
  {
    hide *;
    SameLength(xs, ys);
    if xs != [] {
      assert xs[0] in multiset(ys);
      var k :| 0 <= k < |ys| && ys[k] == xs[0];
      CutBoth(xs, ys, k);
      TotalCut(ys, k);
      TotalCut(xs, 0);
      TotalPermuted(xs[1..], ys[..k] + ys[k + 1..]);
    } else {
      assert xs == ys;
    }
  }

  lemma {:induction false} TotalCut(ys: seq<Source>, k: nat)
    requires k < |ys|
    ensures TotalTests(ys) == |ys[k].tests| + TotalTests(ys[..k] + ys[k + 1..])
  {
    if k == 0 {
      assert ys[..0] + ys[1..] == ys[1..];
    } else {
      TotalCut(ys[1..], k - 1);
      var cut := ys[..k] + ys[k + 1..];
      assert cut[1..] == ys[1..][..k - 1] + ys[1..][k..];
      assert cut[0] == ys[0];
    }
  }

  // --- the iteration order does not matter ---

  /** The same item up to the order of tests defined on the same line. */
  ghost predicate SameItem(a: Source, b: Source) {
    a.(tests := []) == b.(tests := []) && multiset(a.tests) == multiset(b.tests)
  }

  /** Two listings of the same registry name the same files in the same order, with the
      same hooks and the same tests; they are equal if no two tests of a file are
      defined on the same line. */
  lemma ListingUnique(files: Files, a: seq<Source>, na: nat, b: seq<Source>, nb: nat)
    requires IsListing(files, a, na) && IsListing(files, b, nb)
    ensures |a| == |b| && na == nb
    ensures forall i :: 0 <= i < |a| ==> SameItem(a[i], b[i])
    ensures DistinctLines(files) ==> a == b
  {
    hide IsItem, SameItem, DistinctLines;
    SameNames(files, a, na, b, nb);
    forall i | 0 <= i < |a| ensures SameItem(a[i], b[i]) && (DistinctLines(files) ==> a[i] == b[i]) {
      ItemUnique(files, a[i].name, a[i], b[i]);
    }
    TotalSame(a, b);
  }

  ghost predicate DistinctLines(files: Files) {
    forall p, m, n :: p in files && m in files[p].tests && n in files[p].tests && m != n ==>
      files[p].tests[m].lineno != files[p].tests[n].lineno
  }

  function NamesOf(list: seq<Source>): seq<string> {
    seq(|list|, i requires 0 <= i < |list| => list[i].name)
  }

  lemma SameNames(files: Files, a: seq<Source>, na: nat, b: seq<Source>, nb: nat)
    requires IsListing(files, a, na) && IsListing(files, b, nb)
    ensures |a| == |b| && forall i :: 0 <= i < |a| ==> a[i].name == b[i].name
  {
    hide IsItem, IsListing;
    var x, y := NamesOf(a), NamesOf(b);
    SortedNames(files, a, na);
    SortedNames(files, b, nb);
    forall p ensures p in x <==> p in y {
      NameMember(files, a, na, p);
      NameMember(files, b, nb, p);
    }
    NoDupsPermutation(x, y);
    OneOrder(x, y);
    assert forall i :: 0 <= i < |a| ==> x[i] == a[i].name && y[i] == b[i].name;
  }

  lemma SortedNames(files: Files, list: seq<Source>, n: nat)
    requires IsListing(files, list, n)
    ensures NoDups(NamesOf(list)) && SortedBy(StringLe, NamesOf(list))
  {
    hide IsItem;
  }

  lemma OneOrder(x: seq<string>, y: seq<string>)
    requires SortedBy(StringLe, x) && SortedBy(StringLe, y) && multiset(x) == multiset(y)
    ensures x == y
  {
    forall p, q | p in x && q in x && StringLe(p, q) && StringLe(q, p) ensures p == q {
      StringLeTotal(p, q);
    }
    SortUnique(StringLe, x, y);
  }

  lemma NameMember(files: Files, list: seq<Source>, n: nat, p: string)
    requires IsListing(files, list, n)
    ensures p in NamesOf(list) <==> p in files
  {
    hide IsItem;
    var x := NamesOf(list);
    if p in files {
      var i :| 0 <= i < |list| && list[i].name == p;
      assert x[i] == p;
    }
    if p in x {
      var i :| 0 <= i < |x| && x[i] == p;
      assert list[i].name == p;
    }
  }

  lemma ItemUnique(files: Files, p: string, a: Source, b: Source)
    requires p in files && IsItem(files[p], a) && IsItem(files[p], b)
    ensures SameItem(a, b)
    ensures DistinctLines(files) ==> a == b
  {
    NoDupsPermutation(a.tests, b.tests);
    if DistinctLines(files) {
      forall s, t | s in a.tests && t in a.tests && LinenoLe()(s, t) && LinenoLe()(t, s) ensures s == t {
        assert s.lineno == t.lineno;
        assert s.name in files[p].tests && t.name in files[p].tests;
      }
      SortUnique(LinenoLe(), a.tests, b.tests);
    }
  }

  lemma {:induction false} TotalSame(a: seq<Source>, b: seq<Source>)
    requires |a| == |b| && forall i :: 0 <= i < |a| ==> SameItem(a[i], b[i])
    ensures TotalTests(a) == TotalTests(b)
  {
    if a != [] {
      SameLength(a[0].tests, b[0].tests);
      TotalSame(a[1..], b[1..]);
    }
  }
}
