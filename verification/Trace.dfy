/** The calls of user functions that a run makes: their grammar, and what the
    numbers reported by lib/runner.lua say about them. */
module Trace {
  import opened Prelude
  import opened Suite
  import Positions

  datatype Phase = BeforeAll | BeforeEach | Case(name: string) | AfterEach | AfterAll

  /** How a protected call ends. `InChild` is the return in a forked child, where the
      process leaves at once (lib/runner.lua:62-64). */
  datatype Outcome = Passed | Failed(err: Option<string>) | InChild

  /** A call, the directory it started in, and how it ended. */
  datatype Event = Event(phase: Phase, func: Func, dir: string, outcome: Outcome)

  /** An entry of an error list: the name it is reported under and the error value. */
  datatype Entry = Entry(name: string, err: Option<string>)

  function Label(p: Phase): string {
    match p
    case BeforeAll => "before_all"
    case BeforeEach => "before_each"
    case Case(name) => name
    case AfterEach => "after_each"
    case AfterAll => "after_all"
  }

  /** Number of test calls that returned ok. */
  function Passes(tr: seq<Event>): nat {
    if tr == [] then 0
    else (if tr[0].phase.Case? && tr[0].outcome.Passed? then 1 else 0) + Passes(tr[1..])
  }

  function EntryOf(e: Event): seq<Entry> {
    if e.outcome.Failed? then [Entry(Label(e.phase), e.outcome.err)] else []
  }

  /** The failed calls, in call order. */
  function Failures(tr: seq<Event>): seq<Entry> {
    if tr == [] then []
    else EntryOf(tr[0]) + Failures(tr[1..])
  }

  /** The name under which a failed call is reported. */
  predicate ReportedAs(p: Phase, name: string) {
    match p
    case BeforeAll => name == "before_all"
    case BeforeEach => name == "before_each"
    case Case(test) => name == test
    case AfterEach => name == "after_each"
    case AfterAll => name == "after_all"
  }

  /** There is one entry for each failed call, in call order, with its name and its error. */
  ghost predicate AreFailures(tr: seq<Event>, pos: seq<nat>, entries: seq<Entry>) {
    && Positions.Ascend(pos, |tr|) && |pos| == |entries|
    && (forall j :: 0 <= j < |pos| ==> IsEntryOf(tr[pos[j]], entries[j]))
    && (forall i :: 0 <= i < |tr| ==> (i in pos <==> tr[i].outcome.Failed?))
  }

  /** The entry of a failed call. */
  predicate IsEntryOf(e: Event, entry: Entry) {
    e.outcome == Failed(entry.err) && ReportedAs(e.phase, entry.name)
  }

  lemma {:induction false} FailuresInOrder(tr: seq<Event>) returns (pos: seq<nat>)
    ensures AreFailures(tr, pos, Failures(tr))
  {
    if tr == [] {
      pos := [];
    } else {
      var init, last := tr[..|tr| - 1], tr[|tr| - 1];
      var before := FailuresInOrder(init);
      assert tr == init + [last];
      hide *;
      FailuresConcat(init, [last]);
      OneEntry(last);
      pos := FailuresNext(init, before, Failures(init), last);
    }
  }

  lemma FailuresNext(tr: seq<Event>, pos: seq<nat>, entries: seq<Entry>, e: Event) returns (more: seq<nat>)
    requires AreFailures(tr, pos, entries)
    ensures AreFailures(tr + [e], more, entries + EntryOf(e))
  {
    more := Positions.OneMore(pos, |tr|, e.outcome.Failed?);
    OneEntry(e);
    hide IsEntryOf, EntryOf;
  }

  lemma OneEntry(e: Event)
    ensures Failures([e]) == EntryOf(e)
    ensures |EntryOf(e)| == (if e.outcome.Failed? then 1 else 0) && forall x :: x in EntryOf(e) ==> IsEntryOf(e, x)
  {
    assert [e][1..] == [];
  }

  function TestCall(e: Event): seq<Event> {
    if e.phase.Case? then [e] else []
  }

  /** The test calls, in call order. */
  function Cases(tr: seq<Event>): seq<Event> {
    if tr == [] then []
    else TestCall(tr[0]) + Cases(tr[1..])
  }

  lemma Concat(a: seq<Event>, b: seq<Event>)
    ensures Passes(a + b) == Passes(a) + Passes(b)
    ensures Failures(a + b) == Failures(a) + Failures(b)
    ensures Cases(a + b) == Cases(a) + Cases(b)
  {
    hide *;
    PassesConcat(a, b);
    FailuresConcat(a, b);
    CasesConcat(a, b);
  }

  lemma {:induction false} PassesConcat(a: seq<Event>, b: seq<Event>)
    ensures Passes(a + b) == Passes(a) + Passes(b)
  {
    if a == [] {
      assert a + b == b;
    } else {
      assert (a + b)[1..] == a[1..] + b;
      PassesConcat(a[1..], b);
    }
  }

  lemma {:induction false} FailuresConcat(a: seq<Event>, b: seq<Event>)
    ensures Failures(a + b) == Failures(a) + Failures(b)
  {
    if a == [] {
      assert a + b == b;
    } else {
      assert (a + b)[1..] == a[1..] + b;
      FailuresConcat(a[1..], b);
      hide EntryOf;
    }
  }

  lemma {:induction false} CasesConcat(a: seq<Event>, b: seq<Event>)
    ensures Cases(a + b) == Cases(a) + Cases(b)
  {
    if a == [] {
      assert a + b == b;
    } else {
      assert (a + b)[1..] == a[1..] + b;
      CasesConcat(a[1..], b);
      hide TestCall;
    }
  }

  // --- the grammar of one file ---

  predicate Is(e: Event, p: Phase, f: Func, dir: string) {
    e.phase == p && e.func == f && e.dir == dir && !e.outcome.InChild?
  }

  function One(hook: Option<Func>): nat {
    if hook.Some? then 1 else 0
  }

  function RoundLength(src: Source): nat {
    One(src.beforeEach) + 1 + One(src.afterEach)
  }

  /** before_each (when defined) passed, then the test is called. */
  predicate Opens(src: Source, t: Test, dir: string, r: seq<Event>) {
    && One(src.beforeEach) < |r|
    && (src.beforeEach.Some? ==> Is(r[0], BeforeEach, src.beforeEach.value, dir) && r[0].outcome.Passed?)
    && Is(r[One(src.beforeEach)], Case(t.name), t.func, dir)
  }

  /** The calls for one test when no hook fails. */
  predicate Round(src: Source, t: Test, dir: string, r: seq<Event>) {
    && |r| == RoundLength(src)
    && Opens(src, t, dir, r)
    && (src.afterEach.Some? ==> Is(r[|r| - 1], AfterEach, src.afterEach.value, dir) && r[|r| - 1].outcome.Passed?)
  }

  /** The calls for the last test entered when one of its hooks fails. */
  predicate BrokenRound(src: Source, t: Test, dir: string, r: seq<Event>) {
    || (src.beforeEach.Some? && |r| == 1 && Is(r[0], BeforeEach, src.beforeEach.value, dir) && r[0].outcome.Failed?)
    || (&& src.afterEach.Some? && |r| == RoundLength(src) && Opens(src, t, dir, r)
        && Is(r[|r| - 1], AfterEach, src.afterEach.value, dir) && r[|r| - 1].outcome.Failed?)
  }

  predicate Rounds(src: Source, tests: seq<Test>, dir: string, tr: seq<Event>) {
    if tests == [] then tr == []
    else
      || BrokenRound(src, tests[0], dir, tr)
      || (&& RoundLength(src) <= |tr|
          && Round(src, tests[0], dir, tr[..RoundLength(src)])
          && Rounds(src, tests[1..], dir, tr[RoundLength(src)..]))
  }

  predicate Body(src: Source, dir: string, tr: seq<Event>) {
    if src.afterAll.None? then Rounds(src, src.tests, dir, tr)
    else
      && tr != [] && Is(tr[|tr| - 1], AfterAll, src.afterAll.value, dir)
      && Rounds(src, src.tests, dir, tr[..|tr| - 1])
  }

  /** The calls made for one file: a failed before_all is the only one. */
  predicate FileTrace(src: Source, dir: string, tr: seq<Event>) {
    if src.beforeAll.None? then Body(src, dir, tr)
    else
      && tr != [] && Is(tr[0], BeforeAll, src.beforeAll.value, dir)
      && (if tr[0].outcome.Passed? then Body(src, dir, tr[1..]) else |tr| == 1)
  }

  // --- building the rounds from the front ---

  /** `done` covers the first `i` tests completely. */
  ghost predicate Covers(src: Source, dir: string, i: nat, done: seq<Event>)
    requires i <= |src.tests|
  {
    forall c :: Rounds(src, src.tests[i..], dir, c) ==> Rounds(src, src.tests, dir, done + c)
  }

  lemma CoversNone(src: Source, dir: string)
    ensures Covers(src, dir, 0, [])
  {
    forall c | Rounds(src, src.tests[0..], dir, c) ensures Rounds(src, src.tests, dir, [] + c) {
      assert src.tests[0..] == src.tests && [] + c == c;
    }
  }

  lemma CoversRound(src: Source, dir: string, i: nat, done: seq<Event>, r: seq<Event>)
    requires i < |src.tests| && Covers(src, dir, i, done) && Round(src, src.tests[i], dir, r)
    ensures Covers(src, dir, i + 1, done + r)
  {
    forall c | Rounds(src, src.tests[i + 1..], dir, c)
      ensures Rounds(src, src.tests, dir, (done + r) + c)
    {
      assert src.tests[i..][1..] == src.tests[i + 1..];
      assert (r + c)[..|r|] == r && (r + c)[|r|..] == c;
      assert Rounds(src, src.tests[i..], dir, r + c);
      assert (done + r) + c == done + (r + c);
    }
  }

  lemma CoversBroken(src: Source, dir: string, i: nat, done: seq<Event>, r: seq<Event>)
    requires i < |src.tests| && Covers(src, dir, i, done) && BrokenRound(src, src.tests[i], dir, r)
    ensures Rounds(src, src.tests, dir, done + r)
  {
    assert Rounds(src, src.tests[i..], dir, r);
  }

  lemma CoversAll(src: Source, dir: string, done: seq<Event>)
    requires Covers(src, dir, |src.tests|, done)
    ensures Rounds(src, src.tests, dir, done)
  {
    assert Rounds(src, src.tests[|src.tests|..], dir, []);
    assert done + [] == done;
  }

  // --- what the grammar says about each call ---

  predicate IsEachHook(p: Phase) {
    p.BeforeEach? || p.AfterEach?
  }

  /** A test call stands between its two hooks. */
  predicate Framed(src: Source, tr: seq<Event>, k: nat)
    requires k < |tr|
  {
    && (src.beforeEach.Some? ==> k > 0 && tr[k - 1].phase == BeforeEach && tr[k - 1].outcome.Passed?)
    && (src.afterEach.Some? ==> k + 1 < |tr| && tr[k + 1].phase == AfterEach)
  }

  /** The test calls are the first tests, in order. */
  predicate Enters(tests: seq<Test>, cases: seq<Event>) {
    && |cases| <= |tests|
    && forall i :: 0 <= i < |cases| ==> cases[i].phase == Case(tests[i].name) && cases[i].func == tests[i].func
  }

  /** The call at position `k` of the rounds. */
  predicate RoundsAt(src: Source, dir: string, tr: seq<Event>, k: nat)
    requires k < |tr|
  {
    && tr[k].dir == dir && !tr[k].outcome.InChild?
    && (tr[k].phase.Case? || IsEachHook(tr[k].phase))
    && (tr[k].phase.Case? ==> Framed(src, tr, k))
    && (IsEachHook(tr[k].phase) && tr[k].outcome.Failed? ==> k == |tr| - 1)
  }

  predicate EndsInFailedHook(tr: seq<Event>) {
    tr != [] && IsEachHook(tr[|tr| - 1].phase) && tr[|tr| - 1].outcome.Failed?
  }

  /** Every call of the rounds, by position. */
  ghost predicate RoundsShape(src: Source, tests: seq<Test>, dir: string, tr: seq<Event>) {
    && Enters(tests, Cases(tr))
    && (forall k :: 0 <= k < |tr| ==> RoundsAt(src, dir, tr, k))
    && (EndsInFailedHook(tr) || |Cases(tr)| == |tests|)
  }

  lemma {:induction false} RoundsHaveShape(src: Source, tests: seq<Test>, dir: string, tr: seq<Event>)
    requires Rounds(src, tests, dir, tr)
    ensures RoundsShape(src, tests, dir, tr)
    ensures tests != [] ==> tr != []
  {
    var n := RoundLength(src);
    if tests != [] && !BrokenRound(src, tests[0], dir, tr) {
      RoundsHaveShape(src, tests[1..], dir, tr[n..]);
      RoundShape(src, tests[0], dir, tr[..n]);
      ShapeCons(src, tests, dir, tr[..n], tr[n..]);
      assert tr == tr[..n] + tr[n..];
    } else if tests != [] {
      BrokenShape(src, tests, dir, tr);
    }
  }

  lemma RoundCases(src: Source, t: Test, dir: string, r: seq<Event>)
    requires |r| == RoundLength(src) && Opens(src, t, dir, r)
    requires src.afterEach.Some? ==> r[|r| - 1].phase == AfterEach
    ensures Cases(r) == [r[One(src.beforeEach)]]
  {
    var b := One(src.beforeEach);
    NoCases(r[..b]);
    NoCases(r[b + 1..]);
    OneCase(r[b]);
    hide *;
    assert r == r[..b] + [r[b]] + r[b + 1..];
    CasesConcat(r[..b], [r[b]]);
    CasesConcat(r[..b] + [r[b]], r[b + 1..]);
  }

  lemma OneCase(e: Event)
    requires e.phase.Case?
    ensures Cases([e]) == [e]
  {
  }

  lemma RoundShape(src: Source, t: Test, dir: string, r: seq<Event>)
    requires Round(src, t, dir, r)
    ensures Cases(r) == [r[One(src.beforeEach)]]
    ensures forall k :: 0 <= k < |r| ==> RoundCall(src, dir, r, k)
  {
    RoundCases(src, t, dir, r);
    hide Cases;
    forall k | 0 <= k < |r| ensures RoundCall(src, dir, r, k) {
      assert k < One(src.beforeEach) || k == One(src.beforeEach) || k == |r| - 1;
    }
  }

  /** A call of a complete round. */
  predicate RoundCall(src: Source, dir: string, r: seq<Event>, k: nat)
    requires k < |r|
  {
    && r[k].dir == dir && !r[k].outcome.InChild?
    && (r[k].phase.Case? || (IsEachHook(r[k].phase) && r[k].outcome.Passed?))
    && (r[k].phase.Case? ==> Framed(src, r, k))
  }

  lemma BrokenShape(src: Source, tests: seq<Test>, dir: string, r: seq<Event>)
    requires tests != [] && BrokenRound(src, tests[0], dir, r)
    ensures RoundsShape(src, tests, dir, r)
  {
    if |r| == RoundLength(src) && Opens(src, tests[0], dir, r) && src.afterEach.Some? {
      BrokenAfter(src, tests, dir, r);
    } else {
      BrokenAlone(src, tests, dir, r);
    }
  }

  lemma BrokenAfter(src: Source, tests: seq<Test>, dir: string, r: seq<Event>)
    requires tests != [] && |r| == RoundLength(src) && Opens(src, tests[0], dir, r) && src.afterEach.Some?
    requires Is(r[|r| - 1], AfterEach, src.afterEach.value, dir) && r[|r| - 1].outcome.Failed?
    ensures RoundsShape(src, tests, dir, r)
  {
    RoundCases(src, tests[0], dir, r);
    hide Cases;
    assert Enters(tests, Cases(r));
    forall k | 0 <= k < |r| ensures RoundsAt(src, dir, r, k) {
      BrokenAfterAt(src, tests[0], dir, r, k);
    }
    hide RoundsAt, Opens, Enters;
  }

  lemma BrokenAfterAt(src: Source, t: Test, dir: string, r: seq<Event>, k: nat)
    requires |r| == RoundLength(src) && Opens(src, t, dir, r) && src.afterEach.Some? && k < |r|
    requires Is(r[|r| - 1], AfterEach, src.afterEach.value, dir)
    ensures RoundsAt(src, dir, r, k)
  {
    assert k < One(src.beforeEach) || k == One(src.beforeEach) || k == |r| - 1;
  }

  lemma BrokenAlone(src: Source, tests: seq<Test>, dir: string, r: seq<Event>)
    requires tests != [] && src.beforeEach.Some? && |r| == 1
    requires Is(r[0], BeforeEach, src.beforeEach.value, dir) && r[0].outcome.Failed?
    ensures RoundsShape(src, tests, dir, r)
  {
    NoCases(r);
    hide Cases;
  }

  lemma ShapeCons(src: Source, tests: seq<Test>, dir: string, r: seq<Event>, rest: seq<Event>)
    requires tests != [] && Round(src, tests[0], dir, r) && RoundsShape(src, tests[1..], dir, rest)
    ensures RoundsShape(src, tests, dir, r + rest)
  {
    EntersCons(src, tests, dir, r, rest);
    hide Cases, Round, Enters, RoundsAt;
    forall k | 0 <= k < |r + rest| ensures RoundsAt(src, dir, r + rest, k) {
      ShapeAt(src, tests, dir, r, rest, k);
    }
  }

  lemma ShapeAt(src: Source, tests: seq<Test>, dir: string, r: seq<Event>, rest: seq<Event>, k: nat)
    requires tests != [] && Round(src, tests[0], dir, r) && k < |r + rest|
    requires forall i :: 0 <= i < |rest| ==> RoundsAt(src, dir, rest, i)
    ensures RoundsAt(src, dir, r + rest, k)
  {
    hide *;
    if k < |r| {
      RoundAt(src, tests[0], dir, r, rest, k);
    } else {
      assert RoundsAt(src, dir, rest, k - |r|);
      LaterAt(src, dir, r, rest, k - |r|);
    }
  }

  lemma RoundAt(src: Source, t: Test, dir: string, r: seq<Event>, rest: seq<Event>, k: nat)
    requires Round(src, t, dir, r) && k < |r|
    ensures RoundsAt(src, dir, r + rest, k)
  {
    RoundShape(src, t, dir, r);
    hide Round, Cases;
    assert RoundCall(src, dir, r, k);
    if r[k].phase.Case? {
      assert Framed(src, r, k);
    }
  }

  lemma LaterAt(src: Source, dir: string, r: seq<Event>, rest: seq<Event>, k: nat)
    requires k < |rest| && RoundsAt(src, dir, rest, k)
    ensures RoundsAt(src, dir, r + rest, |r| + k)
  {
  }

  lemma EntersCons(src: Source, tests: seq<Test>, dir: string, r: seq<Event>, rest: seq<Event>)
    requires tests != [] && Round(src, tests[0], dir, r) && Enters(tests[1..], Cases(rest))
    ensures Enters(tests, Cases(r + rest)) && |Cases(r + rest)| == 1 + |Cases(rest)|
  {
    RoundCases(src, tests[0], dir, r);
    Concat(r, rest);
    var c := r[One(src.beforeEach)];
    assert c.phase == Case(tests[0].name) && c.func == tests[0].func;
    hide *;
    EntersStep(tests, c, Cases(rest));
  }

  lemma EntersStep(tests: seq<Test>, c: Event, cases: seq<Event>)
    requires tests != [] && c.phase == Case(tests[0].name) && c.func == tests[0].func
    requires Enters(tests[1..], cases)
    ensures Enters(tests, [c] + cases)
  {
    forall i | 0 <= i < |cases| + 1
      ensures ([c] + cases)[i].phase == Case(tests[i].name) && ([c] + cases)[i].func == tests[i].func
    {
      if i > 0 { assert cases[i - 1].phase == Case(tests[1..][i - 1].name); }
    }
  }

  /** The three parts of a file's calls. */
  lemma FileParts(src: Source, dir: string, tr: seq<Event>)
    returns (pre: seq<Event>, mid: seq<Event>, post: seq<Event>)
    requires FileTrace(src, dir, tr)
    requires src.beforeAll.Some? ==> tr[0].outcome.Passed?
    ensures tr == pre + mid + post && Rounds(src, src.tests, dir, mid)
    ensures |pre| == One(src.beforeAll) && |post| == One(src.afterAll)
    ensures src.beforeAll.Some? ==> Is(pre[0], BeforeAll, src.beforeAll.value, dir) && pre[0].outcome.Passed?
    ensures src.afterAll.Some? ==> Is(post[0], AfterAll, src.afterAll.value, dir)
  {
    hide Rounds;
    pre := tr[..One(src.beforeAll)];
    var body := tr[One(src.beforeAll)..];
    assert src.beforeAll.None? ==> body == tr;
    mid, post := body[..|body| - One(src.afterAll)], body[|body| - One(src.afterAll)..];
    assert src.afterAll.None? ==> mid == body;
  }

  predicate BeforeAllFailed(src: Source, tr: seq<Event>) {
    src.beforeAll.Some? && tr != [] && !tr[0].outcome.Passed?
  }

  /** The call at position `k` of a file's calls: before_all is first, after_all is last,
      a test call stands between its hooks, and after a failed each-hook only after_all is called. */
  ghost predicate FileAt(src: Source, dir: string, tr: seq<Event>, k: nat)
    requires k < |tr|
  {
    && tr[k].dir == dir && !tr[k].outcome.InChild?
    && (tr[k].phase == BeforeAll <==> k == 0 && src.beforeAll.Some?)
    && (tr[k].phase == AfterAll ==> k == |tr| - 1 && src.afterAll.Some?)
    && (tr[k].phase.Case? ==> Framed(src, tr, k))
    && (IsEachHook(tr[k].phase) && tr[k].outcome.Failed? ==> forall j :: k < j < |tr| ==> tr[j].phase == AfterAll)
  }

  /** A failed before_all is a file's only call; otherwise the test calls are the first
      tests in order, after_all (when defined) comes last, and a test that is not
      entered is explained by a failed hook. */
  ghost predicate FileShape(src: Source, dir: string, tr: seq<Event>) {
    && Enters(src.tests, Cases(tr))
    && (forall k :: 0 <= k < |tr| ==> FileAt(src, dir, tr, k))
    && (BeforeAllFailed(src, tr) ==> |tr| == 1)
    && (src.afterAll.Some? && !BeforeAllFailed(src, tr) ==> tr != [] && tr[|tr| - 1].phase == AfterAll)
    && (|Cases(tr)| < |src.tests| ==>
          exists k :: 0 <= k < |tr| && tr[k].outcome.Failed? && (tr[k].phase == BeforeAll || IsEachHook(tr[k].phase)))
  }

  lemma FileHasShape(src: Source, dir: string, tr: seq<Event>)
    requires FileTrace(src, dir, tr)
    ensures FileShape(src, dir, tr)
  {
    if BeforeAllFailed(src, tr) {
      assert tr[1..] == [] && Cases(tr) == [];
      assert tr[0].phase == BeforeAll && tr[0].outcome.Failed? && FileAt(src, dir, tr, 0);
    } else {
      hide Rounds, FileTrace;
      assert src.beforeAll.Some? ==> tr[0].outcome.Passed?;
      var pre, mid, post := FileParts(src, dir, tr);
      RoundsHaveShape(src, src.tests, dir, mid);
      PartsCases(pre, mid, post);
      PartsShape(src, dir, pre, mid, post);
    }
  }

  lemma PartsCases(pre: seq<Event>, mid: seq<Event>, post: seq<Event>)
    requires |pre| <= 1 && |post| <= 1
    requires forall k :: 0 <= k < |pre| ==> !pre[k].phase.Case?
    requires forall k :: 0 <= k < |post| ==> !post[k].phase.Case?
    ensures Cases(pre + mid + post) == Cases(mid)
    ensures Passes(pre + mid + post) == Passes(mid)
  {
    hide *;
    Concat(pre, mid);
    Concat(pre + mid, post);
    NoCases(pre);
    NoCases(post);
  }

  lemma {:induction false} NoCases(tr: seq<Event>)
    requires forall k :: 0 <= k < |tr| ==> !tr[k].phase.Case?
    ensures Cases(tr) == [] && Passes(tr) == 0
  {
    if tr != [] {
      NoCases(tr[1..]);
    }
  }

  lemma PartsShape(src: Source, dir: string, pre: seq<Event>, mid: seq<Event>, post: seq<Event>)
    requires RoundsShape(src, src.tests, dir, mid) && Cases(pre + mid + post) == Cases(mid)
    requires |pre| == One(src.beforeAll) && |post| == One(src.afterAll)
    requires src.beforeAll.Some? ==> Is(pre[0], BeforeAll, src.beforeAll.value, dir) && pre[0].outcome.Passed?
    requires src.afterAll.Some? ==> Is(post[0], AfterAll, src.afterAll.value, dir)
    ensures FileShape(src, dir, pre + mid + post)
  {
    hide Cases, RoundsAt, FileAt, Enters;
    var tr, n := pre + mid + post, |pre|;
    PartsIndex(pre, mid, post);
    forall k | 0 <= k < |tr| ensures FileAt(src, dir, tr, k) {
      if n <= k < n + |mid| {
        assert RoundsAt(src, dir, mid, k - n);
      }
      PartAt(src, dir, pre, mid, post, k);
    }
    if |Cases(tr)| < |src.tests| {
      var last := n + |mid| - 1;
      assert tr[last].outcome.Failed? && IsEachHook(tr[last].phase);
    }
  }

  lemma PartAt(src: Source, dir: string, pre: seq<Event>, mid: seq<Event>, post: seq<Event>, k: nat)
    requires k < |pre + mid + post|
    requires |pre| == One(src.beforeAll) && |post| == One(src.afterAll)
    requires src.beforeAll.Some? ==> Is(pre[0], BeforeAll, src.beforeAll.value, dir) && pre[0].outcome.Passed?
    requires src.afterAll.Some? ==> Is(post[0], AfterAll, src.afterAll.value, dir)
    requires |pre| <= k < |pre| + |mid| ==> RoundsAt(src, dir, mid, k - |pre|)
    ensures FileAt(src, dir, pre + mid + post, k)
  {
    PartsIndex(pre, mid, post);
  }

  lemma PartsIndex(pre: seq<Event>, mid: seq<Event>, post: seq<Event>)
    ensures var tr, n := pre + mid + post, |pre|;
            && (forall k :: 0 <= k < n ==> tr[k] == pre[k])
            && (forall k :: n <= k < n + |mid| ==> tr[k] == mid[k - n])
            && (forall k :: n + |mid| <= k < |tr| ==> tr[k] == post[k - n - |mid|])
  {
  }

  // --- whose functions are called ---

  /** The function called is the one the file has for that purpose. */
  predicate CallsOwn(src: Source, e: Event) {
    match e.phase
    case BeforeAll => src.beforeAll == Some(e.func)
    case BeforeEach => src.beforeEach == Some(e.func)
    case AfterEach => src.afterEach == Some(e.func)
    case AfterAll => src.afterAll == Some(e.func)
    case Case(name) => exists t :: t in src.tests && t.name == name && t.func == e.func
  }

  lemma {:induction false} RoundsCallOwn(src: Source, tests: seq<Test>, dir: string, tr: seq<Event>, k: nat)
    requires Rounds(src, tests, dir, tr) && k < |tr| && forall t :: t in tests ==> t in src.tests
    ensures CallsOwn(src, tr[k])
  {
    var n := RoundLength(src);
    assert tests[0] in src.tests;
    if BrokenRound(src, tests[0], dir, tr) {
      assert k == 0 || k == One(src.beforeEach) || k == |tr| - 1;
    } else if k < n {
      var r := tr[..n];
      assert r[k] == tr[k] && (k == 0 || k == One(src.beforeEach) || k == |r| - 1);
    } else {
      RoundsCallOwn(src, tests[1..], dir, tr[n..], k - n);
    }
  }

  lemma FileCallsOwn(src: Source, dir: string, tr: seq<Event>, k: nat)
    requires FileTrace(src, dir, tr) && k < |tr|
    ensures CallsOwn(src, tr[k])
  {
    if BeforeAllFailed(src, tr) {
      hide Body;
    } else {
      assert src.beforeAll.Some? ==> tr[0].outcome.Passed? by { hide Body; }
      hide *;
      var pre, mid, post := FileParts(src, dir, tr);
      PartsCallOwn(src, dir, pre, mid, post, k);
    }
  }

  lemma PartsCallOwn(src: Source, dir: string, pre: seq<Event>, mid: seq<Event>, post: seq<Event>, k: nat)
    requires k < |pre + mid + post| && Rounds(src, src.tests, dir, mid)
    requires |pre| == One(src.beforeAll) && |post| == One(src.afterAll)
    requires src.beforeAll.Some? ==> Is(pre[0], BeforeAll, src.beforeAll.value, dir)
    requires src.afterAll.Some? ==> Is(post[0], AfterAll, src.afterAll.value, dir)
    ensures CallsOwn(src, (pre + mid + post)[k])
  {
    hide Rounds;
    PartsIndex(pre, mid, post);
    if |pre| <= k < |pre| + |mid| {
      RoundsCallOwn(src, src.tests, dir, mid, k - |pre|);
    }
  }

  // --- accounting ---

  predicate AllPassed(tr: seq<Event>) {
    forall k :: 0 <= k < |tr| ==> tr[k].outcome.Passed?
  }

  lemma {:induction false} NoFailures(tr: seq<Event>)
    requires forall k :: 0 <= k < |tr| ==> !tr[k].outcome.InChild?
    ensures Failures(tr) == [] <==> AllPassed(tr)
  {
    if tr != [] {
      NoFailures(tr[1..]);
      assert AllPassed(tr) <==> tr[0].outcome.Passed? && AllPassed(tr[1..]);
    }
  }

  /** Number of failed hooks among the calls. */
  function HookFailures(tr: seq<Event>): nat {
    if tr == [] then 0
    else (if !tr[0].phase.Case? && tr[0].outcome.Failed? then 1 else 0) + HookFailures(tr[1..])
  }

  /** Every call of a test either passed or is on the error list. */
  lemma {:induction false} CallsAddUp(tr: seq<Event>)
    requires forall k :: 0 <= k < |tr| ==> !tr[k].outcome.InChild?
    ensures |Failures(tr)| + Passes(tr) == |Cases(tr)| + HookFailures(tr)
  {
    if tr != [] {
      CallsAddUp(tr[1..]);
    }
  }

  lemma {:induction false} HookFailuresConcat(a: seq<Event>, b: seq<Event>)
    ensures HookFailures(a + b) == HookFailures(a) + HookFailures(b)
  {
    if a == [] {
      assert a + b == b;
    } else {
      assert (a + b)[1..] == a[1..] + b;
      HookFailuresConcat(a[1..], b);
    }
  }

  lemma {:induction false} HookFailuresAtEnd(tr: seq<Event>)
    requires forall k :: 0 <= k < |tr| - 1 ==> tr[k].phase.Case? || tr[k].outcome.Passed?
    ensures HookFailures(tr) <= 1
  {
    if tr != [] {
      HookFailuresAtEnd(tr[1..]);
      assert |tr| == 1 ==> tr[1..] == [];
    }
  }

  lemma {:induction false} HookFailuresNone(tr: seq<Event>)
    requires AllPassed(tr)
    ensures HookFailures(tr) == 0
  {
    if tr != [] {
      HookFailuresNone(tr[1..]);
    }
  }

  /** The numbers reported for a file: the error list is at most two longer than the
      number of tests that did not pass, and it is empty only if all of them passed. */
  lemma FileAccounts(src: Source, dir: string, tr: seq<Event>)
    requires FileTrace(src, dir, tr)
    ensures Passes(tr) <= |src.tests|
    ensures |Failures(tr)| <= |src.tests| - Passes(tr) + 2
    ensures Failures(tr) == [] <==> AllPassed(tr)
    ensures Failures(tr) == [] ==> Passes(tr) == |src.tests| == |Cases(tr)|
  {
    FileHasShape(src, dir, tr);
    forall k | 0 <= k < |tr| ensures !tr[k].outcome.InChild? {
      assert FileAt(src, dir, tr, k);
    }
    hide *;
    NoFailures(tr);
    CallsAddUp(tr);
    FileHookFailures(src, dir, tr);
    PassesAreCases(tr);
  }

  lemma {:induction false} PassesAreCases(tr: seq<Event>)
    ensures Passes(tr) <= |Cases(tr)|
    ensures AllPassed(tr) ==> Passes(tr) == |Cases(tr)|
  {
    if tr != [] {
      PassesAreCases(tr[1..]);
      assert AllPassed(tr) ==> AllPassed(tr[1..]);
    }
  }

  lemma FileHookFailures(src: Source, dir: string, tr: seq<Event>)
    requires FileTrace(src, dir, tr)
    ensures HookFailures(tr) <= 2
    ensures |Cases(tr)| < |src.tests| ==> !AllPassed(tr)
  {
    FileHasShape(src, dir, tr);
    if BeforeAllFailed(src, tr) {
      HookFailuresAtEnd(tr);
    } else {
      hide Rounds;
      var pre, mid, post := FileParts(src, dir, tr);
      RoundsHaveShape(src, src.tests, dir, mid);
      HookFailuresConcat(pre, mid);
      HookFailuresConcat(pre + mid, post);
      forall k | 0 <= k < |mid| - 1 ensures mid[k].phase.Case? || mid[k].outcome.Passed? {
        assert RoundsAt(src, dir, mid, k);
      }
      hide RoundsShape, RoundsAt, FileShape, FileAt;
      HookFailuresAtEnd(mid);
      HookFailuresAtEnd(post);
      HookFailuresNone(pre);
    }
  }

  // --- the grammar leaves no choice but the outcomes ---

  predicate Agree(a: seq<Event>, b: seq<Event>) {
    forall k :: 0 <= k < |a| && k < |b| ==> a[k].outcome == b[k].outcome
  }

  lemma {:induction false} RoundsDetermined(src: Source, tests: seq<Test>, dir: string, a: seq<Event>, b: seq<Event>)
    requires Rounds(src, tests, dir, a) && Rounds(src, tests, dir, b) && Agree(a, b)
    ensures a == b
  {
    var n := RoundLength(src);
    if tests != [] {
      if BrokenRound(src, tests[0], dir, a) || BrokenRound(src, tests[0], dir, b) {
        BrokenDetermined(src, tests, dir, a, b);
        BrokenDetermined(src, tests, dir, b, a);
      } else {
        RoundDetermined(src, tests[0], dir, a[..n], b[..n]);
        RoundsDetermined(src, tests[1..], dir, a[n..], b[n..]);
        assert a == a[..n] + a[n..] && b == b[..n] + b[n..];
      }
    }
  }

  lemma RoundDetermined(src: Source, t: Test, dir: string, a: seq<Event>, b: seq<Event>)
    requires Round(src, t, dir, a) && Round(src, t, dir, b) && Agree(a, b)
    ensures a == b
  {
  }

  lemma BrokenDetermined(src: Source, tests: seq<Test>, dir: string, a: seq<Event>, b: seq<Event>)
    requires tests != [] && BrokenRound(src, tests[0], dir, a) && Rounds(src, tests, dir, b) && Agree(a, b)
    ensures a == b
  {
    hide Rounds;
    var n := RoundLength(src);
    BrokenOrRound(src, tests, dir, b);
    assert |a| <= n;
    assert n <= |b| ==> b[..n][|a| - 1] == b[|a| - 1];
    assert |a| <= |b| ==> a[|a| - 1].outcome == b[|a| - 1].outcome;
  }

  lemma BrokenOrRound(src: Source, tests: seq<Test>, dir: string, tr: seq<Event>)
    requires tests != [] && Rounds(src, tests, dir, tr)
    ensures BrokenRound(src, tests[0], dir, tr) ||
            (RoundLength(src) <= |tr| && Round(src, tests[0], dir, tr[..RoundLength(src)]))
  {
  }

  /** Two complete traces of a file with the same outcomes are the same trace: what is
      called, where, and in which order follows from the outcomes of the earlier calls. */
  lemma FileDetermined(src: Source, dir: string, a: seq<Event>, b: seq<Event>)
    requires FileTrace(src, dir, a) && FileTrace(src, dir, b) && Agree(a, b)
    ensures a == b
  {
    if src.beforeAll.Some? {
      assert a[0] == b[0];
      if a[0].outcome.Passed? {
        BodyDetermined(src, dir, a[1..], b[1..]);
        assert a == [a[0]] + a[1..] && b == [b[0]] + b[1..];
      }
    } else {
      BodyDetermined(src, dir, a, b);
    }
  }

  lemma BodyDetermined(src: Source, dir: string, a: seq<Event>, b: seq<Event>)
    requires Body(src, dir, a) && Body(src, dir, b) && Agree(a, b)
    ensures a == b
  {
    if src.afterAll.None? {
      RoundsDetermined(src, src.tests, dir, a, b);
    } else {
      var c, d := a[..|a| - 1], b[..|b| - 1];
      RoundsDetermined(src, src.tests, dir, c, d);
      assert a == c + [a[|a| - 1]] && b == d + [b[|b| - 1]];
      assert a[|c|].outcome == b[|c|].outcome;
    }
  }
}
