/** lib/getopts.lua: the command line options. */
module GetOpts {
  import opened Prelude
  import Dedup
  import Positions

  datatype Error = NoNames | GivenTwice

  datatype Options = Options(help: bool, coverage: bool, checkall: bool, testcase: seq<string>, args: seq<string>)

  /** `find(s, c, from, true)` */
  function IndexFrom(c: char, s: string, from: nat): (r: Option<nat>)
    requires from <= |s|
    ensures r.Some? ==> from <= r.value < |s| && s[r.value] == c
    decreases |s| - from
  {
    if from == |s| then None
    else if s[from] == c then Some(from)
    else IndexFrom(c, s, from + 1)
  }

  /** It is the first one. */
  lemma {:induction false} IndexIsFirst(c: char, s: string, from: nat)
    requires from <= |s|
    ensures var end := if IndexFrom(c, s, from).Some? then IndexFrom(c, s, from).value else |s|;
            c !in s[from..end]
    decreases |s| - from
  {
    if from < |s| && s[from] != c {
      IndexIsFirst(c, s, from + 1);
      var end := if IndexFrom(c, s, from).Some? then IndexFrom(c, s, from).value else |s|;
      assert s[from..end] == [s[from]] + s[from + 1..end];
    }
  }

  // --- comma-separated names ---

  /** The parts of a text between its commas. */
  function Segments(s: string): (r: seq<string>)
    ensures |r| > 0
    decreases |s|
  {
    var comma := IndexFrom(',', s, 0);
    if comma.None? then [s] else [s[..comma.value]] + Segments(s[comma.value + 1..])
  }

  function Join(names: seq<string>): string
    requires names != []
  {
    if |names| == 1 then names[0] else names[0] + "," + Join(names[1..])
  }

  function Same(): string -> string {
    (s: string) => s
  }

  /** The value of `--testcase`: the distinct names between the commas, or an error. */
  function ParseNames(value: string): Result<seq<string>, Error> {
    var segments := Segments(value);
    if "" in segments then Failure(NoNames) else Success(Dedup.FirstOf(Same(), segments))
  }

  /** `parse_testcase` */
  method ParseTestcase(value: string) returns (r: Result<seq<string>, Error>)
    ensures r == ParseNames(value)
  {
    hide Segments, IndexFrom, Dedup.FirstOf;
    if value == "" {
      EmptyValue();
      return Failure(NoNames);
    }
    var names: seq<string>, seen: set<string> := [], {};
    var offset := 0;
    ghost var done: seq<string> := [];
    assert value[0..] == value && [] + Segments(value) == Segments(value);
    NothingKept();
    while true
      invariant offset <= |value| && done + Segments(value[offset..]) == Segments(value)
      invariant "" !in done && Kept(done, names, seen)
      decreases |value| - offset
    {
      var comma := IndexFrom(',', value, offset);
      var name := if comma.Some? then value[offset..comma.value] else value[offset..];
      NextSegment(value, offset, comma);
      if name == "" {
        EmptySegment(value, done, offset);
        return Failure(NoNames);
      }
      KeepNext(done, names, seen, name);
      assert seen + {name} == if name in seen then seen else seen + {name};
      assert names + [] == names;
      if name !in seen {
        seen := seen + {name};
        names := names + [name];
      }
      if comma.None? {
        assert done + [name] == Segments(value);
        AllKept(done + [name], names, seen);
        return Success(names);
      }
      assert done + ([name] + Segments(value[comma.value + 1..])) ==
             (done + [name]) + Segments(value[comma.value + 1..]);
      done := done + [name];
      offset := comma.value + 1;
    }
  }

  ghost predicate Kept(done: seq<string>, names: seq<string>, seen: set<string>) {
    && names == Dedup.FirstOf(Same(), done)
    && forall n :: n in seen <==> n in done
  }

  lemma NothingKept()
    ensures Kept([], [], {})
  {
  }

  lemma KeepNext(done: seq<string>, names: seq<string>, seen: set<string>, name: string)
    requires Kept(done, names, seen)
    ensures Kept(done + [name], names + (if name in seen then [] else [name]), seen + {name})
  {
    NamesNext(done, name);
    hide Dedup.FirstOf, Same;
    assert name in seen <==> name in done;
    forall n ensures n in seen + {name} <==> n in done + [name] {
      assert n in seen <==> n in done;
    }
  }

  lemma NamesNext(done: seq<string>, name: string)
    ensures Dedup.FirstOf(Same(), done + [name]) ==
            Dedup.FirstOf(Same(), done) + if name in done then [] else [name]
  {
    Dedup.FirstOfMore(Same(), done, name);
    KeysAreItems(done);
    assert Same()(name) == name;
    hide Dedup.FirstOf;
  }

  lemma KeysAreItems(xs: seq<string>)
    ensures Dedup.Keys(Same(), xs) == xs
  {
  }

  lemma AllKept(done: seq<string>, names: seq<string>, seen: set<string>)
    requires Kept(done, names, seen)
    ensures names == Dedup.FirstOf(Same(), done)
  {
  }

  lemma EmptyValue()
    ensures "" in Segments("")
  {
    assert Segments("")[0] == "";
  }

  /** The segment at `offset`, and what the rest of the value still holds. */
  lemma NextSegment(value: string, offset: nat, comma: Option<nat>)
    requires offset <= |value| && comma == IndexFrom(',', value, offset)
    ensures comma.None? ==> Segments(value[offset..]) == [value[offset..]]
    ensures comma.Some? ==>
              Segments(value[offset..]) == [value[offset..comma.value]] + Segments(value[comma.value + 1..])
  {
    hide *;
    IndexShift(',', value, offset, 0);
    if comma.Some? {
      TailSlices(value, offset, comma.value);
      SplitAtComma(value[offset..], comma.value - offset);
    } else {
      NoSplit(value[offset..]);
    }
  }

  lemma TailSlices(s: string, offset: nat, k: nat)
    requires offset <= k < |s|
    ensures s[offset..][..k - offset] == s[offset..k]
    ensures s[offset..][k - offset + 1..] == s[k + 1..]
  {
  }

  lemma SplitAtComma(s: string, k: nat)
    requires IndexFrom(',', s, 0) == Some(k)
    ensures k < |s| && Segments(s) == [s[..k]] + Segments(s[k + 1..])
  {
    hide IndexFrom;
  }

  lemma NoSplit(s: string)
    requires IndexFrom(',', s, 0) == None
    ensures Segments(s) == [s]
  {
    hide IndexFrom;
  }

  lemma {:induction false} IndexShift(c: char, s: string, offset: nat, from: nat)
    requires offset + from <= |s|
    ensures IndexFrom(c, s, offset + from) ==
            match IndexFrom(c, s[offset..], from)
            case None => None
            case Some(i) => Some(offset + i)
    decreases |s| - offset - from
  {
    if offset + from < |s| {
      IndexShift(c, s, offset, from + 1);
    }
  }

  lemma EmptySegment(value: string, done: seq<string>, offset: nat)
    requires offset <= |value| && done + Segments(value[offset..]) == Segments(value)
    requires Segments(value[offset..])[0] == ""
    ensures "" in Segments(value)
  {
    assert Segments(value)[|done|] == "";
  }

  // --- the round trips ---

  predicate IsName(s: string) {
    s != "" && ',' !in s
  }

  lemma {:induction false} SegmentsOfJoin(names: seq<string>)
    requires names != [] && forall n :: n in names ==> ',' !in n
    ensures Segments(Join(names)) == names
  {
    if |names| == 1 {
      assert ',' !in names[0];
      NoComma(names[0], "", 0);
      assert names[0] + "" == names[0];
      assert names == [names[0]];
    } else {
      var s := names[0] + "," + Join(names[1..]);
      assert names[0] in names;
      CommaAt(names[0], Join(names[1..]), 0);
      SegmentsOfJoin(names[1..]);
      assert s[..|names[0]|] == names[0] && s[|names[0]| + 1..] == Join(names[1..]);
      assert names == [names[0]] + names[1..];
    }
  }

  lemma {:induction false} CommaAt(a: string, b: string, from: nat)
    requires ',' !in a && from <= |a|
    ensures IndexFrom(',', a + "," + b, from) == Some(|a|)
    decreases |a| - from
  {
    var s := a + "," + b;
    assert s[|a|] == ',';
    if from < |a| {
      assert s[from] == a[from];
      CommaAt(a, b, from + 1);
    }
  }

  lemma {:induction false} NoComma(a: string, b: string, from: nat)
    requires ',' !in a && b == "" && from <= |a|
    ensures IndexFrom(',', a + b, from) == None
    decreases |a| - from
  {
    assert a + b == a;
    if from < |a| {
      NoComma(a, b, from + 1);
    }
  }

  lemma {:induction false} JoinOfSegments(s: string)
    ensures Join(Segments(s)) == s
    ensures forall n :: n in Segments(s) ==> ',' !in n
    decreases |s|
  {
    var comma := IndexFrom(',', s, 0);
    IndexIsFirst(',', s, 0);
    if comma.Some? {
      var k := comma.value;
      JoinOfSegments(s[k + 1..]);
      assert s[0..k] == s[..k];
      assert s == s[..k] + "," + s[k + 1..];
    } else {
      assert s[0..|s|] == s;
    }
  }

  /** Parsing inverts joining: for distinct names without commas, the list comes back. */
  lemma ParseJoin(names: seq<string>)
    requires names != [] && forall n :: n in names ==> IsName(n)
    requires forall i, j :: 0 <= i < j < |names| ==> names[i] != names[j]
    ensures ParseNames(Join(names)) == Success(names)
  {
    SegmentsOfJoin(names);
    Dedup.DistinctKept(Same(), names);
  }

  /** What a successful parse returns: names, each once, and parsing it again gives the same. */
  lemma ParseJoinParse(value: string)
    requires ParseNames(value).Success?
    ensures var names := ParseNames(value).value;
            && names != [] && (forall n :: n in names ==> IsName(n))
            && (forall n :: n in names <==> n in Segments(value))
            && (forall i, j :: 0 <= i < j < |names| ==> names[i] != names[j])
            && ParseNames(Join(names)) == Success(names)
  {
    var segments := Segments(value);
    JoinOfSegments(value);
    hide Segments;
    var names := Dedup.FirstOf(Same(), segments);
    Dedup.EachKeyOnce(Same(), segments);
    KeysAreItems(segments);
    KeysAreItems(names);
    assert segments[0] in names;
    hide Dedup.FirstOf;
    forall i, j | 0 <= i < j < |names| ensures names[i] != names[j] {
      assert Same()(names[i]) != Same()(names[j]);
    }
    ParseJoin(names);
  }

  /** Empty, a comma at either end, or two commas in a row. */
  predicate HasEmptyPart(value: string) {
    value == "" || value[0] == ',' || value[|value| - 1] == ',' ||
    exists i :: 0 <= i < |value| - 1 && value[i] == ',' && value[i + 1] == ','
  }

  /** Parsing fails exactly when some part between commas is empty. */
  lemma ParseFailsIff(value: string)
    ensures ParseNames(value).Failure? <==> HasEmptyPart(value)
  {
    EmptySegmentIff(value);
  }

  lemma {:induction false} EmptySegmentIff(s: string)
    ensures "" in Segments(s) <==> HasEmptyPart(s)
    decreases |s|
  {
    var comma := IndexFrom(',', s, 0);
    IndexIsFirst(',', s, 0);
    if comma.Some? {
      var k := comma.value;
      assert s[0..k] == s[..k];
      EmptySegmentIff(s[k + 1..]);
      assert "" in Segments(s) <==> k == 0 || "" in Segments(s[k + 1..]);
      PartsAfterComma(s, k);
    } else {
      assert s[0..|s|] == s;
      assert Segments(s)[0] == s;
    }
  }

  lemma PartsAfterComma(s: string, k: nat)
    requires k < |s| && s[k] == ',' && ',' !in s[..k]
    ensures HasEmptyPart(s) <==> k == 0 || HasEmptyPart(s[k + 1..])
  {
    var rest := s[k + 1..];
    assert forall i :: 0 <= i < |rest| ==> rest[i] == s[k + 1 + i];
    assert forall i :: 0 <= i < k ==> s[i] == s[..k][i];
    if i :| 0 <= i < |s| - 1 && s[i] == ',' && s[i + 1] == ',' {
      if i > k {
        assert rest[i - k - 1] == ',' && rest[i - k] == ',';
      }
    }
    if i :| 0 <= i < |rest| - 1 && rest[i] == ',' && rest[i + 1] == ',' {
      assert s[k + 1 + i] == ',' && s[k + 2 + i] == ',';
    }
  }

  // --- getopts ---

  predicate IsOption(arg: string) {
    arg != "" && arg[0] == '-'
  }

  /** The text before the first `=`. */
  function Key(arg: string): string {
    match IndexFrom('=', arg, 0)
    case None => arg
    case Some(k) => arg[..k]
  }

  /** The text after the first `=`; empty when there is none. */
  function Value(arg: string): string {
    match IndexFrom('=', arg, 0)
    case None => ""
    case Some(k) => arg[k + 1..]
  }

  /** The arguments that are no options, in order. */
  function Positional(args: seq<string>): seq<string> {
    if args == [] then []
    else
      var last := args[|args| - 1];
      Positional(args[..|args| - 1]) + if IsOption(last) then [] else [last]
  }

  /** The values given to the option `key`, in order. */
  function ValuesOf(key: string, args: seq<string>): seq<string> {
    if args == [] then []
    else
      var last := args[|args| - 1];
      ValuesOf(key, args[..|args| - 1]) + if IsOption(last) && Key(last) == key then [Value(last)] else []
  }

  /** Some argument is the option `key`, with or without a value. */
  predicate Given(key: string, args: seq<string>) {
    exists i :: 0 <= i < |args| && IsOption(args[i]) && Key(args[i]) == key
  }

  /** What a command line stands for, whatever the order of its arguments: a
      malformed first list of names is reported before a second list is. */
  function Meaning(args: seq<string>): Result<Options, Error> {
    var lists := ValuesOf("--testcase", args);
    var names := if lists == [] then Success([]) else ParseNames(lists[0]);
    if names.Failure? then Failure(names.error)
    else if |lists| > 1 then Failure(GivenTwice)
    else Success(Options(Given("--help", args), Given("--coverage", args), Given("--checkall", args),
                         names.value, Positional(args)))
  }

  /** `getopts` */
  method GetOptions(args: seq<string>) returns (r: Result<Options, Error>)
    ensures r == Meaning(args)
  {
    hide *;
    var opts := Options(false, false, false, [], []);
    var hasTestcase := false;
    NothingGiven();
    assert args[..|args|] == args;
    for i := 0 to |args|
      invariant Meaning(args[..i]) == Success(opts)
      invariant hasTestcase <==> ValuesOf("--testcase", args[..i]) != []
    {
      var s := args[i];
      assert args[..i + 1] == args[..i] + [s];
      OptionIs(s);
      if IsOption(s) {
        OptionNext(args[..i], s, opts);
      } else {
        PositionalNext(args[..i], s, opts);
      }
      if s != "" && s[0] == '-' {
        var k, v := Key(s), Value(s);
        if k == "--help" {
          opts := opts.(help := true);
        } else if k == "--coverage" {
          opts := opts.(coverage := true);
        } else if k == "--checkall" {
          opts := opts.(checkall := true);
        } else if k == "--testcase" {
          if hasTestcase {
            FailsAlready(args, i + 1);
            return Failure(GivenTwice);
          }
          hasTestcase := true;
          var names := ParseTestcase(v);
          if names.Failure? {
            FailsAlready(args, i + 1);
            return Failure(names.error);
          }
          opts := opts.(testcase := names.value);
        }
      } else {
        opts := opts.(args := opts.args + [s]);
      }
    }
    return Success(opts);
  }

  lemma OptionIs(s: string)
    ensures IsOption(s) <==> s != "" && s[0] == '-'
  {
  }

  /** What one more option changes. */
  lemma OptionNext(args: seq<string>, s: string, opts: Options)
    requires Meaning(args) == Success(opts) && IsOption(s)
    ensures Key(s) == "--help" ==> Meaning(args + [s]) == Success(opts.(help := true))
    ensures Key(s) == "--coverage" ==> Meaning(args + [s]) == Success(opts.(coverage := true))
    ensures Key(s) == "--checkall" ==> Meaning(args + [s]) == Success(opts.(checkall := true))
    ensures Key(s) == "--testcase" ==>
              && ValuesOf("--testcase", args + [s]) != []
              && Meaning(args + [s]) == if ValuesOf("--testcase", args) != [] then Failure(GivenTwice)
                                        else match ParseNames(Value(s))
                                             case Failure(e) => Failure(e)
                                             case Success(names) => Success(opts.(testcase := names))
    ensures Key(s) != "--testcase" ==> ValuesOf("--testcase", args + [s]) == ValuesOf("--testcase", args)
    ensures Key(s) !in {"--help", "--coverage", "--checkall", "--testcase"} ==> Meaning(args + [s]) == Success(opts)
  {
    NextArg(args, s);
    hide IsOption, Key, Value, ValuesOf, Positional, ParseNames, Given;
  }

  lemma PositionalNext(args: seq<string>, s: string, opts: Options)
    requires Meaning(args) == Success(opts) && !IsOption(s)
    ensures Meaning(args + [s]) == Success(opts.(args := opts.args + [s]))
    ensures ValuesOf("--testcase", args + [s]) == ValuesOf("--testcase", args)
  {
    NextArg(args, s);
    hide IsOption, Key, Value, ValuesOf, Positional, ParseNames, Given;
  }

  // --- the command line as text ---

  /** The argument is the option with this value: `key=value`, or `key` alone for no value. */
  ghost predicate Says(arg: string, key: string, value: string) {
    arg == key + "=" + value || (arg == key && value == "")
  }

  lemma SaysIff(arg: string, key: string, value: string)
    requires key != "" && key[0] == '-' && '=' !in key
    ensures Says(arg, key, value) <==> IsOption(arg) && Key(arg) == key && Value(arg) == value
  {
    IndexIsFirst('=', arg, 0);
    var k := IndexFrom('=', arg, 0);
    if k.Some? {
      assert arg[0..k.value] == arg[..k.value] && arg == arg[..k.value] + "=" + arg[k.value + 1..];
    } else {
      assert arg[0..|arg|] == arg;
    }
    if arg == key + "=" + value {
      EqualsAt(key, value, 0);
      assert arg[..|key|] == key && arg[|key| + 1..] == value;
    }
    hide IndexFrom;
  }

  lemma {:induction false} EqualsAt(a: string, b: string, from: nat)
    requires '=' !in a && from <= |a|
    ensures IndexFrom('=', a + "=" + b, from) == Some(|a|)
    decreases |a| - from
  {
    var s := a + "=" + b;
    assert s[|a|] == '=';
    if from < |a| {
      assert s[from] == a[from];
      EqualsAt(a, b, from + 1);
    }
  }

  /** Some argument is the option, with whatever value. */
  ghost predicate IsSaid(args: seq<string>, key: string) {
    exists i, v :: 0 <= i < |args| && Says(args[i], key, v)
  }

  /** Argument `i` is the first to say the option. */
  ghost predicate IsFirst(args: seq<string>, key: string, i: nat, value: string) {
    i < |args| && Says(args[i], key, value) && !IsSaid(args[..i], key)
  }

  lemma GivenIff(key: string, args: seq<string>)
    requires key != "" && key[0] == '-' && '=' !in key
    ensures Given(key, args) <==> IsSaid(args, key)
  {
    if Given(key, args) {
      var i :| 0 <= i < |args| && IsOption(args[i]) && Key(args[i]) == key;
      SaysIff(args[i], key, Value(args[i]));
    }
    if i, v :| 0 <= i < |args| && Says(args[i], key, v) {
      SaysIff(args[i], key, v);
    }
  }

  /** The values are those of the arguments that say the option, in order. */
  ghost predicate AreValues(args: seq<string>, key: string, pos: seq<nat>, values: seq<string>) {
    && Positions.Ascend(pos, |args|) && |pos| == |values|
    && (forall j :: 0 <= j < |pos| ==> Says(args[pos[j]], key, values[j]))
    && (forall i, v :: 0 <= i < |args| && Says(args[i], key, v) ==> At(pos, values, i, v))
  }

  ghost predicate At(pos: seq<nat>, values: seq<string>, i: nat, v: string)
    requires |pos| == |values|
  {
    exists j :: 0 <= j < |pos| && pos[j] == i && values[j] == v
  }

  lemma {:induction false} ValuesInOrder(key: string, args: seq<string>) returns (pos: seq<nat>)
    requires key != "" && key[0] == '-' && '=' !in key
    ensures AreValues(args, key, pos, ValuesOf(key, args))
  {
    if args == [] {
      pos := [];
    } else {
      var n := |args| - 1;
      var before := ValuesInOrder(key, args[..n]);
      var last := args[n];
      assert args == args[..n] + [last];
      ValuesUnfold(key, args[..n], last);
      SaysWhat(last, key);
      hide *;
      if IsOption(last) && Key(last) == key {
        SaidNext(args[..n], last, key, before, ValuesOf(key, args[..n]), Value(last));
        pos := before + [n];
      } else {
        NotSaidNext(args[..n], last, key, before, ValuesOf(key, args[..n]));
        pos := before;
      }
    }
  }

  lemma ValuesUnfold(key: string, args: seq<string>, s: string)
    ensures ValuesOf(key, args + [s]) ==
            if IsOption(s) && Key(s) == key then ValuesOf(key, args) + [Value(s)] else ValuesOf(key, args)
  {
    NextArg(args, s);
    hide *;
  }

  lemma SaysWhat(arg: string, key: string)
    requires key != "" && key[0] == '-' && '=' !in key
    ensures forall v :: Says(arg, key, v) <==> IsOption(arg) && Key(arg) == key && Value(arg) == v
  {
    hide *;
    forall v ensures Says(arg, key, v) <==> IsOption(arg) && Key(arg) == key && Value(arg) == v {
      SaysIff(arg, key, v);
    }
  }

  lemma SaidNext(args: seq<string>, s: string, key: string, pos: seq<nat>, values: seq<string>, value: string)
    requires AreValues(args, key, pos, values) && forall v :: Says(s, key, v) <==> v == value
    ensures AreValues(args + [s], key, pos + [|args|], values + [value])
  {
    hide Says;
    var more, at, all := args + [s], pos + [|args|], values + [value];
    forall i, v | 0 <= i < |more| && Says(more[i], key, v) ensures At(at, all, i, v) {
      if i == |args| {
        assert at[|pos|] == i && all[|pos|] == v;
      } else {
        assert At(pos, values, i, v);
        var j :| 0 <= j < |pos| && pos[j] == i && values[j] == v;
        assert at[j] == i && all[j] == v;
      }
    }
  }

  lemma NotSaidNext(args: seq<string>, s: string, key: string, pos: seq<nat>, values: seq<string>)
    requires AreValues(args, key, pos, values) && forall v :: !Says(s, key, v)
    ensures AreValues(args + [s], key, pos, values)
  {
    hide Says, At;
  }

  /** The positional arguments are those that do not start with a dash, in order. */
  lemma {:induction false} PositionalInOrder(args: seq<string>) returns (pos: seq<nat>)
    ensures Positions.Ascend(pos, |args|) && |pos| == |Positional(args)|
    ensures forall j :: 0 <= j < |pos| ==> Positional(args)[j] == args[pos[j]]
    ensures forall i :: 0 <= i < |args| ==> (i in pos <==> args[i] == "" || args[i][0] != '-')
  {
    if args == [] {
      pos := [];
    } else {
      var n := |args| - 1;
      var before := PositionalInOrder(args[..n]);
      pos := Positions.OneMore(before, n, !IsOption(args[n]));
      assert forall i :: 0 <= i < n ==> args[..n][i] == args[i];
    }
  }

  /** What a command line that is accepted says, and how one that is not goes wrong. */
  lemma MeaningOfText(args: seq<string>)
    ensures var m := Meaning(args);
            m.Success? ==>
              && (m.value.help <==> IsSaid(args, "--help"))
              && (m.value.coverage <==> IsSaid(args, "--coverage"))
              && (m.value.checkall <==> IsSaid(args, "--checkall"))
              && (m.value.testcase == [] <==> !IsSaid(args, "--testcase"))
              && m.value.args == Positional(args)
    ensures Meaning(args).Success? ==>
              forall i, v :: 0 <= i < |args| && Says(args[i], "--testcase", v) ==>
                ParseNames(v) == Success(Meaning(args).value.testcase)
    ensures Meaning(args) == Failure(NoNames) <==>
            exists i, v :: IsFirst(args, "--testcase", i, v) && HasEmptyPart(v)
    ensures Meaning(args) == Failure(GivenTwice) <==>
            exists i, v :: IsFirst(args, "--testcase", i, v) && !HasEmptyPart(v) && IsSaid(args[i + 1..], "--testcase")
  {
    GivenIff("--help", args);
    GivenIff("--coverage", args);
    GivenIff("--checkall", args);
    hide *;
    var pos := ValuesInOrder("--testcase", args);
    MeaningUnfold(args);
    FirstList(args, pos, ValuesOf("--testcase", args));
  }

  lemma MeaningUnfold(args: seq<string>)
    ensures var m, lists := Meaning(args), ValuesOf("--testcase", args);
            && (m.Success? ==>
                  && (m.value.help <==> Given("--help", args))
                  && (m.value.coverage <==> Given("--coverage", args))
                  && (m.value.checkall <==> Given("--checkall", args))
                  && m.value.args == Positional(args)
                  && |lists| <= 1
                  && (lists == [] ==> m.value.testcase == [])
                  && (lists != [] ==> ParseNames(lists[0]) == Success(m.value.testcase) && m.value.testcase != []))
            && (m == Failure(NoNames) <==> lists != [] && HasEmptyPart(lists[0]))
            && (m == Failure(GivenTwice) <==> |lists| > 1 && !HasEmptyPart(lists[0]))
  {
    var lists := ValuesOf("--testcase", args);
    if lists != [] {
      ParseFailsIff(lists[0]);
      if ParseNames(lists[0]).Success? {
        ParseJoinParse(lists[0]);
      }
    }
    hide ValuesOf, Given, Segments, HasEmptyPart, Dedup.FirstOf, Positional;
  }

  /** The first list of names is the value of the first argument that says one. */
  lemma FirstList(args: seq<string>, pos: seq<nat>, lists: seq<string>)
    requires AreValues(args, "--testcase", pos, lists)
    ensures lists == [] <==> !IsSaid(args, "--testcase")
    ensures |lists| == 1 ==> forall i, v :: 0 <= i < |args| && Says(args[i], "--testcase", v) ==> v == lists[0]
    ensures lists != [] && HasEmptyPart(lists[0]) <==>
            exists i, v :: IsFirst(args, "--testcase", i, v) && HasEmptyPart(v)
    ensures |lists| > 1 && !HasEmptyPart(lists[0]) <==>
            exists i, v :: IsFirst(args, "--testcase", i, v) && !HasEmptyPart(v) && IsSaid(args[i + 1..], "--testcase")
  {
    hide Says, HasEmptyPart, IsFirst, IsSaid;
    NoneSaid(args, pos, lists);
    if lists != [] {
      FirstIs(args, pos, lists);
      hide Positions.Ascend;
      assert IsFirst(args, "--testcase", pos[0], lists[0]);
    }
  }

  lemma NoneSaid(args: seq<string>, pos: seq<nat>, lists: seq<string>)
    requires AreValues(args, "--testcase", pos, lists)
    ensures lists == [] <==> !IsSaid(args, "--testcase")
    ensures lists == [] ==> forall i, v :: !IsFirst(args, "--testcase", i, v)
  {
    hide Says;
    if lists != [] {
      assert Says(args[pos[0]], "--testcase", lists[0]);
    }
  }

  lemma FirstIs(args: seq<string>, pos: seq<nat>, lists: seq<string>)
    requires AreValues(args, "--testcase", pos, lists) && lists != []
    ensures forall i, v :: IsFirst(args, "--testcase", i, v) <==> i == pos[0] && v == lists[0]
    ensures IsSaid(args[pos[0] + 1..], "--testcase") <==> |lists| > 1
  {
    hide Says;
    assert Says(args[pos[0]], "--testcase", lists[0]);
    forall i, v ensures IsFirst(args, "--testcase", i, v) <==> i == pos[0] && v == lists[0] {
      OnlyFirst(args, pos, lists, i, v);
    }
    var rest := args[pos[0] + 1..];
    if |lists| > 1 {
      assert rest[pos[1] - pos[0] - 1] == args[pos[1]];
    }
    if i, v :| 0 <= i < |rest| && Says(rest[i], "--testcase", v) {
      assert rest[i] == args[pos[0] + 1 + i];
    }
  }

  lemma OnlyFirst(args: seq<string>, pos: seq<nat>, lists: seq<string>, i: nat, v: string)
    requires AreValues(args, "--testcase", pos, lists) && lists != []
    ensures IsFirst(args, "--testcase", i, v) <==> i == pos[0] && v == lists[0]
  {
    hide Says;
    if i < |args| && Says(args[i], "--testcase", v) && i != pos[0] {
      assert pos[0] < i && args[..i][pos[0]] == args[pos[0]];
    }
    assert forall k, w :: 0 <= k < pos[0] ==> !Says(args[k], "--testcase", w);
    assert forall k :: 0 <= k < pos[0] ==> args[..pos[0]][k] == args[k];
  }

  lemma NothingGiven()
    ensures Meaning([]) == Success(Options(false, false, false, [], []))
    ensures ValuesOf("--testcase", []) == []
  {
    assert forall key :: !Given(key, []);
  }

  /** What one more argument adds. */
  lemma NextArg(args: seq<string>, s: string)
    ensures Positional(args + [s]) == if IsOption(s) then Positional(args) else Positional(args) + [s]
    ensures forall key ::
              ValuesOf(key, args + [s]) ==
              if IsOption(s) && Key(s) == key then ValuesOf(key, args) + [Value(s)] else ValuesOf(key, args)
    ensures forall key :: Given(key, args + [s]) <==> Given(key, args) || (IsOption(s) && Key(s) == key)
  {
    hide Key, Value, IsOption;
    var more := args + [s];
    assert more[..|more| - 1] == args && more[|more| - 1] == s;
    assert Positional(args) + [] == Positional(args);
    forall key
      ensures ValuesOf(key, more) ==
              if IsOption(s) && Key(s) == key then ValuesOf(key, args) + [Value(s)] else ValuesOf(key, args)
    {
      assert ValuesOf(key, args) + [] == ValuesOf(key, args);
    }
    forall key ensures Given(key, more) <==> Given(key, args) || (IsOption(s) && Key(s) == key) {
      NextGiven(key, args, s);
    }
  }

  lemma NextGiven(key: string, args: seq<string>, s: string)
    ensures Given(key, args + [s]) <==> Given(key, args) || (IsOption(s) && Key(s) == key)
  {
    hide Key, IsOption;
    var more := args + [s];
    if Given(key, args) {
      var i :| 0 <= i < |args| && IsOption(args[i]) && Key(args[i]) == key;
      assert more[i] == args[i];
    }
    assert more[|args|] == s;
  }

  lemma {:induction false} ValuesGrow(key: string, args: seq<string>, i: nat)
    requires i <= |args|
    ensures ValuesOf(key, args[..i]) <= ValuesOf(key, args)
    decreases |args|
  {
    if i == |args| {
      assert args[..i] == args;
    } else {
      var init := args[..|args| - 1];
      ValuesGrow(key, init, i);
      assert init[..i] == args[..i];
    }
  }

  /** A command line that has failed stays failed, with the same error. */
  lemma FailsAlready(args: seq<string>, i: nat)
    requires i <= |args| && Meaning(args[..i]).Failure?
    ensures Meaning(args) == Meaning(args[..i])
  {
    hide ValuesOf, ParseNames;
    ValuesGrow("--testcase", args, i);
  }

  /** Options may be moved: only the order of the positional arguments and of
      the lists of names matters. */
  lemma OptionsCommute(before: seq<string>, a: string, b: string, after: seq<string>)
    requires IsOption(a) && !IsOption(b)
    ensures Meaning(before + [a, b] + after) == Meaning(before + [b, a] + after)
  {
    hide *;
    SameAfterSwap(before, a, b, after);
    SameMeaning(before + [a, b] + after, before + [b, a] + after);
  }

  lemma SameMeaning(l: seq<string>, r: seq<string>)
    requires Positional(l) == Positional(r)
    requires forall key :: ValuesOf(key, l) == ValuesOf(key, r)
    requires forall key :: Given(key, l) <==> Given(key, r)
    ensures Meaning(l) == Meaning(r)
  {
    hide ValuesOf, ParseNames, Positional, Given;
  }

  lemma {:induction false} SameAfterSwap(before: seq<string>, a: string, b: string, after: seq<string>)
    requires IsOption(a) && !IsOption(b)
    ensures var l, r := before + [a, b] + after, before + [b, a] + after;
            && Positional(l) == Positional(r)
            && (forall key :: ValuesOf(key, l) == ValuesOf(key, r))
            && (forall key :: Given(key, l) <==> Given(key, r))
    decreases |after|
  {
    hide *;
    if after == [] {
      assert before + [a, b] + after == (before + [a]) + [b];
      assert before + [b, a] + after == (before + [b]) + [a];
      NextArg(before, a);
      NextArg(before + [a], b);
      NextArg(before, b);
      NextArg(before + [b], a);
    } else {
      var init, last := after[..|after| - 1], after[|after| - 1];
      SameAfterSwap(before, a, b, init);
      assert before + [a, b] + after == (before + [a, b] + init) + [last];
      assert before + [b, a] + after == (before + [b, a] + init) + [last];
      NextArg(before + [a, b] + init, last);
      NextArg(before + [b, a] + init, last);
    }
  }
}
