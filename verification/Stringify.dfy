/** lib/printer.lua, vstringify: one text out of a format and its arguments. */
module Stringify {
  import opened Prelude
  import Formats
  import Select

  /** A Lua value, as far as printing tells values apart. */
  datatype Value = Nil | Str(s: string) | Other(id: int)

  /** What the interpreter provides: `tostring`, and `string.format`, which may raise. */
  datatype Lua = Lua(tostring: Value -> string, format: (string, seq<Value>) -> Result<string, string>)

  datatype Error = FormatError(message: string) | InvalidValue

  /** A table with positive integer keys; `nil` is the value of an absent key. */
  type Table = map<nat, Value>

  function Get(t: Table, i: nat): Value {
    if i in t then t[i] else Nil
  }

  function Set(t: Table, i: nat, v: Value): Table {
    if v == Nil then t - {i} else t[i := v]
  }

  function ValueAt(values: seq<Value>, i: nat): Value {
    if 1 <= i <= |values| then values[i - 1] else Nil
  }

  /** The table constructor `{ ... }`. */
  function TableOf(values: seq<Value>): Table {
    map i: nat | i <= |values| && ValueAt(values, i) != Nil :: ValueAt(values, i)
  }

  /** What `#t` may be: Lua promises a border, and no more when the table has holes. */
  predicate IsBorder(t: Table, n: nat) {
    Get(t, n + 1) == Nil && (n == 0 || Get(t, n) != Nil)
  }

  // --- the specification ---

  function TextOf(lua: Lua, v: Value): string {
    if v.Str? then v.s else lua.tostring(v)
  }

  function TextsOf(lua: Lua, values: seq<Value>): (r: seq<string>)
    ensures |r| == |values|
  {
    seq(|values|, i requires 0 <= i < |values| => TextOf(lua, values[i]))
  }

  /** The arguments handed to `string.format`: as many as the format has parameters,
      `nil` where one is missing, and as text where the format says `%s`. */
  function Prepared(lua: Lua, specifiers: seq<string>, args: seq<Value>): (r: seq<Value>)
    ensures |r| == |specifiers|
  {
    seq(|specifiers|, i requires 0 <= i < |specifiers| =>
      var v := if i < |args| then args[i] else Nil;
      if specifiers[i] == "s" then Str(TextOf(lua, v)) else v)
  }

  /** `s` and `args` as one text: the formatted part, then what the format has not used. */
  function Rendered(lua: Lua, doformat: bool, s: Value, args: seq<Value>): Result<string, Error> {
    var specifiers := if doformat && s.Str? then Formats.Specifiers(s.s) else [];
    if specifiers == [] then
      Success(Formats.Spaced([TextOf(lua, s)] + TextsOf(lua, args)))
    else
      match lua.format(s.s, Prepared(lua, specifiers, args))
      case Failure(message) => Failure(FormatError(message))
      case Success(text) =>
        Success(Formats.Spaced([text] + TextsOf(lua, Select.Tail(|specifiers| + 1, args))))
  }

  // --- the code ---

  /** `table.concat(t, " ")` when `#t` is `n`; it raises on a value that is no text. */
  function Concat(t: Table, n: nat): Result<string, Error> {
    if exists i :: 1 <= i <= n && !Get(t, i).Str? then Failure(InvalidValue)
    else if n == 0 then Success("")
    else Success(Formats.Spaced(seq(n, i requires 0 <= i < n => if Get(t, i + 1).Str? then Get(t, i + 1).s else "")))
  }

  /** `unpack(t, i, i + n - 1)` */
  function Unpack(t: Table, i: nat, n: nat): (r: seq<Value>)
    ensures |r| == n
  {
    seq(n, k requires 0 <= k < n => Get(t, i + k))
  }

  /** `parse_format(s, cb)`, which counts nothing in a value that is no string */
  method ParseFormat(s: Value) returns (nparam: nat, calls: seq<Formats.Param>)
    ensures nparam == |SpecifiersOf(s)| && calls == Formats.Numbered(SpecifiersOf(s))
  {
    if !s.Str? {
      return 0, [];
    }
    nparam, calls := Formats.ParseFormat(s.s);
  }

  function SpecifiersOf(s: Value): seq<string> {
    if s.Str? then Formats.Specifiers(s.s) else []
  }

  /** `vstringify`; `length` is the interpreter's `#`, any border of the table. */
  method VStringify(lua: Lua, length: Table -> nat, doformat: bool, s: Value, args: seq<Value>)
    returns (r: Result<string, Error>)
    requires forall t: Table :: IsBorder(t, length(t))
    ensures r == Rendered(lua, doformat, s, args)
  {
    hide *;
    var argv := TableOf([s] + args);
    var narg: int := |args| + 1;
    ghost var values := [s] + args;
    TableReads(values);
    if doformat {
      var nparam, _ := ParseFormat(s);
      if nparam > 0 {
        narg := narg - nparam;
        var _, calls := ParseFormat(s);
        ghost var prepared := Prepared(lua, SpecifiersOf(s), args);
        NothingPrepared(s, prepared, args);
        for k := 0 to |calls|
          invariant Reads(argv, PreparedUpTo(s, prepared, args, k))
        {
          var c, offset := calls[k].specifier, calls[k].offset;
          PrepareNext(lua, s, args, argv, k);
          if c == "s" {
            var v := Get(argv, offset + 1);
            if !v.Str? {
              argv := Set(argv, offset + 1, Str(lua.tostring(v)));
            }
          }
        }
        AllPrepared(s, prepared, args, argv);
        IsFormat(s);
        var formatted := lua.format(s.s, Unpack(argv, 2, nparam));
        RenderedFormat(lua, s, args);
        if formatted.Failure? {
          return Failure(FormatError(formatted.error));
        }
        var rest := Select.TailOf(nparam + 1, args);
        argv := TableOf([Str(formatted.value)] + rest);
        values := [Str(formatted.value)] + rest;
        TableReads(values);
        TailLength(nparam, args);
      }
    }
    if !doformat || SpecifiersOf(s) == [] {
      RenderedPlain(lua, doformat, s, args);
    }
    assert Reads(argv, Stringified(lua, values, 0)) by { NothingStringified(lua, values); }
    var i := 1;
    while i <= narg
      invariant 1 <= i && (i <= narg + 1 || i == 1)
      invariant i <= |values| + 1 && Reads(argv, Stringified(lua, values, i - 1))
    {
      StringifyNext(lua, values, argv, i);
      if !Get(argv, i).Str? {
        argv := Set(argv, i, Str(lua.tostring(Get(argv, i))));
      }
      i := i + 1;
    }
    AllStringified(lua, values, argv, i - 1);
    assert IsBorder(argv, length(argv));
    NoHole(TextsOf(lua, values), argv, length(argv));
    r := Concat(argv, length(argv));
  }

  // --- what the table holds on the way ---

  ghost predicate Reads(t: Table, values: seq<Value>) {
    forall j: nat :: Get(t, j) == ValueAt(values, j)
  }

  lemma TableReads(values: seq<Value>)
    ensures Reads(TableOf(values), values)
  {
  }

  lemma SetReads(t: Table, values: seq<Value>, i: nat, v: Value, changed: seq<Value>)
    requires Reads(t, values)
    requires forall j: nat :: ValueAt(changed, j) == if j == i then v else ValueAt(values, j)
    ensures Reads(Set(t, i, v), changed)
  {
    hide ValueAt;
  }

  ghost function PreparedUpTo(s: Value, prepared: seq<Value>, args: seq<Value>, k: nat): seq<Value>
    requires k <= |prepared|
  {
    [s] + prepared[..k] + Select.Tail(k + 1, args)
  }

  lemma NothingPrepared(s: Value, prepared: seq<Value>, args: seq<Value>)
    ensures PreparedUpTo(s, prepared, args, 0) == [s] + args
  {
  }

  lemma PreparedAt(s: Value, prepared: seq<Value>, args: seq<Value>, k: nat, j: nat)
    requires k <= |prepared|
    ensures ValueAt(PreparedUpTo(s, prepared, args, k), j) ==
            if j <= 1 then if j == 1 then s else Nil
            else if j < k + 2 then prepared[j - 2]
            else if j < |args| + 2 then args[j - 2] else Nil
  {
  }

  /** One call of the callback, on the argument that its offset names. */
  lemma PrepareNext(lua: Lua, s: Value, args: seq<Value>, argv: Table, k: nat)
    requires k < |SpecifiersOf(s)|
    requires Reads(argv, PreparedUpTo(s, Prepared(lua, SpecifiersOf(s), args), args, k))
    ensures Formats.Numbered(SpecifiersOf(s))[k] == Formats.Param(SpecifiersOf(s)[k], k + 1)
    ensures var v := Get(argv, k + 2);
            var next := if SpecifiersOf(s)[k] == "s" && !v.Str? then Set(argv, k + 2, Str(lua.tostring(v))) else argv;
            Reads(next, PreparedUpTo(s, Prepared(lua, SpecifiersOf(s), args), args, k + 1))
  {
    hide *;
    var specifiers := SpecifiersOf(s);
    var prepared := Prepared(lua, specifiers, args);
    var now, then_ := PreparedUpTo(s, prepared, args, k), PreparedUpTo(s, prepared, args, k + 1);
    forall j: nat ensures ValueAt(then_, j) == if j == k + 2 then prepared[k] else ValueAt(now, j) {
      PreparedAt(s, prepared, args, k, j);
      PreparedAt(s, prepared, args, k + 1, j);
    }
    var v := Get(argv, k + 2);
    GetReads(argv, now, k + 2);
    PreparedAt(s, prepared, args, k, k + 2);
    PreparedIs(lua, specifiers, args, k);
    if specifiers[k] == "s" && !v.Str? {
      SetReads(argv, now, k + 2, prepared[k], then_);
    } else {
      SameReads(argv, now, then_);
    }
  }

  lemma GetReads(t: Table, values: seq<Value>, j: nat)
    requires Reads(t, values)
    ensures Get(t, j) == ValueAt(values, j)
  {
  }

  lemma SameReads(t: Table, values: seq<Value>, others: seq<Value>)
    requires Reads(t, values) && forall j: nat :: ValueAt(others, j) == ValueAt(values, j)
    ensures Reads(t, others)
  {
    hide Get, ValueAt;
  }

  lemma PreparedIs(lua: Lua, specifiers: seq<string>, args: seq<Value>, k: nat)
    requires k < |specifiers|
    ensures var v := if k < |args| then args[k] else Nil;
            Prepared(lua, specifiers, args)[k] ==
            if specifiers[k] == "s" && !v.Str? then Str(lua.tostring(v)) else v
  {
  }

  lemma AllPrepared(s: Value, prepared: seq<Value>, args: seq<Value>, argv: Table)
    requires Reads(argv, PreparedUpTo(s, prepared, args, |prepared|))
    ensures Unpack(argv, 2, |prepared|) == prepared
  {
    forall k | 0 <= k < |prepared| ensures Get(argv, k + 2) == prepared[k] {
      PreparedAt(s, prepared, args, |prepared|, k + 2);
    }
  }

  lemma IsFormat(s: Value)
    requires SpecifiersOf(s) != []
    ensures s.Str?
  {
  }

  lemma TailLength(n: nat, args: seq<Value>)
    ensures |Select.Tail(n + 1, args)| == if n < |args| then |args| - n else 0
  {
  }

  ghost function Stringified(lua: Lua, values: seq<Value>, k: nat): (r: seq<Value>)
    ensures |r| == |values|
  {
    seq(|values|, j requires 0 <= j < |values| => if j < k then Str(TextOf(lua, values[j])) else values[j])
  }

  lemma NothingStringified(lua: Lua, values: seq<Value>)
    ensures Stringified(lua, values, 0) == values
  {
  }

  lemma StringifyNext(lua: Lua, values: seq<Value>, argv: Table, i: nat)
    requires 1 <= i <= |values| && Reads(argv, Stringified(lua, values, i - 1))
    ensures var v := Get(argv, i);
            Reads(if v.Str? then argv else Set(argv, i, Str(lua.tostring(v))), Stringified(lua, values, i))
  {
    var v := Get(argv, i);
    var now, then_ := Stringified(lua, values, i - 1), Stringified(lua, values, i);
    assert v == ValueAt(now, i) == values[i - 1];
    forall j: nat ensures ValueAt(then_, j) == if j == i then Str(TextOf(lua, v)) else ValueAt(now, j) {
    }
    hide ValueAt, Stringified, Get, Set;
    if !v.Str? {
      SetReads(argv, now, i, Str(TextOf(lua, v)), then_);
    }
  }

  ghost function Strs(texts: seq<string>): (r: seq<Value>)
    ensures |r| == |texts|
  {
    seq(|texts|, j requires 0 <= j < |texts| => Str(texts[j]))
  }

  lemma AllStringified(lua: Lua, values: seq<Value>, argv: Table, k: nat)
    requires Reads(argv, Stringified(lua, values, k))
    requires k == |values| || (|values| == 1 && values[0].Str?)
    ensures Reads(argv, Strs(TextsOf(lua, values)))
  {
    assert Stringified(lua, values, k) == Strs(TextsOf(lua, values));
  }

  /** A list of texts has one border, and `concat` joins all of it. */
  lemma NoHole(texts: seq<string>, argv: Table, n: nat)
    requires texts != [] && Reads(argv, Strs(texts)) && IsBorder(argv, n)
    ensures n == |texts| && Concat(argv, n) == Success(Formats.Spaced(texts))
  {
    hide *;
    OneBorder(texts, argv, n);
    AllTexts(texts, argv);
    ConcatAll(texts, argv);
  }

  lemma OneBorder(texts: seq<string>, argv: Table, n: nat)
    requires Reads(argv, Strs(texts)) && IsBorder(argv, n)
    ensures n == |texts|
  {
    hide Get;
    assert Get(argv, n) == ValueAt(Strs(texts), n) && Get(argv, n + 1) == ValueAt(Strs(texts), n + 1);
  }

  lemma AllTexts(texts: seq<string>, argv: Table)
    requires Reads(argv, Strs(texts))
    ensures forall i: nat :: 1 <= i <= |texts| ==> Get(argv, i) == Str(texts[i - 1])
  {
    hide Get;
  }

  lemma ConcatAll(texts: seq<string>, argv: Table)
    requires texts != [] && forall i: nat :: 1 <= i <= |texts| ==> Get(argv, i) == Str(texts[i - 1])
    ensures Concat(argv, |texts|) == Success(Formats.Spaced(texts))
  {
    hide Get, Formats.Spaced;
    assert seq(|texts|, i requires 0 <= i < |texts| =>
      if Get(argv, i + 1).Str? then Get(argv, i + 1).s else "") == texts;
  }

  lemma RenderedPlain(lua: Lua, doformat: bool, s: Value, args: seq<Value>)
    requires !doformat || SpecifiersOf(s) == []
    ensures Rendered(lua, doformat, s, args) == Success(Formats.Spaced(TextsOf(lua, [s] + args)))
  {
    hide TextOf, Formats.Spaced, Formats.Specifiers;
    assert TextsOf(lua, [s] + args) == [TextOf(lua, s)] + TextsOf(lua, args);
  }

  lemma RenderedFormat(lua: Lua, s: Value, args: seq<Value>)
    requires SpecifiersOf(s) != [] && s.Str?
    ensures var specifiers := SpecifiersOf(s);
            var formatted := lua.format(s.s, Prepared(lua, specifiers, args));
            Rendered(lua, true, s, args) ==
            if formatted.Failure? then Failure(FormatError(formatted.error))
            else Success(Formats.Spaced(TextsOf(lua, [Str(formatted.value)] + Select.Tail(|specifiers| + 1, args))))
  {
    hide Prepared, Formats.Spaced, Formats.Specifiers, Select.Tail;
    var formatted := lua.format(s.s, Prepared(lua, SpecifiersOf(s), args));
    if formatted.Success? {
      var rest := Select.Tail(|SpecifiersOf(s)| + 1, args);
      assert TextsOf(lua, [Str(formatted.value)] + rest) == [formatted.value] + TextsOf(lua, rest);
    }
  }

  // --- every argument is used once ---

  /** Strings as they are, everything else by `tostring`. */
  ghost predicate AreTexts(lua: Lua, values: seq<Value>, texts: seq<string>) {
    && |texts| == |values|
    && forall i :: 0 <= i < |texts| ==> texts[i] == if values[i].Str? then values[i].s else lua.tostring(values[i])
  }

  /** Without parameters to fill in, the text is that of all values, with a space between. */
  lemma PlainText(lua: Lua, doformat: bool, s: Value, args: seq<Value>) returns (texts: seq<string>)
    requires !doformat || !s.Str? || Formats.Specifiers(s.s) == []
    ensures AreTexts(lua, [s] + args, texts)
    ensures Rendered(lua, doformat, s, args) == Success(Formats.Spaced(texts))
  {
    texts := TextsOf(lua, [s] + args);
    RenderedPlain(lua, doformat, s, args);
    hide Rendered, Formats.Spaced, Formats.Specifiers;
  }

  /** What the parameters get: the arguments, `nil` where there are no more, and a text where
      the format asks for one. */
  ghost predicate AreGiven(lua: Lua, specifiers: seq<string>, args: seq<Value>, given: seq<Value>) {
    && |given| == |specifiers|
    && forall i :: 0 <= i < |given| ==> IsGiven(lua, specifiers[i], ValueAt(args, i + 1), given[i])
  }

  predicate IsGiven(lua: Lua, specifier: string, v: Value, given: Value) {
    given == if specifier == "s" && !v.Str? then Str(lua.tostring(v)) else v
  }

  /** With `n` parameters, the format gets the first `n` arguments. The others come after it. */
  lemma FormattedText(lua: Lua, s: string, args: seq<Value>) returns (given: seq<Value>, texts: seq<string>)
    requires Formats.Specifiers(s) != []
    ensures AreGiven(lua, Formats.Specifiers(s), args, given)
    ensures var n := |Formats.Specifiers(s)|;
            AreTexts(lua, if n < |args| then args[n..] else [], texts)
    ensures var formatted := lua.format(s, given);
            Rendered(lua, true, Str(s), args) ==
            if formatted.Failure? then Failure(FormatError(formatted.error))
            else Success(Formats.Spaced([formatted.value] + texts))
  {
    var specifiers := Formats.Specifiers(s);
    given := Prepared(lua, specifiers, args);
    texts := TextsOf(lua, Select.Tail(|specifiers| + 1, args));
    hide Formats.Spaced, Formats.Specifiers;
  }

  /** The formatted part and the rest share out the arguments, in order; when the
      format asks for more than there are, it gets `nil` for each that is missing. */
  lemma EveryArgumentOnce(lua: Lua, s: Value, args: seq<Value>)
    ensures var n := |SpecifiersOf(s)|;
            var prepared := Prepared(lua, SpecifiersOf(s), args);
            && Select.Head(n, args) + Select.Tail(n + 1, args) == args
            && |Select.Head(n, args)| == (if n < |args| then n else |args|)
            && (forall i :: 0 <= i < |Select.Head(n, args)| ==>
                  TextOf(lua, prepared[i]) == TextOf(lua, Select.Head(n, args)[i]))
            && (forall i :: |args| <= i < n ==> TextOf(lua, prepared[i]) == lua.tostring(Nil))
  {
    Select.HeadTail(|SpecifiersOf(s)|, args);
  }
}
