/** lib/printer.lua, printline: a message, a prefix on each of its lines, a suffix. */
module Printer {
  import opened Prelude
  import opened Patterns
  import Lines
  import Stringify

  /** `\r?\n` */
  const NEWLINE: Pattern := Maybe(Only('\r'), One(Only('\n'), End))

  class Stdout {
    var written: seq<string>

    constructor ()
      ensures written == []
    {
      written := [];
    }

    method Write(parts: seq<string>)
      modifies this
      ensures written == old(written) + parts
    {
      written := written + parts;
    }
  }

  class Printer {
    const prefix: Option<string>
    const suffix: Option<string>
    const doformat: bool

    /** `new`: formatting is on unless it is switched off */
    constructor (prefix: Option<string>, suffix: Option<string>, doformat: Option<bool>)
      ensures this.prefix == prefix && this.suffix == suffix
      ensures this.doformat <==> doformat != Some(false)
    {
      this.prefix := prefix;
      this.suffix := suffix;
      this.doformat := doformat.None? || doformat.value;
    }

    /** `printline`: nothing is written when the arguments cannot be made a text. */
    method PrintLine(lua: Stringify.Lua, length: Stringify.Table -> nat, stdout: Stdout,
                     s: Stringify.Value, args: seq<Stringify.Value>) returns (r: Result<(), Stringify.Error>)
      requires forall t: Stringify.Table :: Stringify.IsBorder(t, length(t))
      modifies stdout
      ensures var message := Stringify.Rendered(lua, doformat, s, args);
              if message.Failure? then r == Failure(message.error) && stdout.written == old(stdout.written)
              else r.Success? && stdout.written == old(stdout.written) + Writes(prefix, suffix, message.value)
      ensures var message := Stringify.Rendered(lua, doformat, s, args);
              message.Success? && prefix.None? ==>
                stdout.written == old(stdout.written) +
                                  if suffix.None? then [message.value] else [message.value, suffix.value]
    {
      hide *;
      var message := Stringify.VStringify(lua, length, doformat, s, args);
      if message.Failure? {
        return Failure(message.error);
      }
      WriteLines(stdout, message.value);
      if suffix.Some? {
        stdout.Write([suffix.value]);
      }
      WritesAre(prefix, suffix, message.value);
      if prefix.None? {
        WithoutPrefix(suffix, message.value);
      }
      return Success(());
    }

    method WriteLines(stdout: Stdout, s: string)
      modifies stdout
      ensures stdout.written == old(stdout.written) + LineWrites(prefix, s)
    {
      hide PrefixedWrites, Find;
      if prefix.None? {
        stdout.Write([s]);
        return;
      }
      var pos := 0;
      var newline := Find(NEWLINE, s, 0);
      assert s[0..] == s;
      ghost var before := stdout.written;
      while newline.Some?
        invariant pos <= |s| && newline == Find(NEWLINE, s, pos)
        invariant stdout.written + PrefixedWrites(prefix.value, s[pos..]) == before + PrefixedWrites(prefix.value, s)
        decreases |s| - pos
      {
        var head, tail := newline.value.0, newline.value.1;
        NextLine(prefix.value, s, pos);
        var line := s[pos..head];
        ghost var now := stdout.written;
        stdout.Write([prefix.value, line, "\n"]);
        assert now + ([prefix.value, line, "\n"] + PrefixedWrites(prefix.value, s[tail..])) ==
               (now + [prefix.value, line, "\n"]) + PrefixedWrites(prefix.value, s[tail..]);
        pos := tail;
        newline := Find(NEWLINE, s, pos);
      }
      LastLine(prefix.value, s, pos);
      if pos < |s| {
        stdout.Write([prefix.value, s[pos..]]);
      }
    }
  }

  // --- what is written ---

  /** Where the text of the first line ends: a `\r` before the newline belongs to it. */
  function TextEnd(s: string, n: nat): (k: nat)
    requires n <= |s|
    ensures k <= n
  {
    if 0 < n < |s| && s[n - 1] == '\r' then n - 1 else n
  }

  function PrefixedWrites(prefix: string, s: string): seq<string>
    decreases |s|
  {
    var n := Lines.IndexOf('\n', s);
    if s == "" then []
    else if n == |s| then [prefix, s]
    else [prefix, s[..TextEnd(s, n)], "\n"] + PrefixedWrites(prefix, s[n + 1..])
  }

  function LineWrites(prefix: Option<string>, s: string): seq<string> {
    if prefix.None? then [s] else PrefixedWrites(prefix.value, s)
  }

  function Writes(prefix: Option<string>, suffix: Option<string>, s: string): seq<string> {
    LineWrites(prefix, s) + if suffix.None? then [] else [suffix.value]
  }

  lemma WritesAre(prefix: Option<string>, suffix: Option<string>, s: string)
    ensures Writes(prefix, suffix, s) ==
            if suffix.None? then LineWrites(prefix, s) else LineWrites(prefix, s) + [suffix.value]
  {
    assert LineWrites(prefix, s) + [] == LineWrites(prefix, s);
  }

  lemma WithoutPrefix(suffix: Option<string>, s: string)
    ensures Writes(None, suffix, s) == if suffix.None? then [s] else [s, suffix.value]
  {
  }

  // --- the search for newlines ---

  /** The leftmost match of `\r?\n`: the first newline, and a `\r` before it. */
  lemma {:induction false} FindNewline(s: string)
    ensures var n := Lines.IndexOf('\n', s);
            FindFirst(NEWLINE, s) == if n == |s| then None else Some((TextEnd(s, n), n + 1))
  {
    MatchNewline(s);
    hide Match;
    if s != "" && s[0] != '\n' {
      FindNewline(s[1..]);
    }
  }

  lemma MatchNewline(s: string)
    ensures Match(NEWLINE, s) ==
            if s != "" && s[0] == '\n' then Some(1)
            else if |s| >= 2 && s[0] == '\r' && s[1] == '\n' then Some(2)
            else None
  {
  }

  lemma NextLine(prefix: string, s: string, pos: nat)
    requires pos <= |s| && Find(NEWLINE, s, pos).Some?
    ensures var (head, tail) := Find(NEWLINE, s, pos).value;
            && pos <= head < tail <= |s|
            && PrefixedWrites(prefix, s[pos..]) ==
               [prefix, s[pos..head], "\n"] + PrefixedWrites(prefix, s[tail..])
  {
    hide *;
    FindFrom(s, pos);
    var rest := s[pos..];
    var n := Lines.IndexOf('\n', rest);
    FirstWrites(prefix, rest);
    TailSlices(s, pos, TextEnd(rest, n), n + 1);
  }

  lemma FindFrom(s: string, pos: nat)
    requires pos <= |s|
    ensures var n := Lines.IndexOf('\n', s[pos..]);
            Find(NEWLINE, s, pos) ==
            if n == |s[pos..]| then None else Some((pos + TextEnd(s[pos..], n), pos + n + 1))
  {
    FindNewline(s[pos..]);
    ShiftOfFind(s, pos);
    hide *;
  }

  lemma ShiftOfFind(s: string, pos: nat)
    requires pos <= |s|
    ensures FindFirst(NEWLINE, s[pos..]).None? ==> Find(NEWLINE, s, pos) == None
    ensures forall h, t ::
              FindFirst(NEWLINE, s[pos..]) == Some((h, t)) ==> Find(NEWLINE, s, pos) == Some((pos + h, pos + t))
  {
    hide FindFirst;
  }

  lemma FirstWrites(prefix: string, s: string)
    requires Lines.IndexOf('\n', s) < |s|
    ensures var n := Lines.IndexOf('\n', s);
            PrefixedWrites(prefix, s) == [prefix, s[..TextEnd(s, n)], "\n"] + PrefixedWrites(prefix, s[n + 1..])
  {
    hide Lines.IndexOf, TextEnd;
  }

  lemma TailSlices(s: string, pos: nat, head: nat, tail: nat)
    requires pos <= |s| && head <= |s| - pos && tail <= |s| - pos
    ensures s[pos..][..head] == s[pos..pos + head] && s[pos..][tail..] == s[pos + tail..]
  {
  }

  lemma LastLine(prefix: string, s: string, pos: nat)
    requires pos <= |s| && Find(NEWLINE, s, pos).None?
    ensures PrefixedWrites(prefix, s[pos..]) == if pos < |s| then [prefix, s[pos..]] else []
  {
    FindNewline(s[pos..]);
    hide FindFirst;
  }

  // --- nothing is lost ---

  function Concat(parts: seq<string>): string {
    if parts == [] then "" else parts[0] + Concat(parts[1..])
  }

  /** `s` with every `\r\n` replaced by `\n`. */
  function Normalize(s: string): string {
    if s == "" then ""
    else if |s| >= 2 && s[0] == '\r' && s[1] == '\n' then Normalize(s[1..])
    else [s[0]] + Normalize(s[1..])
  }

  /** A text without the prefix that each of its lines begins with. None when a line does
      not, or when the text ends in a prefix with no line after it. */
  function Unprefixed(prefix: string, s: string): Option<string>
    decreases |s|, 1
  {
    if s == "" then Some("") else if !(prefix <= s) then None else FirstKept(prefix, s[|prefix|..])
  }

  /** The rest of a line as it is, and the lines after it without the prefix. */
  function FirstKept(prefix: string, s: string): Option<string>
    decreases |s|, 0
  {
    var n := Lines.IndexOf('\n', s);
    if n == |s| then if s == "" then None else Some(s)
    else
      match Unprefixed(prefix, s[n + 1..])
      case None => None
      case Some(t) => Some(s[..n + 1] + t)
  }

  /** Taking the prefix off every line of the output gives the message back, with
      its newlines normalized. */
  lemma {:induction false} NothingIsLost(prefix: string, s: string)
    requires '\n' !in prefix
    ensures Unprefixed(prefix, Concat(PrefixedWrites(prefix, s))) == Some(Normalize(s))
    decreases |s|
  {
    hide *;
    var n := Lines.IndexOf('\n', s);
    if n == |s| {
      LastWrites(prefix, s);
      ConcatTwo(prefix, s);
      PlainNormal(s);
      if s != "" {
        OneLine(prefix, s);
      } else {
        NoLine(prefix);
      }
    } else {
      var text, rest := s[..TextEnd(s, n)], s[n + 1..];
      NothingIsLost(prefix, rest);
      FirstWrites(prefix, s);
      ConcatThree(prefix, text, "\n", PrefixedWrites(prefix, rest));
      NormalLine(s);
      FirstLine(prefix, text, Concat(PrefixedWrites(prefix, rest)));
    }
  }

  /** Of everything that is written: the suffix at the end off, what is left is the message,
      or the message with the prefix on each of its lines. */
  lemma AllIsWritten(prefix: Option<string>, suffix: Option<string>, s: string) returns (body: string)
    requires prefix.Some? ==> '\n' !in prefix.value
    ensures Concat(Writes(prefix, suffix, s)) == body + if suffix.None? then "" else suffix.value
    ensures prefix.None? ==> body == s
    ensures prefix.Some? ==> Unprefixed(prefix.value, body) == Some(Normalize(s))
  {
    hide *;
    body := Concat(LineWrites(prefix, s));
    WritesAre(prefix, suffix, s);
    if suffix.Some? {
      ConcatMore(LineWrites(prefix, s), suffix.value);
    } else {
      assert body + "" == body;
    }
    LineWritesAre(prefix, s);
    if prefix.Some? {
      NothingIsLost(prefix.value, s);
    } else {
      ConcatOne(s);
    }
  }

  lemma LineWritesAre(prefix: Option<string>, s: string)
    ensures LineWrites(prefix, s) == if prefix.None? then [s] else PrefixedWrites(prefix.value, s)
  {
  }

  lemma ConcatOne(s: string)
    ensures Concat([s]) == s
  {
    assert [s][1..] == [] && s + "" == s;
  }

  lemma {:induction false} ConcatMore(parts: seq<string>, last: string)
    ensures Concat(parts + [last]) == Concat(parts) + last
  {
    if parts == [] {
      assert parts + [last] == [last];
      ConcatOne(last);
      assert Concat([]) == "" && "" + last == last;
    } else {
      assert (parts + [last])[1..] == parts[1..] + [last];
      ConcatMore(parts[1..], last);
      assert parts[0] + (Concat(parts[1..]) + last) == (parts[0] + Concat(parts[1..])) + last;
    }
  }

  lemma LastWrites(prefix: string, s: string)
    requires Lines.IndexOf('\n', s) == |s|
    ensures PrefixedWrites(prefix, s) == if s == "" then [] else [prefix, s]
  {
  }

  lemma NoLine(prefix: string)
    ensures Concat([]) == "" && Unprefixed(prefix, "") == Some("")
  {
  }

  lemma ConcatTwo(a: string, b: string)
    ensures Concat([a, b]) == a + b
  {
    assert [a, b][1..] == [b] && [b][1..] == [];
    assert Concat([b]) == b + "" == b;
  }

  lemma ConcatThree(a: string, b: string, c: string, parts: seq<string>)
    ensures Concat([a, b, c] + parts) == a + (b + (c + Concat(parts)))
  {
    assert ([a, b, c] + parts)[1..] == [b, c] + parts;
    assert ([b, c] + parts)[1..] == [c] + parts;
    assert ([c] + parts)[1..] == parts;
    assert Concat([c] + parts) == c + Concat(parts);
    assert Concat([b, c] + parts) == b + (c + Concat(parts));
  }

  lemma OneLine(prefix: string, s: string)
    requires '\n' !in s && s != ""
    ensures Unprefixed(prefix, prefix + s) == Some(s)
  {
    assert (prefix + s)[|prefix|..] == s;
  }

  lemma FirstLine(prefix: string, text: string, more: string)
    requires '\n' !in text && Unprefixed(prefix, more).Some?
    ensures Unprefixed(prefix, prefix + (text + ("\n" + more))) ==
            Some(text + "\n" + Unprefixed(prefix, more).value)
  {
    hide *;
    var rest := text + ("\n" + more);
    PrefixCut(prefix, rest);
    LineCut(text, more);
    UnprefixedLine(prefix, prefix + rest, rest, |text|, Unprefixed(prefix, more).value);
  }

  lemma PrefixCut(prefix: string, rest: string)
    ensures prefix <= prefix + rest && (prefix + rest)[|prefix|..] == rest
  {
  }

  lemma LineCut(text: string, more: string)
    requires '\n' !in text
    ensures var rest := text + ("\n" + more);
            && Lines.IndexOf('\n', rest) == |text| < |rest|
            && rest[..|text| + 1] == text + "\n" && rest[|text| + 1..] == more
  {
    var rest := text + ("\n" + more);
    assert rest[|text|] == '\n' && forall i :: 0 <= i < |text| ==> rest[i] == text[i];
    Cut(text, "\n", more);
  }

  lemma Cut(a: string, b: string, c: string)
    ensures (a + (b + c))[..|a| + |b|] == a + b && (a + (b + c))[|a| + |b|..] == c
  {
    assert a + (b + c) == (a + b) + c;
  }

  lemma UnprefixedLine(prefix: string, s: string, rest: string, n: nat, t: string)
    requires prefix <= s && s[|prefix|..] == rest && Lines.IndexOf('\n', rest) == n < |rest|
    requires Unprefixed(prefix, rest[n + 1..]) == Some(t)
    ensures Unprefixed(prefix, s) == Some(rest[..n + 1] + t)
  {
    hide *;
    LineKept(prefix, rest, t);
    assert |s| == |prefix| + |rest|;
    PrefixOff(prefix, s);
  }

  lemma PrefixOff(prefix: string, s: string)
    requires s != "" && prefix <= s
    ensures Unprefixed(prefix, s) == FirstKept(prefix, s[|prefix|..])
  {
    hide FirstKept;
  }

  lemma LineKept(prefix: string, s: string, t: string)
    requires Lines.IndexOf('\n', s) < |s| && Unprefixed(prefix, s[Lines.IndexOf('\n', s) + 1..]) == Some(t)
    ensures FirstKept(prefix, s) == Some(s[..Lines.IndexOf('\n', s) + 1] + t)
  {
    hide Lines.IndexOf, Unprefixed;
  }

  lemma {:induction false} PlainNormal(s: string)
    requires '\n' !in s
    ensures Normalize(s) == s
  {
    if s != "" {
      PlainNormal(s[1..]);
    }
  }

  lemma {:induction false} NormalLine(s: string)
    requires Lines.IndexOf('\n', s) < |s|
    ensures var n := Lines.IndexOf('\n', s);
            && '\n' !in s[..TextEnd(s, n)]
            && Normalize(s) == s[..TextEnd(s, n)] + "\n" + Normalize(s[n + 1..])
  {
    var n := Lines.IndexOf('\n', s);
    if TextEnd(s, n) > 0 {
      NormalStep(s, n);
      NormalLine(s[1..]);
      hide *;
      LineOfTail(s, TextEnd(s, n), n, Normalize(s[n + 1..]));
    } else {
      NormalBreak(s, n);
    }
  }

  lemma LineOfTail(s: string, k: nat, n: nat, t: string)
    requires 0 < k <= n < |s| && s[0] != '\n' && '\n' !in s[1..][..k - 1]
    ensures s[1..][n..] == s[n + 1..] && s[..k] == [s[0]] + s[1..][..k - 1] && '\n' !in s[..k]
    ensures [s[0]] + (s[1..][..k - 1] + "\n" + t) == s[..k] + "\n" + t
  {
    assert s[..k] == [s[0]] + s[1..][..k - 1];
  }

  lemma NormalBreak(s: string, n: nat)
    requires n < |s| && n == Lines.IndexOf('\n', s) && TextEnd(s, n) == 0
    ensures Normalize(s) == "\n" + Normalize(s[n + 1..])
    ensures s[..0] == "" && "" + "\n" + Normalize(s[n + 1..]) == "\n" + Normalize(s[n + 1..])
  {
    hide *;
    EndAtStart(s, n);
    if n == 0 {
      NormalNewline(s);
    } else {
      NormalReturn(s);
      NormalNewline(s[1..]);
    }
    NothingBefore(s, Normalize(s[n + 1..]));
  }

  lemma EndAtStart(s: string, n: nat)
    requires n < |s| && n == Lines.IndexOf('\n', s) && TextEnd(s, n) == 0
    ensures s[n] == '\n' && n <= 1
    ensures n == 1 ==> s[0] == '\r' && s[1..][0] == '\n' && s[1..][1..] == s[2..]
  {
  }

  lemma NothingBefore(s: string, t: string)
    ensures s[..0] == "" && "" + "\n" + t == "\n" + t
  {
  }

  lemma NormalNewline(s: string)
    requires s != "" && s[0] == '\n'
    ensures Normalize(s) == "\n" + Normalize(s[1..])
  {
  }

  lemma NormalReturn(s: string)
    requires |s| >= 2 && s[0] == '\r' && s[1] == '\n'
    ensures Normalize(s) == Normalize(s[1..])
  {
  }

  lemma NormalStep(s: string, n: nat)
    requires n < |s| && s[n] == '\n' && TextEnd(s, n) > 0
    requires forall i :: 0 <= i < n ==> s[i] != '\n'
    ensures Normalize(s) == [s[0]] + Normalize(s[1..]) && TextEnd(s[1..], n - 1) == TextEnd(s, n) - 1
    ensures Lines.IndexOf('\n', s[1..]) == n - 1 && s[0] != '\n' && 0 < n
  {
    assert forall i :: 0 <= i < n - 1 ==> s[1..][i] == s[i + 1];
    assert s[1..][n - 1] == '\n';
  }
}
