/** The line numbers that Lua gives to the functions of a rewritten text. lib/eval.lua ends
    a line at `\r*\n`, Lua's lexer at `\n`, `\r`, `\r\n` and `\n\r` alike. */
module LuaLines {
  import opened Prelude
  import opened Lines
  import opened InlineOption
  import opened Patterns

  predicate IsBreak(c: char) {
    c == '\n' || c == '\r'
  }

  /** The line breaks that the lexer has counted, and the last of them if the next
      character may still belong to it. */
  datatype Count = Count(lines: nat, open: seq<char>)

  function Next(l: Count, c: char): Count {
    if !IsBreak(c) then Count(l.lines, [])
    else if l.open != [] && l.open != [c] then Count(l.lines, [])
    else Count(l.lines + 1, [c])
  }

  function Lex(s: string): Count {
    if s == "" then Count(0, []) else Next(Lex(s[..|s| - 1]), s[|s| - 1])
  }

  lemma LexMore(s: string, c: char)
    ensures Lex(s + [c]) == Next(Lex(s), c)
  {
    assert (s + [c])[..|s|] == s;
  }

  /** Which line breaks Lua counts: `\n`, `\r`, and either pair of the two, once each. */
  lemma LuaBreaks(s: string, c: char)
    requires Lex(s).open == []
    ensures Lex(s + [c]).lines == Lex(s).lines + if c == '\n' || c == '\r' then 1 else 0
    ensures Lex(s + ['\r'] + ['\n']).lines == Lex(s + ['\n'] + ['\r']).lines == Lex(s).lines + 1
    ensures Lex(s + ['\n'] + ['\n']).lines == Lex(s + ['\r'] + ['\r']).lines == Lex(s).lines + 2
    ensures Lex(s + ['\r'] + ['\n']).open == Lex(s + ['\n'] + ['\r']).open == []
  {
    LexMore(s, c);
    LexMore(s, '\r');
    LexMore(s, '\n');
    LexMore(s + ['\r'], '\n');
    LexMore(s + ['\n'], '\r');
    LexMore(s + ['\n'], '\n');
    LexMore(s + ['\r'], '\r');
    hide Lex;
  }

  /** What comes after a text counts the same after any text that leaves the lexer as it does. */
  lemma {:induction false} LexAfter(x: string, y: string, after: string)
    requires Lex(x).open == Lex(y).open
    ensures Lex(x + after).lines - Lex(x).lines == Lex(y + after).lines - Lex(y).lines
    ensures Lex(x + after).open == Lex(y + after).open
  {
    if after == "" {
      assert x + after == x && y + after == y;
    } else {
      var init, c := after[..|after| - 1], after[|after| - 1];
      assert after == init + [c];
      hide *;
      LexAfter(x, y, init);
      Regroup(x, init, c);
      Regroup(y, init, c);
      LexMore(x + init, c);
      LexMore(y + init, c);
      SameNext(Lex(x + init), Lex(y + init), c);
    }
  }

  lemma Regroup(x: string, init: string, c: char)
    ensures x + (init + [c]) == (x + init) + [c]
  {
  }

  lemma SameNext(l: Count, m: Count, c: char)
    requires l.open == m.open
    ensures Next(l, c).lines - l.lines == Next(m, c).lines - m.lines && Next(l, c).open == Next(m, c).open
  {
  }

  /** No carriage return of `text` is a line break of its own; one at its start may belong
      to the line break before it. */
  predicate NoBareReturn(before: string, text: string) {
    forall i :: 0 <= i < |text| && text[i] == '\r' ==> i == 0 && Lex(before + "\r").lines == Lex(before).lines
  }

  /** A text without newlines adds no line exactly when it has no bare carriage return. */
  lemma {:induction false} LexText(before: string, text: string)
    requires '\n' !in text
    ensures Lex(before + text).lines >= Lex(before).lines
    ensures Lex(before + text).lines == Lex(before).lines <==> NoBareReturn(before, text)
    ensures text != "" ==> Lex(before + text).open != ['\n']
    ensures text != "" && text[|text| - 1] != '\r' ==> Lex(before + text).open == []
  {
    if text == "" {
      assert before + text == before;
    } else {
      var init, c := text[..|text| - 1], text[|text| - 1];
      assert text == init + [c];
      NoNewline(text);
      hide *;
      LexText(before, init);
      Regroup(before, init, c);
      LexMore(before + init, c);
      LexOne(before, init, c);
    }
  }

  lemma NoNewline(text: string)
    requires text != "" && '\n' !in text
    ensures text[|text| - 1] != '\n' && '\n' !in text[..|text| - 1]
  {
    assert text[|text| - 1] in text;
  }

  lemma LexOne(before: string, init: string, c: char)
    requires c != '\n' && Lex(before + (init + [c])) == Next(Lex(before + init), c)
    requires Lex(before + init).lines >= Lex(before).lines
    requires Lex(before + init).lines == Lex(before).lines <==> NoBareReturn(before, init)
    requires init != "" ==> Lex(before + init).open != ['\n']
    ensures var text := init + [c];
            && Lex(before + text).lines >= Lex(before).lines
            && (Lex(before + text).lines == Lex(before).lines <==> NoBareReturn(before, text))
            && Lex(before + text).open != ['\n']
            && (c != '\r' ==> Lex(before + text).open == [])
  {
    var text := init + [c];
    OpenIsBreak(before + init);
    hide Lex;
    if init == "" {
      assert before + init == before && text == [c];
      assert c == '\r' ==> before + text == before + "\r";
    }
    assert text[|init|] == c && forall i :: 0 <= i < |init| ==> text[i] == init[i];
  }

  lemma {:induction false} OpenIsBreak(s: string)
    ensures Lex(s).open == [] || Lex(s).open == ['\n'] || Lex(s).open == ['\r']
  {
  }

  /** The text is `before`, the placeholder's line and `after`; its rewriting has the code in between. */
  predicate RewrittenAt(s: string, text: string, before: string, after: string) {
    s == before + text + after && Rewrite(s) == Success(Some(before + INLINE_CODE + after))
  }

  function CountOf(before: string, line: string, after: string): nat {
    Lex(before + line + after).lines
  }

  /** Up to any point after the placeholder, Lua counts the same lines in the text and in
      the rewritten text exactly when the placeholder's line has no bare carriage return. */
  lemma LuaLinesKept(s: string, k: nat, n: nat) returns (before: string, after: string)
    requires Decide(Kinds(Split(s))) == Replace(k) && k < |Split(s)| && Split(s)[k].term != ""
    ensures before == Join(Split(s)[..k]) && RewrittenAt(s, Split(s)[k].text, before, after)
    ensures n <= |after| ==>
              (CountOf(before, INLINE_CODE, after[..n]) == CountOf(before, Split(s)[k].text, after[..n]) <==>
               NoBareReturn(before, Split(s)[k].text))
  {
    hide *;
    before, after := RewriteAt(s, k);
    if n <= |after| {
      SameCountIff(before, Split(s)[k].text, after[..n]);
    }
  }

  lemma RewriteAt(s: string, k: nat) returns (before: string, after: string)
    requires Decide(Kinds(Split(s))) == Replace(k) && k < |Split(s)| && Split(s)[k].term != ""
    ensures before == Join(Split(s)[..k]) && RewrittenAt(s, Split(s)[k].text, before, after)
    ensures var text := Split(s)[k].text; text != "" && '\n' !in text && text[|text| - 1] != '\r'
  {
    StructureKept(s, k);
    SplitJoin(s);
    before, after := LineAt(Split(s), k, INLINE_CODE);
    PlaceholderText(Split(s), k);
    ReplaceCodeIs(Split(s), k);
    hide Split, Decide, Kinds, Rewrite, Join, ReplaceCode, Classify, WellFormed;
  }

  lemma ReplaceCodeIs(ls: seq<Line>, k: nat)
    requires k < |ls|
    ensures ReplaceCode(ls, k) == ls[k := Line(INLINE_CODE, ls[k].term)]
  {
  }

  lemma SameCountIff(before: string, text: string, after: string)
    requires text != "" && '\n' !in text && text[|text| - 1] != '\r'
    ensures CountOf(before, INLINE_CODE, after) == CountOf(before, text, after) <==> NoBareReturn(before, text)
  {
    LexText(before, text);
    LexCode(before);
    hide Lex, NoBareReturn;
    LexAfter(before + INLINE_CODE, before + text, after);
  }

  lemma PlaceholderText(ls: seq<Line>, k: nat)
    requires WellFormed(ls) && k < |ls| && ls[k].term != "" && Classify(ls[k].text) == Placeholder
    ensures var text := ls[k].text; text != "" && '\n' !in text && text[|text| - 1] != '\r'
  {
    if |ls[k].text| <= 1 {
      ShortIsPlain(ls[k].text);
    }
    hide Classify;
  }

  lemma LexCode(before: string)
    ensures Lex(before + INLINE_CODE) == Count(Lex(before).lines, [])
  {
    CodeIsOneLine(before);
    LexText(before, INLINE_CODE);
    hide Lex;
  }

  lemma CodeIsOneLine(before: string)
    ensures '\n' !in INLINE_CODE && NoBareReturn(before, INLINE_CODE)
    ensures INLINE_CODE != "" && INLINE_CODE[|INLINE_CODE| - 1] != '\r'
  {
    hide Lex;
    assert forall i :: 0 <= i < |INLINE_CODE| ==> INLINE_CODE[i] != '\n' && INLINE_CODE[i] != '\r';
  }

  /** A placeholder in which the white space is a carriage return. */
  function Bare(): string {
    "local" + ("\r" + ("testcase" + ("" + ("=" + ("" + ("{" + ("" + ("}" + ""))))))))
  }

  lemma BareReturn(before: string)
    ensures IsPlaceholder(Bare()) && !NoBareReturn(before, Bare())
  {
    BareIs(Bare(), "local", "\r", "testcase", "=", "{", "}");
    PlaceholderForm(Bare());
    assert Bare()[5] == '\r';
    hide Lex;
  }

  lemma BareIs(s: string, l: string, r: string, t: string, e: string, o: string, c: string)
    requires l == "local" && r == "\r" && t == "testcase" && e == "=" && o == "{" && c == "}"
    requires s == l + (r + (t + ("" + (e + ("" + (o + ("" + (c + ""))))))))
    ensures IsLocalTestcase(s)
  {
    assert "" + s == s;
    hide Token, Run;
    TokenAfter("", l, r + (t + ("" + (e + ("" + (o + ("" + (c + ""))))))));
    TokenAfter(r, t, "" + (e + ("" + (o + ("" + (c + ""))))));
    TokenAfter("", e, "" + (o + ("" + (c + ""))));
    TokenAfter("", o, "" + (c + ""));
    TokenAfter("", c, "");
  }
}
