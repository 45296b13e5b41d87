/** lib/printer.lua, parse_format: how many parameters a format string seems to have.
    It reads words, not conversion specifiers: `"%s,%s"` has no parameter. */
module Formats {
  /** One call of the callback: the conversion character, and the offset of its argument. */
  datatype Param = Param(specifier: string, offset: nat)

  // --- words ---

  /** The parts of a text between its spaces. */
  function Words(s: string): (r: seq<string>)
    ensures |r| > 0
  {
    if s == "" then [""]
    else
      var words, c := Words(s[..|s| - 1]), s[|s| - 1];
      if c == ' ' then words + [""]
      else words[..|words| - 1] + [words[|words| - 1] + [c]]
  }

  function Spaced(words: seq<string>): string
    requires words != []
  {
    if |words| == 1 then words[0] else Spaced(words[..|words| - 1]) + " " + words[|words| - 1]
  }

  /** `Words` is the splitting at spaces: it loses nothing, and no word holds a space. */
  lemma {:induction false} WordsSplit(s: string)
    ensures Spaced(Words(s)) == s
    ensures forall w :: w in Words(s) ==> ' ' !in w
  {
    if s != "" {
      var init, c := s[..|s| - 1], s[|s| - 1];
      var words := Words(init);
      WordsSplit(init);
      assert s == init + [c];
      hide Words;
      if c == ' ' {
        assert (words + [""])[..|words|] == words;
        assert init + " " + "" == s;
      } else {
        var last := words[|words| - 1];
        var longer := words[..|words| - 1] + [last + [c]];
        assert longer[..|longer| - 1] == words[..|words| - 1] && |longer| == |words|;
        assert last in words;
        if |words| > 1 {
          var front := Spaced(words[..|words| - 1]);
          assert (front + " " + last) + [c] == front + " " + (last + [c]);
        }
      }
    }
  }

  // --- the parameters of a format ---

  function Percents(w: string): nat {
    if w == "" then 0 else Percents(w[..|w| - 1]) + if w[|w| - 1] == '%' then 1 else 0
  }

  predicate Odd(n: nat) {
    n % 2 == 1
  }

  /** The text after the last percent sign. */
  function AfterPercent(w: string): (r: string)
    ensures |r| <= |w|
  {
    if w == "" || w[|w| - 1] == '%' then "" else AfterPercent(w[..|w| - 1]) + [w[|w| - 1]]
  }

  /** The character after the last percent sign, if there is one. */
  function Specifier(w: string): string {
    if AfterPercent(w) == "" then "" else AfterPercent(w)[..1]
  }

  /** The parameters of the words that a space follows. */
  function Closed(words: seq<string>): seq<string> {
    if words == [] then []
    else
      var w := words[|words| - 1];
      Closed(words[..|words| - 1]) + if Odd(Percents(w)) && w[|w| - 1] != '%' then [Specifier(w)] else []
  }

  /** The parameters of the word that nothing follows. */
  function Open(w: string): seq<string> {
    if Odd(Percents(w)) then [Specifier(w)] else []
  }

  /** The conversion characters of the parameters of `s`, in order. */
  function Specifiers(s: string): seq<string> {
    var words := Words(s);
    Closed(words[..|words| - 1]) + Open(words[|words| - 1])
  }

  function Numbered(specifiers: seq<string>): (r: seq<Param>)
    ensures |r| == |specifiers|
    ensures forall k :: 0 <= k < |r| ==> r[k] == Param(specifiers[k], k + 1)
  {
    seq(|specifiers|, k requires 0 <= k < |specifiers| => Param(specifiers[k], k + 1))
  }

  /** `parse_format` on a string; `calls` are the calls of its callback. */
  method ParseFormat(s: string) returns (nparam: nat, calls: seq<Param>)
    ensures calls == Numbered(Specifiers(s)) && nparam == |Specifiers(s)|
  {
    hide *;
    var open: nat := 0;
    nparam, calls := 0, [];
    ghost var done: seq<string>, word := [], "";
    NothingRead(s);
    for i := 1 to |s| + 1
      invariant Read(s[..i - 1], done, word, open)
      invariant calls == Numbered(Closed(done)) && nparam == |calls|
    {
      var c := s[i - 1];
      assert s[..i] == s[..i - 1] + [c];
      ReadNext(s[..i - 1], done, word, open, c);
      Position(s[..i - 1], done, word, open);
      if c == '%' {
        if open == 0 {
          open := i;
        } else {
          open := 0;
        }
      } else if open > 0 && c == ' ' {
        ClosedNext(done, word);
        if i - open > 1 {
          OpenSpecifier(s, i - 1, done, word, open);
          NumberNext(Closed(done), Specifier(word));
          nparam := nparam + 1;
          calls := calls + [Param(Sub(s, open + 1), nparam)];
        }
        open := 0;
      } else if c == ' ' {
        ClosedNext(done, word);
      }
      if c == ' ' {
        done, word := done + [word], "";
      } else {
        word := word + [c];
      }
    }
    assert s[..|s|] == s;
    AllRead(s, done, word, open);
    Position(s, done, word, open);
    if open > 0 {
      OpenSpecifier(s, |s|, done, word, open);
      NumberNext(Closed(done), Specifier(word));
      nparam := nparam + 1;
      calls := calls + [Param(Sub(s, open + 1), nparam)];
    }
  }

  /** `sub(s, i, i)` for a position counted from 1 */
  function Sub(s: string, i: nat): string
    requires i > 0
  {
    if i <= |s| then [s[i - 1]] else ""
  }

  /** What the scanner knows of the part of the format it has read: the words a
      space has ended, the word it is in, and where that word's parameter opens. */
  ghost predicate Read(read: string, done: seq<string>, word: string, open: nat) {
    && Words(read) == done + [word]
    && |word| <= |read| && word == read[|read| - |word|..]
    && open == (if Odd(Percents(word)) then |read| - |AfterPercent(word)| else 0)
    && (open > 0 <==> Odd(Percents(word)))
  }

  lemma NothingRead(s: string)
    ensures Read(s[..0], [], "", 0) && Numbered(Closed([])) == []
  {
    assert s[..0] == "";
  }

  /** One more character, as the scanner takes it. */
  lemma ReadNext(read: string, done: seq<string>, word: string, open: nat, c: char)
    requires Read(read, done, word, open)
    ensures c == '%' ==> Read(read + [c], done, word + [c], if open == 0 then |read| + 1 else 0)
    ensures c == ' ' ==> Read(read + [c], done + [word], "", 0)
    ensures c != '%' && c != ' ' ==> Read(read + [c], done, word + [c], open)
  {
    hide *;
    WordsRead(read, done, word, open);
    if c == ' ' {
      WordsNext(read, done, word, c);
      WordStarts(read, done, word);
    } else {
      WordsNext(read, done, word, c);
      WordNext(word, c);
      SuffixNext(read, done, word, open, c);
      Parity(Percents(word), Percents(word + [c]), c == '%');
      WordGrows(read, done, word, open, c, read + [c], word + [c]);
    }
  }

  lemma WordsRead(read: string, done: seq<string>, word: string, open: nat)
    requires Read(read, done, word, open)
    ensures Words(read) == done + [word]
  {
  }

  lemma WordStarts(read: string, done: seq<string>, word: string)
    requires Words(read + [' ']) == done + [word] + [""]
    ensures Read(read + [' '], done + [word], "", 0)
  {
    hide Words;
  }

  lemma WordGrows(read: string, done: seq<string>, word: string, open: nat, c: char, more: string, longer: string)
    requires Read(read, done, word, open)
    requires |more| == |read| + 1 && |longer| == |word| + 1 && |longer| <= |more|
    requires longer == more[|more| - |longer|..] && Words(more) == done + [longer]
    requires Odd(Percents(longer)) == (Odd(Percents(word)) != (c == '%'))
    requires c == '%' ==> AfterPercent(longer) == ""
    requires c != '%' ==> |AfterPercent(longer)| == |AfterPercent(word)| + 1
    ensures c == '%' ==> Read(more, done, longer, if open == 0 then |read| + 1 else 0)
    ensures c != '%' ==> Read(more, done, longer, open)
  {
    hide Words, Percents, AfterPercent, Odd;
  }

  lemma Parity(n: nat, m: nat, next: bool)
    requires m == n + if next then 1 else 0
    ensures Odd(m) == (Odd(n) != next)
  {
  }

  lemma SuffixNext(read: string, done: seq<string>, word: string, open: nat, c: char)
    requires Read(read, done, word, open)
    ensures |word| <= |read| && word + [c] == (read + [c])[|read| - |word|..]
  {
    hide Words, Percents, AfterPercent, Odd;
  }

  /** Where the open percent sign is. */
  lemma Position(read: string, done: seq<string>, word: string, open: nat)
    requires Read(read, done, word, open)
    ensures open > 0 <==> Odd(Percents(word))
    ensures open > 0 ==> |AfterPercent(word)| == |read| - open
  {
    hide Words, Percents, AfterPercent, Odd;
  }

  lemma WordsNext(read: string, done: seq<string>, word: string, c: char)
    requires Words(read) == done + [word]
    ensures Words(read + [c]) == if c == ' ' then done + [word] + [""] else done + [word + [c]]
  {
    assert (read + [c])[..|read|] == read;
  }

  lemma WordNext(word: string, c: char)
    ensures Percents(word + [c]) == Percents(word) + if c == '%' then 1 else 0
    ensures AfterPercent(word + [c]) == if c == '%' then "" else AfterPercent(word) + [c]
  {
    assert (word + [c])[..|word|] == word;
  }

  lemma ClosedNext(done: seq<string>, word: string)
    ensures Odd(Percents(word)) && AfterPercent(word) != "" ==>
              Closed(done + [word]) == Closed(done) + [Specifier(word)]
    ensures !Odd(Percents(word)) || AfterPercent(word) == "" ==> Closed(done + [word]) == Closed(done)
  {
    hide Percents, AfterPercent, Specifier, Odd, Closed;
    ClosedUnfold(done, word);
    if word != "" {
      LastOf(word);
    }
    assert Closed(done) + [] == Closed(done);
  }

  lemma ClosedUnfold(done: seq<string>, w: string)
    ensures Odd(Percents(w)) ==> w != ""
    ensures Closed(done + [w]) ==
            Closed(done) + if Odd(Percents(w)) && w[|w| - 1] != '%' then [Specifier(w)] else []
  {
    hide AfterPercent, Specifier;
    assert (done + [w])[..|done|] == done;
  }

  lemma LastOf(word: string)
    requires word != ""
    ensures AfterPercent(word) == "" <==> word[|word| - 1] == '%'
  {
  }

  /** The character after an open percent sign is the specifier of the word. */
  lemma OpenSpecifier(s: string, n: nat, done: seq<string>, word: string, open: nat)
    requires n <= |s| && Read(s[..n], done, word, open) && open > 0
    requires AfterPercent(word) != "" || n == |s|
    ensures Sub(s, open + 1) == Specifier(word)
  {
    hide Words, Percents, AfterPercent;
    var k := |AfterPercent(word)|;
    AfterIsSuffix(word);
    assert open == n - k;
    if k > 0 {
      assert AfterPercent(word)[0] == word[|word| - k] == s[..n][n - k] == s[open];
    }
  }

  lemma {:induction false} AfterIsSuffix(w: string)
    ensures AfterPercent(w) == w[|w| - |AfterPercent(w)|..]
  {
    if w != "" && w[|w| - 1] != '%' {
      AfterIsSuffix(w[..|w| - 1]);
    }
  }

  lemma NumberNext(specifiers: seq<string>, c: string)
    ensures Numbered(specifiers + [c]) == Numbered(specifiers) + [Param(c, |specifiers| + 1)]
  {
  }

  lemma AllRead(s: string, done: seq<string>, word: string, open: nat)
    requires Read(s, done, word, open)
    ensures Specifiers(s) == if open > 0 then Closed(done) + [Specifier(word)] else Closed(done)
  {
    hide Words, Percents, AfterPercent, Closed;
    assert (done + [word])[..|done|] == done;
    assert Closed(done) + [] == Closed(done);
  }

  // --- what the count is, and what it is not ---

  lemma {:induction false} PercentsAre(s: string)
    ensures Percents(s) == multiset(s)['%']
  {
    if s != "" {
      PercentsAre(s[..|s| - 1]);
      assert s == s[..|s| - 1] + [s[|s| - 1]];
    }
  }

  /** A word with one percent sign has one parameter: the character after the sign. */
  lemma OneParameter(a: string, b: string)
    requires '%' !in a && ' ' !in a && '%' !in b && ' ' !in b
    ensures Specifiers(a + "%" + b) == [if b == "" then "" else [b[0]]]
  {
    hide *;
    var w := a + "%" + b;
    PercentsAre(w);
    CountOfParts(a, "%", b);
    OneWord(w);
    AfterTheSign(a + "%", b);
    ParameterOfWord(w, b);
  }

  lemma ParameterOfWord(w: string, b: string)
    requires Words(w) == [w] && Percents(w) == 1 && AfterPercent(w) == b
    ensures Specifiers(w) == [if b == "" then "" else [b[0]]]
  {
    hide Words, Percents, AfterPercent;
    assert [w][..0] == [];
    assert b != "" ==> b[..1] == [b[0]];
  }

  lemma CountOfParts(a: string, m: string, b: string)
    requires '%' !in a && '%' !in b && m == "%"
    ensures multiset(a + m + b)['%'] == 1
  {
    assert multiset(a + m + b) == multiset(a) + multiset(m) + multiset(b);
  }

  lemma {:induction false} OneWord(w: string)
    requires ' ' !in w
    ensures Words(w) == [w]
  {
    if w != "" {
      OneWord(w[..|w| - 1]);
      assert w == w[..|w| - 1] + [w[|w| - 1]];
    }
  }

  lemma {:induction false} AfterTheSign(a: string, b: string)
    requires a != "" && a[|a| - 1] == '%' && '%' !in b
    ensures AfterPercent(a + b) == b
  {
    if b == "" {
      assert a + b == a;
    } else {
      assert (a + b)[..|a + b| - 1] == a + b[..|b| - 1] && b == b[..|b| - 1] + [b[|b| - 1]];
      AfterTheSign(a, b[..|b| - 1]);
    }
  }

  /** Two conversions in one word cancel out: `parse_format` does not count what
      `string.format` would. */
  lemma CommaSeparated()
    ensures Specifiers("%s,%s") == []
  {
    NothingYet();
    hide Words, Closed, Percents, AfterPercent, Specifier;
    InWord("", '%', "%");
    InWord("%", 's', "%s");
    InWord("%s", ',', "%s,");
    InWord("%s,", '%', "%s,%");
    InWord("%s,%", 's', "%s,%s");
    assert ["%s,%s"][..0] == [];
  }

  lemma NothingYet()
    ensures Words("") == [""] && Closed([]) == [] && Percents("") == 0
  {
  }

  lemma InWord(s: string, c: char, t: string)
    requires Words(s) == [s] && t == s + [c] && c != ' '
    ensures Words(t) == [t] && Percents(t) == Percents(s) + if c == '%' then 1 else 0
  {
    WordsNext(s, [], s, c);
    WordNext(s, c);
  }

  /** A text without percent signs has no parameter. */
  lemma {:induction false} NoPercents(s: string)
    requires '%' !in s
    ensures Specifiers(s) == []
  {
    PlainWords(s);
    hide Words, Percents;
    var words := Words(s);
    assert words[|words| - 1] in words;
    NoneClosed(words[..|words| - 1]);
  }

  lemma {:induction false} PlainWords(s: string)
    requires '%' !in s
    ensures forall w :: w in Words(s) ==> Percents(w) == 0
  {
    if s != "" {
      PlainWords(s[..|s| - 1]);
      var words, c := Words(s[..|s| - 1]), s[|s| - 1];
      WordNext(words[|words| - 1], c);
      assert words[|words| - 1] in words;
      assert c in s;
    }
  }

  lemma {:induction false} NoneClosed(words: seq<string>)
    requires forall w :: w in words ==> Percents(w) == 0
    ensures Closed(words) == []
  {
    if words != [] {
      NoneClosed(words[..|words| - 1]);
      assert words[|words| - 1] in words;
    }
  }

  /** The word holds no percent sign, or one, which does not end it when a space follows. */
  predicate AtMostOne(w: string, closed: bool) {
    Percents(w) == 0 || (Percents(w) == 1 && (closed ==> w[|w| - 1] != '%'))
  }

  function PercentsIn(words: seq<string>): nat {
    if words == [] then 0 else PercentsIn(words[..|words| - 1]) + Percents(words[|words| - 1])
  }

  /** Every percent sign is counted as a parameter exactly when the words hold at most one
      each, and none that a space follows ends in one. */
  lemma EveryPercentCountsIff(s: string)
    ensures var words := Words(s);
            |Specifiers(s)| == Percents(s) <==> forall i :: 0 <= i < |words| ==> AtMostOne(words[i], i < |words| - 1)
  {
    var words := Words(s);
    var front, last := words[..|words| - 1], words[|words| - 1];
    PercentsOfWords(s);
    ClosedCount(front);
    OpenCount(last);
    hide Words, Percents, AtMostOne, Closed, Open;
    assert forall i :: 0 <= i < |front| ==> words[i] == front[i];
  }

  lemma OpenCount(w: string)
    ensures |Open(w)| <= Percents(w)
    ensures |Open(w)| == Percents(w) <==> AtMostOne(w, false)
  {
  }

  lemma {:induction false} ClosedCount(words: seq<string>)
    ensures |Closed(words)| <= PercentsIn(words)
    ensures |Closed(words)| == PercentsIn(words) <==> forall i :: 0 <= i < |words| ==> AtMostOne(words[i], true)
  {
    if words != [] {
      var front, w := words[..|words| - 1], words[|words| - 1];
      ClosedCount(front);
      hide Percents, AtMostOne, Odd;
      WordCount(w);
      assert forall i :: 0 <= i < |front| ==> words[i] == front[i];
    }
  }

  lemma WordCount(w: string)
    ensures Odd(Percents(w)) ==> w != "" && Percents(w) >= 1
    ensures Odd(Percents(w)) && w[|w| - 1] != '%' ==> (Percents(w) == 1 <==> AtMostOne(w, true))
    ensures !(Odd(Percents(w)) && w[|w| - 1] != '%') ==> (Percents(w) == 0 <==> AtMostOne(w, true))
  {
  }

  lemma {:induction false} PercentsOfWords(s: string)
    ensures Percents(s) == PercentsIn(Words(s)[..|Words(s)| - 1]) + Percents(Words(s)[|Words(s)| - 1])
  {
    if s != "" {
      var init, c := s[..|s| - 1], s[|s| - 1];
      assert s == init + [c];
      PercentsOfWords(init);
      hide *;
      var words := Words(init);
      WordsMore(init, c);
      WordNext(init, c);
      PercentsMore(words[..|words| - 1], words[|words| - 1], c);
    }
  }

  lemma WordsMore(s: string, c: char)
    ensures var front, last := Words(s)[..|Words(s)| - 1], Words(s)[|Words(s)| - 1];
            Words(s + [c]) == if c == ' ' then front + [last] + [""] else front + [last + [c]]
  {
    var front, last := Words(s)[..|Words(s)| - 1], Words(s)[|Words(s)| - 1];
    assert Words(s) == front + [last];
    WordsNext(s, front, last, c);
    hide Words;
  }

  lemma PercentsMore(front: seq<string>, last: string, c: char)
    ensures var words := if c == ' ' then front + [last] + [""] else front + [last + [c]];
            PercentsIn(words[..|words| - 1]) + Percents(words[|words| - 1]) ==
            PercentsIn(front) + Percents(last) + if c == '%' then 1 else 0
  {
    WordNext(last, c);
    PercentsAppend(front, last);
    NothingYet();
    hide PercentsIn, Percents;
    if c == ' ' {
      assert (front + [last] + [""])[..|front| + 1] == front + [last];
    } else {
      assert (front + [last + [c]])[..|front|] == front;
    }
  }

  lemma PercentsAppend(front: seq<string>, last: string)
    ensures PercentsIn(front + [last]) == PercentsIn(front) + Percents(last)
  {
    assert (front + [last])[..|front|] == front;
  }

  // --- conversions ---

  /** The percent signs that are left when pairs of them are taken out from the left, and
      whether the text ends in one of those. */
  datatype Marks = Marks(count: nat, open: bool)

  function Mark(w: string): (m: Marks)
    ensures m.open ==> m.count > 0
  {
    if w == "" then Marks(0, false)
    else
      var m := Mark(w[..|w| - 1]);
      if w[|w| - 1] != '%' then Marks(m.count, false)
      else if m.open then Marks(m.count - 1, false)
      else Marks(m.count + 1, true)
  }

  /** The conversions of a format: `%%` is none. */
  function Conversions(s: string): nat {
    Mark(s).count
  }

  function ConversionsIn(words: seq<string>): nat {
    if words == [] then 0 else ConversionsIn(words[..|words| - 1]) + Conversions(words[|words| - 1])
  }

  /** The word holds no conversion, or one; then a space after it does not follow a percent sign. */
  predicate OneConversion(w: string, closed: bool) {
    Conversions(w) == 0 || (Conversions(w) == 1 && (closed ==> w[|w| - 1] != '%'))
  }

  /** The count is the number of conversions exactly when the words hold at most one each,
      and no word with one that a space follows ends in a percent sign. */
  lemma ConversionsCountIff(s: string)
    ensures var words := Words(s);
            |Specifiers(s)| == Conversions(s) <==>
            forall i :: 0 <= i < |words| ==> OneConversion(words[i], i < |words| - 1)
  {
    var words := Words(s);
    var front, last := words[..|words| - 1], words[|words| - 1];
    MarksOfWords(s);
    ClosedConversions(front);
    OpenConversions(last);
    hide Words, Conversions, OneConversion, Closed, Open;
    assert forall i :: 0 <= i < |front| ==> words[i] == front[i];
  }

  lemma {:induction false} SameParity(w: string)
    ensures Odd(Percents(w)) <==> Odd(Conversions(w))
  {
    if w != "" {
      var init, c := w[..|w| - 1], w[|w| - 1];
      SameParity(init);
      var m := Mark(init);
      hide Odd;
      Parity(Percents(init), Percents(w), c == '%');
      if c == '%' && m.open {
        Parity(m.count - 1, m.count, true);
      } else {
        Parity(m.count, Conversions(w), c == '%');
      }
    }
  }

  lemma OpenConversions(w: string)
    ensures |Open(w)| <= Conversions(w)
    ensures |Open(w)| == Conversions(w) <==> OneConversion(w, false)
  {
    SameParity(w);
    hide Mark, Percents, Specifier;
  }

  lemma WordConversions(w: string)
    ensures Odd(Percents(w)) ==> w != "" && Conversions(w) >= 1
    ensures Odd(Percents(w)) && w[|w| - 1] != '%' ==> (Conversions(w) == 1 <==> OneConversion(w, true))
    ensures !(Odd(Percents(w)) && w[|w| - 1] != '%') ==> (Conversions(w) == 0 <==> OneConversion(w, true))
  {
    SameParity(w);
    assert Percents("") == 0;
    hide Mark, Percents;
  }

  lemma {:induction false} ClosedConversions(words: seq<string>)
    ensures |Closed(words)| <= ConversionsIn(words)
    ensures |Closed(words)| == ConversionsIn(words) <==> forall i :: 0 <= i < |words| ==> OneConversion(words[i], true)
  {
    if words != [] {
      var front, w := words[..|words| - 1], words[|words| - 1];
      ClosedConversions(front);
      hide Conversions, Percents, OneConversion, Odd;
      WordConversions(w);
      assert forall i :: 0 <= i < |front| ==> words[i] == front[i];
    }
  }

  /** A space ends a pair, so the words may be taken one by one. */
  lemma {:induction false} MarksOfWords(s: string)
    ensures var words := Words(s);
            && Conversions(s) == ConversionsIn(words[..|words| - 1]) + Conversions(words[|words| - 1])
            && Mark(s).open == Mark(words[|words| - 1]).open
  {
    if s != "" {
      var init, c := s[..|s| - 1], s[|s| - 1];
      assert s == init + [c];
      MarksOfWords(init);
      hide *;
      var words := Words(init);
      WordsMore(init, c);
      MarksMore(init, words[..|words| - 1], words[|words| - 1], c);
    }
  }

  lemma MarkNext(w: string, c: char)
    ensures Mark(w + [c]) ==
            if c != '%' then Marks(Mark(w).count, false)
            else if Mark(w).open then Marks(Mark(w).count - 1, false)
            else Marks(Mark(w).count + 1, true)
  {
    assert (w + [c])[..|w|] == w;
  }

  lemma ConversionsAppend(front: seq<string>, last: string)
    ensures ConversionsIn(front + [last]) == ConversionsIn(front) + Conversions(last)
  {
    assert (front + [last])[..|front|] == front;
  }

  lemma MarksMore(s: string, front: seq<string>, last: string, c: char)
    requires Conversions(s) == ConversionsIn(front) + Conversions(last) && Mark(s).open == Mark(last).open
    ensures var words := if c == ' ' then front + [last] + [""] else front + [last + [c]];
            && Conversions(s + [c]) == ConversionsIn(words[..|words| - 1]) + Conversions(words[|words| - 1])
            && Mark(s + [c]).open == Mark(words[|words| - 1]).open
  {
    MarkNext(s, c);
    MarkNext(last, c);
    ConversionsAppend(front, last);
    assert Mark("") == Marks(0, false);
    hide ConversionsIn, Mark;
    if c == ' ' {
      assert (front + [last] + [""])[..|front| + 1] == front + [last];
    } else {
      assert (front + [last + [c]])[..|front|] == front;
    }
  }
}
