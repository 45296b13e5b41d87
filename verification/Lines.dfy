/** Splitting a text into lines the way `find(s, '\r*\n', pos)` does, and back. */
module Lines {
  import opened Prelude
  import opened Patterns

  /** The terminator pattern of lib/eval.lua. */
  const CRLF: Pattern := Star(Only('\r'), One(Only('\n'), End))

  datatype Line = Line(text: string, term: string)

  /** Index of the first `c` in `s`, or `|s|`. */
  function IndexOf(c: char, s: string): (n: nat)
    ensures n <= |s|
    ensures forall i :: 0 <= i < n ==> s[i] != c
    ensures n < |s| ==> s[n] == c
  {
    if s == "" || s[0] == c then 0 else 1 + IndexOf(c, s[1..])
  }

  /** `s` without the carriage returns at its end. */
  function StripCr(s: string): (r: string)
    ensures r <= s
    ensures forall i :: |r| <= i < |s| ==> s[i] == '\r'
    ensures r != "" ==> r[|r| - 1] != '\r'
  {
    if s != "" && s[|s| - 1] == '\r' then StripCr(s[..|s| - 1]) else s
  }

  function Split(s: string): (ls: seq<Line>)
    ensures |ls| > 0
  {
    var n := IndexOf('\n', s);
    if n == |s| then [Line(s, "")]
    else var text := StripCr(s[..n]); [Line(text, s[|text|..n + 1])] + Split(s[n + 1..])
  }

  function Join(ls: seq<Line>): string {
    if ls == [] then "" else ls[0].text + ls[0].term + Join(ls[1..])
  }

  predicate IsTerminator(t: string) {
    t != "" && t[|t| - 1] == '\n' && forall i :: 0 <= i < |t| - 1 ==> t[i] == '\r'
  }

  /** A text that is followed by a terminator: no newline, no `\r` at its end. */
  predicate IsTerminated(t: string) {
    '\n' !in t && (t != "" ==> t[|t| - 1] != '\r')
  }

  /** The sequences of lines that are the lines of some text. */
  predicate WellFormed(ls: seq<Line>) {
    && |ls| > 0
    && (forall i :: 0 <= i < |ls| - 1 ==> IsTerminator(ls[i].term) && IsTerminated(ls[i].text))
    && ls[|ls| - 1].term == "" && '\n' !in ls[|ls| - 1].text
  }

  lemma WellFormedCons(l: Line, ls: seq<Line>)
    requires IsTerminator(l.term) && IsTerminated(l.text) && WellFormed(ls)
    ensures WellFormed([l] + ls) && Join([l] + ls) == l.text + l.term + Join(ls)
  {
    assert forall i :: 0 < i < |ls| + 1 ==> ([l] + ls)[i] == ls[i - 1];
    assert ([l] + ls)[1..] == ls;
  }

  /** The first line of a text that has a newline, cut into its three parts. */
  lemma CutFirstLine(s: string) returns (text: string, crs: string, rest: string)
    requires IndexOf('\n', s) < |s|
    ensures IsTerminated(text) && AllIn(Only('\r'), crs, |crs|)
    ensures s == text + (crs + ("\n" + rest))
    ensures IndexOf('\n', s) == |text| + |crs| && StripCr(s[..|text| + |crs|]) == text
    ensures |rest| < |s| && Split(s) == [Line(text, crs + "\n")] + Split(rest)
  {
    hide *;
    var n := IndexOf('\n', s);
    text := StripCr(s[..n]);
    crs, rest := s[|text|..n], s[n + 1..];
    SplitUnfold(s);
    TextOf(s[..n]);
    CutAt(s, |text|, n);
    assert s[..n][|text|..] == crs && text == s[..|text|] && s[..|text| + |crs|] == s[..n];
  }

  lemma SplitUnfold(s: string)
    requires IndexOf('\n', s) < |s|
    ensures var n := IndexOf('\n', s);
            var text := StripCr(s[..n]);
            Split(s) == [Line(text, s[|text|..n + 1])] + Split(s[n + 1..])
  {
  }

  lemma TextOf(s: string)
    requires '\n' !in s
    ensures IsTerminated(StripCr(s)) && AllIn(Only('\r'), s[|StripCr(s)|..], |s| - |StripCr(s)|)
  {
  }

  lemma CutAt(s: string, h: nat, n: nat)
    requires h <= n < |s| && s[n] == '\n'
    ensures s[h..n + 1] == s[h..n] + "\n"
    ensures s == s[..h] + (s[h..n] + ("\n" + s[n + 1..]))
  {
  }

  /** Splitting loses nothing and yields well-formed lines. */
  lemma {:induction false} SplitJoin(s: string)
    ensures WellFormed(Split(s)) && Join(Split(s)) == s
    decreases |s|
  {
    hide *;
    if IndexOf('\n', s) == |s| {
      SplitJoinLast(s);
    } else {
      var text, crs, rest := CutFirstLine(s);
      SplitJoin(rest);
      TerminatorOf(crs);
      WellFormedCons(Line(text, crs + "\n"), Split(rest));
      assert s == text + (crs + "\n") + rest;
    }
  }

  lemma SplitJoinLast(s: string)
    requires IndexOf('\n', s) == |s|
    ensures WellFormed(Split(s)) && Join(Split(s)) == s
  {
    assert Join([Line(s, "")]) == s + "" + Join([]);
  }

  lemma TerminatorOf(crs: string)
    requires AllIn(Only('\r'), crs, |crs|)
    ensures IsTerminator(crs + "\n")
  {
  }

  /** Every well-formed sequence of lines is the split of its own text. */
  lemma {:induction false} JoinSplit(ls: seq<Line>)
    requires WellFormed(ls)
    ensures Split(Join(ls)) == ls
  {
    if |ls| == 1 {
      assert Join(ls) == ls[0].text;
      assert ls == [ls[0]];
    } else {
      assert Join(ls) == ls[0].text + ls[0].term + Join(ls[1..]);
      hide *;
      SplitOne(ls[0], Join(ls[1..]));
      JoinSplit(ls[1..]);
      assert ls == [ls[0]] + ls[1..];
    }
  }

  lemma SplitOne(l: Line, rest: string)
    requires IsTerminator(l.term) && IsTerminated(l.text)
    ensures Split(l.text + l.term + rest) == [l] + Split(rest)
  {
    var s, n := l.text + l.term + rest, |l.text| + |l.term| - 1;
    assert s[n] == l.term[|l.term| - 1];
    forall i | 0 <= i < n ensures s[i] != '\n' {
      assert s[i] == if i < |l.text| then l.text[i] else l.term[i - |l.text|];
    }
    assert IndexOf('\n', s) == n;
    assert s[..n] == l.text + l.term[..|l.term| - 1];
    StripCrOf(l.text, l.term[..|l.term| - 1]);
    assert s[|l.text|..n + 1] == l.term && s[n + 1..] == rest;
  }

  lemma {:induction false} StripCrOf(text: string, crs: string)
    requires text != "" ==> text[|text| - 1] != '\r'
    requires forall i :: 0 <= i < |crs| ==> crs[i] == '\r'
    ensures StripCr(text + crs) == text
  {
    if crs == "" {
      assert text + crs == text;
    } else {
      assert (text + crs)[..|text + crs| - 1] == text + crs[..|crs| - 1];
      StripCrOf(text, crs[..|crs| - 1]);
    }
  }

  /** Where line `k` lies in the text, and what replacing its text does. */
  lemma {:induction false} LineAt(ls: seq<Line>, k: nat, text: string) returns (before: string, after: string)
    requires k < |ls|
    ensures before == Join(ls[..k])
    ensures Join(ls) == before + ls[k].text + after
    ensures Join(ls[k := Line(text, ls[k].term)]) == before + text + after
  {
    hide *;
    var l := Line(text, ls[k].term);
    JoinUnfold(ls);
    JoinUnfold(ls[k := l]);
    if k == 0 {
      before, after := "", ls[0].term + Join(ls[1..]);
      JoinNil();
      assert ls[..0] == [] && ls[0 := l][1..] == ls[1..];
      Regroup("", "", ls[0].text, ls[0].term, Join(ls[1..]));
      Regroup("", "", text, ls[0].term, Join(ls[1..]));
    } else {
      var b, a := LineAt(ls[1..], k - 1, text);
      var head := ls[0].text + ls[0].term;
      before, after := head + b, a;
      assert ls[k := l][1..] == ls[1..][k - 1 := l];
      assert ls[..k][1..] == ls[1..][..k - 1];
      JoinUnfold(ls[..k]);
      Regroup(head, b, ls[k].text, a, "");
      Regroup(head, b, text, a, "");
    }
  }

  lemma JoinNil()
    ensures Join([]) == ""
  {
  }

  lemma Regroup(a: string, b: string, c: string, d: string, e: string)
    ensures a + (b + c + d) == (a + b) + c + d
    ensures c + d + e == "" + c + (d + e)
  {
  }

  lemma JoinUnfold(ls: seq<Line>)
    requires ls != []
    ensures Join(ls) == ls[0].text + ls[0].term + Join(ls[1..])
  {
  }

  // --- the search that lib/eval.lua uses to find the line ends ---

  lemma MatchCrlf(s: string)
    ensures Match(CRLF, s) == var n := Run(Only('\r'), s);
                              if n < |s| && s[n] == '\n' then Some(n + 1) else None
  {
    hide Match;
    SkipRun(One(Only('\n'), End), Only('\r'), s);
    MatchLf(Skip(Only('\r'), s));
  }

  lemma MatchLf(s: string)
    ensures Match(One(Only('\n'), End), s) == if s != "" && s[0] == '\n' then Some(1) else None
  {
  }

  /** The run of carriage returns before a newline matches whole, whereever it is cut. */
  lemma MatchTerminator(crs: string, rest: string)
    requires AllIn(Only('\r'), crs, |crs|)
    ensures Match(CRLF, crs + ("\n" + rest)) == Some(|crs| + 1)
  {
    RunExact(Only('\r'), crs, "\n" + rest);
    MatchCrlf(crs + ("\n" + rest));
  }

  /** No match starts inside the text of a terminated line. */
  lemma NoMatchInside(text: string, rest: string)
    requires text != "" && text[|text| - 1] != '\r' && '\n' !in text
    ensures Match(CRLF, text + rest).None?
  {
    var s, k := text + rest, |text| - 1;
    assert forall i :: 0 <= i <= k ==> s[i] == text[i];
    MatchCrlf(s);
    assert Run(Only('\r'), s) <= k;
  }

  lemma NoMatchWithoutNewline(s: string)
    requires '\n' !in s
    ensures Match(CRLF, s).None?
  {
    MatchCrlf(s);
  }

  /** The leftmost match of the pattern is the end of the first line. */
  lemma {:induction false} FindAfterText(text: string, crs: string, rest: string)
    requires IsTerminated(text) && AllIn(Only('\r'), crs, |crs|)
    ensures FindFirst(CRLF, text + (crs + ("\n" + rest))) == Some((|text|, |text| + |crs| + 1))
  {
    var tail := crs + ("\n" + rest);
    if text == "" {
      assert text + tail == tail;
      MatchTerminator(crs, rest);
    } else {
      NoMatchInside(text, tail);
      assert (text + tail)[1..] == text[1..] + tail;
      FindAfterText(text[1..], crs, rest);
    }
  }

  lemma {:induction false} FindNothing(s: string)
    requires '\n' !in s
    ensures FindFirst(CRLF, s).None?
  {
    NoMatchWithoutNewline(s);
    if s != "" {
      FindNothing(s[1..]);
    }
  }

  lemma FindCrlf(s: string)
    ensures var n := IndexOf('\n', s);
            n == |s| ==> FindFirst(CRLF, s) == None
    ensures var n := IndexOf('\n', s);
            n < |s| ==> FindFirst(CRLF, s) == Some((|StripCr(s[..n])|, n + 1))
  {
    hide FindFirst, StripCr, IndexOf;
    if IndexOf('\n', s) == |s| {
      FindNothing(s);
    } else {
      var text, crs, rest := CutFirstLine(s);
      FindAfterText(text, crs, rest);
    }
  }

  /** The search at `pos` finds the end of the first line of the rest. */
  lemma FindFrom(s: string, pos: nat)
    requires pos <= |s|
    ensures var n := IndexOf('\n', s[pos..]);
            n == |s| - pos ==> Find(CRLF, s, pos) == None
    ensures var n := IndexOf('\n', s[pos..]);
            n < |s| - pos ==> Find(CRLF, s, pos) == Some((pos + |StripCr(s[pos..][..n])|, pos + n + 1))
  {
    hide FindFirst, IndexOf, StripCr;
    FindCrlf(s[pos..]);
  }

  /** A search that fails at `pos` leaves one unterminated line. */
  lemma LastLine(s: string, pos: nat)
    requires pos <= |s| && Find(CRLF, s, pos).None?
    ensures Split(s[pos..]) == [Line(s[pos..], "")]
  {
    FindFrom(s, pos);
  }

  /** A search that succeeds at `pos` delimits the next line. */
  lemma NextLine(s: string, pos: nat, head: nat, tail: nat)
    requires pos <= |s| && Find(CRLF, s, pos) == Some((head, tail))
    ensures pos <= head < tail <= |s|
    ensures Split(s[pos..]) == [Line(s[pos..head], s[head..tail])] + Split(s[tail..])
  {
    var n := tail - pos - 1;
    assert n == IndexOf('\n', s[pos..]) < |s| - pos && head == pos + |StripCr(s[pos..][..n])| by {
      FindFrom(s, pos);
    }
    SplitAt(s, pos, n, head);
  }

  lemma SplitAt(s: string, pos: nat, n: nat, h: nat)
    requires pos <= |s| && n == IndexOf('\n', s[pos..]) < |s| - pos
    requires h == pos + |StripCr(s[pos..][..n])|
    ensures Split(s[pos..]) == [Line(s[pos..h], s[h..pos + n + 1])] + Split(s[pos + n + 1..])
  {
    hide *;
    var r := s[pos..];
    var text, term, rest := StripCr(r[..n]), r[h - pos..n + 1], r[n + 1..];
    SplitUnfold(r);
    assert text == s[pos..h] by { SliceOfTail(s, pos, 0, h - pos); SliceOfTail(s, pos, 0, n); }
    assert term == s[h..pos + n + 1] by { SliceOfTail(s, pos, h - pos, n + 1); }
    assert rest == s[pos + n + 1..];
  }

  lemma SliceOfTail(s: string, pos: nat, a: nat, b: nat)
    requires a <= b && pos + b <= |s|
    ensures s[pos..][a..b] == s[pos + a..pos + b]
  {
  }
}
