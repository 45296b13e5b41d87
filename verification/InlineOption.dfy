/** lib/eval.lua: the inline option `-- lua-testcase: true|false` and the rewriting
    of the placeholder line that follows it. */
module InlineOption {
  import opened Prelude
  import opened Patterns
  import opened Lines
  import Trim

  const INLINE_CODE: string := "local testcase = require('testcase')"

  const OPTION_NAME: string := "lua-testcase:"

  /** `^%s*[-]+%s*lua[-]testcase:%s*` */
  const INLINE_OPT: Pattern := Star(Space, Plus(Only('-'), Star(Space, Lit(OPTION_NAME, Star(Space, End)))))

  /** `^%s*local%s+testcase%s*=%s*{%s*}` */
  const PLACEHOLDER: Pattern := Star(Space, Lit("local", Plus(Space, Lit("testcase", BRACES))))
  const BRACES: Pattern := Star(Space, One(Only('='), Star(Space, One(Only('{'), Star(Space, One(Only('}'), End))))))

  datatype OptionValue = Enabled | Disabled | Invalid

  datatype Error = BadValue | AlreadyDefined | NoPlaceholder

  function ValueOf(text: string): OptionValue {
    if text == "true" then Enabled else if text == "false" then Disabled else Invalid
  }

  /** The value of the option on a line, if the line carries the option. */
  function OptionOf(line: string): Option<OptionValue> {
    match Match(INLINE_OPT, line)
    case None => None
    case Some(n) => Some(ValueOf(Trim.TrimSpace(line[n..])))
  }

  predicate IsPlaceholder(line: string) {
    Match(PLACEHOLDER, line).Some?
  }

  // --- what the file as a whole means ---

  /** What a line is to the scanner; no line is both a placeholder and an option
      (PlaceholderIsNoOption). */
  datatype Kind = Plain | Placeholder | Opt(value: OptionValue)

  function Classify(line: string): Kind {
    if IsPlaceholder(line) then Placeholder
    else if OptionOf(line).Some? then Opt(OptionOf(line).value)
    else Plain
  }

  function Kinds(ls: seq<Line>): (ks: seq<Kind>)
    ensures |ks| == |ls|
  {
    seq(|ls|, i requires 0 <= i < |ls| => Classify(ls[i].text))
  }

  datatype Decision = Ignored | Replace(k: nat) | Rejected(error: Error)

  predicate IsDecisive(k: Kind) {
    k.Opt? && k.value != Disabled
  }

  /** Index of the first line from `from` on that decides the fate of the file. */
  function FirstDecisive(ks: seq<Kind>, from: nat): (i: nat)
    requires from <= |ks|
    ensures from <= i <= |ks|
    ensures forall j :: from <= j < i ==> !IsDecisive(ks[j])
    ensures i < |ks| ==> IsDecisive(ks[i])
    decreases |ks| - from
  {
    if from == |ks| || IsDecisive(ks[from]) then from else FirstDecisive(ks, from + 1)
  }

  /** Index of the first option line from `from` on. */
  function FirstOption(ks: seq<Kind>, from: nat): (i: nat)
    requires from <= |ks|
    ensures from <= i <= |ks|
    ensures forall j :: from <= j < i ==> !ks[j].Opt?
    ensures i < |ks| ==> ks[i].Opt?
    decreases |ks| - from
  {
    if from == |ks| || ks[from].Opt? then from else FirstOption(ks, from + 1)
  }

  /** The fate of a file, read off its lines at once. */
  function Decide(ks: seq<Kind>): Decision {
    var i := FirstDecisive(ks, 0);
    if i == |ks| then Ignored
    else if ks[i].value == Invalid then Rejected(BadValue)
    else if i + 1 == |ks| || !ks[i + 1].Placeholder? then Rejected(NoPlaceholder)
    else
      var j := FirstOption(ks, i + 2);
      if j == |ks| then Replace(i + 1)
      else if ks[j].value == Invalid then Rejected(BadValue)
      else Rejected(AlreadyDefined)
  }

  function ReplaceCode(ls: seq<Line>, k: nat): seq<Line> {
    if k < |ls| then ls[k := Line(INLINE_CODE, ls[k].term)] else ls
  }

  /** The whole transformation: nothing to load, a rewritten text, or an error. */
  function Rewrite(s: string): Result<Option<string>, Error> {
    Outcome(Decide(Kinds(Split(s))), Split(s))
  }

  function Outcome(d: Decision, ls: seq<Line>): Result<Option<string>, Error> {
    match d
    case Ignored => Success(None)
    case Rejected(e) => Failure(e)
    case Replace(k) => Success(Some(Join(ReplaceCode(ls, k))))
  }

  // --- the incremental context ---

  /** The three fields of the Lua table `ctx`. */
  datatype View = View(chknext: bool, defline: Option<nat>, decl: Option<(nat, nat)>)

  const START: View := View(false, None, None)

  /** What one call of `checkline` does; `head..tail` is where the line lies in the text. */
  function Check(v: View, k: Kind, lineno: nat, head: nat, tail: nat): Result<View, Error> {
    if v.chknext then
      if k.Placeholder? then Success(View(false, v.defline, Some((head, tail)))) else Failure(NoPlaceholder)
    else
      match k
      case Opt(value) =>
        if value == Invalid then Failure(BadValue)
        else if v.defline.Some? then Failure(AlreadyDefined)
        else if value == Enabled then Success(View(true, Some(lineno), v.decl))
        else Success(v)
      case _ => Success(v)
  }

  /** All calls of `checkline` for lines of kinds `ks` that lie where `ls` do. */
  function Scan(v: View, ks: seq<Kind>, ls: seq<Line>, lineno: nat, pos: nat): Result<View, Error>
    requires |ks| == |ls|
    decreases |ls|
  {
    if ls == [] then Success(v)
    else
      var l := ls[0];
      var next :- Check(v, ks[0], lineno + 1, pos, pos + |l.text|);
      Scan(next, ks[1..], ls[1..], lineno + 1, pos + |l.text| + |l.term|)
  }

  /** What `parse_inlineopt` returns once the lines have been scanned. */
  function Conclude(r: Result<View, Error>, s: string): Result<Option<string>, Error> {
    match r
    case Failure(e) => Failure(e)
    case Success(v) =>
      if v.decl.Some? then
        var (head, tail) := v.decl.value;
        if head <= tail <= |s| then Success(Some(s[..head] + INLINE_CODE + s[tail..])) else Success(None)
      else if v.chknext then Failure(NoPlaceholder)
      else Success(None)
  }

  // --- what the two patterns recognise ---

  /** What follows the dashes of an option line, white space skipped. */
  function AfterDashes(line: string): string {
    Skip(Space, Skip(Only('-'), Skip(Space, line)))
  }

  predicate IsOptionLine(line: string) {
    Run(Only('-'), Skip(Space, line)) > 0 && OPTION_NAME <= AfterDashes(line)
  }

  /** An option line is white space, at least one dash, white space, the name, a value. */
  lemma OptionForm(line: string)
    ensures OptionOf(line).Some? <==> IsOptionLine(line)
    ensures IsOptionLine(line) ==>
              OptionOf(line) == Some(ValueOf(Trim.TrimSpace(AfterDashes(line)[|OPTION_NAME|..])))
  {
    hide Match, Skip, Run, AfterDashes;
    var n := OptionEnd(line);
    if IsOptionLine(line) {
      var value := AfterDashes(line)[|OPTION_NAME|..];
      OptionValueIsSuffix(line);
      Trim.TrimSkipped(value);
    }
  }

  lemma OptionValueIsSuffix(line: string)
    requires OPTION_NAME <= AfterDashes(line)
    ensures var v := Skip(Space, AfterDashes(line)[|OPTION_NAME|..]);
            |v| <= |line| && line[|line| - |v|..] == v
  {
    hide Run;
  }

  lemma OptionEnd(line: string) returns (n: Option<nat>)
    ensures n == Match(INLINE_OPT, line)
    ensures n == if IsOptionLine(line)
                 then Some(|line| - |Skip(Space, AfterDashes(line)[|OPTION_NAME|..])|) else None
  {
    NamedOption(OPTION_NAME, line);
    n := Match(INLINE_OPT, line);
  }

  lemma NamedOption(name: string, line: string)
    requires name != "" && !IsSpace(name[0]) && name[0] != '-'
    ensures Match(Star(Space, Plus(Only('-'), Star(Space, Lit(name, Star(Space, End))))), line) ==
            if Run(Only('-'), Skip(Space, line)) > 0 && name <= AfterDashes(line)
            then Some(|line| - |Skip(Space, AfterDashes(line)[|name|..])|) else None
  {
    hide Match, Skip;
    var p := Plus(Only('-'), Star(Space, Lit(name, Star(Space, End))));
    assert Match(Star(Space, p), line) == After(Run(Space, line), Match(p, Skip(Space, line))) by {
      SkipRun(p, Space, line);
    }
    DashesThenName(name, Skip(Space, line));
  }

  lemma DashesThenName(name: string, s: string)
    requires name != "" && !IsSpace(name[0]) && name[0] != '-'
    ensures var t := Skip(Space, Skip(Only('-'), s));
            Match(Plus(Only('-'), Star(Space, Lit(name, Star(Space, End)))), s) ==
            if Run(Only('-'), s) > 0 && name <= t then Some(|s| - |Skip(Space, t[|name|..])|) else None
  {
    hide Match, Skip;
    var rest := Star(Space, Lit(name, Star(Space, End)));
    assert Match(Plus(Only('-'), rest), s) ==
           if Run(Only('-'), s) == 0 then None
           else After(Run(Only('-'), s), Match(rest, Skip(Only('-'), s))) by {
      SkipRun(rest, Only('-'), s);
    }
    NameAfterSpace(name, Skip(Only('-'), s));
  }

  lemma LastRun(s: string)
    ensures Match(Star(Space, End), s) == Some(Run(Space, s))
  {
  }

  lemma NameAfterSpace(name: string, s: string)
    requires name != "" && !IsSpace(name[0])
    ensures Match(Star(Space, Lit(name, Star(Space, End))), s) ==
            if name <= Skip(Space, s)
            then Some(|s| - |Skip(Space, Skip(Space, s)[|name|..])|) else None
  {
    hide Match, Skip;
    var t := Skip(Space, s);
    assert Match(Star(Space, Lit(name, Star(Space, End))), s) ==
           After(Run(Space, s), Match(Lit(name, Star(Space, End)), t)) by {
      SkipRun(Lit(name, Star(Space, End)), Space, s);
    }
    MatchLit(name, Star(Space, End), t);
    if name <= t {
      LastRun(t[|name|..]);
    }
  }

  /** What follows the token `t` once white space is skipped, if `t` comes next. */
  function Token(t: string, s: string): Option<string> {
    var r := Skip(Space, s);
    if t <= r then Some(r[|t|..]) else None
  }

  /** The last three tokens of the placeholder. */
  predicate IsBraces(s: string) {
    match Token("=", s)
    case None => false
    case Some(a) =>
      match Token("{", a)
      case None => false
      case Some(b) => Token("}", b).Some?
  }

  predicate IsLocalTestcase(line: string) {
    match Token("local", line)
    case None => false
    case Some(a) => Run(Space, a) > 0 && Token("testcase", a).Some? && IsBraces(Token("testcase", a).value)
  }

  lemma TokenStep(t: string, p: Pattern, s: string)
    requires t != "" && !IsSpace(t[0])
    ensures Match(Star(Space, Lit(t, p)), s).Some? <==> Token(t, s).Some? && Match(p, Token(t, s).value).Some?
    ensures Match(Plus(Space, Lit(t, p)), s).Some? <==>
            Run(Space, s) > 0 && Token(t, s).Some? && Match(p, Token(t, s).value).Some?
  {
    hide Match;
    SkipRun(Lit(t, p), Space, s);
    MatchLit(t, p, Skip(Space, s));
  }

  lemma BracesForm(s: string)
    ensures Match(BRACES, s).Some? <==> IsBraces(s)
  {
    var p1 := Star(Space, One(Only('}'), End));
    var p2 := Star(Space, One(Only('{'), p1));
    assert Lit("=", p2) == One(Only('='), p2) && Lit("{", p1) == One(Only('{'), p1);
    assert Lit("}", End) == One(Only('}'), End);
    TokenStep("=", p2, s);
    var a := Token("=", s);
    if a.Some? {
      TokenStep("{", p1, a.value);
      var b := Token("{", a.value);
      if b.Some? {
        TokenStep("}", End, b.value);
      }
    }
  }

  /** A placeholder line is `local`, white space, `testcase`, `=`, `{`, `}`, and anything. */
  lemma PlaceholderForm(line: string)
    ensures IsPlaceholder(line) <==> IsLocalTestcase(line)
  {
    assert IsPlaceholder(line) <==>
           Token("local", line).Some? &&
           Match(Plus(Space, Lit("testcase", BRACES)), Token("local", line).value).Some? by {
      TokenStep("local", Plus(Space, Lit("testcase", BRACES)), line);
    }
    var a := Token("local", line);
    if a.Some? {
      TokenStep("testcase", BRACES, a.value);
      if Token("testcase", a.value).Some? {
        BracesForm(Token("testcase", a.value).value);
      }
    }
  }

  /** The two patterns never match the same line. */
  lemma PlaceholderIsNoOption(line: string)
    requires IsPlaceholder(line)
    ensures OptionOf(line).None?
  {
    PlaceholderForm(line);
    OptionForm(line);
    assert Skip(Space, line)[0] == "local"[0];
  }

  lemma ShortIsNeither(line: string)
    requires |line| <= 1
    ensures OptionOf(line).None? && !IsPlaceholder(line)
  {
    PlaceholderForm(line);
    OptionForm(line);
  }

  lemma TokenAfter(spaces: string, t: string, rest: string)
    requires AllIn(Space, spaces, |spaces|) && t != "" && !IsSpace(t[0])
    ensures Token(t, spaces + (t + rest)) == Some(rest) && Run(Space, spaces + (t + rest)) == |spaces|
  {
    RunExact(Space, spaces, t + rest);
    assert (spaces + (t + rest))[|spaces|..] == t + rest;
  }

  /** The code that replaces the placeholder is not a placeholder itself: `=` is not followed by `{`. */
  lemma CodeIsNoPlaceholder()
    ensures Classify(INLINE_CODE) != Placeholder
  {
    CodeTokens();
    NoBraceNoPlaceholder(INLINE_CODE, "r", "equire('testcase')");
    PlaceholderForm(INLINE_CODE);
  }

  lemma CodeTokens()
    ensures INLINE_CODE == "local" + (" " + ("testcase" + (" " + ("=" + (" " + ("r" + "equire('testcase')"))))))
  {
  }

  lemma NoBraceNoPlaceholder(s: string, r: string, rest: string)
    requires s == "local" + (" " + ("testcase" + (" " + ("=" + (" " + (r + rest))))))
    requires r != "" && !IsSpace(r[0]) && r[0] != '{'
    ensures !IsLocalTestcase(s)
  {
    hide Token, Run;
    var c := " " + (r + rest);
    var b := " " + ("=" + c);
    var a := " " + ("testcase" + b);
    assert "" + s == s;
    TokenAfter("", "local", a);
    TokenAfter(" ", "testcase", b);
    TokenAfter(" ", "=", c);
    TokenAfter(" ", r, rest);
    TokenMiss("{", r, c);
  }

  lemma TokenMiss(t: string, u: string, s: string)
    requires t != "" && u != "" && t[0] != u[0] && Token(u, s).Some?
    ensures Token(t, s) == None
  {
  }

  // --- the same, read off the text of a line ---

  /** White space, dashes, white space, the name of the option, and a rest. */
  ghost predicate IsSaid(line: string, a: string, d: string, b: string, v: string) {
    && line == a + (d + (b + ("lua-testcase:" + v)))
    && Trim.AllSpace(a) && d != "" && AllIn(Only('-'), d, |d|) && Trim.AllSpace(b)
  }

  /** The line is an option with that value: the rest but for the white space around it. */
  ghost predicate Says(line: string, value: string) {
    exists a, d, b, v :: IsSaid(line, a, d, b, v) && Trim.IsTrimmed(v, value)
  }

  lemma SaysIff(line: string, value: string)
    ensures Says(line, value) <==>
            IsOptionLine(line) && Trim.TrimSpace(AfterDashes(line)[|OPTION_NAME|..]) == value
  {
    hide IsSaid, IsOptionLine, AfterDashes, Trim.TrimSpace, Trim.IsTrimmed;
    if Says(line, value) {
      var a, d, b, v :| IsSaid(line, a, d, b, v) && Trim.IsTrimmed(v, value);
      SaidIsOption(line, a, d, b, v);
      Trim.TrimSpaceUnique(v, value);
    }
    if IsOptionLine(line) {
      OptionIsNamed(line);
      var a, d, b, v := OptionParts(line);
      Trim.TrimSpaceUnique(v, Trim.TrimSpace(v));
    }
  }

  lemma OptionIsNamed(line: string)
    requires IsOptionLine(line)
    ensures OPTION_NAME <= AfterDashes(line)
  {
    hide AfterDashes;
  }

  lemma SaidIsOption(line: string, a: string, d: string, b: string, v: string)
    requires IsSaid(line, a, d, b, v)
    ensures IsOptionLine(line) && OPTION_NAME <= AfterDashes(line) && AfterDashes(line)[|OPTION_NAME|..] == v
  {
    SaidForm(line, a, d, b, OPTION_NAME, v);
    hide AfterDashes, Skip, Run;
  }

  lemma SaidForm(line: string, a: string, d: string, b: string, name: string, v: string)
    requires line == a + (d + (b + (name + v))) && name != "" && !IsSpace(name[0]) && name[0] != '-'
    requires Trim.AllSpace(a) && d != "" && AllIn(Only('-'), d, |d|) && Trim.AllSpace(b)
    ensures Run(Only('-'), Skip(Space, line)) == |d|
    ensures name <= AfterDashes(line) && AfterDashes(line)[|name|..] == v
  {
    assert d[0] == '-' && (b != "" ==> IsSpace(b[0]));
    Skipped(Space, a, d + (b + (name + v)));
    Skipped(Only('-'), d, b + (name + v));
    Skipped(Space, b, name + v);
    hide Run, Skip;
    assert (name + v)[|name|..] == v;
  }

  lemma Skipped(cls: Class, a: string, s: string)
    requires AllIn(cls, a, |a|)
    requires s != "" ==> !In(cls, s[0])
    ensures Run(cls, a + s) == |a| && Skip(cls, a + s) == s
  {
    RunExact(cls, a, s);
    assert (a + s)[|a|..] == s;
  }

  lemma OptionParts(line: string) returns (a: string, d: string, b: string, v: string)
    requires IsOptionLine(line) && OPTION_NAME <= AfterDashes(line)
    ensures IsSaid(line, a, d, b, v) && v == AfterDashes(line)[|OPTION_NAME|..]
  {
    hide Run, Skip;
    var s1, s2, s3: string;
    a, s1 := Taken(Space, line);
    d, s2 := Taken(Only('-'), s1);
    b, s3 := Taken(Space, s2);
    v := s3[|OPTION_NAME|..];
    PrefixAndRest(OPTION_NAME, s3);
  }

  lemma PrefixAndRest(p: string, s: string)
    requires p <= s
    ensures s == p + s[|p|..]
  {
  }

  lemma Taken(cls: Class, s: string) returns (w: string, rest: string)
    ensures rest == Skip(cls, s) && s == w + rest && |w| == Run(cls, s)
    ensures AllIn(cls, w, |w|) && (cls == Space ==> Trim.AllSpace(w))
  {
    w, rest := s[..Run(cls, s)], Skip(cls, s);
  }

  /** What a line is to the scanner follows from what it says, and that is one thing at most. */
  ghost predicate Fits(line: string, k: Kind) {
    && (k == Opt(Enabled) <==> Says(line, "true"))
    && (k == Opt(Disabled) <==> Says(line, "false"))
    && (k == Opt(Invalid) <==> exists v :: Says(line, v) && v != "true" && v != "false")
    && (k == Placeholder <==> IsLocalTestcase(line))
    && (forall v, w :: Says(line, v) && Says(line, w) ==> v == w)
  }

  lemma KindOfText(line: string)
    ensures Fits(line, Classify(line))
  {
    var said := IsOptionLine(line);
    var text := if said then Trim.TrimSpace(AfterDashes(line)[|OPTION_NAME|..]) else "";
    OptionForm(line);
    PlaceholderForm(line);
    if IsPlaceholder(line) {
      PlaceholderIsNoOption(line);
    }
    hide Says, IsOptionLine, AfterDashes, Trim.TrimSpace, OptionOf, IsPlaceholder, IsLocalTestcase, ValueOf;
    forall v ensures Says(line, v) <==> said && v == text {
      SaysIff(line, v);
    }
    FitsSaid(line, Classify(line), said, text);
  }

  lemma FitsSaid(line: string, k: Kind, said: bool, text: string)
    requires forall v :: Says(line, v) <==> said && v == text
    requires IsLocalTestcase(line) ==> !said
    requires k == if IsLocalTestcase(line) then Placeholder else if said then Opt(ValueOf(text)) else Plain
    ensures Fits(line, k)
  {
    hide Says, IsLocalTestcase;
    assert said ==> Says(line, text);
  }

  // --- the incremental scan takes the decision that the lines call for ---

  /** `decl` and `chknext` are never both set, and both come after `defline`. */
  predicate Coherent(v: View) {
    && (v.chknext ==> v.decl.None? && v.defline.Some?)
    && (v.decl.Some? ==> v.defline.Some?)
  }

  lemma CheckCoherent(v: View, k: Kind, lineno: nat, head: nat, tail: nat)
    requires Coherent(v)
    ensures var c := Check(v, k, lineno, head, tail);
            c.Success? ==> Coherent(c.value)
  {
  }

  lemma {:induction false} ScanCoherent(v: View, ks: seq<Kind>, ls: seq<Line>, lineno: nat, pos: nat)
    requires Coherent(v) && |ks| == |ls| && Scan(v, ks, ls, lineno, pos).Success?
    ensures Coherent(Scan(v, ks, ls, lineno, pos).value)
    decreases |ls|
  {
    if ls != [] {
      var l := ls[0];
      var next := Check(v, ks[0], lineno + 1, pos, pos + |l.text|).value;
      ScanCoherent(next, ks[1..], ls[1..], lineno + 1, pos + |l.text| + |l.term|);
    }
  }

  /** Before any decisive line: the scan skips to it with the context untouched. */
  lemma {:induction false} ScanToDecisive(ks: seq<Kind>, ls: seq<Line>, from: nat)
    requires |ks| == |ls| && from <= |ls|
    ensures var i := FirstDecisive(ks, from);
            Scan(START, ks[from..], ls[from..], from, |Join(ls[..from])|) ==
            Scan(START, ks[i..], ls[i..], i, |Join(ls[..i])|)
    decreases |ls| - from
  {
    if from < |ls| && !IsDecisive(ks[from]) {
      JoinSnoc(ls, from);
      assert ls[from..][1..] == ls[from + 1..] && ks[from..][1..] == ks[from + 1..];
      ScanToDecisive(ks, ls, from + 1);
    }
  }

  lemma {:induction false} JoinSnoc(ls: seq<Line>, k: nat)
    requires k < |ls|
    ensures Join(ls[..k + 1]) == Join(ls[..k]) + ls[k].text + ls[k].term
  {
    if k == 0 {
      assert ls[..1][1..] == [];
    } else {
      JoinSnoc(ls[1..], k - 1);
      assert ls[..k + 1][1..] == ls[1..][..k] && ls[..k][1..] == ls[1..][..k - 1];
    }
  }

  /** After the declaration: any further option line is an error. */
  lemma {:induction false} ScanAfterDeclaration(v: View, ks: seq<Kind>, ls: seq<Line>, from: nat, lineno: nat, pos: nat)
    requires |ks| == |ls| && from <= |ls| && !v.chknext && v.defline.Some?
    ensures var j := FirstOption(ks, from);
            Scan(v, ks[from..], ls[from..], lineno, pos) ==
            if j == |ls| then Success(v)
            else if ks[j].value == Invalid then Failure(BadValue)
            else Failure(AlreadyDefined)
    decreases |ls| - from
  {
    if from < |ls| && !ks[from].Opt? {
      assert ls[from..][1..] == ls[from + 1..] && ks[from..][1..] == ks[from + 1..];
      ScanAfterDeclaration(v, ks, ls, from + 1, lineno + 1, pos + |ls[from].text| + |ls[from].term|);
    }
  }

  /** The result of a whole scan is the one that the decision for its lines calls for. */
  predicate Reflects(r: Result<View, Error>, ks: seq<Kind>, ls: seq<Line>) {
    match Decide(ks)
    case Ignored => r == Success(START)
    case Rejected(e) => r == Failure(e) || (e == NoPlaceholder && r.Success? && r.value.chknext && r.value.decl.None?)
    case Replace(k) =>
      && k < |ls| && r.Success?
      && r.value.decl == Some((|Join(ls[..k])|, |Join(ls[..k])| + |ls[k].text|))
  }

  /** The one-pass scan reflects the decision taken on all lines at once. */
  lemma ScanReflects(ks: seq<Kind>, ls: seq<Line>)
    requires |ks| == |ls|
    ensures Reflects(Scan(START, ks, ls, 0, 0), ks, ls)
  {
    var i := FirstDecisive(ks, 0);
    ScanToDecisive(ks, ls, 0);
    assert ls[0..] == ls && ks[0..] == ks;
    if i < |ls| && ks[i].value == Enabled {
      ScanEnabled(ks, ls, i);
    }
  }

  lemma ScanEnabled(ks: seq<Kind>, ls: seq<Line>, i: nat)
    requires |ks| == |ls| && i < |ls| && ks[i] == Opt(Enabled)
    ensures var r := Scan(START, ks[i..], ls[i..], i, |Join(ls[..i])|);
            if i + 1 == |ls| then r == Success(View(true, Some(i + 1), None))
            else if !ks[i + 1].Placeholder? then r == Failure(NoPlaceholder)
            else
              var j := FirstOption(ks, i + 2);
              var head := |Join(ls[..i + 1])|;
              if j == |ls| then r == Success(View(false, Some(i + 1), Some((head, head + |ls[i + 1].text|))))
              else if ks[j].value == Invalid then r == Failure(BadValue)
              else r == Failure(AlreadyDefined)
  {
    var v := View(true, Some(i + 1), None);
    JoinSnoc(ls, i);
    assert ls[i..][1..] == ls[i + 1..] && ks[i..][1..] == ks[i + 1..];
    if i + 1 < |ls| {
      var head := |Join(ls[..i + 1])|;
      var w := View(false, Some(i + 1), Some((head, head + |ls[i + 1].text|)));
      assert ls[i + 1..][1..] == ls[i + 2..] && ks[i + 1..][1..] == ks[i + 2..];
      ScanAfterDeclaration(w, ks, ls, i + 2, i + 2, head + |ls[i + 1].text| + |ls[i + 1].term|);
    }
  }

  /** The text that comes out is the one the decision calls for. */
  lemma ConcludeReflects(r: Result<View, Error>, ks: seq<Kind>, ls: seq<Line>, s: string)
    requires |ks| == |ls| && Reflects(r, ks, ls) && s == Join(ls)
    ensures Conclude(r, s) == Outcome(Decide(ks), ls)
    ensures r.Success? && r.value.decl.Some? ==> r.value.decl.value.0 <= r.value.decl.value.1 <= |s|
  {
    hide Decide, Join;
    if Decide(ks).Replace? {
      var k := Decide(ks).k;
      var before, after := LineAt(ls, k, INLINE_CODE);
      assert s[..|before|] == before && s[|before| + |ls[k].text|..] == after;
    }
  }

  /** The one-pass parser computes the declarative transformation. */
  lemma ScanRewrites(s: string)
    ensures var r := Scan(START, Kinds(Split(s)), Split(s), 0, 0);
            && Conclude(r, s) == Rewrite(s)
            && (r.Success? && r.value.decl.Some? ==> r.value.decl.value.0 <= r.value.decl.value.1 <= |s|)
  {
    ScanReflects(Kinds(Split(s)), Split(s));
    SplitJoin(s);
    ConcludeReflects(Scan(START, Kinds(Split(s)), Split(s), 0, 0), Kinds(Split(s)), Split(s), s);
  }

  /** A rewrite happens exactly when one option line says `true`, the option lines
      before it all say `false`, the placeholder is on the next line, and no option
      line follows. */
  lemma ReplacedIff(ks: seq<Kind>, k: nat)
    ensures Decide(ks) == Replace(k) <==>
            && 1 <= k < |ks|
            && ks[k - 1] == Opt(Enabled) && ks[k] == Placeholder
            && (forall j :: 0 <= j < k - 1 ==> ks[j].Opt? ==> ks[j].value == Disabled)
            && (forall j :: k < j < |ks| ==> !ks[j].Opt?)
  {
    var i := FirstDecisive(ks, 0);
    if i + 2 <= |ks| {
      var j := FirstOption(ks, i + 2);
    }
  }

  /** A file is left alone exactly when every option line says `false`. */
  lemma IgnoredIff(ks: seq<Kind>)
    ensures Decide(ks) == Ignored <==> forall j :: 0 <= j < |ks| && ks[j].Opt? ==> ks[j].value == Disabled
  {
    var i := FirstDecisive(ks, 0);
  }

  predicate NoneDecisive(ks: seq<Kind>, a: nat, b: nat)
    requires a <= b <= |ks|
  {
    forall i :: a <= i < b ==> !IsDecisive(ks[i])
  }

  /** Line `i` asks for a placeholder that is not on the next line. */
  predicate IsLacking(ks: seq<Kind>, i: nat) {
    && i < |ks| && ks[i] == Opt(Enabled) && NoneDecisive(ks, 0, i)
    && (i + 1 < |ks| ==> ks[i + 1] != Placeholder)
  }

  /** The missing-placeholder error: the first line that is not a `false` says `true`,
      and the next line is no placeholder. */
  lemma NoPlaceholderIff(ks: seq<Kind>)
    ensures Decide(ks) == Rejected(NoPlaceholder) <==>
            exists i: nat :: IsLacking(ks, i)
  {
    var i := FirstDecisive(ks, 0);
    assert Decide(ks) == Rejected(NoPlaceholder) ==> IsLacking(ks, i);
    if n: nat :| n < |ks| && ks[n] == Opt(Enabled) && NoneDecisive(ks, 0, n) {
      assert IsDecisive(ks[n]);
      assert i == n;
    }
  }

  predicate NoOption(ks: seq<Kind>, a: nat, b: nat)
    requires a <= b <= |ks|
  {
    forall i :: a <= i < b ==> !ks[i].Opt?
  }

  /** The index of a placeholder that the line before it asks for, all options before that being `false`. */
  predicate IsPlaced(ks: seq<Kind>, k: nat) {
    1 <= k < |ks| && ks[k - 1] == Opt(Enabled) && ks[k] == Placeholder && NoneDecisive(ks, 0, k - 1)
  }

  /** Only lines without option lie between a placeholder that is asked for and this index. */
  ghost predicate IsAfterPlaced(ks: seq<Kind>, j: nat)
    requires j <= |ks|
  {
    exists k: nat :: IsPlaced(ks, k) && k < j && NoOption(ks, k + 1, j)
  }

  /** The option after a placeholder that is asked for. */
  predicate IsRepetition(ks: seq<Kind>, k: nat, j: nat) {
    IsPlaced(ks, k) && k < j < |ks| && ks[j].Opt? && ks[j].value != Invalid && NoOption(ks, k + 1, j)
  }

  /** The other two errors: the first option after the placeholder is one too many, unless
      its value is wrong; so may be that of the first option that does not say `false`. */
  lemma OtherErrorsIff(ks: seq<Kind>)
    ensures Decide(ks) == Rejected(AlreadyDefined) <==>
            exists k: nat, j: nat :: IsRepetition(ks, k, j)
    ensures Decide(ks) == Rejected(BadValue) <==>
            exists j: nat ::
              && j < |ks| && ks[j] == Opt(Invalid)
              && (NoneDecisive(ks, 0, j) || IsAfterPlaced(ks, j))
  {
    var i := FirstDecisive(ks, 0);
    forall k | IsPlaced(ks, k) ensures k == i + 1 {
      assert IsDecisive(ks[k - 1]);
    }
    if i + 2 <= |ks| && ks[i].value == Enabled && ks[i + 1] == Placeholder {
      assert IsPlaced(ks, i + 1);
      var j := FirstOption(ks, i + 2);
      assert j < |ks| && ks[j].value != Invalid ==> IsRepetition(ks, i + 1, j);
    }
  }

  /** A last line that is neither option nor placeholder, such as one of a single
      character, can be left out of the scan. */
  lemma PlainLastLine(ks: seq<Kind>)
    requires |ks| > 0 && ks[|ks| - 1] == Plain
    ensures Decide(ks[..|ks| - 1]) == Decide(ks)
  {
    var short := ks[..|ks| - 1];
    FirstsOfPrefix(ks, 0);
    var i := FirstDecisive(ks, 0);
    if i + 2 < |ks| {
      FirstsOfPrefix(ks, i + 2);
    }
  }

  lemma {:induction false} FirstsOfPrefix(ks: seq<Kind>, from: nat)
    requires |ks| > 0 && ks[|ks| - 1] == Plain && from < |ks|
    ensures var short := ks[..|ks| - 1];
            && (if FirstDecisive(ks, from) == |ks| then FirstDecisive(short, from) == |short|
                else FirstDecisive(short, from) == FirstDecisive(ks, from))
            && (if FirstOption(ks, from) == |ks| then FirstOption(short, from) == |short|
                else FirstOption(short, from) == FirstOption(ks, from))
    decreases |ks| - from
  {
    if from + 1 < |ks| {
      FirstsOfPrefix(ks, from + 1);
    }
  }

  /** The rewrite keeps the line structure: same lines, same terminators, same line
      numbers; only the text of the placeholder line is another one. */
  lemma StructureKept(s: string, k: nat)
    requires Decide(Kinds(Split(s))) == Replace(k)
    ensures k < |Split(s)| && Classify(Split(s)[k].text) == Placeholder
    ensures Rewrite(s) == Success(Some(Join(ReplaceCode(Split(s), k))))
    ensures Split(Rewrite(s).value.value) == Split(s)[k := Line(INLINE_CODE, Split(s)[k].term)]
  {
    var ls := Split(s);
    ReplacedIff(Kinds(ls), k);
    SplitJoin(s);
    CodeKeepsWellFormed(ls, k);
    JoinSplit(ReplaceCode(ls, k));
  }

  lemma CodeKeepsWellFormed(ls: seq<Line>, k: nat)
    requires WellFormed(ls) && k < |ls|
    ensures WellFormed(ls[k := Line(INLINE_CODE, ls[k].term)])
  {
    assert IsTerminated(INLINE_CODE) by {
      hide *;
      assert forall i :: 0 <= i < |INLINE_CODE| ==> INLINE_CODE[i] != '\n';
    }
  }

  /** A rewritten text is never accepted again: its option line has lost its placeholder. */
  lemma RewriteOnce(s: string, out: string)
    requires Rewrite(s) == Success(Some(out))
    ensures Rewrite(out) == Failure(NoPlaceholder)
  {
    hide Classify;
    var ls := Split(s);
    var k := Decide(Kinds(ls)).k;
    StructureKept(s, k);
    KindsUpdate(ls, k, Line(INLINE_CODE, ls[k].term));
    CodeIsNoPlaceholder();
    RejectedAfterReplace(Kinds(ls), Kinds(ReplaceCode(ls, k)), k);
  }

  lemma KindsUpdate(ls: seq<Line>, k: nat, l: Line)
    requires k < |ls|
    ensures Kinds(ls[k := l]) == Kinds(ls)[k := Classify(l.text)]
  {
    hide Classify;
  }

  lemma RejectedAfterReplace(ks: seq<Kind>, after: seq<Kind>, k: nat)
    requires Decide(ks) == Replace(k) && |after| == |ks|
    requires forall i :: 0 <= i < |ks| && i != k ==> after[i] == ks[i]
    requires k < |ks| ==> after[k] != Placeholder
    ensures Decide(after) == Rejected(NoPlaceholder)
  {
    ReplacedIff(ks, k);
    NoPlaceholderIff(after);
    assert after[k - 1] == Opt(Enabled);
  }

  // --- the code of lib/eval.lua ---

  /** The table `ctx`. Positions are counted from 0, and `decl` ends after its last character. */
  class Context {
    var chknext: bool
    var defline: Option<nat>
    var decl: Option<(nat, nat)>

    constructor ()
      ensures State() == START
    {
      chknext, defline, decl := false, None, None;
    }

    function State(): View
      reads this
    {
      View(chknext, defline, decl)
    }

    method CheckLine(line: string, lineno: nat, head: nat, tail: nat) returns (r: Result<(), Error>)
      modifies this
      ensures var c := Check(old(State()), Classify(line), lineno, head, tail);
              if c.Success? then r == Success(()) && State() == c.value
              else r == Failure(c.error) && State() == old(State())
    {
      hide Classify;
      if chknext {
        var found := FindPlaceholder(line);
        if !found {
          return Failure(NoPlaceholder);
        }
        chknext := false;
        decl := Some((head, tail));
        return Success(());
      }
      var opt := FindOption(line);
      if opt.Some? {
        if opt.value == Invalid {
          return Failure(BadValue);
        } else if defline.Some? {
          return Failure(AlreadyDefined);
        } else if opt.value == Enabled {
          chknext := true;
          defline := Some(lineno);
        }
      }
      return Success(());
    }
  }

  method FindPlaceholder(line: string) returns (found: bool)
    ensures found <==> Classify(line) == Placeholder
  {
    found := Match(PLACEHOLDER, line).Some?;
  }

  method FindOption(line: string) returns (opt: Option<OptionValue>)
    ensures opt == if Classify(line).Opt? then Some(Classify(line).value) else None
  {
    if IsPlaceholder(line) {
      PlaceholderIsNoOption(line);
    }
    var end := Match(INLINE_OPT, line);
    opt := if end.None? then None else Some(ValueOf(Trim.TrimSpace(line[end.value..])));
  }

  lemma ScanCons(v: View, l: Line, rest: seq<Line>, lineno: nat, pos: nat)
    ensures var next := Check(v, Classify(l.text), lineno + 1, pos, pos + |l.text|);
            Scan(v, Kinds([l] + rest), [l] + rest, lineno, pos) ==
            if next.Failure? then Failure(next.error)
            else Scan(next.value, Kinds(rest), rest, lineno + 1, pos + |l.text| + |l.term|)
  {
    hide Classify;
    assert ([l] + rest)[1..] == rest;
    assert Kinds([l] + rest) == [Classify(l.text)] + Kinds(rest);
  }

  /** What is left to do when no further line end is found: check the last line,
      unless it is too short to matter. */
  lemma ScanLast(v: View, s: string, pos: nat, lineno: nat)
    requires Coherent(v) && pos <= |s|
    ensures var last := [Line(s[pos..], "")];
            var all := Scan(v, Kinds(last), last, lineno, pos);
            && (|s| - pos > 1 ==> all == Check(v, Classify(s[pos..]), lineno + 1, pos, |s|))
            && (|s| - pos <= 1 ==> Conclude(all, s) == Conclude(Success(v), s))
            && (|s| - pos <= 1 && v.decl.Some? ==> all == Success(v))
  {
    hide Classify;
    ScanCons(v, Line(s[pos..], ""), [], lineno, pos);
    assert [Line(s[pos..], "")] + [] == [Line(s[pos..], "")];
    if |s| - pos <= 1 {
      ShortIsPlain(s[pos..]);
    }
  }

  lemma ShortIsPlain(line: string)
    requires |line| <= 1
    ensures Classify(line) == Plain
  {
    ShortIsNeither(line);
  }

  // --- what the text as a whole says ---

  /** The lines from `a` up to `b` say nothing but `false`. */
  ghost predicate OnlyFalse(ls: seq<Line>, a: nat, b: nat)
    requires a <= b <= |ls|
  {
    forall i, v :: a <= i < b && Says(ls[i].text, v) ==> v == "false"
  }

  /** They say nothing. */
  ghost predicate Silent(ls: seq<Line>, a: nat, b: nat)
    requires a <= b <= |ls|
  {
    forall i, v :: a <= i < b ==> !Says(ls[i].text, v)
  }

  /** Line `i` is the first to say anything but `false`, and says `true`. */
  ghost predicate AsksAt(ls: seq<Line>, i: nat) {
    i < |ls| && Says(ls[i].text, "true") && OnlyFalse(ls, 0, i)
  }

  /** The line before asks for the placeholder, and it is there. */
  ghost predicate PlacedAt(ls: seq<Line>, k: nat) {
    1 <= k < |ls| && AsksAt(ls, k - 1) && IsLocalTestcase(ls[k].text)
  }

  /** A placeholder that is asked for, and no option after it. */
  ghost predicate SwitchedOn(ls: seq<Line>, k: nat) {
    PlacedAt(ls, k) && Silent(ls, k + 1, |ls|)
  }

  /** A placeholder is asked for, and is not on the next line. */
  ghost predicate LacksPlaceholder(ls: seq<Line>) {
    exists i: nat :: LacksAt(ls, i)
  }

  ghost predicate LacksAt(ls: seq<Line>, i: nat) {
    AsksAt(ls, i) && (i + 1 < |ls| ==> !IsLocalTestcase(ls[i + 1].text))
  }

  /** The option comes again after the placeholder. */
  ghost predicate IsRepeated(ls: seq<Line>) {
    exists k: nat, j: nat :: RepeatedAt(ls, k, j)
  }

  ghost predicate RepeatedAt(ls: seq<Line>, k: nat, j: nat) {
    && PlacedAt(ls, k) && k < j < |ls| && Silent(ls, k + 1, j)
    && (Says(ls[j].text, "true") || Says(ls[j].text, "false"))
  }

  /** The first option that does not say `false`, or the first after the placeholder, says
      something else than `true` or `false`. */
  ghost predicate IsWrong(ls: seq<Line>) {
    exists j: nat :: j < |ls| && SaysNeither(ls[j].text) && (OnlyFalse(ls, 0, j) || AfterPlaced(ls, j))
  }

  ghost predicate SaysNeither(line: string) {
    exists v :: Says(line, v) && v != "true" && v != "false"
  }

  ghost predicate AfterPlaced(ls: seq<Line>, j: nat)
    requires j <= |ls|
  {
    exists k: nat :: PlacedAt(ls, k) && k < j && Silent(ls, k + 1, j)
  }

  /** What becomes of a text, read off its lines. It is left alone when they say nothing but
      `false`; a placeholder that is asked for becomes the code when no option comes after it;
      and each error has its reason. */
  ghost predicate IsParse(ls: seq<Line>, r: Result<Option<string>, Error>) {
    && (r == Success(None) <==> OnlyFalse(ls, 0, |ls|))
    && (r.Success? && r.value.Some? <==> exists k: nat :: SwitchedOn(ls, k))
    && (forall k: nat :: SwitchedOn(ls, k) ==> r == Success(Some(WithCode(ls, k))))
    && (r == Failure(NoPlaceholder) <==> LacksPlaceholder(ls))
    && (r == Failure(AlreadyDefined) <==> IsRepeated(ls))
    && (r == Failure(BadValue) <==> IsWrong(ls))
  }

  /** The text with another line `k`. */
  function WithCode(ls: seq<Line>, k: nat): string
    requires k < |ls|
  {
    Join(ls[k := Line("local testcase = require('testcase')", ls[k].term)])
  }

  ghost predicate AllFit(ls: seq<Line>, ks: seq<Kind>) {
    |ks| == |ls| && forall i :: 0 <= i < |ls| ==> Fits(ls[i].text, ks[i])
  }

  lemma RewriteIsParse(s: string)
    ensures IsParse(Split(s), Rewrite(s))
  {
    var ls := Split(s);
    hide Decide, Fits, Classify, Split, IsParse;
    forall i | 0 <= i < |ls| ensures Fits(ls[i].text, Kinds(ls)[i]) {
      KindOfText(ls[i].text);
    }
    OutcomeIsParse(ls, Kinds(ls));
  }

  lemma OutcomeIsParse(ls: seq<Line>, ks: seq<Kind>)
    requires AllFit(ls, ks)
    ensures IsParse(ls, Outcome(Decide(ks), ls))
  {
    hide *;
    IgnoredText(ls, ks);
    ReplacedText(ls, ks);
    NoPlaceholderText(ls, ks);
    RepeatedText(ls, ks);
    WrongText(ls, ks);
    ParseIs(ls, Decide(ks));
  }

  lemma ParseIs(ls: seq<Line>, d: Decision)
    requires d == Ignored <==> OnlyFalse(ls, 0, |ls|)
    requires forall k: nat :: d == Replace(k) <==> SwitchedOn(ls, k)
    requires d == Rejected(NoPlaceholder) <==> LacksPlaceholder(ls)
    requires d == Rejected(AlreadyDefined) <==> IsRepeated(ls)
    requires d == Rejected(BadValue) <==> IsWrong(ls)
    ensures IsParse(ls, Outcome(d, ls))
  {
    hide OnlyFalse, SwitchedOn, LacksPlaceholder, IsRepeated, IsWrong, Join;
    forall k: nat | SwitchedOn(ls, k) ensures k < |ls| {
      OnIsLine(ls, k);
    }
  }

  lemma OnIsLine(ls: seq<Line>, k: nat)
    requires SwitchedOn(ls, k)
    ensures k < |ls|
  {
    hide AsksAt, Silent;
  }

  lemma OnlyFalseKinds(ls: seq<Line>, ks: seq<Kind>, a: nat, b: nat)
    requires AllFit(ls, ks) && a <= b <= |ls|
    ensures OnlyFalse(ls, a, b) <==> NoneDecisive(ks, a, b)
  {
    hide Says, Fits;
    forall i | a <= i < b ensures !IsDecisive(ks[i]) <==> SaysFalse(ls[i].text) {
      FitsFalse(ls[i].text, ks[i]);
    }
  }

  ghost predicate SaysFalse(line: string) {
    forall v :: Says(line, v) ==> v == "false"
  }

  ghost predicate SaysNothing(line: string) {
    forall v :: !Says(line, v)
  }

  lemma FitsFalse(line: string, k: Kind)
    requires Fits(line, k)
    ensures !IsDecisive(k) <==> SaysFalse(line)
    ensures !k.Opt? <==> SaysNothing(line)
  {
    hide Says, IsLocalTestcase;
  }

  lemma SilentKinds(ls: seq<Line>, ks: seq<Kind>, a: nat, b: nat)
    requires AllFit(ls, ks) && a <= b <= |ls|
    ensures Silent(ls, a, b) <==> NoOption(ks, a, b)
  {
    hide Says, Fits;
    forall i | a <= i < b ensures !ks[i].Opt? <==> SaysNothing(ls[i].text) {
      FitsFalse(ls[i].text, ks[i]);
    }
  }

  lemma PlacedKinds(ls: seq<Line>, ks: seq<Kind>, k: nat)
    requires AllFit(ls, ks)
    ensures PlacedAt(ls, k) <==> IsPlaced(ks, k)
    ensures AsksAt(ls, k) <==> k < |ks| && ks[k] == Opt(Enabled) && NoneDecisive(ks, 0, k)
  {
    if k < |ls| {
      OnlyFalseKinds(ls, ks, 0, k);
      assert Fits(ls[k].text, ks[k]);
      if k > 0 {
        OnlyFalseKinds(ls, ks, 0, k - 1);
        assert Fits(ls[k - 1].text, ks[k - 1]);
      }
    }
    hide Says, OnlyFalse, IsLocalTestcase;
  }

  lemma IgnoredText(ls: seq<Line>, ks: seq<Kind>)
    requires AllFit(ls, ks)
    ensures Decide(ks) == Ignored <==> OnlyFalse(ls, 0, |ls|)
  {
    IgnoredIff(ks);
    OnlyFalseKinds(ls, ks, 0, |ls|);
    hide Decide, OnlyFalse, Fits;
  }

  lemma ReplacedText(ls: seq<Line>, ks: seq<Kind>)
    requires AllFit(ls, ks)
    ensures forall k: nat :: Decide(ks) == Replace(k) <==> SwitchedOn(ls, k)
  {
    hide Decide, PlacedAt, Silent, Fits;
    forall k: nat ensures Decide(ks) == Replace(k) <==> SwitchedOn(ls, k) {
      ReplacedIff(ks, k);
      PlacedKinds(ls, ks, k);
      if IsPlaced(ks, k) {
        SilentKinds(ls, ks, k + 1, |ls|);
      }
    }
  }

  lemma NoPlaceholderText(ls: seq<Line>, ks: seq<Kind>)
    requires AllFit(ls, ks)
    ensures Decide(ks) == Rejected(NoPlaceholder) <==> LacksPlaceholder(ls)
  {
    NoPlaceholderIff(ks);
    hide Decide, LacksAt, IsLacking, Fits;
    forall i: nat ensures LacksAt(ls, i) <==> IsLacking(ks, i) {
      LackingKinds(ls, ks, i);
    }
  }

  lemma LackingKinds(ls: seq<Line>, ks: seq<Kind>, i: nat)
    requires AllFit(ls, ks)
    ensures LacksAt(ls, i) <==> IsLacking(ks, i)
  {
    PlacedKinds(ls, ks, i);
    assert i + 1 < |ls| ==> Fits(ls[i + 1].text, ks[i + 1]);
    hide AsksAt, Says, IsLocalTestcase;
  }

  lemma RepeatedText(ls: seq<Line>, ks: seq<Kind>)
    requires AllFit(ls, ks)
    ensures Decide(ks) == Rejected(AlreadyDefined) <==> IsRepeated(ls)
  {
    OtherErrorsIff(ks);
    hide Decide, RepeatedAt, IsRepetition, Fits;
    forall k: nat, j: nat ensures RepeatedAt(ls, k, j) <==> IsRepetition(ks, k, j) {
      RepeatedKinds(ls, ks, k, j);
    }
  }

  lemma RepeatedKinds(ls: seq<Line>, ks: seq<Kind>, k: nat, j: nat)
    requires AllFit(ls, ks)
    ensures RepeatedAt(ls, k, j) <==> IsRepetition(ks, k, j)
  {
    if k < j < |ls| {
      PlacedKinds(ls, ks, k);
      SilentKinds(ls, ks, k + 1, j);
      assert Fits(ls[j].text, ks[j]);
    }
    hide PlacedAt, Silent, Says, IsLocalTestcase;
  }

  lemma WrongText(ls: seq<Line>, ks: seq<Kind>)
    requires AllFit(ls, ks)
    ensures Decide(ks) == Rejected(BadValue) <==> IsWrong(ls)
  {
    OtherErrorsIff(ks);
    hide Decide, OnlyFalse, AfterPlaced, SaysNeither;
    forall j: nat | j < |ls|
      ensures SaysNeither(ls[j].text) <==> ks[j] == Opt(Invalid)
      ensures OnlyFalse(ls, 0, j) <==> NoneDecisive(ks, 0, j)
      ensures AfterPlaced(ls, j) <==> IsAfterPlaced(ks, j)
    {
      NeitherKind(ls, ks, j);
      OnlyFalseKinds(ls, ks, 0, j);
      AfterPlacedKinds(ls, ks, j);
    }
  }

  lemma NeitherKind(ls: seq<Line>, ks: seq<Kind>, j: nat)
    requires AllFit(ls, ks) && j < |ls|
    ensures SaysNeither(ls[j].text) <==> ks[j] == Opt(Invalid)
  {
    hide Says;
    assert Fits(ls[j].text, ks[j]);
  }

  lemma AfterPlacedKinds(ls: seq<Line>, ks: seq<Kind>, j: nat)
    requires AllFit(ls, ks) && j <= |ls|
    ensures AfterPlaced(ls, j) <==> IsAfterPlaced(ks, j)
  {
    hide PlacedAt, Silent, Fits;
    forall k: nat | k < j ensures PlacedAt(ls, k) && Silent(ls, k + 1, j) <==> IsPlaced(ks, k) && NoOption(ks, k + 1, j)
    {
      PlacedKinds(ls, ks, k);
      SilentKinds(ls, ks, k + 1, j);
    }
  }

  /** `parse_inlineopt` computes the declarative transformation of the whole text. */
  method ParseInlineOpt(s: string) returns (r: Result<Option<string>, Error>)
    ensures r == Rewrite(s) && IsParse(Split(s), r)
  {
    RewriteIsParse(s);
    hide IsParse;
    hide Classify, Kinds, Split, Find, Rewrite, Check;
    ghost var all := Scan(START, Kinds(Split(s)), Split(s), 0, 0);
    ScanRewrites(s);
    assert s[0..] == s;
    var len := |s|;
    var found := Find(CRLF, s, 0);
    var pos, lineno := 0, 0;
    var ctx := new Context();
    while found.Some?
      invariant pos <= len && found == Find(CRLF, s, pos)
      invariant Coherent(ctx.State())
      invariant all == Scan(ctx.State(), Kinds(Split(s[pos..])), Split(s[pos..]), lineno, pos)
      decreases len - pos
    {
      var (head, tail) := found.value;
      var line := s[pos..head];
      NextLine(s, pos, head, tail);
      ScanCons(ctx.State(), Line(line, s[head..tail]), Split(s[tail..]), lineno, pos);
      lineno := lineno + 1;
      CheckCoherent(ctx.State(), Classify(line), lineno, pos, head);
      var checked := ctx.CheckLine(line, lineno, pos, head);
      if checked.Failure? {
        return Failure(checked.error);
      }
      pos := tail;
      found := Find(CRLF, s, pos);
    }
    LastLine(s, pos);
    ScanLast(ctx.State(), s, pos, lineno);
    if len - pos > 1 {
      lineno := lineno + 1;
      var checked := ctx.CheckLine(s[pos..], lineno, pos, len);
      if checked.Failure? {
        return Failure(checked.error);
      }
    }
    assert Conclude(all, s) == Conclude(Success(ctx.State()), s);
    if ctx.decl.Some? {
      var (head, tail) := ctx.decl.value;
      return Success(Some(s[..head] + INLINE_CODE + s[tail..]));
    } else if ctx.chknext {
      return Failure(NoPlaceholder);
    }
    return Success(None);
  }
}
