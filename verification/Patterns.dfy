/** The part of Lua's pattern matching (Lua 5.1 Reference Manual, section 5.4.1)
    that the inline-option rewriter and the printer use: a backtracking matcher,
    the leftmost search built on it, and the declarative reading of both. */
module Patterns {
  import opened Prelude

  datatype Class = Space | Only(c: char)

  /** A pattern is its first item and the rest; `Maybe`, `Star` and `Plus` are `?`, `*` and `+`. */
  datatype Pattern =
    | End
    | One(cls: Class, rest: Pattern)
    | Maybe(cls: Class, rest: Pattern)
    | Star(cls: Class, rest: Pattern)
    | Plus(cls: Class, rest: Pattern)

  /** `%s` in the C locale: the space, and the control characters from tab to carriage return. */
  predicate IsSpace(c: char) {
    c == ' ' || '\t' <= c <= '\r'
  }

  /** The white space of C: blank, newline, tabs, form feed and carriage return. */
  lemma SpacesAre(c: char)
    ensures IsSpace(c) <==> c in {' ', '\t', '\n', '\U{000B}', '\U{000C}', '\r'}
  {
    if IsSpace(c) && c != ' ' {
      assert 9 <= c as int <= 13;
    }
  }

  predicate In(cls: Class, c: char) {
    match cls
    case Space => IsSpace(c)
    case Only(x) => c == x
  }

  predicate AllIn(cls: Class, w: string, k: nat)
    requires k <= |w|
  {
    forall i :: 0 <= i < k ==> In(cls, w[i])
  }

  /** A literal piece of a pattern, one item a character. */
  function Lit(text: string, rest: Pattern): Pattern {
    if text == "" then rest else One(Only(text[0]), Lit(text[1..], rest))
  }

  /** Length of the longest prefix of `s` made of characters of `cls`. */
  function Run(cls: Class, s: string): (n: nat)
    ensures n <= |s|
    ensures forall i :: 0 <= i < n ==> In(cls, s[i])
    ensures n < |s| ==> !In(cls, s[n])
  {
    if s != "" && In(cls, s[0]) then 1 + Run(cls, s[1..]) else 0
  }

  /** What is left of `s` after its leading characters of `cls`. */
  function Skip(cls: Class, s: string): (r: string)
    ensures |r| == |s| - Run(cls, s)
  {
    s[Run(cls, s)..]
  }

  /** Lua's matcher, anchored at the start of `s`: the length of the match it
      settles on, trying the longest repetition first and giving characters back. */
  function Match(p: Pattern, s: string): (r: Option<nat>)
    ensures r.Some? ==> r.value <= |s|
    decreases p, 0
  {
    match p
    case End => Some(0)
    case One(cls, rest) =>
      if s != "" && In(cls, s[0]) then After(1, Match(rest, s[1..])) else None
    case Maybe(cls, rest) =>
      if s != "" && In(cls, s[0]) && Match(rest, s[1..]).Some?
      then After(1, Match(rest, s[1..])) else Match(rest, s)
    case Star(cls, rest) =>
      GiveBack(rest, s, Run(cls, s))
    case Plus(cls, rest) =>
      if s != "" && In(cls, s[0]) then After(1, GiveBack(rest, s[1..], Run(cls, s[1..]))) else None
  }

  /** The `max_expand` loop: `n` characters are taken, then `n - 1`, and so on. */
  function GiveBack(p: Pattern, s: string, n: nat): (r: Option<nat>)
    requires n <= |s|
    ensures r.Some? ==> r.value <= |s|
    decreases p, 1, n
  {
    var m := Match(p, s[n..]);
    if m.Some? then Some(n + m.value) else if n == 0 then None else GiveBack(p, s, n - 1)
  }

  function After(k: nat, r: Option<nat>): Option<nat> {
    match r
    case None => None
    case Some(n) => Some(k + n)
  }

  /** What a pattern means, with no search order: the words it describes. */
  ghost predicate Accepts(p: Pattern, w: string)
    decreases p
  {
    match p
    case End => w == ""
    case One(cls, rest) => w != "" && In(cls, w[0]) && Accepts(rest, w[1..])
    case Maybe(cls, rest) => Accepts(rest, w) || (w != "" && In(cls, w[0]) && Accepts(rest, w[1..]))
    case Star(cls, rest) => exists k :: 0 <= k <= |w| && AllIn(cls, w, k) && Accepts(rest, w[k..])
    case Plus(cls, rest) => exists k :: 1 <= k <= |w| && AllIn(cls, w, k) && Accepts(rest, w[k..])
  }

  /** A character and a word of the rest make a word of the pattern. */
  lemma AcceptsOne(cls: Class, rest: Pattern, s: string, n: nat)
    requires 0 < n <= |s| && In(cls, s[0]) && Accepts(rest, s[1..][..n - 1])
    ensures Accepts(One(cls, rest), s[..n]) && Accepts(Maybe(cls, rest), s[..n])
  {
    assert s[..n][1..] == s[1..][..n - 1];
  }

  /** So do a run of characters and a word of the rest. */
  lemma AcceptsRun(cls: Class, rest: Pattern, s: string, k: nat, n: nat)
    requires k + n <= |s| && AllIn(cls, s, k) && Accepts(rest, s[k..][..n])
    ensures Accepts(Star(cls, rest), s[..k + n])
    ensures k > 0 ==> Accepts(Plus(cls, rest), s[..k + n])
  {
    var w := s[..k + n];
    assert w[k..] == s[k..][..n];
    assert AllIn(cls, w, k);
  }

  /** The matcher only ever reports prefixes that the pattern describes. */
  lemma {:induction false} MatchSound(p: Pattern, s: string)
    requires Match(p, s).Some?
    ensures Accepts(p, s[..Match(p, s).value])
    decreases p, 0
  {
    match p
    case End =>
    case One(cls, rest) =>
      MatchSound(rest, s[1..]);
      AcceptsOne(cls, rest, s, Match(p, s).value);
    case Maybe(cls, rest) =>
      if s != "" && In(cls, s[0]) && Match(rest, s[1..]).Some? {
        MatchSound(rest, s[1..]);
        AcceptsOne(cls, rest, s, Match(p, s).value);
      } else {
        MatchSound(rest, s);
      }
    case Star(cls, rest) =>
      hide Accepts;
      var k := GiveBackSound(rest, s, Run(cls, s));
      AcceptsRun(cls, rest, s, k, Match(p, s).value - k);
    case Plus(cls, rest) =>
      hide Accepts;
      PlusSound(cls, rest, s);
  }

  lemma {:induction false} PlusSound(cls: Class, rest: Pattern, s: string)
    requires Match(Plus(cls, rest), s).Some?
    ensures Accepts(Plus(cls, rest), s[..Match(Plus(cls, rest), s).value])
    decreases rest, 2
  {
    hide Accepts;
    var n := Match(Plus(cls, rest), s).value;
    var k := GiveBackSound(rest, s[1..], Run(cls, s[1..]));
    assert s[1..][k..] == s[k + 1..];
    forall i | 0 <= i < k + 1 ensures In(cls, s[i]) {
      if i > 0 { assert s[i] == s[1..][i - 1]; }
    }
    AcceptsRun(cls, rest, s, k + 1, n - k - 1);
  }

  lemma {:induction false} GiveBackSound(p: Pattern, s: string, n: nat) returns (k: nat)
    requires n <= |s| && GiveBack(p, s, n).Some?
    ensures k <= n && k <= GiveBack(p, s, n).value
    ensures Accepts(p, s[k..][..GiveBack(p, s, n).value - k])
    decreases p, 1, n
  {
    if Match(p, s[n..]).Some? {
      k := n;
      MatchSound(p, s[n..]);
    } else {
      k := GiveBackSound(p, s, n - 1);
    }
  }

  /** Backtracking misses nothing: if some prefix is described, a match is found. */
  lemma {:induction false} MatchComplete(p: Pattern, s: string, n: nat)
    requires n <= |s| && Accepts(p, s[..n])
    ensures Match(p, s).Some?
    decreases p, 0
  {
    var w := s[..n];
    match p
    case End =>
    case One(cls, rest) =>
      assert s[1..][..n - 1] == w[1..];
      MatchComplete(rest, s[1..], n - 1);
    case Maybe(cls, rest) =>
      if Accepts(rest, w) {
        MatchComplete(rest, s, n);
      } else {
        assert s[1..][..n - 1] == w[1..];
        MatchComplete(rest, s[1..], n - 1);
      }
    case Star(cls, rest) =>
      var k :| 0 <= k <= |w| && AllIn(cls, w, k) && Accepts(rest, w[k..]);
      hide Accepts;
      assert s[k..][..n - k] == w[k..];
      assert AllIn(cls, s, k);
      RepeatComplete(rest, cls, s, k, n - k);
    case Plus(cls, rest) =>
      var k :| 1 <= k <= |w| && AllIn(cls, w, k) && Accepts(rest, w[k..]);
      hide Accepts;
      PlusComplete(cls, rest, s, k, n);
  }

  lemma {:induction false} PlusComplete(cls: Class, rest: Pattern, s: string, k: nat, n: nat)
    requires 1 <= k <= n <= |s| && AllIn(cls, s[..n], k) && Accepts(rest, s[..n][k..])
    ensures Match(Plus(cls, rest), s).Some?
    decreases rest, 3
  {
    hide Accepts;
    assert s[1..][k - 1..][..n - k] == s[..n][k..];
    forall i | 0 <= i < k - 1 ensures In(cls, s[1..][i]) { assert s[1..][i] == s[..n][i + 1]; }
    RepeatComplete(rest, cls, s[1..], k - 1, n - k);
  }

  lemma {:induction false} RepeatComplete(p: Pattern, cls: Class, s: string, k: nat, n: nat)
    requires k + n <= |s| && AllIn(cls, s, k) && Accepts(p, s[k..][..n])
    ensures GiveBack(p, s, Run(cls, s)).Some?
    decreases p, 2
  {
    hide Accepts;
    GiveBackComplete(p, s, Run(cls, s), k, n);
  }

  lemma {:induction false} GiveBackComplete(p: Pattern, s: string, top: nat, k: nat, n: nat)
    requires k <= top <= |s| && k + n <= |s| && Accepts(p, s[k..][..n])
    ensures GiveBack(p, s, top).Some?
    decreases p, 1, top
  {
    if k == top {
      MatchComplete(p, s[top..], n);
    } else if Match(p, s[top..]).None? {
      GiveBackComplete(p, s, top - 1, k, n);
    }
  }

  lemma RunExact(cls: Class, a: string, s: string)
    requires AllIn(cls, a, |a|)
    requires s != "" ==> !In(cls, s[0])
    ensures Run(cls, a + s) == |a|
  {
    assert forall i :: 0 <= i < |a| ==> (a + s)[i] == a[i];
    assert s != "" ==> (a + s)[|a|] == s[0];
  }

  /** A match exists exactly when some prefix belongs to the pattern's words. */
  lemma MatchIffAccepted(p: Pattern, s: string)
    ensures Match(p, s).Some? <==> exists n :: 0 <= n <= |s| && Accepts(p, s[..n])
  {
    if Match(p, s).Some? {
      MatchSound(p, s);
    }
    if n :| 0 <= n <= |s| && Accepts(p, s[..n]) {
      MatchComplete(p, s, n);
    }
  }

  predicate Disjoint(a: Class, b: Class) {
    match (a, b)
    case (Only(x), _) => !In(b, x)
    case (_, Only(y)) => !In(a, y)
    case (Space, Space) => false
  }

  /** Nothing of class `cls` can start a word of `p`. */
  predicate StartsOutside(p: Pattern, cls: Class) {
    !p.End? && Disjoint(p.cls, cls) && (p.One? || p.Plus? || StartsOutside(p.rest, cls))
  }

  lemma {:induction false} NoStart(p: Pattern, cls: Class, s: string)
    requires StartsOutside(p, cls) && s != "" && In(cls, s[0])
    ensures Match(p, s).None?
  {
    if p.Star? || p.Maybe? {
      NoStart(p.rest, cls, s);
      assert s[0..] == s;
    }
  }

  /** Adjacent classes that are disjoint make matching deterministic: the
      repetition takes its whole run and never gives any of it back. */
  lemma {:induction false} NoGivingBack(p: Pattern, cls: Class, s: string, n: nat)
    requires StartsOutside(p, cls) && n <= Run(cls, s)
    ensures GiveBack(p, s, n) == if n == Run(cls, s) then After(n, Match(p, s[n..])) else None
  {
    hide Match, Run;
    if n < Run(cls, s) {
      NoStart(p, cls, s[n..]);
    }
    if n > 0 {
      NoGivingBack(p, cls, s, n - 1);
    }
  }

  /** The deterministic scanner: skip the run, then match the rest of the pattern there. */
  lemma SkipRun(p: Pattern, cls: Class, s: string)
    requires StartsOutside(p, cls)
    ensures Match(Star(cls, p), s) == After(Run(cls, s), Match(p, Skip(cls, s)))
    ensures Match(Plus(cls, p), s) ==
            if Run(cls, s) == 0 then None else After(Run(cls, s), Match(p, Skip(cls, s)))
  {
    NoGivingBack(p, cls, s, Run(cls, s));
    if s != "" && In(cls, s[0]) {
      NoGivingBack(p, cls, s[1..], Run(cls, s[1..]));
      assert s[1..][Run(cls, s[1..])..] == s[Run(cls, s)..];
    }
  }

  /** Literal text is matched character by character. */
  lemma {:induction false} MatchLit(text: string, p: Pattern, s: string)
    ensures Match(Lit(text, p), s) == if text <= s then After(|text|, Match(p, s[|text|..])) else None
    decreases |text|
  {
    if text == "" {
      assert s[0..] == s;
      hide Match;
    } else {
      hide *;
      LitCons(text, p);
      MatchOne(Only(text[0]), Lit(text[1..], p), s);
      if s != "" && s[0] == text[0] {
        MatchLit(text[1..], p, s[1..]);
        PrefixCons(text, s);
        AfterOne(|text| - 1, if text <= s then Match(p, s[|text|..]) else None);
        IsOnly(s[0], text[0]);
      } else {
        NoPrefix(text, s);
      }
    }
  }

  lemma LitCons(text: string, p: Pattern)
    requires text != ""
    ensures Lit(text, p) == One(Only(text[0]), Lit(text[1..], p))
  {
  }

  lemma AfterOne(k: nat, r: Option<nat>)
    ensures After(1, After(k, r)) == After(k + 1, r) && After(1, None) == None
  {
  }

  lemma IsOnly(c: char, d: char)
    ensures In(Only(d), c) <==> c == d
  {
  }

  lemma NoPrefix(text: string, s: string)
    requires text != "" && (s == "" || s[0] != text[0])
    ensures !(text <= s) && (s != "" ==> !In(Only(text[0]), s[0]))
  {
  }

  lemma MatchOne(cls: Class, p: Pattern, s: string)
    ensures Match(One(cls, p), s) == if s != "" && In(cls, s[0]) then After(1, Match(p, s[1..])) else None
  {
  }

  lemma PrefixCons(text: string, s: string)
    requires text != "" && s != "" && s[0] == text[0]
    ensures text <= s <==> text[1..] <= s[1..]
    ensures text <= s ==> s[1..][|text| - 1..] == s[|text|..]
  {
    if text[1..] <= s[1..] {
      assert text == [text[0]] + text[1..] && s == [s[0]] + s[1..];
    }
    if text <= s {
      assert s == text + s[|text|..];
      assert s[1..] == text[1..] + s[|text|..];
    }
  }

  /** The leftmost match in `s`: where it starts, and where it ends. */
  function FindFirst(p: Pattern, s: string): (r: Option<(nat, nat)>)
    ensures r.Some? ==> r.value.0 <= r.value.1 <= |s|
    decreases |s|
  {
    var m := Match(p, s);
    if m.Some? then Some((0, m.value))
    else if s == "" then None
    else Shift(1, FindFirst(p, s[1..]))
  }

  function Shift(k: nat, r: Option<(nat, nat)>): Option<(nat, nat)> {
    match r
    case None => None
    case Some(hit) => Some((k + hit.0, k + hit.1))
  }

  /** `string.find` from position `init` on. */
  function Find(p: Pattern, s: string, init: nat): (r: Option<(nat, nat)>)
    requires init <= |s|
    ensures r.Some? ==> init <= r.value.0 <= r.value.1 <= |s|
  {
    Shift(init, FindFirst(p, s[init..]))
  }

  /** The search reports the first position where the matcher succeeds, or none. */
  lemma {:induction false} FindLeftmost(p: Pattern, s: string, i: nat)
    requires i <= |s|
    ensures var f := FindFirst(p, s);
            if f.Some? && f.value.0 == i then Match(p, s[i..]) == Some(f.value.1 - i)
            else f.None? || i < f.value.0 ==> Match(p, s[i..]).None?
    decreases |s|
  {
    hide Match;
    if i > 0 && Match(p, s).None? {
      FindLeftmost(p, s[1..], i - 1);
      assert s[1..][i - 1..] == s[i..];
    }
  }
}
