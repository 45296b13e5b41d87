/** lib/trim.lua: removing a prefix, a suffix, or the surrounding white space. */
module Trim {
  import opened Patterns

  /** `string.sub(s, -n)`. A zero `n` is Lua's `-0`, which keeps the whole string. */
  function SubFromEnd(s: string, n: nat): string {
    if n == 0 || n >= |s| then s else s[|s| - n..]
  }

  function TrimPrefix(s: string, prefix: string): (r: string)
    ensures prefix <= s ==> s == prefix + r
    ensures !(prefix <= s) ==> r == s
  {
    if prefix <= s then s[|prefix|..] else s
  }

  function TrimSuffix(s: string, suffix: string): (r: string)
    ensures s == r || s == r + suffix
    ensures suffix != "" && |suffix| <= |s| && s[|s| - |suffix|..] == suffix ==> s == r + suffix
    ensures |s| < |suffix| || s[|s| - |suffix|..] != suffix ==> r == s
  {
    if SubFromEnd(s, |suffix|) == suffix then s[..|s| - |suffix|] else s
  }

  /** The lazy capture of `^%s*(.-)%s*$`: the greedy head takes every leading
      space, then the capture grows until only spaces are left. */
  function TrimSpace(s: string): string {
    var head := Run(Space, s);
    DropTrailing(s[head..])
  }

  function DropTrailing(s: string): (r: string)
    ensures r <= s
    ensures r != "" ==> !IsSpace(r[|r| - 1])
  {
    if s != "" && IsSpace(s[|s| - 1]) then DropTrailing(s[..|s| - 1]) else s
  }

  /** What it takes off is white space. */
  lemma {:induction false} DroppedIsSpace(s: string)
    ensures AllSpace(s[|DropTrailing(s)|..])
  {
    if s != "" && IsSpace(s[|s| - 1]) {
      var init, r := s[..|s| - 1], DropTrailing(s);
      DroppedIsSpace(init);
      hide DropTrailing, IsSpace;
      assert s[|r|..] == init[|r|..] + [s[|s| - 1]];
    }
  }

  predicate AllSpace(s: string) {
    forall i :: 0 <= i < |s| ==> IsSpace(s[i])
  }

  /** `t` is `s` with nothing but white space removed, and none left at either end. */
  ghost predicate IsTrimmed(s: string, t: string) {
    && (exists a, b :: s == a + t + b && AllSpace(a) && AllSpace(b))
    && (t != "" ==> !IsSpace(t[0]) && !IsSpace(t[|t| - 1]))
  }

  /** Trimming returns the one string that is `s` without its outer white space. */
  lemma TrimSpaceUnique(s: string, t: string)
    ensures IsTrimmed(s, t) <==> t == TrimSpace(s)
  {
    TrimSpaceTrims(s);
    if IsTrimmed(s, t) {
      var a, b :| s == a + t + b && AllSpace(a) && AllSpace(b);
      TrimSpaceOf(a, t, b);
    }
  }

  lemma TrimSpaceTrims(s: string)
    ensures IsTrimmed(s, TrimSpace(s))
  {
    var head := Run(Space, s);
    var t := TrimSpace(s);
    var tail := s[head..][|t|..];
    assert forall i :: 0 <= i < head ==> s[..head][i] == s[i];
    assert s == s[..head] + t + tail;
    DroppedIsSpace(s[head..]);
    assert AllSpace(s[..head]) && AllSpace(tail);
  }

  lemma {:induction false} TrimSpaceOf(a: string, t: string, b: string)
    requires AllSpace(a) && AllSpace(b)
    requires t != "" ==> !IsSpace(t[0]) && !IsSpace(t[|t| - 1])
    ensures TrimSpace(a + t + b) == t
  {
    var s := a + t + b;
    if t == "" {
      assert forall i :: 0 <= i < |s| ==> IsSpace(s[i]);
      assert Run(Space, s) == |s|;
    } else {
      assert s == a + (t + b);
      RunExact(Space, a, t + b);
      assert s[|a|..] == t + b;
      DropTrailingOf(t, b);
    }
  }

  /** White space skipped beforehand makes no difference. */
  lemma TrimSkipped(s: string)
    ensures TrimSpace(Skip(Space, s)) == TrimSpace(s)
  {
    var r := Skip(Space, s);
    assert Run(Space, r) == 0;
    assert r[0..] == r;
  }

  lemma {:induction false} DropTrailingOf(t: string, b: string)
    requires t != "" && !IsSpace(t[|t| - 1]) && AllSpace(b)
    ensures DropTrailing(t + b) == t
  {
    var s := t + b;
    if b == "" {
      assert s == t;
    } else {
      assert s[|s| - 1] == b[|b| - 1];
      assert s[..|s| - 1] == t + b[..|b| - 1];
      DropTrailingOf(t, b[..|b| - 1]);
    }
  }
}
