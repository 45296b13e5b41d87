/** lib/filesystem.lua, the path arithmetic: `trim_cwd` and the fields that `getstat`
    computes from a real path. */
module Filenames {
  import opened Paths
  import Trim

  function TrimCwd(cwd: AbsPath, pathname: string): string {
    if cwd <= pathname then Trim.TrimPrefix(Trim.TrimPrefix(pathname, cwd), "/") else pathname
  }

  /** Index just after the last `/`, or 0. */
  function AfterSlash(p: string): (k: nat)
    ensures k <= |p| && '/' !in p[k..]
    ensures k > 0 ==> p[k - 1] == '/'
  {
    if p == "" || p[|p| - 1] == '/' then |p| else AfterSlash(p[..|p| - 1])
  }

  /** The last component, slashes at the end aside; `.` if there is none. */
  function BaseName(p: string): string
    decreases |p|
  {
    if p == "" then "."
    else if p[|p| - 1] == '/' then BaseName(p[..|p| - 1])
    else p[AfterSlash(p)..]
  }

  /** What comes before the last slash; `/` or `.` when that is nothing. */
  function DirName(p: string): string {
    var k := AfterSlash(p);
    if k > 1 then p[..k - 1]
    else if p != "" && p[0] == '/' then "/"
    else "."
  }

  predicate AllSlashes(p: string) {
    forall i :: 0 <= i < |p| ==> p[i] == '/'
  }

  /** A base name stands between a slash, or the start, and slashes at the end; a text of
      slashes alone has none. */
  lemma {:induction false} BaseNameForm(p: string) returns (a: string, b: string)
    ensures AllSlashes(p) ==> BaseName(p) == "."
    ensures !AllSlashes(p) ==> p == a + BaseName(p) + b && AllSlashes(b) && (a != "" ==> a[|a| - 1] == '/')
    ensures !AllSlashes(p) ==> BaseName(p) != "" && '/' !in BaseName(p)
    decreases |p|
  {
    if p == "" {
      a, b := "", "";
    } else if p[|p| - 1] == '/' {
      var init := p[..|p| - 1];
      a, b := BaseNameForm(init);
      SlashMore(init, p);
      if !AllSlashes(p) {
        hide AllSlashes;
        assert BaseName(p) == BaseName(init);
        hide BaseName;
        Append(init, a, BaseName(init), b, p);
        OneSlashMore(b);
        b := b + "/";
      }
    } else {
      a, b := p[..AfterSlash(p)], "";
      hide AfterSlash;
      assert p == a + p[AfterSlash(p)..] + "";
    }
  }

  lemma SlashMore(init: string, p: string)
    requires p == init + "/"
    ensures AllSlashes(p) <==> AllSlashes(init)
  {
    assert forall i :: 0 <= i < |init| ==> p[i] == init[i];
  }

  lemma OneSlashMore(b: string)
    requires AllSlashes(b)
    ensures AllSlashes(b + "/")
  {
  }

  lemma Append(init: string, a: string, n: string, b: string, p: string)
    requires init == a + n + b && p == init + "/"
    ensures p == a + n + (b + "/")
  {
  }

  /** A directory name is what comes before the last slash, if that is something. */
  lemma DirNameForm(p: string, d: string, rest: string)
    requires '/' !in rest
    ensures d != "" && p == d + "/" + rest ==> DirName(p) == d
    ensures p == "/" + rest ==> DirName(p) == "/"
    ensures p == rest ==> DirName(p) == "."
  {
    hide AfterSlash;
    if d != "" && p == d + "/" + rest {
      LastSlash(d + "/", rest);
      assert p[..|d|] == d;
    }
    if p == "/" + rest {
      LastSlash("/", rest);
    }
    if p == rest {
      LastSlash("", rest);
      assert "" + rest == rest;
    }
  }

  lemma {:induction false} LastSlash(a: string, rest: string)
    requires '/' !in rest && (a != "" ==> a[|a| - 1] == '/')
    ensures AfterSlash(a + rest) == |a|
    decreases |rest|
  {
    if rest == "" {
      assert a + rest == a;
    } else {
      assert (a + rest)[..|a + rest| - 1] == a + rest[..|rest| - 1];
      LastSlash(a, rest[..|rest| - 1]);
    }
  }

  /** The part of what `realpath` promises that matters here: absolute, no slash at the
      end, no empty component and none that is `.` or starts another path. */
  predicate IsReal(p: string) {
    && p != "" && p[0] == '/'
    && (|p| > 1 ==> p[|p| - 1] != '/')
    && (forall i :: 0 <= i < |p| - 1 && p[i] == '/' ==> p[i + 1] != '/')
    && (forall i :: 0 <= i < |p| - 1 && p[i] == '/' && p[i + 1] == '.' ==> i + 2 < |p| && p[i + 2] != '/')
  }

  function Below(dir: string, name: string): string {
    if dir == "/" then "/" + name else dir + "/" + name
  }

  /** `trim_cwd` cut at the end of a component, or did not cut at all. */
  predicate AtBoundary(cwd: AbsPath, p: string) {
    cwd <= p ==> cwd == "/" || p == cwd || p[|cwd|] == '/'
  }

  /** What is left of a path that starts with `cwd`: a slash after it goes too. */
  lemma TrimSplit(cwd: AbsPath, rest: string)
    ensures cwd <= cwd + rest
    ensures TrimCwd(cwd, cwd + rest) == if rest != "" && rest[0] == '/' then rest[1..] else rest
  {
    var p := cwd + rest;
    assert p[|cwd|..] == rest;
    assert "/" <= rest <==> rest != "" && rest[0] == '/';
  }

  /** A real path below `cwd`: what follows `cwd` at a boundary. */
  lemma RealTail(cwd: AbsPath, rest: string)
    requires IsReal(cwd) && IsReal(cwd + rest) && rest != ""
    ensures rest[0] == '/' ==> cwd != "/" && |rest| > 1 && IsTail(rest[1..])
    ensures cwd == "/" ==> IsTail(rest)
    ensures cwd != "/" ==> cwd[|cwd| - 1] != '/'
  {
    var p, n := cwd + rest, |cwd|;
    assert p[n] == rest[0] && p[n - 1] == cwd[n - 1];
    assert |rest| > 1 ==> p[n + 1] == rest[1];
    assert |rest| > 2 ==> p[n + 2] == rest[2];
  }

  /** A relative path that starts neither with a slash nor with a `.` component. */
  predicate IsTail(q: string) {
    q != "" && q[0] != '/' && (q[0] == '.' ==> |q| > 1 && q[1] != '/')
  }

  /** The shortened name still leads, from CWD, to the file exactly when the cut was made
      at a component boundary. */
  lemma TrimmedLeadsBack(cwd: AbsPath, p: AbsPath)
    requires IsReal(cwd) && IsReal(p)
    ensures Resolve(cwd, TrimCwd(cwd, p)) == p <==> AtBoundary(cwd, p)
  {
    if cwd < p {
      hide *;
      var rest := p[|cwd|..];
      assert p == cwd + rest;
      TrimSplit(cwd, rest);
      RealTail(cwd, rest);
      LeadsBack(cwd, rest);
    }
  }

  lemma LeadsBack(cwd: AbsPath, rest: string)
    requires rest != "" && cwd == "/" ==> IsTail(rest)
    requires rest != "" && rest[0] == '/' ==> cwd != "/" && |rest| > 1 && IsTail(rest[1..])
    requires cwd != "/" ==> cwd[|cwd| - 1] != '/'
    requires rest != ""
    ensures Resolve(cwd, if rest[0] == '/' then rest[1..] else rest) == cwd + rest <==> AtBoundary(cwd, cwd + rest)
  {
    assert (cwd + rest)[|cwd|] == rest[0];
    if rest[0] == '/' {
      assert cwd + "/" + rest[1..] == cwd + rest;
    }
  }

  /** `q` is below the directory `cwd`, and `p` is what a sibling of that directory would
      be called that has the same path but for the slash. */
  predicate Clash(cwd: AbsPath, p: string, q: string) {
    cwd <= p && cwd <= q && q[|cwd|..] == "/" + p[|cwd|..]
  }

  /** Two files have the same name exactly when they are the same or clash. */
  lemma SameNameIff(cwd: AbsPath, p: AbsPath, q: AbsPath)
    requires IsReal(cwd) && IsReal(p) && IsReal(q)
    ensures TrimCwd(cwd, p) == TrimCwd(cwd, q) <==> p == q || Clash(cwd, p, q) || Clash(cwd, q, p)
  {
    hide *;
    if cwd <= p && cwd <= q {
      var a, b := p[|cwd|..], q[|cwd|..];
      assert p == cwd + a && q == cwd + b;
      SameRest(cwd, a, b);
      ClashIs(cwd, p, q);
      ClashIs(cwd, q, p);
    } else {
      ClashIs(cwd, p, q);
      ClashIs(cwd, q, p);
      if cwd <= p {
        OutsideName(cwd, p, q);
      } else if cwd <= q {
        OutsideName(cwd, q, p);
      } else {
        NotTrimmed(cwd, p);
        NotTrimmed(cwd, q);
      }
    }
  }

  lemma ClashIs(cwd: AbsPath, p: string, q: string)
    ensures Clash(cwd, p, q) <==> cwd <= p && cwd <= q && q[|cwd|..] == "/" + p[|cwd|..]
  {
  }

  lemma NotTrimmed(cwd: AbsPath, p: string)
    requires !(cwd <= p)
    ensures TrimCwd(cwd, p) == p
  {
  }

  lemma SameRest(cwd: AbsPath, a: string, b: string)
    requires IsReal(cwd) && IsReal(cwd + a) && IsReal(cwd + b)
    ensures TrimCwd(cwd, cwd + a) == TrimCwd(cwd, cwd + b) <==> a == b || b == "/" + a || a == "/" + b
  {
    TrimSplit(cwd, a);
    TrimSplit(cwd, b);
    if a != "" {
      RealTail(cwd, a);
    }
    if b != "" {
      RealTail(cwd, b);
    }
    hide IsReal, TrimCwd;
    WithSlash(a);
    WithSlash(b);
  }

  lemma WithSlash(a: string)
    ensures a != "" && a[0] == '/' ==> a == "/" + a[1..]
  {
  }

  /** The name of a file below `cwd` is no absolute path. */
  lemma NameIsRelative(cwd: AbsPath, p: AbsPath)
    requires IsReal(cwd) && IsReal(p) && cwd <= p
    ensures TrimCwd(cwd, p) == "" || TrimCwd(cwd, p)[0] != '/'
  {
    var rest := p[|cwd|..];
    assert p == cwd + rest;
    TrimSplit(cwd, rest);
    if rest != "" {
      RealTail(cwd, rest);
    }
  }

  lemma OutsideName(cwd: AbsPath, p: AbsPath, q: AbsPath)
    requires IsReal(cwd) && IsReal(p) && cwd <= p && !(cwd <= q)
    ensures TrimCwd(cwd, p) != TrimCwd(cwd, q)
  {
    NameIsRelative(cwd, p);
    NotTrimmed(cwd, q);
  }

  /** Without a clash: on paths cut at boundaries different files have different names. */
  lemma TrimInjective(cwd: AbsPath, p: AbsPath, q: AbsPath)
    requires IsReal(cwd) && IsReal(p) && IsReal(q) && AtBoundary(cwd, p) && AtBoundary(cwd, q)
    ensures TrimCwd(cwd, p) == TrimCwd(cwd, q) ==> p == q
  {
    TrimmedLeadsBack(cwd, p);
    TrimmedLeadsBack(cwd, q);
  }

  /** With one, two files share a name. */
  lemma TrimCollision()
    ensures Clash("/a/b", "/a/b" + "c/x", "/a/b" + "/c/x")
    ensures TrimCwd("/a/b", "/a/b" + "c/x") == TrimCwd("/a/b", "/a/b" + "/c/x")
  {
    var p, q := "/a/b" + "c/x", "/a/b" + "/c/x";
    assert p[4..] == "c/x" && q[4..] == "/c/x";
    assert "/a/b" <= p && "/a/b" <= q;
    TrimSplit("/a/b", "c/x");
    TrimSplit("/a/b", "/c/x");
  }

  /** A file that is not cut at a boundary cannot be reached by the name of any file. */
  lemma Unreachable(cwd: AbsPath, p: AbsPath, q: AbsPath)
    requires IsReal(cwd) && IsReal(p) && IsReal(q) && !AtBoundary(cwd, p)
    ensures Resolve(cwd, TrimCwd(cwd, q)) != p
  {
    hide *;
    var n := TrimCwd(cwd, q);
    OffBoundary(cwd, p);
    if cwd <= q {
      NameIsRelative(cwd, q);
      ResolveRelative(cwd, n);
    } else {
      NotTrimmed(cwd, q);
      ResolveAbsolute(cwd, q);
    }
  }

  lemma OffBoundary(cwd: AbsPath, p: string)
    requires IsReal(cwd) && !AtBoundary(cwd, p)
    ensures cwd <= p && p != cwd && |p| > |cwd| && p[|cwd|] != '/' && cwd[|cwd| - 1] != '/'
  {
  }

  /** Where a relative name leads: to the directory itself, or below it. */
  lemma ResolveRelative(cwd: AbsPath, n: string)
    requires cwd[|cwd| - 1] != '/' && (n == "" || n[0] != '/')
    ensures Resolve(cwd, n) == cwd || (|Resolve(cwd, n)| > |cwd| && Resolve(cwd, n)[|cwd|] == '/')
  {
  }

  lemma ResolveAbsolute(cwd: AbsPath, q: AbsPath)
    ensures Resolve(cwd, q) == q
  {
  }

  /** The directory in which the tests of a file are run, and the name of the file in it,
      lead to the file exactly when its name was cut at a component boundary. */
  lemma DirectoryOfFile(cwd: AbsPath, p: AbsPath)
    requires IsReal(cwd) && IsReal(p) && p != "/" && p != cwd
    ensures Below(Resolve(cwd, DirName(TrimCwd(cwd, p))), BaseName(p)) == p <==> AtBoundary(cwd, p)
  {
    BaseOfReal(p);
    hide BaseName, DirName, Below, AfterSlash;
    if !(cwd <= p) {
      DirectoryOfAbsolute(cwd, p);
    } else {
      var rest := p[|cwd|..];
      assert p == cwd + rest;
      RealTail(cwd, rest);
      hide IsReal;
      DirectoryBelow(cwd, rest);
    }
  }

  lemma DirectoryBelow(cwd: AbsPath, rest: string)
    requires rest != "" && (cwd == "/" ==> IsTail(rest))
    requires rest[0] == '/' ==> cwd != "/" && |rest| > 1 && IsTail(rest[1..])
    requires cwd != "/" ==> cwd[|cwd| - 1] != '/'
    ensures var p := cwd + rest;
            Below(Resolve(cwd, DirName(TrimCwd(cwd, p))), p[AfterSlash(p)..]) == p <==> AtBoundary(cwd, p)
  {
    hide TrimCwd, DirName, Below, Resolve, IsTail, AfterSlash;
    TrimSplit(cwd, rest);
    assert (cwd + rest)[|cwd|] == rest[0];
    if rest[0] == '/' {
      assert cwd + ("/" + rest[1..]) == cwd + rest;
      DirectoryOfRelative(cwd, rest[1..]);
    } else if cwd == "/" {
      DirectoryBelowRoot(rest);
    } else {
      DirectoryMisses(cwd, rest);
    }
  }

  lemma {:induction false} SlashBefore(p: string, i: nat)
    requires i < |p| && p[i] == '/'
    ensures AfterSlash(p) > i
    decreases |p|
  {
    if p[|p| - 1] != '/' {
      SlashBefore(p[..|p| - 1], i);
    }
  }

  lemma BaseOfReal(p: string)
    requires IsReal(p) && p != "/"
    ensures AfterSlash(p) > 0 && BaseName(p) == p[AfterSlash(p)..]
  {
    SlashBefore(p, 0);
  }

  lemma DirectoryOfAbsolute(cwd: AbsPath, p: AbsPath)
    requires IsReal(p) && AfterSlash(p) > 0
    ensures Below(Resolve(cwd, DirName(p)), p[AfterSlash(p)..]) == p
  {
    var k := AfterSlash(p);
    hide AfterSlash;
    assert p == p[..k - 1] + "/" + p[k..];
    assert k != 2;
  }

  lemma DirectoryOfRelative(cwd: AbsPath, q: string)
    requires cwd[|cwd| - 1] != '/' && IsTail(q)
    ensures var p := cwd + ("/" + q);
            Below(Resolve(cwd, DirName(q)), p[AfterSlash(p)..]) == p
  {
    hide *;
    var base := LastPart(cwd + "/", q);
    Regroup(cwd, "/", q);
    DirOfTail(q);
    if base == q {
      BelowStart(cwd, q);
    } else {
      BelowRelative(cwd, DirName(q), base);
    }
  }

  lemma Regroup(a: string, b: string, c: string)
    ensures a + (b + c) == (a + b) + c
  {
  }

  lemma BelowStart(cwd: AbsPath, q: string)
    requires cwd[|cwd| - 1] != '/'
    ensures Below(Resolve(cwd, "."), q) == cwd + ("/" + q)
  {
    Regroup(cwd, "/", q);
  }

  lemma BelowRelative(cwd: AbsPath, d: string, base: string)
    requires cwd[|cwd| - 1] != '/' && d != "" && d[0] != '/' && d != "."
    ensures Below(Resolve(cwd, d), base) == cwd + ("/" + (d + "/" + base))
  {
    assert Resolve(cwd, d) == (cwd + "/") + d && Resolve(cwd, d) != "/";
    assert ((cwd + "/") + d) + "/" + base == cwd + ("/" + (d + "/" + base));
  }

  lemma DirectoryBelowRoot(q: string)
    requires IsTail(q)
    ensures var p := "/" + q;
            Below(Resolve("/", DirName(q)), p[AfterSlash(p)..]) == p
  {
    var base := LastPart("/", q);
    DirOfTail(q);
    hide AfterSlash, DirName, IsTail;
    if base != q {
      assert "/" + q == "/" + DirName(q) + "/" + base;
    }
  }

  /** The last component does not depend on what comes before the last slash. */
  lemma LastPart(a: string, q: string) returns (base: string)
    requires a != "" && a[|a| - 1] == '/'
    ensures base == q[AfterSlash(q)..]
    ensures (a + q)[AfterSlash(a + q)..] == base
  {
    AfterSlashOfTail(a, q);
    base := q[AfterSlash(q)..];
  }

  /** A tail is its directory, a slash and its last component, or just the latter. */
  lemma DirOfTail(q: string)
    requires IsTail(q)
    ensures var base := q[AfterSlash(q)..];
            if base == q then DirName(q) == "."
            else q == DirName(q) + "/" + base && DirName(q) != "" && DirName(q)[0] != '/' && DirName(q) != "."
  {
    var k := AfterSlash(q);
    hide AfterSlash;
    assert k == 0 ==> q[k..] == q;
    assert k > 0 ==> |q[k..]| < |q|;
    assert k > 1 ==> q == q[..k - 1] + "/" + q[k..];
  }

  lemma {:induction false} AfterSlashOfTail(a: string, b: string)
    requires AfterSlash(b) > 0 || (a != "" && a[|a| - 1] == '/')
    ensures AfterSlash(a + b) == |a| + AfterSlash(b)
    decreases |b|
  {
    if b == "" {
      assert a + b == a;
    } else if b[|b| - 1] != '/' {
      assert (a + b)[..|a + b| - 1] == a + b[..|b| - 1];
      AfterSlashOfTail(a, b[..|b| - 1]);
    }
  }

  lemma {:induction false} AfterSlashNone(a: string, b: string)
    requires AfterSlash(b) == 0
    ensures AfterSlash(a + b) <= |a|
    decreases |b|
  {
    if b == "" {
      assert a + b == a;
    } else {
      assert (a + b)[..|a + b| - 1] == a + b[..|b| - 1];
      AfterSlashNone(a, b[..|b| - 1]);
    }
  }

  /** A cut inside a component: the path that the two parts make up is too long. */
  lemma DirectoryMisses(cwd: AbsPath, rest: string)
    requires cwd[|cwd| - 1] != '/' && rest != "" && rest[0] != '/'
    ensures var p := cwd + rest;
            Below(Resolve(cwd, DirName(rest)), p[AfterSlash(p)..]) != p
  {
    var p, k := cwd + rest, AfterSlash(rest);
    if k > 0 {
      AfterSlashOfTail(cwd, rest);
    } else {
      AfterSlashNone(cwd, rest);
    }
    hide AfterSlash;
    var d := DirName(rest);
    assert |Resolve(cwd, d)| >= |cwd|;
    assert k > 1 ==> |d| == k - 1 && (d == "." || |Resolve(cwd, d)| == |cwd| + 1 + |d|);
  }
}
