/** src/signal.c: signal names and numbers, looked up and indexed. */
module Signals {
  import opened Prelude
  import Positions

  /** An entry of the table; its terminating null entry is the end of the sequence. */
  datatype Entry = Entry(name: string, num: int)

  // --- strcasecmp ---

  function ToLower(c: char): char {
    if 'A' <= c <= 'Z' then (c as int + 32) as char else c
  }

  function Lower(s: string): (r: string)
    ensures |r| == |s|
  {
    seq(|s|, i requires 0 <= i < |s| => ToLower(s[i]))
  }

  predicate SameName(a: string, b: string) {
    Lower(a) == Lower(b)
  }

  const CAPITALS: string := "ABCDEFGHIJKLMNOPQRSTUVWXYZ"
  const SMALL: string := "abcdefghijklmnopqrstuvwxyz"

  /** The same letter, capital or small, or the same character. */
  ghost predicate SameLetter(c: char, d: char) {
    c == d || exists i :: 0 <= i < 26 && {c, d} == {CAPITALS[i], SMALL[i]}
  }

  /** Two names are the same when they agree letter by letter, in any case. */
  lemma SameNameIff(a: string, b: string)
    ensures SameName(a, b) <==> |a| == |b| && forall i :: 0 <= i < |a| ==> SameLetter(a[i], b[i])
  {
    assert |Lower(a)| == |a| && |Lower(b)| == |b|;
    forall i | 0 <= i < |a| && i < |b| ensures Lower(a)[i] == Lower(b)[i] <==> SameLetter(a[i], b[i]) {
      SameLetterIff(a[i], b[i]);
    }
    hide ToLower, SameLetter;
  }

  lemma SameLetterIff(c: char, d: char)
    ensures ToLower(c) == ToLower(d) <==> SameLetter(c, d)
  {
    Alphabet();
    SameInAlphabet(c, d, CAPITALS, SMALL);
    hide ToLower;
  }

  lemma Alphabet()
    ensures |CAPITALS| == |SMALL| == 26
    ensures forall i :: 0 <= i < 26 ==> CAPITALS[i] as int == 65 + i && SMALL[i] as int == 97 + i
  {
  }

  lemma SameInAlphabet(c: char, d: char, capitals: string, small: string)
    requires |capitals| == |small| == 26
    requires forall i :: 0 <= i < 26 ==> capitals[i] as int == 65 + i && small[i] as int == 97 + i
    ensures ToLower(c) == ToLower(d) <==> c == d || exists i :: 0 <= i < 26 && {c, d} == {capitals[i], small[i]}
  {
    if ToLower(c) == ToLower(d) && c != d {
      var i := ToLower(c) as int - 97;
      assert {c, d} == {capitals[i], small[i]};
    }
    if i :| 0 <= i < 26 && {c, d} == {capitals[i], small[i]} {
      assert c in {capitals[i], small[i]} && d in {capitals[i], small[i]};
    }
  }

  // --- lookups ---

  function FirstNamed(table: seq<Entry>, name: string): Option<Entry> {
    if table == [] then None
    else if SameName(table[0].name, name) then Some(table[0])
    else FirstNamed(table[1..], name)
  }

  function FirstNumbered(table: seq<Entry>, num: int): Option<Entry> {
    if table == [] then None
    else if table[0].num == num then Some(table[0])
    else FirstNumbered(table[1..], num)
  }

  /** `lookup_by_name` */
  method LookupByName(table: seq<Entry>, name: string) returns (r: Option<Entry>)
    ensures r == FirstNamed(table, name)
    ensures r.None? ==> forall j :: 0 <= j < |table| ==> !SameName(table[j].name, name)
    ensures r.Some? ==>
              exists i :: && 0 <= i < |table| && r.value == table[i] && SameName(table[i].name, name)
                          && forall j :: 0 <= j < i ==> !SameName(table[j].name, name)
  {
    assert table[0..] == table;
    for i := 0 to |table|
      invariant FirstNamed(table[i..], name) == FirstNamed(table, name)
      invariant forall j :: 0 <= j < i ==> !SameName(table[j].name, name)
    {
      assert table[i..][0] == table[i] && table[i..][1..] == table[i + 1..];
      if SameName(table[i].name, name) {
        return Some(table[i]);
      }
    }
    return None;
  }

  /** `lookup_by_num` */
  method LookupByNum(table: seq<Entry>, num: int) returns (r: Option<Entry>)
    ensures r == FirstNumbered(table, num)
    ensures r.None? ==> forall j :: 0 <= j < |table| ==> table[j].num != num
    ensures r.Some? ==>
              exists i :: && 0 <= i < |table| && r.value == table[i] && table[i].num == num
                          && forall j :: 0 <= j < i ==> table[j].num != num
  {
    assert table[0..] == table;
    for i := 0 to |table|
      invariant FirstNumbered(table[i..], num) == FirstNumbered(table, num)
      invariant forall j :: 0 <= j < i ==> table[j].num != num
    {
      assert table[i..][0] == table[i] && table[i..][1..] == table[i + 1..];
      if table[i].num == num {
        return Some(table[i]);
      }
    }
    return None;
  }

  function NameOf(e: Option<Entry>): Option<string> {
    if e.None? then None else Some(e.value.name)
  }

  function NumOf(e: Option<Entry>): Option<int> {
    if e.None? then None else Some(e.value.num)
  }

  /** `tosigname_lua` */
  function ToSigName(table: seq<Entry>, num: int): Option<string> {
    NameOf(FirstNumbered(table, num))
  }

  /** `tosignum_lua` */
  function ToSigNum(table: seq<Entry>, name: string): Option<int> {
    NumOf(FirstNamed(table, name))
  }

  // --- the index ---

  /** Keys and values of the table that `signames` returns. */
  datatype Key = Name(name: string) | Num(num: int)

  datatype Value = Number(n: int) | Text(s: string) | List(names: seq<string>)

  /** All names of a number, in the order of the table. */
  function NamesOf(table: seq<Entry>, num: int): seq<string> {
    if table == [] then []
    else
      var last := table[|table| - 1];
      NamesOf(table[..|table| - 1], num) + if last.num == num then [last.name] else []
  }

  /** The number of the last entry with exactly this name. */
  function LastNum(table: seq<Entry>, name: string): Option<int> {
    if table == [] then None
    else
      var last := table[|table| - 1];
      if last.name == name then Some(last.num) else LastNum(table[..|table| - 1], name)
  }

  /** One name is stored as it is, several as a list. */
  function Packed(names: seq<string>): Option<Value> {
    if names == [] then None
    else if |names| == 1 then Some(Text(names[0]))
    else Some(List(names))
  }

  function Get(result: map<Key, Value>, k: Key): Option<Value> {
    if k in result then Some(result[k]) else None
  }

  ghost predicate Indexes(result: map<Key, Value>, table: seq<Entry>) {
    && (forall num :: Get(result, Num(num)) == Packed(NamesOf(table, num)))
    && (forall name :: Get(result, Name(name)) == NumberOf(LastNum(table, name)))
  }

  function NumberOf(n: Option<int>): Option<Value> {
    if n.None? then None else Some(Number(n.value))
  }

  /** `signames_lua` */
  method SigNames(table: seq<Entry>) returns (result: map<Key, Value>)
    ensures Indexes(result, table)
  {
    hide NamesOf, LastNum, Packed, Indexes;
    result := map[];
    NothingIndexed();
    assert table[..|table|] == table;
    for i := 0 to |table|
      invariant Indexes(result, table[..i])
    {
      var e := table[i];
      IndexNext(result, table[..i], e);
      assert table[..i + 1] == table[..i] + [e];
      result := result[Name(e.name) := Number(e.num)];
      ghost var named := result;
      if Num(e.num) !in result {
        result := result[Num(e.num) := Text(e.name)];
      } else {
        match result[Num(e.num)]
        case Text(existing) => result := result[Num(e.num) := List([existing, e.name])];
        case List(names) => result := result[Num(e.num) := List(names + [e.name])];
        case Number(_) =>
      }
      assert result == named[Num(e.num) := Grown(Get(named, Num(e.num)), e.name).value];
    }
  }

  /** The entry of a number after one more name. */
  function Grown(existing: Option<Value>, name: string): Option<Value> {
    match existing
    case None => Some(Text(name))
    case Some(Text(first)) => Some(List([first, name]))
    case Some(List(names)) => Some(List(names + [name]))
    case Some(Number(n)) => Some(Number(n))
  }

  lemma NothingIndexed()
    ensures Indexes(map[], [])
  {
  }

  lemma IndexNext(result: map<Key, Value>, table: seq<Entry>, e: Entry)
    requires Indexes(result, table)
    ensures var named := result[Name(e.name) := Number(e.num)];
            Indexes(named[Num(e.num) := Grown(Get(named, Num(e.num)), e.name).value], table + [e])
  {
    var named := result[Name(e.name) := Number(e.num)];
    var grown := Grown(Get(named, Num(e.num)), e.name);
    var next := named[Num(e.num) := grown.value];
    forall num ensures Get(next, Num(num)) == Packed(NamesOf(table + [e], num)) {
      NamesMore(table, e, num);
      PackedMore(NamesOf(table, num), e.name);
      assert Get(result, Num(num)) == Packed(NamesOf(table, num));
    }
    forall name ensures Get(next, Name(name)) == NumberOf(LastNum(table + [e], name)) {
      NamesMore(table, e, e.num);
      assert Get(result, Name(name)) == NumberOf(LastNum(table, name));
    }
  }

  lemma NamesMore(table: seq<Entry>, e: Entry, num: int)
    ensures NamesOf(table + [e], num) == if e.num == num then NamesOf(table, num) + [e.name] else NamesOf(table, num)
    ensures forall name :: LastNum(table + [e], name) == if e.name == name then Some(e.num) else LastNum(table, name)
  {
    assert (table + [e])[..|table|] == table;
    assert NamesOf(table, num) + [] == NamesOf(table, num);
  }

  lemma PackedMore(names: seq<string>, name: string)
    ensures Grown(Packed(names), name) == Packed(names + [name])
  {
    if |names| == 1 {
      assert names + [name] == [names[0], name];
    }
  }

  // --- the index agrees with the lookups ---

  /** No two entries have the same name, in whatever case. */
  predicate Distinct(table: seq<Entry>) {
    forall i, j :: 0 <= i < j < |table| ==> !SameName(table[i].name, table[j].name)
  }

  /** A number's first name is the one that `tosigname` gives; without names it gives none. */
  lemma {:induction false} FirstName(table: seq<Entry>, num: int)
    ensures ToSigName(table, num) == if NamesOf(table, num) == [] then None else Some(NamesOf(table, num)[0])
  {
    if table != [] {
      var init, last := table[..|table| - 1], table[|table| - 1];
      FirstName(init, num);
      FirstNumberedMore(init, last, num);
      assert table == init + [last];
    }
  }

  /** The names are those of the entries with the number, in the order of the table. */
  ghost predicate AreNames(table: seq<Entry>, num: int, pos: seq<nat>, names: seq<string>) {
    && Positions.Ascend(pos, |table|) && |pos| == |names|
    && (forall j :: 0 <= j < |pos| ==> names[j] == table[pos[j]].name)
    && (forall i :: 0 <= i < |table| ==> (i in pos <==> table[i].num == num))
  }

  lemma {:induction false} NamesInOrder(table: seq<Entry>, num: int) returns (pos: seq<nat>)
    ensures AreNames(table, num, pos, NamesOf(table, num))
  {
    if table == [] {
      pos := [];
    } else {
      var init, last := table[..|table| - 1], table[|table| - 1];
      var before := NamesInOrder(init, num);
      NamesMore(init, last, num);
      assert table == init + [last];
      hide *;
      pos := NamesNext(init, num, before, NamesOf(init, num), last);
    }
  }

  lemma NamesNext(table: seq<Entry>, num: int, pos: seq<nat>, names: seq<string>, e: Entry) returns (more: seq<nat>)
    requires AreNames(table, num, pos, names)
    ensures AreNames(table + [e], num, more, if e.num == num then names + [e.name] else names)
  {
    more := Positions.OneMore(pos, |table|, e.num == num);
  }

  lemma {:induction false} FirstNumberedMore(table: seq<Entry>, e: Entry, num: int)
    ensures FirstNumbered(table + [e], num) ==
            if FirstNumbered(table, num).Some? then FirstNumbered(table, num)
            else if e.num == num then Some(e) else None
  {
    if table != [] {
      FirstNumberedMore(table[1..], e, num);
      assert (table + [e])[1..] == table[1..] + [e];
    }
  }

  lemma {:induction false} FirstNamedMore(table: seq<Entry>, e: Entry, name: string)
    ensures FirstNamed(table + [e], name) ==
            if FirstNamed(table, name).Some? then FirstNamed(table, name)
            else if SameName(e.name, name) then Some(e) else None
  {
    if table != [] {
      FirstNamedMore(table[1..], e, name);
      assert (table + [e])[1..] == table[1..] + [e];
    }
  }

  lemma {:induction false} FirstNamedFound(table: seq<Entry>, name: string)
    ensures FirstNamed(table, name).Some? <==> exists i :: 0 <= i < |table| && SameName(table[i].name, name)
    ensures FirstNamed(table, name).Some? ==>
              FirstNamed(table, name).value in table && SameName(FirstNamed(table, name).value.name, name)
  {
    if table != [] {
      FirstNamedFound(table[1..], name);
    }
  }

  /** Every name of the table leads to the same number through the index and through `tosignum`. */
  lemma {:induction false} SameNumber(table: seq<Entry>, name: string)
    requires Distinct(table)
    ensures LastNum(table, name).Some? ==> ToSigNum(table, name) == LastNum(table, name)
  {
    if table != [] {
      var init, last := table[..|table| - 1], table[|table| - 1];
      assert table == init + [last];
      SameNumber(init, name);
      FirstNamedMore(init, last, name);
      FirstNamedFound(init, name);
    }
  }

  lemma {:induction false} LastNumOf(table: seq<Entry>, i: nat)
    requires Distinct(table) && i < |table|
    ensures LastNum(table, table[i].name) == Some(table[i].num)
  {
    var n := |table| - 1;
    if i < n {
      LastNumOf(table[..n], i);
      assert !SameName(table[i].name, table[n].name);
    }
  }

  lemma {:induction false} LastNumIff(table: seq<Entry>, name: string)
    ensures LastNum(table, name).Some? <==> exists e :: e in table && e.name == name
  {
    if table != [] {
      var n := |table| - 1;
      LastNumIff(table[..n], name);
      assert table == table[..n] + [table[n]];
    }
  }

  /** What `tosignum` finds under a name in any case, the index has under the name as the table spells it. */
  lemma NameInIndex(table: seq<Entry>, name: string)
    requires Distinct(table)
    ensures var e := FirstNamed(table, name);
            if e.None? then LastNum(table, name) == None
            else SameName(e.value.name, name) && LastNum(table, e.value.name) == Some(e.value.num)
  {
    FirstNamedFound(table, name);
    LastNumIff(table, name);
    hide LastNum, FirstNamed, Lower;
    var e := FirstNamed(table, name);
    if e.Some? {
      var i :| 0 <= i < |table| && table[i] == e.value;
      LastNumOf(table, i);
    }
  }

  /** The index of a table whose names are distinct is right in both directions. */
  lemma IndexAgrees(table: seq<Entry>, result: map<Key, Value>, num: int, name: string)
    requires Distinct(table) && Indexes(result, table)
    ensures var names := NamesOf(table, num);
            Get(result, Num(num)) == if names == [] then None
                                     else if |names| == 1 then Some(Text(names[0]))
                                     else Some(List(names))
    ensures NameOf(FirstNumbered(table, num)) ==
            if NamesOf(table, num) == [] then None else Some(NamesOf(table, num)[0])
    ensures Get(result, Name(name)).Some? <==> exists e :: e in table && e.name == name
    ensures Get(result, Name(name)).Some? ==>
              ToSigNum(table, name).Some? && Get(result, Name(name)) == Some(Number(ToSigNum(table, name).value))
    ensures ToSigNum(table, name).Some? ==>
              Get(result, Name(FirstNamed(table, name).value.name)) == Some(Number(ToSigNum(table, name).value))
  {
    LastNumIff(table, name);
    FirstName(table, num);
    SameNumber(table, name);
    NameInIndex(table, name);
    hide LastNum, FirstNamed, NamesOf, Distinct;
  }

  /** The canonical name of a number leads back to the number. */
  lemma NameLeadsBack(table: seq<Entry>, num: int)
    requires Distinct(table) && ToSigName(table, num).Some?
    ensures ToSigNum(table, ToSigName(table, num).value) == Some(num)
  {
    FirstNumberedFound(table, num);
    hide FirstNumbered, LastNum, FirstNamed, Lower;
    var e := FirstNumbered(table, num).value;
    var i :| 0 <= i < |table| && table[i] == e;
    LastNumOf(table, i);
    SameNumber(table, e.name);
  }

  lemma {:induction false} FirstNumberedFound(table: seq<Entry>, num: int)
    ensures FirstNumbered(table, num).Some? ==>
              FirstNumbered(table, num).value in table && FirstNumbered(table, num).value.num == num
  {
    if table != [] {
      FirstNumberedFound(table[1..], num);
    }
  }
}
