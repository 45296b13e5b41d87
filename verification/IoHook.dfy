/** lib/iohook.lua: who is called when a program prints while `print` is hooked. */
module IoHook {
  import opened Prelude

  /** A function given to `hook`, known by a number, or the default that does nothing. */
  datatype Fn = Default | Given(id: int)

  datatype Fns = Fns(hook: Fn, start: Fn, end: Fn)

  const DEFAULTS := Fns(Default, Default, Default)

  /** A call that was made, whether it returns or raises. */
  datatype Call = Started(fn: Fn) | Wrote(fn: Fn, text: string) | Ended(fn: Fn)

  /** What a program may do. `Captured` is output through a `print` or a writer that it
      got while it was hooked, and kept. `raises` says what the start function does if this
      output is the first, and what the end function does if there was any. */
  datatype Op =
    | Hook(fns: Fns)
    | Unhook(raises: bool)
    | Block
    | Unblock
    | Print(text: string, raises: bool)
    | Captured(text: string, raises: bool)

  // --- the specification: what a history of operations stands for ---

  predicate Blocked(ops: seq<Op>) {
    if ops == [] then false
    else
      match ops[|ops| - 1]
      case Block => true
      case Unblock => false
      case _ => Blocked(ops[..|ops| - 1])
  }

  /** A hook is in place: the last of the hooks and unhooks is a hook. */
  predicate Hooked(ops: seq<Op>) {
    if ops == [] then false
    else
      match ops[|ops| - 1]
      case Hook(_) => true
      case Unhook(_) => false
      case _ => Hooked(ops[..|ops| - 1])
  }

  /** A session: the functions in place, whether there was output, what of it got to the
      hook function, and whether `unhook` ended it. */
  datatype Session = Session(fns: Fns, begun: bool, texts: seq<string>, unhooked: bool)

  /** A session in which nothing has happened. */
  function Fresh(fns: Fns): Session {
    Session(fns, false, [], false)
  }

  /** The functions after an `unhook`: the defaults, unless the end function raises, which
      keeps `unhook` from getting to them. */
  function Left(s: Session, raises: bool): Fns {
    if s.begun && raises then s.fns else DEFAULTS
  }

  /** Each hook and each unhook ends a session and begins the next. */
  function Sessions(ops: seq<Op>): (r: seq<Session>)
    ensures |r| > 0
  {
    if ops == [] then [Fresh(DEFAULTS)]
    else
      var before := ops[..|ops| - 1];
      After(Sessions(before), ops[|ops| - 1], Hooked(before), Blocked(before))
  }

  function After(done: seq<Session>, op: Op, hooked: bool, blocked: bool): (r: seq<Session>)
    requires |done| > 0
    ensures |r| > 0
  {
    match op
    case Hook(fns) => done + [Fresh(fns)]
    case Unhook(raises) => Changed(done, Last(done).(unhooked := true)) + [Fresh(Left(Last(done), raises))]
    case Print(text, raises) => if hooked && !blocked then Changed(done, Printed(Last(done), text, raises)) else done
    case Captured(text, raises) => if !blocked then Changed(done, Printed(Last(done), text, raises)) else done
    case _ => done
  }

  function Last(sessions: seq<Session>): Session
    requires sessions != []
  {
    sessions[|sessions| - 1]
  }

  function Changed(sessions: seq<Session>, s: Session): seq<Session>
    requires sessions != []
  {
    sessions[..|sessions| - 1] + [s]
  }

  /** The first output begins the session; it is lost when the start function raises. */
  function Printed(s: Session, text: string, raises: bool): Session {
    if !s.begun && raises then s.(begun := true) else s.(begun := true, texts := s.texts + [text])
  }

  function Writes(fn: Fn, texts: seq<string>): (r: seq<Call>)
    ensures |r| == |texts|
  {
    seq(|texts|, i requires 0 <= i < |texts| => Wrote(fn, texts[i]))
  }

  /** The calls of a session: none when nothing was printed; else the start, the
      texts in order, and the end when it was unhooked. */
  function CallsOf(s: Session): seq<Call> {
    if !s.begun then []
    else [Started(s.fns.start)] + Writes(s.fns.hook, s.texts) + if s.unhooked then [Ended(s.fns.end)] else []
  }

  function Calls(sessions: seq<Session>): seq<Call> {
    if sessions == [] then [] else Calls(sessions[..|sessions| - 1]) + CallsOf(Last(sessions))
  }

  /** The texts that reach the terminal. */
  function Shown(ops: seq<Op>): seq<string> {
    if ops == [] then []
    else
      var before := ops[..|ops| - 1];
      match ops[|ops| - 1]
      case Print(text, _) => if Hooked(before) then Shown(before) else Shown(before) + [text]
      case _ => Shown(before)
  }

  // --- the module ---

  class Module {
    var isHooked: bool
    var isBlocked: bool
    var onHook: Fn
    var onStart: Fn
    var onEnd: Fn
    // `_G.print`, `_G.io.stdout` and `_G.io.stderr` are the hooked ones
    var replaced: bool
    var calls: seq<Call>
    var terminal: seq<string>
    ghost var ops: seq<Op>

    ghost predicate Valid()
      reads this
    {
      && isBlocked == Blocked(ops)
      && replaced == Hooked(ops)
      && terminal == Shown(ops)
      && calls == Calls(Sessions(ops))
      && Fns(onHook, onStart, onEnd) == Last(Sessions(ops)).fns
      && isHooked == Last(Sessions(ops)).begun
      && !Last(Sessions(ops)).unhooked
    }

    constructor ()
      ensures Valid() && ops == []
    {
      isHooked, isBlocked, replaced := false, false, false;
      onHook, onStart, onEnd := Default, Default, Default;
      calls, terminal, ops := [], [], [];
    }

    /** `block` */
    method BlockOutput()
      requires Valid()
      modifies this
      ensures Valid() && ops == old(ops) + [Block] && isBlocked
    {
      isBlocked := true;
      Next(ops, Block);
      ops := ops + [Block];
    }

    /** `unblock` */
    method UnblockOutput()
      requires Valid()
      modifies this
      ensures Valid() && ops == old(ops) + [Unblock] && !isBlocked
    {
      isBlocked := false;
      Next(ops, Unblock);
      ops := ops + [Unblock];
    }

    /** `hook`: a wrong argument leaves everything as it was. */
    method SetHook(hookfn: Arg, startfn: Arg, endfn: Arg) returns (r: Result<(), nat>)
      requires Valid()
      modifies this
      ensures Valid()
      ensures r.Success? <==> hookfn != Wrong && startfn != Wrong && endfn != Wrong
      ensures r == Failure(1) <==> hookfn == Wrong
      ensures r == Failure(2) <==> hookfn != Wrong && startfn == Wrong
      ensures r == Failure(3) <==> hookfn != Wrong && startfn != Wrong && endfn == Wrong
      ensures r.Failure? ==> ops == old(ops) && calls == old(calls)
      ensures r.Success? ==>
                && ops == old(ops) + [Hook(Fns(onHook, onStart, onEnd))] && replaced && !isHooked
                && onHook == (if hookfn.Function? then Given(hookfn.id) else Default)
                && onStart == (if startfn.Function? then Given(startfn.id) else Default)
                && onEnd == (if endfn.Function? then Given(endfn.id) else Default)
      ensures calls == old(calls) && terminal == old(terminal) && isBlocked == old(isBlocked)
    {
      hide Sessions, After, Changed, Last, Printed, Calls, CallsOf, Writes, Blocked, Hooked, Shown;
      if hookfn == Wrong {
        return Failure(1);
      } else if startfn == Wrong {
        return Failure(2);
      } else if endfn == Wrong {
        return Failure(3);
      }
      ghost var more := ops + [Hook(Fns(FnOf(hookfn), FnOf(startfn), FnOf(endfn)))];
      NextHook(ops, Fns(FnOf(hookfn), FnOf(startfn), FnOf(endfn)));
      onHook := FnOf(hookfn);
      onStart := FnOf(startfn);
      onEnd := FnOf(endfn);
      isHooked := false;
      replaced := true;
      ops := more;
      return Success(());
    }

    /** `unhook`; an end function that raises leaves the functions of the session in place. */
    method EndHook(raises: bool) returns (raised: bool)
      requires Valid()
      modifies this
      ensures Valid() && ops == old(ops) + [Unhook(raises)]
      ensures calls == old(calls) + if old(isHooked) then [Ended(old(onEnd))] else []
      ensures raised <==> old(isHooked) && raises
      ensures !replaced && !isHooked && terminal == old(terminal) && isBlocked == old(isBlocked)
    {
      NextUnhook(ops, raises);
      hide Sessions, After, Changed, Last, Printed, Calls, CallsOf, Writes, Blocked, Hooked, Shown;
      replaced := false;
      assert calls + [] == calls;
      ops := ops + [Unhook(raises)];
      if isHooked {
        isHooked := false;
        calls := calls + [Ended(onEnd)];
        if raises {
          return true;
        }
      }
      onHook := Default;
      onStart := Default;
      onEnd := Default;
      return false;
    }

    /** `printout`, which a captured `print` still calls after the session; when the start
        function raises, the text does not get to the hook function. */
    method Printout(text: string, raises: bool) returns (raised: bool)
      requires Valid()
      modifies this
      ensures Valid() && ops == old(ops) + [Captured(text, raises)]
      ensures raised <==> !old(isBlocked) && !old(isHooked) && raises
      ensures calls == old(calls) + if old(isBlocked) then []
                                    else (if old(isHooked) then [] else [Started(old(onStart))]) +
                                         (if raised then [] else [Wrote(old(onHook), text)])
      ensures terminal == old(terminal) && isBlocked == old(isBlocked) && replaced == old(replaced)
      ensures isHooked <==> old(isHooked) || !old(isBlocked)
    {
      NextText(ops, text, raises);
      hide Sessions, After, Changed, Last, Printed, Calls, CallsOf, Writes, Blocked, Hooked, Shown;
      ops := ops + [Captured(text, raises)];
      assert calls + [] == calls;
      if isBlocked {
        return false;
      } else if !isHooked {
        isHooked := true;
        calls := calls + [Started(onStart)];
        if raises {
          return true;
        }
      }
      calls := calls + [Wrote(onHook, text)];
      return false;
    }

    /** `print(text)` or `io.stdout:write(text)` */
    method Output(text: string, raises: bool) returns (raised: bool)
      requires Valid()
      modifies this
      ensures Valid() && ops == old(ops) + [Print(text, raises)]
      ensures raised <==> old(replaced) && !old(isBlocked) && !old(isHooked) && raises
      ensures terminal == old(terminal) + if old(replaced) then [] else [text]
      ensures calls == old(calls) + if !old(replaced) || old(isBlocked) then []
                                    else (if old(isHooked) then [] else [Started(old(onStart))]) +
                                         (if raised then [] else [Wrote(old(onHook), text)])
      ensures isBlocked == old(isBlocked) && replaced == old(replaced)
      ensures isHooked <==> old(isHooked) || (old(replaced) && !old(isBlocked))
    {
      ghost var before := ops;
      Next(before, Print(text, raises));
      Next(before, Captured(text, raises));
      hide Sessions, Calls, Blocked, Hooked, Shown;
      raised := false;
      if replaced {
        raised := Printout(text, raises);
      } else {
        terminal := terminal + [text];
        assert calls + [] == calls;
      }
      assert terminal + [] == terminal;
      ops := before + [Print(text, raises)];
    }
  }

  /** An argument of `hook`: left out, a function, or something else. */
  datatype Arg = Absent | Function(id: int) | Wrong

  function FnOf(a: Arg): Fn {
    if a.Function? then Given(a.id) else Default
  }

  // --- one more operation ---

  lemma Next(ops: seq<Op>, op: Op)
    ensures Blocked(ops + [op]) == if op == Block then true else if op == Unblock then false else Blocked(ops)
    ensures Hooked(ops + [op]) == if op.Hook? then true else if op.Unhook? then false else Hooked(ops)
    ensures Shown(ops + [op]) == if op.Print? && !Hooked(ops) then Shown(ops) + [op.text] else Shown(ops)
    ensures Sessions(ops + [op]) == After(Sessions(ops), op, Hooked(ops), Blocked(ops))
  {
    var more := ops + [op];
    assert more[..|more| - 1] == ops && more[|more| - 1] == op;
  }

  lemma CallsMore(sessions: seq<Session>, s: Session)
    ensures Calls(sessions + [s]) == Calls(sessions) + CallsOf(s)
  {
    assert (sessions + [s])[..|sessions|] == sessions;
  }

  /** A change of the last session that only adds calls adds them at the end. */
  lemma CallsChanged(sessions: seq<Session>, s: Session, added: seq<Call>)
    requires sessions != [] && CallsOf(s) == CallsOf(Last(sessions)) + added
    ensures Calls(Changed(sessions, s)) == Calls(sessions) + added
  {
    hide *;
    FrontAndLast(sessions, s);
    CallsAppend(sessions[..|sessions| - 1], Last(sessions), s, added);
  }

  lemma FrontAndLast(sessions: seq<Session>, s: Session)
    requires sessions != []
    ensures sessions == sessions[..|sessions| - 1] + [Last(sessions)]
    ensures Changed(sessions, s) == sessions[..|sessions| - 1] + [s]
  {
  }

  lemma CallsAppend(front: seq<Session>, last: Session, s: Session, added: seq<Call>)
    requires CallsOf(s) == CallsOf(last) + added
    ensures Calls(front + [s]) == Calls(front + [last]) + added
  {
    hide *;
    CallsMore(front, s);
    CallsMore(front, last);
    Associative(Calls(front), CallsOf(last), added);
  }

  lemma Associative(a: seq<Call>, b: seq<Call>, c: seq<Call>)
    ensures a + (b + c) == (a + b) + c
  {
  }

  /** What printing adds to the calls of a session. */
  function Added(s: Session, text: string, raises: bool): seq<Call> {
    (if s.begun then [] else [Started(s.fns.start)]) +
    (if !s.begun && raises then [] else [Wrote(s.fns.hook, text)])
  }

  lemma WritesMore(s: Session, text: string, raises: bool)
    requires !s.unhooked && (!s.begun ==> s.texts == [])
    ensures CallsOf(Printed(s, text, raises)) == CallsOf(s) + Added(s, text, raises)
  {
    assert Writes(s.fns.hook, s.texts + [text]) == Writes(s.fns.hook, s.texts) + [Wrote(s.fns.hook, text)];
  }

  // --- the rules of a session ---

  /** The start runs first and once, the end last and only after a start; in between
      each text is written once, in order. */
  lemma SessionRules(s: Session, i: nat)
    requires i < |CallsOf(s)|
    ensures CallsOf(s)[i].Started? <==> i == 0
    ensures CallsOf(s)[i].Ended? <==> s.unhooked && i == |CallsOf(s)| - 1
    ensures CallsOf(s)[i].Wrote? <==> 1 <= i <= |s.texts|
    ensures CallsOf(s)[i].Wrote? ==> CallsOf(s)[i] == Wrote(s.fns.hook, s.texts[i - 1])
    ensures CallsOf(s)[i].Started? ==> CallsOf(s)[i].fn == s.fns.start
    ensures CallsOf(s)[i].Ended? ==> CallsOf(s)[i].fn == s.fns.end
  {
  }

  /** `unhook` calls the end function of the session exactly when its start function was called in it. */
  lemma EndIffStarted(ops: seq<Op>, raises: bool)
    ensures var s := Last(Sessions(ops));
            && Calls(Sessions(ops + [Unhook(raises)])) ==
               Calls(Sessions(ops)) + (if CallsOf(s) != [] then [Ended(s.fns.end)] else [])
            && (CallsOf(s) != [] <==> Started(s.fns.start) in CallsOf(s))
  {
    NextUnhook(ops, raises);
    hide Sessions, Calls;
    var s := Last(Sessions(ops));
    assert s.begun ==> CallsOf(s)[0] == Started(s.fns.start);
  }

  lemma NextUnhook(ops: seq<Op>, raises: bool)
    ensures var s, more := Last(Sessions(ops)), ops + [Unhook(raises)];
            && Calls(Sessions(more)) == Calls(Sessions(ops)) + (if s.begun then [Ended(s.fns.end)] else [])
            && Last(Sessions(more)) == Fresh(Left(s, raises))
            && Blocked(more) == Blocked(ops) && !Hooked(more) && Shown(more) == Shown(ops)
  {
    var sessions := Sessions(ops);
    var s := Last(sessions);
    LastIsOpen(ops);
    Next(ops, Unhook(raises));
    var ended := s.(unhooked := true);
    var added := if s.begun then [Ended(s.fns.end)] else [];
    CallsEnded(s);
    CallsChanged(sessions, ended, added);
    CallsMore(Changed(sessions, ended), Fresh(Left(s, raises)));
    hide Sessions, Calls, Changed;
    assert Calls(Changed(sessions, ended)) + [] == Calls(Changed(sessions, ended));
  }

  lemma CallsEnded(s: Session)
    requires !s.unhooked
    ensures CallsOf(s.(unhooked := true)) == CallsOf(s) + if s.begun then [Ended(s.fns.end)] else []
  {
  }

  /** Output through `printout`, blocked or not. */
  lemma NextText(ops: seq<Op>, text: string, raises: bool)
    ensures var s, more := Last(Sessions(ops)), ops + [Captured(text, raises)];
            && Blocked(more) == Blocked(ops) && Hooked(more) == Hooked(ops) && Shown(more) == Shown(ops)
            && (Blocked(ops) ==> Sessions(more) == Sessions(ops))
            && (!Blocked(ops) ==>
                  && Last(Sessions(more)).fns == s.fns && Last(Sessions(more)).begun && !Last(Sessions(more)).unhooked
                  && Calls(Sessions(more)) == Calls(Sessions(ops)) + Added(s, text, raises))
  {
    var sessions := Sessions(ops);
    var s := Last(sessions);
    LastIsOpen(ops);
    Next(ops, Captured(text, raises));
    if !Blocked(ops) {
      WritesMore(s, text, raises);
      CallsChanged(sessions, Printed(s, text, raises), Added(s, text, raises));
    }
    hide Sessions, Calls, CallsOf, Added;
  }

  /** When the end function raises, the session is over but its functions stay: the next
      output through a captured `print` begins it anew. */
  lemma EndRaised(ops: seq<Op>, text: string)
    requires !Blocked(ops) && Last(Sessions(ops)).begun
    ensures var fns := Last(Sessions(ops)).fns;
            Calls(Sessions(ops + [Unhook(true)] + [Captured(text, false)])) ==
            Calls(Sessions(ops)) + [Ended(fns.end)] + [Started(fns.start), Wrote(fns.hook, text)]
  {
    NextUnhook(ops, true);
    NextText(ops + [Unhook(true)], text, false);
    hide Sessions, Calls, Blocked;
  }

  /** After an end function that returns there are no functions to call. */
  lemma EndReturned(ops: seq<Op>)
    ensures Last(Sessions(ops + [Unhook(false)])) == Fresh(DEFAULTS)
  {
    NextUnhook(ops, false);
    hide Sessions;
  }

  /** A session from its hook to its unhook: the given functions are called, and no others. */
  lemma OneSession(ops: seq<Op>, fns: Fns, text: string)
    requires !Blocked(ops)
    ensures Calls(Sessions(ops + [Hook(fns)] + [Print(text, false)] + [Unhook(false)])) ==
            Calls(Sessions(ops)) + [Started(fns.start), Wrote(fns.hook, text)] + [Ended(fns.end)]
  {
    var hooked := ops + [Hook(fns)];
    NextHook(ops, fns);
    NextText(hooked, text, false);
    Next(hooked, Print(text, false));
    Next(hooked, Captured(text, false));
    NextUnhook(hooked + [Print(text, false)], false);
    hide Sessions, Calls, Blocked, Hooked;
  }

  lemma NextHook(ops: seq<Op>, fns: Fns)
    ensures var more := ops + [Hook(fns)];
            && Calls(Sessions(more)) == Calls(Sessions(ops)) && Last(Sessions(more)) == Fresh(fns)
            && Blocked(more) == Blocked(ops) && Hooked(more) && Shown(more) == Shown(ops)
  {
    Next(ops, Hook(fns));
    HookedOver(ops, fns);
    hide Sessions, Calls;
  }

  lemma {:induction false} LastIsOpen(ops: seq<Op>)
    ensures !Last(Sessions(ops)).unhooked
    ensures !Last(Sessions(ops)).begun ==> Last(Sessions(ops)).texts == []
  {
    if ops != [] {
      LastIsOpen(ops[..|ops| - 1]);
    }
  }

  /** While output is blocked, printing calls nothing and shows nothing that was hooked. */
  lemma {:induction false} BlockedStretch(ops: seq<Op>, more: seq<Op>)
    requires Blocked(ops) && forall op :: op in more ==> op.Print? || op.Captured?
    ensures Blocked(ops + more) && Sessions(ops + more) == Sessions(ops)
    ensures Hooked(ops) ==> Hooked(ops + more) && Shown(ops + more) == Shown(ops)
    decreases |more|
  {
    if more == [] {
      assert ops + more == ops;
    } else {
      var init, last := more[..|more| - 1], more[|more| - 1];
      BlockedStretch(ops, init);
      assert ops + more == (ops + init) + [last];
      assert last in more;
      Next(ops + init, last);
    }
  }

  /** Hooking again before `unhook` drops the open session: its end function never runs. */
  lemma HookedOver(ops: seq<Op>, fns: Fns)
    ensures Calls(Sessions(ops + [Hook(fns)])) == Calls(Sessions(ops))
    ensures Sessions(ops + [Hook(fns)]) == Sessions(ops) + [Fresh(fns)]
    ensures !Last(Sessions(ops)).unhooked
  {
    Next(ops, Hook(fns));
    LastIsOpen(ops);
    CallsMore(Sessions(ops), Fresh(fns));
    hide Sessions, Calls;
    assert Calls(Sessions(ops)) + [] == Calls(Sessions(ops));
  }
}
