/** src/fork.c: fork handles, over every interleaving of the processes that hold them. */
module Fork {
  import opened Prelude
  import opened Processes

  // --- the functions of src/fork.c ---

  /** `Reported` is a child that was stopped, or that goes on. */
  datatype WaitResult = SelfWait | NoSuchChild | EndedChild(pid: int) | Reported(pid: int, stopped: bool)

  class Machine {
    var sys: System

    constructor ()
      ensures sys == Boot()
    {
      sys := Boot();
    }

    /** `fork_lua`; `c` is what `fork()` gives to the parent, -1 when it fails. */
    method Fork(p: Pid, c: int) returns (handle: Option<nat>)
      requires Free(sys, p) && (c == -1 || Enabled(sys, Event.Fork(p, c)))
      modifies this
      ensures c == -1 ==> sys == old(sys) && handle.None?
      ensures c != -1 ==> sys == Next(old(sys), Event.Fork(p, c)) && handle == Some(old(sys).forks)
    {
      if c == -1 {
        return None;
      }
      var n, q := sys.forks, sys.procs[p];
      // fork(): from here on there are two memories
      sys := System(sys.procs[c := Process(p, n, Running, false, q.ignores, Idle, q.handles)], n + 1);
      // *p = pid, in either of them
      sys := SetHandle(sys, p, n, c);
      sys := SetHandle(sys, c, n, 0);
      return Some(n);
    }

    /** `waitpid`, once it has something to say. */
    method Waitpid(p: Pid, pid: int) returns (answer: Answer)
      requires p in sys.procs && sys.procs[p].life == Running
      modifies this
      ensures answer == Look(old(sys), p, pid)
      ensures sys == match answer
                     case NoChild => old(sys)
                     case Ended => Remove(old(sys), pid)
                     case Alive => Put(old(sys), pid, old(sys).procs[pid].(reports := false))
      ensures p in sys.procs && sys.procs[p].handles == old(sys).procs[p].handles
    {
      answer := Look(sys, p, pid);
      match answer
      case NoChild =>
      case Ended => sys := Remove(sys, pid);
      case Alive => sys := Put(sys, pid, sys.procs[pid].(reports := false));
    }

    /** `wait_lua` */
    method Wait(p: Pid, h: nat) returns (r: WaitResult)
      requires Enabled(sys, Event.Wait(p, h))
      modifies this
      ensures sys == Next(old(sys), Event.Wait(p, h))
      ensures r.EndedChild? <==> Reaps(old(sys), Event.Wait(p, h), p, h)
      ensures r.SelfWait? <==> Stored(old(sys), p, h) == 0
      ensures r.EndedChild? || r.Reported? ==> r.pid == Stored(old(sys), p, h) >= 1
      ensures r.Reported? <==> Stored(old(sys), p, h) >= 1 && Look(old(sys), p, Stored(old(sys), p, h)) == Alive
      ensures r.Reported? ==> (r.stopped <==> old(sys).procs[r.pid].life == Stopped)
      ensures r.NoSuchChild? <==>
              || Stored(old(sys), p, h) < 0
              || (Stored(old(sys), p, h) >= 1 && Look(old(sys), p, Stored(old(sys), p, h)) == NoChild)
    {
      var pid := Stored(sys, p, h);
      if pid == 0 {
        return SelfWait;
      } else if pid < 1 {
        return NoSuchChild;
      }
      var stopped := pid in sys.procs && sys.procs[pid].life == Stopped;
      var answer := Waitpid(p, pid);
      if answer == NoChild {
        return NoSuchChild;
      }
      if answer == Ended {
        sys := SetHandle(sys, p, h, -pid);
        return EndedChild(pid);
      }
      return Reported(pid, stopped);
    }

    /** `is_child_lua` */
    method IsChild(p: Pid, h: nat) returns (b: bool)
      requires Owns(sys, p, h)
      ensures b <==> Stored(sys, p, h) == 0
    {
      b := Stored(sys, p, h) == 0;
    }

    /** `gc_lua`, when no other process gets a step in between. */
    method Collect(p: Pid, h: nat)
      requires Inv(sys) && Free(sys, p) && Owns(sys, p, h)
      modifies this
      ensures Valid(old(sys), Finalizer(old(sys), p, h))
      ensures sys == Run(old(sys), Finalizer(old(sys), p, h)) == Finalized(old(sys), p, h)
    {
      FinalizerRuns(sys, p, h);
      var pid := Stored(sys, p, h);
      if pid == 0 {
        sys := Die(sys, p);
        return;
      } else if pid > 1 {
        // waitpid(pid, NULL, WNOHANG)
        var probe := Look(sys, p, pid);
        if probe == Ended {
          sys := Remove(sys, pid);
        } else if probe == Alive {
          // kill(pid, SIGKILL)
          sys := Die(sys, pid);
          // waitpid(pid, NULL, 0)
          if Look(sys, p, pid) == Ended {
            sys := Remove(sys, pid);
          }
        }
      }
      sys := Drop(sys, p, h);
    }
  }

  /** The steps of an undisturbed finalizer. */
  function Finalizer(s: System, p: Pid, h: nat): seq<Event>
    requires Owns(s, p, h)
  {
    if Stored(s, p, h) > 1 && Look(s, p, Stored(s, p, h)) == Alive then [Collect(p, h), Kill(p), Reap(p)]
    else [Collect(p, h)]
  }

  /** `e` is the `wait` by which `p` reaps the process that its handle `h` names. */
  predicate Reaps(s: System, e: Event, p: Pid, h: nat) {
    e == Wait(p, h) && Owns(s, p, h) && Stored(s, p, h) >= 1 && Look(s, p, Stored(s, p, h)) == Ended
  }

  /** What an undisturbed finalizer leaves: the child that lived has ended and is reaped. */
  function Finalized(s: System, p: Pid, h: nat): System
    requires Owns(s, p, h)
  {
    var v := Stored(s, p, h);
    if v == 0 then Die(s, p)
    else if v <= 1 || v == p || Look(s, p, v) == NoChild then Drop(s, p, h)
    else
      var dead := if Look(s, p, v) == Alive then Die(s, v) else s;
      Drop(Remove(dead, v), p, h)
  }

  lemma FinalizerRuns(s: System, p: Pid, h: nat)
    requires Inv(s) && Free(s, p) && Owns(s, p, h)
    ensures Valid(s, Finalizer(s, p, h)) && Run(s, Finalizer(s, p, h)) == Finalized(s, p, h)
    ensures Look(s, p, p) == NoChild
  {
    assert RootedAt(s, p);
    var v := Stored(s, p, h);
    if v > 1 && Look(s, p, v) == Alive {
      KillRuns(s, p, h);
      var s1 := Next(s, Collect(p, h));
      var s2 := Next(s1, Kill(p));
      var s3 := Next(s2, Reap(p));
      hide Next, Enabled;
      assert [Collect(p, h), Kill(p), Reap(p)][1..] == [Kill(p), Reap(p)];
      assert [Kill(p), Reap(p)][1..] == [Reap(p)] && [Reap(p)][1..] == [];
      assert Valid(s3, []) && Run(s3, []) == s3;
      assert Valid(s2, [Reap(p)]) && Run(s2, [Reap(p)]) == s3;
      assert Valid(s1, [Kill(p), Reap(p)]) && Run(s1, [Kill(p), Reap(p)]) == s3;
    } else {
      var s1 := Next(s, Collect(p, h));
      assert [Collect(p, h)][1..] == [];
      assert Valid(s1, []) && Run(s1, []) == s1;
    }
  }

  lemma KillRuns(s: System, p: Pid, h: nat)
    requires Inv(s) && Free(s, p) && Owns(s, p, h)
    requires Stored(s, p, h) > 1 && Look(s, p, Stored(s, p, h)) == Alive
    ensures Enabled(s, Collect(p, h))
    ensures var s1 := Next(s, Collect(p, h));
            && Enabled(s1, Kill(p))
            && var s2 := Next(s1, Kill(p));
            && Enabled(s2, Reap(p)) && Next(s2, Reap(p)) == Finalized(s, p, h)
  {
    var v := Stored(s, p, h);
    assert RootedAt(s, p);
    ModeThenDie(s, p, v, Probed(h));
    DieTable(s, v);
    hide *;
    KillAlive(s, p, h);
    ReapKilled(s, Die(s, v), p, h, v);
    FinalizedAlive(s, p, h);
  }

  lemma FinalizedAlive(s: System, p: Pid, h: nat)
    requires Owns(s, p, h) && Stored(s, p, h) > 1 && Stored(s, p, h) != p && Look(s, p, Stored(s, p, h)) == Alive
    requires p in Die(s, Stored(s, p, h)).procs
    ensures Finalized(s, p, h) == Drop(Remove(Die(s, Stored(s, p, h)), Stored(s, p, h)), p, h)
  {
    hide Die, Drop, Remove;
  }

  lemma ReapKilled(s: System, dead: System, p: Pid, h: nat, v: Pid)
    requires Free(s, p) && p in dead.procs && p != v && v > 1 && Owns(s, p, h) && Stored(s, p, h) == v
    requires dead.procs[p].handles == s.procs[p].handles && dead.procs[p].life == Running
    requires v in dead.procs ==> dead.procs[v].life == Zombie && dead.procs[v].parent == p
    ensures var s2 := SetMode(dead, p, Killed(h));
            Enabled(s2, Reap(p)) && Next(s2, Reap(p)) == Drop(Remove(dead, v), p, h)
  {
    var s2 := SetMode(dead, p, Killed(h));
    DropForgets(dead, p, h, Killed(h), v);
    hide Drop, Remove;
    assert Look(s2, p, v) == if v in dead.procs then Ended else NoChild;
    assert Awake(s2, p) && Target(s2, p) == v;
  }

  lemma KillAlive(s: System, p: Pid, h: nat)
    requires Free(s, p) && Owns(s, p, h) && Stored(s, p, h) > 1 && Look(s, p, Stored(s, p, h)) == Alive
    requires Stored(s, p, h) != p && p in Die(s, Stored(s, p, h)).procs
    requires Die(SetMode(s, p, Probed(h)), Stored(s, p, h)) == SetMode(Die(s, Stored(s, p, h)), p, Probed(h))
    ensures Enabled(s, Collect(p, h)) && Enabled(Next(s, Collect(p, h)), Kill(p))
    ensures Next(Next(s, Collect(p, h)), Kill(p)) == SetMode(Die(s, Stored(s, p, h)), p, Killed(h))
  {
    var dead := Die(s, Stored(s, p, h));
    hide Die;
    assert SetMode(SetMode(dead, p, Probed(h)), p, Killed(h)).procs == SetMode(dead, p, Killed(h)).procs;
  }

  lemma DropForgets(s: System, p: Pid, h: nat, m: Mode, v: Pid)
    requires p in s.procs && p != v
    ensures Drop(Remove(SetMode(s, p, m), v), p, h) == Drop(Remove(s, v), p, h)
    ensures v !in s.procs ==> Drop(SetMode(s, p, m), p, h) == Drop(Remove(s, v), p, h)
  {
    var goal := Drop(Remove(s, v), p, h);
    assert Drop(Remove(SetMode(s, p, m), v), p, h).procs == goal.procs;
    assert v !in s.procs ==> Drop(SetMode(s, p, m), p, h).procs == goal.procs;
  }

  lemma ModeThenDie(s: System, p: Pid, v: Pid, m: Mode)
    requires p in s.procs && v in s.procs && p != v
    ensures p in Die(s, v).procs && Die(SetMode(s, p, m), v) == SetMode(Die(s, v), p, m)
  {
    var s1 := SetMode(s, p, m);
    DieTable(s, v);
    DieTable(s1, v);
    assert IgnoresChildren(s1, s.procs[v].parent) <==> IgnoresChildren(s, s.procs[v].parent);
    hide Die, IgnoresChildren;
    var dead, moded := Die(s1, v), SetMode(Die(s, v), p, m);
    forall c ensures c in dead.procs <==> c in moded.procs {
    }
    forall c | c in dead.procs ensures dead.procs[c] == moded.procs[c] {
    }
    assert dead.procs == moded.procs;
  }

  // --- the integer in a handle ---

  /** The process that was the `b`th to start, under pid `p`, has the handle `h`. */
  predicate Holds(s: System, p: Pid, b: nat, h: nat) {
    Owns(s, p, h) && s.procs[p].birth == b
  }

  lemma StepStored(s: System, e: Event, p: Pid, b: nat, h: nat)
    requires Inv(s) && Enabled(s, e) && Holds(s, p, b, h) && Holds(Next(s, e), p, b, h)
    ensures Stored(Next(s, e), p, h) == if Reaps(s, e, p, h) then -Stored(s, p, h) else Stored(s, p, h)
  {
    assert NumberedAt(s, p);
    match e
    case Fork(_, _) =>
    case Wait(_, _) =>
    case Collect(q, i) => CollectStored(s, q, i, p, b, h);
    case Kill(q) => KillStored(s, q, p, b, h);
    case Exit(q) => DeathStored(s, q, p, b, h);
    case _ =>
  }

  lemma DeathStored(s: System, q: Pid, p: Pid, b: nat, h: nat)
    requires q in s.procs && Holds(s, p, b, h) && Holds(Die(s, q), p, b, h)
    ensures Stored(Die(s, q), p, h) == Stored(s, p, h)
  {
    DieTable(s, q);
    hide Die;
  }

  lemma CollectStored(s: System, q: Pid, i: nat, p: Pid, b: nat, h: nat)
    requires Enabled(s, Collect(q, i)) && Holds(s, p, b, h) && Holds(CollectStep(s, q, i), p, b, h)
    ensures Stored(CollectStep(s, q, i), p, h) == Stored(s, p, h)
  {
    if Holds(Die(s, q), p, b, h) {
      DeathStored(s, q, p, b, h);
    }
    hide Die;
  }

  lemma KillStored(s: System, q: Pid, p: Pid, b: nat, h: nat)
    requires Enabled(s, Kill(q)) && Holds(s, p, b, h) && Holds(KillStep(s, q), p, b, h)
    ensures Stored(KillStep(s, q), p, h) == Stored(s, p, h)
  {
    var v := Target(s, q);
    if v in s.procs {
      DieTable(s, v);
      if Holds(Die(s, v), p, b, h) {
        DeathStored(s, v, p, b, h);
      }
    }
    hide Die;
  }

  /** What a process has lost does not come back. */
  lemma StepLost(s: System, e: Event, p: Pid, b: nat, h: nat)
    requires Inv(s) && Enabled(s, e) && b < s.forks && h < s.forks && !Holds(s, p, b, h)
    ensures !Holds(Next(s, e), p, b, h)
  {
    match e
    case Fork(_, _) =>
    case Wait(_, _) =>
    case Collect(q, i) => LostByCollect(s, q, i, p, b, h);
    case Kill(q) => LostByKill(s, q, p, b, h);
    case Reap(_) =>
    case Interrupt(_) =>
    case Exit(q) => LostByDeath(s, q, p, b, h);
    case _ =>
  }

  lemma LostByDeath(s: System, q: Pid, p: Pid, b: nat, h: nat)
    requires q in s.procs && !Holds(s, p, b, h)
    ensures !Holds(Die(s, q), p, b, h)
  {
    DieTable(s, q);
    hide Die;
  }

  lemma LostByCollect(s: System, q: Pid, i: nat, p: Pid, b: nat, h: nat)
    requires Enabled(s, Collect(q, i)) && !Holds(s, p, b, h)
    ensures !Holds(CollectStep(s, q, i), p, b, h)
  {
    LostByDeath(s, q, p, b, h);
    hide Die;
  }

  lemma LostByKill(s: System, q: Pid, p: Pid, b: nat, h: nat)
    requires Enabled(s, Kill(q)) && RootedAt(s, q) && !Holds(s, p, b, h)
    ensures !Holds(KillStep(s, q), p, b, h)
  {
    var v := Target(s, q);
    if v in s.procs {
      LostByDeath(s, v, p, b, h);
    }
    hide Die;
  }

  lemma {:induction false} RunKeeps(s: System, es: seq<Event>)
    requires Inv(s) && Valid(s, es)
    ensures Inv(Run(s, es))
    decreases |es|
  {
    hide Inv, Next, Enabled;
    if es != [] {
      StepKeeps(s, es[0]);
      RunKeeps(Next(s, es[0]), es[1..]);
    }
  }

  lemma {:induction false} RunLost(s: System, es: seq<Event>, p: Pid, b: nat, h: nat)
    requires Inv(s) && Valid(s, es) && b < s.forks && h < s.forks && !Holds(s, p, b, h)
    ensures !Holds(Run(s, es), p, b, h)
    decreases |es|
  {
    hide Inv, Next, Enabled, Holds;
    if es != [] {
      StepKeeps(s, es[0]);
      StepLost(s, es[0], p, b, h);
      StepForks(s, es[0]);
      RunLost(Next(s, es[0]), es[1..], p, b, h);
    }
  }

  /** Somewhere in the run, `p` reaps through its handle `h`. */
  predicate ReapsIn(s: System, es: seq<Event>, p: Pid, h: nat)
    requires Valid(s, es)
    decreases |es|
  {
    es != [] && (Reaps(s, es[0], p, h) || ReapsIn(Next(s, es[0]), es[1..], p, h))
  }

  function Abs(x: int): nat {
    if x < 0 then -x else x
  }

  /** Whatever the processes do, a handle never stands for another pid, and it turns
      negative exactly when its own `wait` reaps the child; then it stays so. */
  lemma {:induction false} HandleHistory(s: System, es: seq<Event>, p: Pid, b: nat, h: nat)
    requires Inv(s) && Valid(s, es) && Holds(s, p, b, h) && Holds(Run(s, es), p, b, h)
    ensures Abs(Stored(Run(s, es), p, h)) == Abs(Stored(s, p, h))
    ensures Stored(Run(s, es), p, h) < 0 <==> Stored(s, p, h) < 0 || ReapsIn(s, es, p, h)
    decreases |es|
  {
    if es != [] {
      var t := Next(s, es[0]);
      NumbersOf(s, p, b, h);
      StepKeeps(s, es[0]);
      hide Inv, Next, Enabled;
      if Holds(t, p, b, h) {
        StepStored(s, es[0], p, b, h);
        HandleHistory(t, es[1..], p, b, h);
      } else {
        StepForks(s, es[0]);
        RunLost(t, es[1..], p, b, h);
      }
    }
  }

  lemma NumbersOf(s: System, p: Pid, b: nat, h: nat)
    requires Inv(s) && Holds(s, p, b, h)
    ensures b < s.forks && h < s.forks
  {
    assert NumberedAt(s, p);
  }

  lemma StepForks(s: System, e: Event)
    requires Enabled(s, e)
    ensures s.forks <= Next(s, e).forks
  {
  }

  /** A new handle stores the child's pid in the parent, and 0 in the child. */
  lemma NewHandle(s: System, p: Pid, c: Pid)
    requires Inv(s) && Enabled(s, Fork(p, c))
    ensures var t := Next(s, Fork(p, c));
            && Holds(t, p, s.procs[p].birth, s.forks) && Stored(t, p, s.forks) == c > 1
            && Holds(t, c, s.forks, s.forks) && Stored(t, c, s.forks) == 0
            && !Owns(s, p, s.forks)
  {
    assert NumberedAt(s, p);
  }

  // --- whom SIGKILL hits ---

  /** Every SIGKILL of the run goes to an unreaped child of its sender, unless the
      sender ignores SIGCHLD at that moment. */
  predicate KillsOwnChildren(s: System, es: seq<Event>)
    requires Valid(s, es)
    decreases |es|
  {
    es == [] ||
    ((es[0].Kill? && !s.procs[es[0].p].ignores ==> Look(s, es[0].p, Target(s, es[0].p)) != NoChild) &&
     KillsOwnChildren(Next(s, es[0]), es[1..]))
  }

  /** Over every interleaving. */
  lemma {:induction false} OnlyOwnChildrenKilled(s: System, es: seq<Event>)
    requires Inv(s) && Valid(s, es)
    ensures KillsOwnChildren(s, es)
    decreases |es|
  {
    if es != [] {
      if es[0].Kill? {
        assert ProbesAt(s, es[0].p);
      }
      StepKeeps(s, es[0]);
      hide Inv, Next, Enabled, Look, Target;
      OnlyOwnChildrenKilled(Next(s, es[0]), es[1..]);
    }
  }

  /** If the process that was the `b`th to start is still about to kill, it aims at a child of its own. */
  predicate AimsAtChild(s: System, p: Pid, b: nat) {
    Finalizing(s, p) && s.procs[p].mode.Probed? && s.procs[p].birth == b ==> Look(s, p, Target(s, p)) != NoChild
  }

  /** `p` has not killed yet: whatever happened since its probe was done by others. */
  predicate Others(es: seq<Event>, p: Pid) {
    forall i :: 0 <= i < |es| ==> es[i] != Kill(p)
  }

  /** Between its probe and its `kill`, a process is sure of its target, whatever the
      others do meanwhile, exactly when it does not ignore SIGCHLD. */
  lemma KillWindow(s: System, p: Pid)
    requires Inv(s) && Finalizing(s, p) && s.procs[p].mode.Probed? && Look(s, p, Target(s, p)) == Alive
    ensures (forall es :: Valid(s, es) && Others(es, p) ==> AimsAtChild(Run(s, es), p, s.procs[p].birth)) <==>
            !s.procs[p].ignores
  {
    var b := s.procs[p].birth;
    if s.procs[p].ignores {
      Hijack(s, p);
    } else {
      assert NumberedAt(s, p);
      forall es | Valid(s, es) && Others(es, p) ensures AimsAtChild(Run(s, es), p, b) {
        WindowKept(s, es, p, b);
      }
    }
  }

  /** With SIGCHLD ignored, the child may vanish and its pid go to a stranger. */
  lemma Hijack(s: System, p: Pid)
    requires Inv(s) && Finalizing(s, p) && s.procs[p].mode.Probed? && Look(s, p, Target(s, p)) == Alive
    requires s.procs[p].ignores
    ensures exists es :: Valid(s, es) && Others(es, p) && !AimsAtChild(Run(s, es), p, s.procs[p].birth)
  {
    var v := Target(s, p);
    Vanishes(s, p);
    var s1 := Next(s, Exit(v));
    var s2 := Next(s1, Spawn(v));
    var es := [Exit(v), Spawn(v)];
    hide *;
    TwoSteps(s, Exit(v), Spawn(v));
    assert Others(es, p) by { NotKills(p, v); }
  }

  lemma NotKills(p: Pid, v: Pid)
    ensures Others([Exit(v), Spawn(v)], p)
  {
  }

  lemma TwoSteps(s: System, a: Event, b: Event)
    requires Enabled(s, a) && Enabled(Next(s, a), b)
    ensures Valid(s, [a, b]) && Run(s, [a, b]) == Next(Next(s, a), b)
  {
    hide Next, Enabled;
    var t := Next(s, a);
    assert [a, b][1..] == [b] && [b][1..] == [];
    assert Valid(Next(t, b), []) && Run(Next(t, b), []) == Next(t, b);
    assert Valid(t, [b]) && Run(t, [b]) == Next(t, b);
  }

  lemma Vanishes(s: System, p: Pid)
    requires Inv(s) && Finalizing(s, p) && s.procs[p].mode.Probed? && Look(s, p, Target(s, p)) == Alive
    requires s.procs[p].ignores
    ensures var v := Target(s, p);
            && Enabled(s, Exit(v)) && Enabled(Next(s, Exit(v)), Spawn(v))
            && !AimsAtChild(Next(Next(s, Exit(v)), Spawn(v)), p, s.procs[p].birth)
  {
    var v := Target(s, p);
    assert RootedAt(s, v) && RootedAt(s, p) && ProbesAt(s, p);
    DieTable(s, v);
    assert p != INIT && v != p;
    var s1 := Next(s, Exit(v));
    assert s1 == Die(s, v);
    hide Die, Inv;
    assert p in s1.procs && s1.procs[p] == Reparented(s.procs[p], v) && v !in s1.procs;
  }

  /** The process is in the window with SIGCHLD not ignored, or it is gone. */
  predicate InWindow(s: System, p: Pid, b: nat) {
    b < s.forks && (p in s.procs && s.procs[p].birth == b ==>
                      s.procs[p].life == Zombie || (s.procs[p].mode.Probed? && !s.procs[p].ignores))
  }

  lemma StepInWindow(s: System, e: Event, p: Pid, b: nat)
    requires Inv(s) && Enabled(s, e) && e != Kill(p) && InWindow(s, p, b)
    ensures InWindow(Next(s, e), p, b)
  {
    match e
    case Collect(q, h) =>
      DeathInWindow(s, q, p, b);
      hide Die;
    case Kill(q) => KillInWindow(s, q, p, b);
    case Exit(q) => DeathInWindow(s, q, p, b);
    case _ =>
  }

  lemma DeathInWindow(s: System, q: Pid, p: Pid, b: nat)
    requires q in s.procs && InWindow(s, p, b)
    ensures InWindow(Die(s, q), p, b)
  {
    DieTable(s, q);
    hide Die;
  }

  lemma KillInWindow(s: System, q: Pid, p: Pid, b: nat)
    requires Enabled(s, Kill(q)) && q != p && InWindow(s, p, b)
    ensures InWindow(KillStep(s, q), p, b)
  {
    var v := Target(s, q);
    if v in s.procs {
      DeathInWindow(s, v, p, b);
    }
    hide Die;
  }

  lemma {:induction false} WindowKept(s: System, es: seq<Event>, p: Pid, b: nat)
    requires Inv(s) && Valid(s, es) && Others(es, p) && InWindow(s, p, b)
    ensures AimsAtChild(Run(s, es), p, b)
    decreases |es|
  {
    if es == [] {
      assert ProbesAt(s, p);
    } else {
      StepKeeps(s, es[0]);
      StepInWindow(s, es[0], p, b);
      hide Inv, Next, Enabled, InWindow, AimsAtChild;
      WindowKept(Next(s, es[0]), es[1..], p, b);
    }
  }

  // --- which child a handle names ---

  /** No younger handle of `p` stores the same pid. */
  predicate IsYoungest(s: System, p: Pid, h: nat)
    requires Owns(s, p, h)
  {
    forall k | k in s.procs[p].handles :: k > h ==> s.procs[p].handles[k] != s.procs[p].handles[h]
  }

  /** The handle that was made for the child `c` of `p` is gone, and `c` is not reaped. */
  predicate Abandoned(s: System, p: Pid, c: Pid) {
    Look(s, p, c) != NoChild && !Owns(s, p, s.procs[c].birth)
  }

  /** A handle that stores the pid of an unreaped child, living or ended, names the child it
      was made for, exactly when no younger handle of the process stores the same pid and
      the child is not abandoned. Otherwise it is a stale copy, and its `wait` and its
      finalizer act on another child. */
  lemma RightChild(s: System, p: Pid, h: nat)
    requires Inv(s) && Owns(s, p, h) && Look(s, p, Stored(s, p, h)) != NoChild
    ensures s.procs[Stored(s, p, h)].birth == h <==> IsYoungest(s, p, h) && !Abandoned(s, p, Stored(s, p, h))
  {
    var v := Stored(s, p, h);
    var b := s.procs[v].birth;
    assert h !in s.procs[INIT].handles && p > INIT by {
      assert InitAlone(s) && RootedAt(s, p);
    }
    assert HeldAt(s, v) && OlderAt(s, p, h) && RootedAt(s, v);
    forall k | k in s.procs[p].handles && s.procs[p].handles[k] == v ensures k <= b {
      assert OlderAt(s, p, k);
    }
    if Owns(s, p, b) {
      assert s.procs[p].handles[b] == v;
    }
  }

  /** A living child is never abandoned: of a handle that stores its pid it is enough to
      know whether it is the youngest. */
  lemma RightLivingChild(s: System, p: Pid, h: nat)
    requires Inv(s) && Owns(s, p, h) && Look(s, p, Stored(s, p, h)) == Alive
    ensures s.procs[Stored(s, p, h)].birth == h <==> IsYoungest(s, p, h)
  {
    RightChild(s, p, h);
    var c := Stored(s, p, h);
    assert h !in s.procs[INIT].handles && InitAlone(s) && RootedAt(s, p);
    assert HeldAt(s, c) && RootedAt(s, c);
  }

  /** A child is abandoned in one way only: the finalizer of its own handle has killed it,
      and a signal interrupts the wait that should have reaped it. */
  lemma AbandonedBy(s: System, e: Event, p: Pid, c: Pid)
    requires Inv(s) && Enabled(s, e) && p > INIT && Look(s, p, c) != NoChild && !Abandoned(s, p, c)
    requires Abandoned(Next(s, e), p, c)
    ensures e == Interrupt(p) && s.procs[p].mode == Killed(s.procs[c].birth) && Target(s, p) == c
  {
    assert RootedAt(s, c) && HeldAt(s, c) && ProbesAt(s, p);
    match e
    case Collect(q, h) => KeptByCollect(s, q, h, p, c);
    case Kill(q) => KeptByKill(s, q, p, c);
    case Exit(q) => KeptByDeath(s, q, p, c);
    case _ =>
  }

  lemma KeptByDeath(s: System, q: Pid, p: Pid, c: Pid)
    requires q in s.procs && RootedAt(s, c) && p > INIT && Look(s, p, c) != NoChild && Owns(s, p, s.procs[c].birth)
    ensures !Abandoned(Die(s, q), p, c)
    ensures Look(Die(s, q), p, c) != NoChild ==>
              p in Die(s, q).procs && Die(s, q).procs[p].handles == s.procs[p].handles
  {
    DieTable(s, q);
    hide Die;
  }

  lemma KeptByCollect(s: System, q: Pid, h: nat, p: Pid, c: Pid)
    requires Enabled(s, Collect(q, h)) && InitAlone(s) && RootedAt(s, c) && HeldAt(s, c)
    requires p > INIT && Look(s, p, c) != NoChild && Owns(s, p, s.procs[c].birth)
    ensures !Abandoned(CollectStep(s, q, h), p, c)
  {
    var v := Stored(s, q, h);
    if v == 0 {
      KeptByDeath(s, q, p, c);
    } else if v <= 1 || Look(s, q, v) == NoChild {
      KeptByDrop(s, q, h, p, c);
    } else if Look(s, q, v) == Ended {
      if v != c {
        KeptByDrop(Remove(s, v), q, h, p, c);
      }
    }
    hide Die, Drop;
  }

  /** A handle that is dropped without its child being there is not the child's. */
  lemma KeptByDrop(s: System, q: Pid, h: nat, p: Pid, c: Pid)
    requires q in s.procs && Owns(s, q, h) && c > INIT && HeldAt(s, c)
    requires p > INIT && Look(s, p, c) != NoChild && Owns(s, p, s.procs[c].birth)
    requires q == p ==> Stored(s, q, h) != c
    ensures !Abandoned(Drop(s, q, h), p, c)
  {
  }

  lemma KeptByKill(s: System, q: Pid, p: Pid, c: Pid)
    requires Enabled(s, Kill(q)) && InitAlone(s) && RootedAt(s, c) && HeldAt(s, c)
    requires p > INIT && Look(s, p, c) != NoChild && Owns(s, p, s.procs[c].birth)
    ensures !Abandoned(KillStep(s, q), p, c)
  {
    var v := Target(s, q);
    if v in s.procs {
      KeptByDeath(s, v, p, c);
    }
    hide Die;
  }

  /** No child of a Lua process is abandoned. */
  ghost predicate AllHeld(s: System) {
    forall p, c :: p > INIT ==> !Abandoned(s, p, c)
  }

  lemma BootHeld()
    ensures AllHeld(Boot())
  {
  }

  /** Children come from forks. */
  lemma NewChild(s: System, e: Event, p: Pid, c: Pid)
    requires Inv(s) && Enabled(s, e) && p > INIT
    requires Look(s, p, c) == NoChild && Look(Next(s, e), p, c) != NoChild
    ensures e == Event.Fork(p, c) && !Abandoned(Next(s, e), p, c)
  {
    hide Abandoned, Inv;
    match e
    case Fork(_, _) => ForkedIsHeld(s, e.p, e.c, p, c);
    case Wait(_, _) =>
    case Collect(q, h) => CollectBearsNone(s, q, h, p, c);
    case Kill(q) => KillBearsNone(s, q, p, c);
    case Exit(q) => DeathBearsNone(s, q, p, c);
    case _ =>
  }

  lemma ForkedIsHeld(s: System, q: Pid, d: Pid, p: Pid, c: Pid)
    requires Enabled(s, Event.Fork(q, d)) && Look(s, p, c) == NoChild && Look(ForkStep(s, q, d), p, c) != NoChild
    ensures q == p && d == c && !Abandoned(ForkStep(s, q, d), p, c)
  {
  }

  lemma DeathBearsNone(s: System, q: Pid, p: Pid, c: Pid)
    requires q in s.procs && p > INIT && Look(s, p, c) == NoChild
    ensures Look(Die(s, q), p, c) == NoChild
  {
    DieTable(s, q);
    hide Die;
  }

  lemma CollectBearsNone(s: System, q: Pid, h: nat, p: Pid, c: Pid)
    requires Enabled(s, Collect(q, h)) && p > INIT && Look(s, p, c) == NoChild
    ensures Look(CollectStep(s, q, h), p, c) == NoChild
  {
    DeathBearsNone(s, q, p, c);
    hide Die;
  }

  lemma KillBearsNone(s: System, q: Pid, p: Pid, c: Pid)
    requires Enabled(s, Kill(q)) && p > INIT && Look(s, p, c) == NoChild
    ensures Look(KillStep(s, q), p, c) == NoChild
  {
    var v := Target(s, q);
    if v in s.procs {
      DeathBearsNone(s, v, p, c);
    }
    hide Die;
  }

  lemma StepHeld(s: System, e: Event)
    requires Inv(s) && Enabled(s, e) && AllHeld(s) && !e.Interrupt?
    ensures AllHeld(Next(s, e))
  {
    hide Inv, Next, Enabled, Abandoned, Look;
    forall p: Pid, c | p > INIT ensures !Abandoned(Next(s, e), p, c) {
      HeldNext(s, e, p, c);
    }
  }

  lemma HeldNext(s: System, e: Event, p: Pid, c: Pid)
    requires Inv(s) && Enabled(s, e) && p > INIT && !Abandoned(s, p, c) && !e.Interrupt?
    ensures !Abandoned(Next(s, e), p, c)
  {
    if Abandoned(Next(s, e), p, c) {
      if Look(s, p, c) == NoChild {
        NewChild(s, e, p, c);
      } else {
        AbandonedBy(s, e, p, c);
      }
    }
    hide Inv, Next, Enabled;
  }

  /** In a run whose finalizers are never interrupted, every handle that stores the pid of
      an unreaped child names the child it was made for exactly when it is the youngest. */
  lemma {:induction false} RightChildInRun(s: System, es: seq<Event>, p: Pid, h: nat)
    requires Inv(s) && AllHeld(s) && Valid(s, es) && forall e :: e in es ==> !e.Interrupt?
    requires var t := Run(s, es); Owns(t, p, h) && Look(t, p, Stored(t, p, h)) != NoChild
    ensures var t := Run(s, es); t.procs[Stored(t, p, h)].birth == h <==> IsYoungest(t, p, h)
    decreases |es|
  {
    if es == [] {
      RightChild(s, p, h);
      assert RootedAt(s, p) && InitAlone(s);
    } else {
      StepKeeps(s, es[0]);
      StepHeld(s, es[0]);
      hide Inv, Next, Enabled, AllHeld;
      RightChildInRun(Next(s, es[0]), es[1..], p, h);
    }
  }

  /** A run in which a finalizer is about to kill a child that its handle was not made for:
      the second child inherits the handle of the first, whose pid comes back as its own child. */
  lemma StaleHandle()
    ensures exists es ::
              && Valid(Boot(), es)
              && var t := Run(Boot(), es);
              && Awake(t, 4) && t.procs[4].mode == Probed(2) && Look(t, 4, Target(t, 4)) == Alive
              && t.procs[Target(t, 4)].birth != 2
  {
    var first, second := [Fork(2, 3), Fork(2, 4), Exit(3), Wait(2, 2)], [Fork(4, 3), Collect(4, 2)];
    FirstChildReaped();
    PidComesBack();
    hide *;
    RunConcat(Boot(), first, second);
  }

  /** The table once the first child is reaped; process 4 has a copy of its handle. */
  function OneLeft(): System {
    System(map[INIT := Process(0, 0, Running, false, false, Idle, map[]),
               2 := Process(INIT, 1, Running, false, false, Idle, map[2 := -3, 3 := 4]),
               4 := Process(2, 3, Running, false, false, Idle, map[2 := 3, 3 := 0])], 4)
  }

  /** Both children live. */
  function TwoAlive(): System {
    System(map[INIT := Process(0, 0, Running, false, false, Idle, map[]),
               2 := Process(INIT, 1, Running, false, false, Idle, map[2 := 3, 3 := 4]),
               3 := Process(2, 2, Running, false, false, Idle, map[2 := 0]),
               4 := Process(2, 3, Running, false, false, Idle, map[2 := 3, 3 := 0])], 4)
  }

  /** The first child has ended. */
  function OneEnded(): System {
    System(map[INIT := Process(0, 0, Running, false, false, Idle, map[]),
               2 := Process(INIT, 1, Running, false, false, Idle, map[2 := 3, 3 := 4]),
               3 := Process(2, 2, Zombie, false, false, Idle, map[]),
               4 := Process(2, 3, Running, false, false, Idle, map[2 := 3, 3 := 0])], 4)
  }

  lemma FirstChildReaped()
    ensures var es := [Fork(2, 3), Fork(2, 4), Exit(3), Wait(2, 2)];
            Valid(Boot(), es) && Run(Boot(), es) == OneLeft()
  {
    BothForked();
    Ends();
    Reaped();
    hide *;
    TwoSteps(Boot(), Fork(2, 3), Fork(2, 4));
    TwoSteps(TwoAlive(), Exit(3), Wait(2, 2));
    RunConcat(Boot(), [Fork(2, 3), Fork(2, 4)], [Exit(3), Wait(2, 2)]);
    assert [Fork(2, 3), Fork(2, 4)] + [Exit(3), Wait(2, 2)] == [Fork(2, 3), Fork(2, 4), Exit(3), Wait(2, 2)];
  }

  lemma BothForked()
    ensures Enabled(Boot(), Event.Fork(2, 3)) && Enabled(Next(Boot(), Event.Fork(2, 3)), Event.Fork(2, 4))
    ensures Next(Next(Boot(), Event.Fork(2, 3)), Event.Fork(2, 4)) == TwoAlive()
  {
    assert Next(Next(Boot(), Event.Fork(2, 3)), Event.Fork(2, 4)).procs == TwoAlive().procs;
  }

  lemma Ends()
    ensures Enabled(TwoAlive(), Exit(3)) && Next(TwoAlive(), Exit(3)) == OneEnded()
  {
    assert Next(TwoAlive(), Exit(3)).procs == OneEnded().procs;
  }

  lemma Reaped()
    ensures Enabled(OneEnded(), Wait(2, 2)) && Next(OneEnded(), Wait(2, 2)) == OneLeft()
  {
    assert map[2 := 3, 3 := 4][2 := -3] == map[2 := -3, 3 := 4];
    assert Next(OneEnded(), Wait(2, 2)).procs == OneLeft().procs;
  }

  lemma PidComesBack()
    ensures var es := [Fork(4, 3), Collect(4, 2)];
            && Valid(OneLeft(), es)
            && var t := Run(OneLeft(), es);
            && Awake(t, 4) && t.procs[4].mode == Probed(2) && Look(t, 4, Target(t, 4)) == Alive
            && t.procs[Target(t, 4)].birth != 2
  {
    TwoSteps(OneLeft(), Fork(4, 3), Collect(4, 2));
  }

  lemma {:induction false} RunConcat(s: System, es: seq<Event>, fs: seq<Event>)
    requires Valid(s, es) && Valid(Run(s, es), fs)
    ensures Valid(s, es + fs) && Run(s, es + fs) == Run(Run(s, es), fs)
    decreases |es|
  {
    hide Next, Enabled;
    if es == [] {
      assert es + fs == fs;
    } else {
      RunConcat(Next(s, es[0]), es[1..], fs);
      assert (es + fs)[1..] == es[1..] + fs;
    }
  }

  /** A run in which the youngest handle of a process is about to reap, by `wait`, a child
      that it was not made for: the finalizer of that child's own handle was interrupted. */
  lemma AbandonedChild()
    ensures exists es ::
              && Valid(Boot(), es)
              && WrongChild(Run(Boot(), es), 4, 2)
  {
    var es := AbandoningRun();
    hide *;
  }

  lemma AbandoningRun() returns (es: seq<Event>)
    ensures Valid(Boot(), es) && WrongChild(Run(Boot(), es), 4, 2)
  {
    var first, second := [Fork(2, 3), Fork(2, 4), Exit(3), Wait(2, 2)], [Fork(4, 3), Collect(4, 4)];
    var third := [Kill(4), Interrupt(4)];
    FirstChildReaped();
    OwnProbed();
    OwnInterrupted();
    hide *;
    RunConcat(Boot(), first, second);
    RunConcat(Boot(), first + second, third);
    es := first + second + third;
  }

  /** The youngest handle that stores the pid would reap a child it was not made for. */
  predicate WrongChild(s: System, p: Pid, h: nat) {
    Reaps(s, Wait(p, h), p, h) && IsYoungest(s, p, h) && s.procs[Stored(s, p, h)].birth != h
  }

  /** Process 4 has forked again, got pid 3, and is finalizing the new handle. */
  function Probing(): System {
    System(map[INIT := Process(0, 0, Running, false, false, Idle, map[]),
               2 := Process(INIT, 1, Running, false, false, Idle, map[2 := -3, 3 := 4]),
               3 := Process(4, 4, Running, false, false, Idle, map[2 := 3, 3 := 0, 4 := 0]),
               4 := Process(2, 3, Running, false, false, Probed(4), map[2 := 3, 3 := 0, 4 := 3])], 5)
  }

  lemma OwnProbed()
    ensures var es := [Fork(4, 3), Collect(4, 4)];
            Valid(OneLeft(), es) && Run(OneLeft(), es) == Probing()
  {
    TwoSteps(OneLeft(), Fork(4, 3), Collect(4, 4));
    assert map[2 := 3, 3 := 0][4 := 3] == map[2 := 3, 3 := 0, 4 := 3];
    assert map[2 := 3, 3 := 0][4 := 0] == map[2 := 3, 3 := 0, 4 := 0];
    assert Next(Next(OneLeft(), Fork(4, 3)), Collect(4, 4)).procs == Probing().procs;
  }

  /** The new child is killed. */
  function Killing(): System {
    System(map[INIT := Process(0, 0, Running, false, false, Idle, map[]),
               2 := Process(INIT, 1, Running, false, false, Idle, map[2 := -3, 3 := 4]),
               3 := Process(4, 4, Zombie, false, false, Idle, map[]),
               4 := Process(2, 3, Running, false, false, Killed(4), map[2 := 3, 3 := 0, 4 := 3])], 5)
  }

  lemma OwnKilled()
    ensures Enabled(Probing(), Kill(4)) && Next(Probing(), Kill(4)) == Killing()
  {
    assert Next(Probing(), Kill(4)).procs == Killing().procs;
  }

  lemma OwnDropped()
    ensures Enabled(Killing(), Interrupt(4)) && WrongChild(Next(Killing(), Interrupt(4)), 4, 2)
  {
    var t := Next(Killing(), Interrupt(4));
    assert t.procs[4].handles == map[2 := 3, 3 := 0];
  }

  lemma OwnInterrupted()
    ensures var es := [Kill(4), Interrupt(4)];
            && Valid(Probing(), es)
            && WrongChild(Run(Probing(), es), 4, 2)
  {
    OwnKilled();
    OwnDropped();
    hide *;
    TwoSteps(Probing(), Kill(4), Interrupt(4));
  }

  // --- who is told to be the child ---

  /** For each fork of a run, the process that made it, by the number of its own fork. */
  type Line = map<nat, nat>

  function LineNext(s: System, e: Event, line: Line): Line
    requires Enabled(s, e)
  {
    if e.Fork? then line[s.forks := s.procs[e.p].birth] else line
  }

  function LineOf(s: System, es: seq<Event>, line: Line): Line
    requires Valid(s, es)
    decreases |es|
  {
    if es == [] then line else LineOf(Next(s, es[0]), es[1..], LineNext(s, es[0], line))
  }

  /** The process born of fork `b` is the one born of fork `h`, or comes from it. */
  predicate Descends(line: Line, b: nat, h: nat)
    decreases b
  {
    b == h || (b in line && line[b] < b && Descends(line, line[b], h))
  }

  predicate KinAt(s: System, line: Line, p: Pid, h: nat) {
    Owns(s, p, h) ==> (Stored(s, p, h) == 0 <==> Descends(line, s.procs[p].birth, h))
  }

  ghost predicate Kin(s: System, line: Line) {
    (forall b :: b in line ==> b < s.forks) && forall p, h :: KinAt(s, line, p, h)
  }

  lemma {:induction false} DescendsBelow(line: Line, b: nat, h: nat)
    requires Descends(line, b, h)
    ensures h <= b
    decreases b
  {
    if b != h {
      DescendsBelow(line, line[b], h);
    }
  }

  /** A later fork changes nothing for those born before. */
  lemma {:induction false} DescendsBefore(line: Line, n: nat, from: nat, b: nat, h: nat)
    requires b < n && n !in line
    ensures Descends(line[n := from], b, h) <==> Descends(line, b, h)
    decreases b
  {
    if b != h && b in line && line[b] < b {
      DescendsBefore(line, n, from, line[b], h);
    }
  }

  lemma ForkKin(s: System, q: Pid, c: Pid, line: Line, p: Pid, h: nat)
    requires Inv(s) && Enabled(s, Event.Fork(q, c)) && Kin(s, line)
    ensures KinAt(Next(s, Event.Fork(q, c)), LineNext(s, Event.Fork(q, c), line), p, h)
  {
    var b := s.procs[q].birth;
    var line1 := line[s.forks := b];
    assert NumberedAt(s, p) && NumberedAt(s, q) && KinAt(s, line, p, h) && KinAt(s, line, q, h);
    DescendsBefore(line, s.forks, b, b, h);
    if p in s.procs {
      DescendsBefore(line, s.forks, b, s.procs[p].birth, h);
      if Descends(line1, s.procs[p].birth, h) {
        DescendsBelow(line1, s.procs[p].birth, h);
      }
    }
    assert Descends(line1, s.forks, h) <==> h == s.forks || Descends(line1, b, h);
    hide Inv, Descends;
  }

  lemma OtherKin(s: System, e: Event, line: Line, p: Pid, h: nat)
    requires Inv(s) && Enabled(s, e) && !e.Fork? && Kin(s, line)
    ensures KinAt(Next(s, e), line, p, h)
  {
    var t := Next(s, e);
    if Owns(t, p, h) {
      var b := t.procs[p].birth;
      NotNew(s, e, p, h);
      assert Holds(s, p, b, h) by {
        if !Holds(s, p, b, h) {
          StepLost(s, e, p, b, h);
        }
      }
      StepStored(s, e, p, b, h);
      assert KinAt(s, line, p, h);
    }
    hide Inv, Next, Enabled, Descends;
  }

  /** A handle after a step that is no fork is one from before. */
  lemma NotNew(s: System, e: Event, p: Pid, h: nat)
    requires Inv(s) && Enabled(s, e) && !e.Fork? && Owns(Next(s, e), p, h)
    ensures h < s.forks && Next(s, e).procs[p].birth < s.forks
  {
    StepKeeps(s, e);
    assert NumberedAt(Next(s, e), p) && NumberedAt(s, p);
    hide Inv;
    match e
    case Spawn(c) =>
    case Collect(q, _) =>
      DieTable(s, q);
      hide Die;
    case Kill(q) =>
      DeathForks(s, q);
    case Exit(q) =>
      DieTable(s, q);
      hide Die;
    case _ =>
  }

  lemma DeathForks(s: System, q: Pid)
    requires Enabled(s, Kill(q))
    ensures Next(s, Kill(q)).forks == s.forks
  {
  }

  lemma StepKin(s: System, e: Event, line: Line)
    requires Inv(s) && Enabled(s, e) && Kin(s, line)
    ensures Kin(Next(s, e), LineNext(s, e, line))
  {
    StepForks(s, e);
    var t, line1 := Next(s, e), LineNext(s, e, line);
    assert e.Fork? ==> t.forks == s.forks + 1;
    hide Inv, Next, Enabled, KinAt;
    forall p, h ensures KinAt(t, line1, p, h) {
      if e.Fork? {
        ForkKin(s, e.p, e.c, line, p, h);
      } else {
        OtherKin(s, e, line, p, h);
      }
    }
  }

  lemma {:induction false} RunKin(s: System, es: seq<Event>, line: Line)
    requires Inv(s) && Valid(s, es) && Kin(s, line)
    ensures Kin(Run(s, es), LineOf(s, es, line))
    decreases |es|
  {
    hide Inv, Next, Enabled, Kin, LineNext;
    if es != [] {
      StepKeeps(s, es[0]);
      StepKin(s, es[0], line);
      RunKin(Next(s, es[0]), es[1..], LineNext(s, es[0], line));
    }
  }

  /** Over every run, `is_child` is true of a handle exactly in the process that was born
      of its fork and in the descendants of that process that have a copy. */
  lemma ChildIffDescends(es: seq<Event>, p: Pid, h: nat)
    requires Valid(Boot(), es) && Owns(Run(Boot(), es), p, h)
    ensures var t := Run(Boot(), es);
            Stored(t, p, h) == 0 <==> Descends(LineOf(Boot(), es, map[]), t.procs[p].birth, h)
  {
    BootKeeps();
    assert Kin(Boot(), map[]);
    hide Inv, Boot;
    RunKin(Boot(), es, map[]);
    assert KinAt(Run(Boot(), es), LineOf(Boot(), es, map[]), p, h);
  }

  /** So a grandchild is told to be the child, and the finalizer of that handle ends it. */
  lemma Grandchild()
    ensures var es := [Event.Fork(2, 3), Event.Fork(3, 4)];
            && Valid(Boot(), es)
            && var t := Run(Boot(), es);
            && Owns(t, 4, 2) && Stored(t, 4, 2) == 0 && t.procs[4].birth != 2
            && Enabled(t, Event.Collect(4, 2)) && Next(t, Event.Collect(4, 2)).procs[4].life == Zombie
  {
    TwoSteps(Boot(), Event.Fork(2, 3), Event.Fork(3, 4));
  }
}
