/** What src/fork.c sees of the operating system: a process table, and the steps
    that any process or the kernel may take. A process carries the fork handles of
    its Lua state, so a fork copies them. */
module Processes {

  type Pid = int

  const INIT: Pid := 1

  datatype Life = Running | Stopped | Zombie

  /** Where a process is inside the finalizer of one of its handles (src/fork.c:106-121). */
  datatype Mode = Idle | Probed(h: nat) | Killed(h: nat)

  /** `birth` numbers the forks, so that processes that share a pid over time differ.
      `handles` maps the number of a fork to the integer its handle stores. */
  datatype Process = Process(parent: Pid, birth: nat, life: Life, reports: bool, ignores: bool,
                             mode: Mode, handles: map<nat, int>)

  datatype System = System(procs: map<Pid, Process>, forks: nat)

  datatype Event =
    | Fork(p: Pid, c: Pid)
    | Wait(p: Pid, h: nat)
    | Collect(p: Pid, h: nat)
    | Kill(p: Pid)
    | Reap(p: Pid)
    | Interrupt(p: Pid)
    | Exit(p: Pid)
    | Stop(p: Pid)
    | Continue(p: Pid)
    | Ignore(p: Pid, on: bool)
    | Spawn(c: Pid)
    | Adopt(c: Pid)

  /** What `waitpid` finds: no such child, a child that has ended, or one that has not. */
  datatype Answer = NoChild | Ended | Alive

  function Look(s: System, p: Pid, v: int): Answer {
    if v !in s.procs || s.procs[v].parent != p then NoChild
    else if s.procs[v].life == Zombie then Ended
    else Alive
  }

  // --- kernel operations ---

  function Put(s: System, p: Pid, q: Process): System {
    s.(procs := s.procs[p := q])
  }

  function Remove(s: System, c: Pid): System {
    s.(procs := s.procs - {c})
  }

  function Reparented(q: Process, p: Pid): Process {
    if q.parent == p then q.(parent := INIT) else q
  }

  predicate IgnoresChildren(s: System, p: Pid) {
    p in s.procs && s.procs[p].ignores
  }

  /** The end of `p`: init gets its children, and `p` waits for its parent as a
      zombie, unless the parent ignores SIGCHLD. */
  function Die(s: System, p: Pid): System
    requires p in s.procs
  {
    var rest := map c | c in s.procs :: Reparented(s.procs[c], p);
    var dead := rest[p].(life := Zombie, reports := false, mode := Idle, handles := map[]);
    s.(procs := if IgnoresChildren(s, s.procs[p].parent) then rest - {p} else rest[p := dead])
  }

  function SetHandle(s: System, p: Pid, h: nat, v: int): System
    requires p in s.procs
  {
    Put(s, p, s.procs[p].(handles := s.procs[p].handles[h := v]))
  }

  /** The finalizer is done: the handle is gone. */
  function Drop(s: System, p: Pid, h: nat): System
    requires p in s.procs
  {
    Put(s, p, s.procs[p].(handles := s.procs[p].handles - {h}, mode := Idle))
  }

  function SetMode(s: System, p: Pid, m: Mode): System
    requires p in s.procs
  {
    Put(s, p, s.procs[p].(mode := m))
  }

  // --- steps ---

  /** A Lua process that is free to run code of its own. */
  predicate Free(s: System, p: Pid) {
    p in s.procs && p > INIT && s.procs[p].life == Running && s.procs[p].mode == Idle
  }

  predicate Finalizing(s: System, p: Pid) {
    p in s.procs && s.procs[p].life != Zombie && !s.procs[p].mode.Idle? && s.procs[p].mode.h in s.procs[p].handles
  }

  predicate Awake(s: System, p: Pid) {
    Finalizing(s, p) && s.procs[p].life == Running
  }

  predicate Owns(s: System, p: Pid, h: nat) {
    p in s.procs && h in s.procs[p].handles
  }

  function Stored(s: System, p: Pid, h: nat): int
    requires Owns(s, p, h)
  {
    s.procs[p].handles[h]
  }

  /** The handle that `p` is finalizing, and the pid in it. */
  function Target(s: System, p: Pid): int
    requires Finalizing(s, p)
  {
    Stored(s, p, s.procs[p].mode.h)
  }

  /** Which steps may come next. A `wait` that would block is not one of them. */
  predicate Enabled(s: System, e: Event) {
    match e
    case Fork(p, c) => Free(s, p) && c > INIT && c !in s.procs
    case Wait(p, h) =>
      Free(s, p) && Owns(s, p, h) &&
      (Stored(s, p, h) < 1 || Look(s, p, Stored(s, p, h)) != Alive || s.procs[Stored(s, p, h)].reports)
    case Collect(p, h) => Free(s, p) && Owns(s, p, h)
    case Kill(p) => Awake(s, p) && s.procs[p].mode.Probed?
    case Reap(p) => Awake(s, p) && s.procs[p].mode.Killed? && Look(s, p, Target(s, p)) != Alive
    case Interrupt(p) => Awake(s, p) && s.procs[p].mode.Killed?
    case Exit(p) => p in s.procs && p > INIT && s.procs[p].life != Zombie
    case Stop(p) => p in s.procs && p > INIT && s.procs[p].life == Running
    case Continue(p) => p in s.procs && p > INIT && s.procs[p].life == Stopped
    case Ignore(p, on) => Free(s, p)
    case Spawn(c) => INIT in s.procs && c > INIT && c !in s.procs
    case Adopt(c) => c in s.procs && c > INIT && s.procs[c].parent == INIT && s.procs[c].life == Zombie
  }

  /** `fork_lua`: the child's memory is a copy of its parent's, but for the new handle. */
  function ForkStep(s: System, p: Pid, c: Pid): System
    requires p in s.procs
  {
    var q := s.procs[p];
    var child := Process(p, s.forks, Running, false, q.ignores, Idle, q.handles[s.forks := 0]);
    Put(SetHandle(s, p, s.forks, c), c, child).(forks := s.forks + 1)
  }

  /** `wait_lua` */
  function WaitStep(s: System, p: Pid, h: nat): System
    requires Owns(s, p, h) && s.procs[p].life == Running
  {
    var v := Stored(s, p, h);
    if v < 1 then s
    else
      match Look(s, p, v)
      case NoChild => s
      case Ended => SetHandle(Remove(s, v), p, h, -v)
      case Alive => Put(s, v, s.procs[v].(reports := false))
  }

  /** The first half of `gc_lua`, up to the `waitpid` that does not wait. */
  function CollectStep(s: System, p: Pid, h: nat): System
    requires Owns(s, p, h) && s.procs[p].life == Running
  {
    var v := Stored(s, p, h);
    if v == 0 then Die(s, p)
    else if v <= 1 then Drop(s, p, h)
    else
      match Look(s, p, v)
      case NoChild => Drop(s, p, h)
      case Ended => Drop(Remove(s, v), p, h)
      case Alive => SetMode(s, p, Probed(h))
  }

  /** `kill(pid, SIGKILL)` in `gc_lua` */
  function KillStep(s: System, p: Pid): System
    requires Finalizing(s, p)
  {
    var v, h := Target(s, p), s.procs[p].mode.h;
    if v !in s.procs then Drop(s, p, h)
    else if s.procs[v].life == Zombie then SetMode(s, p, Killed(h))
    else if v == p then Die(s, p)
    else SetMode(Die(s, v), p, Killed(h))
  }

  /** The `waitpid` of `gc_lua` that waits. */
  function ReapStep(s: System, p: Pid): System
    requires Finalizing(s, p)
  {
    var v, h := Target(s, p), s.procs[p].mode.h;
    if Look(s, p, v) == Ended then Drop(Remove(s, v), p, h) else Drop(s, p, h)
  }

  function Next(s: System, e: Event): System
    requires Enabled(s, e)
  {
    match e
    case Fork(p, c) => ForkStep(s, p, c)
    case Wait(p, h) => WaitStep(s, p, h)
    case Collect(p, h) => CollectStep(s, p, h)
    case Kill(p) => KillStep(s, p)
    case Reap(p) => ReapStep(s, p)
    case Interrupt(p) => Drop(s, p, s.procs[p].mode.h)
    case Exit(p) => Die(s, p)
    case Stop(p) => Put(s, p, s.procs[p].(life := Stopped, reports := true))
    case Continue(p) => Put(s, p, s.procs[p].(life := Running, reports := true))
    case Ignore(p, on) => Put(s, p, s.procs[p].(ignores := on))
    case Spawn(c) => Put(s, c, Process(INIT, s.forks, Running, false, false, Idle, map[])).(forks := s.forks + 1)
    case Adopt(c) => Remove(s, c)
  }

  /** Every step of `es` may be taken where it comes. */
  predicate Valid(s: System, es: seq<Event>)
    decreases |es|
  {
    es == [] || (Enabled(s, es[0]) && Valid(Next(s, es[0]), es[1..]))
  }

  function Run(s: System, es: seq<Event>): System
    requires Valid(s, es)
    decreases |es|
  {
    if es == [] then s else Run(Next(s, es[0]), es[1..])
  }

  /** init, and one process that has not forked. */
  function Boot(): System {
    System(map[INIT := Process(0, 0, Running, false, false, Idle, map[]),
               2 := Process(INIT, 1, Running, false, false, Idle, map[])], 2)
  }

  // --- what every step keeps ---

  predicate InitAlone(s: System) {
    && INIT in s.procs
    && s.procs[INIT] == Process(0, s.procs[INIT].birth, Running, s.procs[INIT].reports, false, Idle, map[])
  }

  /** The parent of a process is in the table and has not ended. */
  predicate RootedAt(s: System, c: Pid) {
    c in s.procs ==>
      c >= INIT &&
      (c > INIT ==> s.procs[c].parent in s.procs && s.procs[c].parent != c && s.procs[s.procs[c].parent].life != Zombie)
  }

  /** Forks are numbered upwards, and what has ended has no memory. */
  predicate NumberedAt(s: System, c: Pid) {
    c in s.procs ==>
      s.procs[c].birth < s.forks && (forall h :: h in s.procs[c].handles ==> h < s.forks) &&
      (s.procs[c].life == Zombie ==> s.procs[c].handles == map[] && s.procs[c].mode == Idle)
  }

  /** The handle that was made for a child stores its pid for as long as it exists, and it
      exists for as long as the child lives. */
  predicate HeldAt(s: System, c: Pid) {
    c in s.procs && c > INIT && s.procs[c].parent != INIT ==>
      if Owns(s, s.procs[c].parent, s.procs[c].birth) then Stored(s, s.procs[c].parent, s.procs[c].birth) == c
      else s.procs[c].life == Zombie
  }

  /** No handle that stores the pid of a child is younger than the child. */
  predicate OlderAt(s: System, p: Pid, h: nat) {
    Owns(s, p, h) && Look(s, p, Stored(s, p, h)) != NoChild ==> h <= s.procs[Stored(s, p, h)].birth
  }

  /** Between the two halves of a finalizer the child cannot go away, unless its
      parent ignores SIGCHLD; after the second it has ended. */
  predicate ProbesAt(s: System, p: Pid) {
    p in s.procs && !s.procs[p].mode.Idle? ==>
      Finalizing(s, p) && Target(s, p) > 1 && (s.procs[p].mode.Killed? ==> Look(s, p, Target(s, p)) != Alive) &&
      (s.procs[p].mode.Probed? && !s.procs[p].ignores ==> Look(s, p, Target(s, p)) != NoChild)
  }

  ghost predicate Inv(s: System) {
    && InitAlone(s)
    && (forall c :: RootedAt(s, c)) && (forall c :: NumberedAt(s, c)) && (forall c :: HeldAt(s, c))
    && (forall p, h :: OlderAt(s, p, h)) && (forall p :: ProbesAt(s, p))
  }

  /** A change of a living process that leaves its handles alone. */
  lemma TouchKeeps(s: System, p: Pid, q: Process)
    requires Inv(s) && p in s.procs && p > INIT && s.procs[p].life != Zombie && q.life != Zombie
    requires q.parent == s.procs[p].parent && q.birth == s.procs[p].birth && q.handles == s.procs[p].handles
    requires q.mode == s.procs[p].mode && (q.mode == Idle || q.ignores == s.procs[p].ignores)
    ensures Inv(Put(s, p, q))
  {
    var t := Put(s, p, q);
    forall c ensures RootedAt(t, c) && NumberedAt(t, c) && HeldAt(t, c) && ProbesAt(t, c) {
      assert RootedAt(s, c) && NumberedAt(s, c) && HeldAt(s, c) && ProbesAt(s, c);
    }
    forall c, h ensures OlderAt(t, c, h) {
      assert OlderAt(s, c, h);
    }
  }

  lemma ModeKeeps(s: System, p: Pid, m: Mode)
    requires Inv(s) && p in s.procs && p > INIT && s.procs[p].life != Zombie && !m.Idle?
    requires Owns(s, p, m.h) && Stored(s, p, m.h) > 1
    requires Look(s, p, Stored(s, p, m.h)) != if m.Probed? then NoChild else Alive
    ensures Inv(SetMode(s, p, m))
  {
    var t := SetMode(s, p, m);
    forall c ensures RootedAt(t, c) && NumberedAt(t, c) && HeldAt(t, c) && ProbesAt(t, c) {
      assert RootedAt(s, c) && NumberedAt(s, c) && HeldAt(s, c) && ProbesAt(s, c);
    }
    forall c, h ensures OlderAt(t, c, h) {
      assert OlderAt(s, c, h);
    }
  }

  lemma DropKeeps(s: System, p: Pid, h: nat)
    requires Inv(s) && p in s.procs && Owns(s, p, h) && Look(s, p, Stored(s, p, h)) != Alive
    ensures Inv(Drop(s, p, h))
  {
    var t := Drop(s, p, h);
    forall c ensures RootedAt(t, c) && NumberedAt(t, c) && HeldAt(t, c) && ProbesAt(t, c) {
      assert RootedAt(s, c) && NumberedAt(s, c) && HeldAt(s, c) && ProbesAt(s, c);
    }
    forall c, i ensures OlderAt(t, c, i) {
      assert OlderAt(s, c, i);
    }
  }

  lemma RemoveKeeps(s: System, c: Pid)
    requires Inv(s) && c in s.procs && c > INIT && s.procs[c].life == Zombie
    requires s.procs[c].parent in s.procs && !s.procs[s.procs[c].parent].mode.Probed?
    ensures Inv(Remove(s, c))
  {
    var t := Remove(s, c);
    forall d ensures RootedAt(t, d) && NumberedAt(t, d) && HeldAt(t, d) && ProbesAt(t, d) {
      assert RootedAt(s, d) && NumberedAt(s, d) && HeldAt(s, d) && ProbesAt(s, d);
      assert d in t.procs ==> RootedAt(s, s.procs[d].parent);
    }
    forall d, h ensures OlderAt(t, d, h) {
      assert OlderAt(s, d, h);
    }
  }

  lemma NegateKeeps(s: System, p: Pid, h: nat)
    requires Inv(s) && Owns(s, p, h) && s.procs[p].mode == Idle && s.procs[p].life != Zombie
    requires Stored(s, p, h) > 0 && Look(s, p, Stored(s, p, h)) == NoChild
    ensures Inv(SetHandle(s, p, h, -Stored(s, p, h)))
  {
    var v := Stored(s, p, h);
    var t := SetHandle(s, p, h, -v);
    forall c ensures RootedAt(t, c) && NumberedAt(t, c) && HeldAt(t, c) && ProbesAt(t, c) {
      assert RootedAt(s, c) && NumberedAt(s, c) && HeldAt(s, c) && ProbesAt(s, c);
    }
    forall c, i ensures OlderAt(t, c, i) {
      assert OlderAt(s, c, i) && RootedAt(s, -v);
    }
  }

  lemma DieKeeps(s: System, p: Pid)
    requires Inv(s) && p in s.procs && p > INIT && s.procs[p].life != Zombie
    ensures Inv(Die(s, p))
  {
    var t := Die(s, p);
    forall c ensures RootedAt(t, c) && NumberedAt(t, c) && HeldAt(t, c) && ProbesAt(t, c) {
      DieKeepsAt(s, p, c);
    }
    forall c, h ensures OlderAt(t, c, h) {
      assert OlderAt(s, c, h);
    }
    assert RootedAt(s, p);
  }

  lemma DieKeepsAt(s: System, p: Pid, c: Pid)
    requires Inv(s) && p in s.procs && p > INIT && s.procs[p].life != Zombie
    ensures var t := Die(s, p); RootedAt(t, c) && NumberedAt(t, c) && HeldAt(t, c) && ProbesAt(t, c)
  {
    assert RootedAt(s, p) && RootedAt(s, c) && NumberedAt(s, c) && HeldAt(s, c) && ProbesAt(s, c);
    DieTable(s, p);
    DieRooted(s, p, c);
    DieHeld(s, p, c);
    DieProbes(s, p, c);
    hide *;
  }

  /** What the end of `p` does to the entries of the table. */
  lemma DieTable(s: System, p: Pid)
    requires p in s.procs
    ensures var t := Die(s, p);
            && t.forks == s.forks
            && (forall c :: c != p ==> (c in t.procs <==> c in s.procs))
            && (forall c :: c != p && c in s.procs ==> t.procs[c] == Reparented(s.procs[c], p))
            && (p in t.procs ==>
                  t.procs[p] ==
                  Reparented(s.procs[p], p).(life := Zombie, reports := false, mode := Idle, handles := map[]))
            && (p in t.procs <==> !IgnoresChildren(s, s.procs[p].parent))
  {
  }

  lemma DieRooted(s: System, p: Pid, c: Pid)
    requires p in s.procs && p > INIT && s.procs[p].life != Zombie && InitAlone(s)
    requires RootedAt(s, p) && RootedAt(s, c) && NumberedAt(s, c)
    ensures RootedAt(Die(s, p), c) && NumberedAt(Die(s, p), c)
  {
    DieTable(s, p);
    hide Die, IgnoresChildren;
  }

  lemma DieHeld(s: System, p: Pid, c: Pid)
    requires p in s.procs && p > INIT && RootedAt(s, c) && HeldAt(s, c)
    ensures HeldAt(Die(s, p), c)
  {
    DieTable(s, p);
    hide Die, IgnoresChildren;
  }

  lemma DieProbes(s: System, p: Pid, c: Pid)
    requires p in s.procs && p > INIT && RootedAt(s, p) && ProbesAt(s, c) && InitAlone(s)
    ensures ProbesAt(Die(s, p), c)
  {
    DieTable(s, p);
    hide Die;
  }

  lemma ForkKeeps(s: System, p: Pid, c: Pid)
    requires Inv(s) && Free(s, p) && c > INIT && c !in s.procs
    ensures Inv(ForkStep(s, p, c))
  {
    var t := ForkStep(s, p, c);
    forall d ensures RootedAt(t, d) && NumberedAt(t, d) && HeldAt(t, d) && ProbesAt(t, d) {
      assert RootedAt(s, d) && NumberedAt(s, d) && HeldAt(s, d) && ProbesAt(s, d);
      assert NumberedAt(s, p);
    }
    forall d, i ensures OlderAt(t, d, i) {
      assert OlderAt(s, d, i) && NumberedAt(s, p);
      if Owns(t, d, i) {
        assert RootedAt(s, Stored(t, d, i));
      }
    }
  }

  lemma SpawnKeeps(s: System, c: Pid)
    requires Inv(s) && c > INIT && c !in s.procs
    ensures Inv(Put(s, c, Process(INIT, s.forks, Running, false, false, Idle, map[])).(forks := s.forks + 1))
  {
    var t := Put(s, c, Process(INIT, s.forks, Running, false, false, Idle, map[])).(forks := s.forks + 1);
    forall d ensures RootedAt(t, d) && NumberedAt(t, d) && HeldAt(t, d) && ProbesAt(t, d) {
      assert RootedAt(s, d) && NumberedAt(s, d) && HeldAt(s, d) && ProbesAt(s, d);
    }
    forall d, i ensures OlderAt(t, d, i) {
      assert OlderAt(s, d, i);
    }
  }

  /** Every step keeps the invariant. */
  lemma StepKeeps(s: System, e: Event)
    requires Inv(s) && Enabled(s, e)
    ensures Inv(Next(s, e))
  {
    hide Inv, Die, SetMode, Drop, Remove, SetHandle, Put;
    match e
    case Fork(p, c) => ForkKeeps(s, p, c);
    case Wait(p, h) => WaitKeeps(s, p, h);
    case Collect(p, h) => CollectKeeps(s, p, h);
    case Kill(p) => KillKeeps(s, p);
    case Reap(p) => ReapKeeps(s, p);
    case Interrupt(p) => InterruptKeeps(s, p);
    case Exit(p) => DieKeeps(s, p);
    case Stop(p) => TouchKeeps(s, p, s.procs[p].(life := Stopped, reports := true));
    case Continue(p) => TouchKeeps(s, p, s.procs[p].(life := Running, reports := true));
    case Ignore(p, on) => TouchKeeps(s, p, s.procs[p].(ignores := on));
    case Spawn(c) => SpawnKeeps(s, c);
    case Adopt(c) => AdoptKeeps(s, c);
  }

  lemma AdoptKeeps(s: System, c: Pid)
    requires Inv(s) && Enabled(s, Adopt(c))
    ensures Inv(Remove(s, c))
  {
    RemoveKeeps(s, c);
  }

  lemma WaitKeeps(s: System, p: Pid, h: nat)
    requires Inv(s) && Enabled(s, Wait(p, h))
    ensures Inv(WaitStep(s, p, h))
  {
    var v := Stored(s, p, h);
    if v >= 1 {
      assert RootedAt(s, v);
      assert v == INIT ==> Look(s, p, v) == NoChild;
      match Look(s, p, v)
      case NoChild =>
      case Ended =>
        RemoveKeeps(s, v);
        NegateKeeps(Remove(s, v), p, h);
      case Alive =>
        TouchKeeps(s, v, s.procs[v].(reports := false));
    }
  }

  lemma CollectKeeps(s: System, p: Pid, h: nat)
    requires Inv(s) && Enabled(s, Collect(p, h))
    ensures Inv(CollectStep(s, p, h))
  {
    var v := Stored(s, p, h);
    assert RootedAt(s, v);
    if v == 0 {
      DieKeeps(s, p);
    } else if v <= 1 {
      DropKeeps(s, p, h);
    } else {
      match Look(s, p, v)
      case NoChild => DropKeeps(s, p, h);
      case Ended =>
        RemoveKeeps(s, v);
        DropKeeps(Remove(s, v), p, h);
      case Alive => ModeKeeps(s, p, Probed(h));
    }
  }

  lemma KillKeeps(s: System, p: Pid)
    requires Inv(s) && Enabled(s, Kill(p))
    ensures Inv(KillStep(s, p))
  {
    var v, h := Target(s, p), s.procs[p].mode.h;
    assert RootedAt(s, v) && RootedAt(s, p) && ProbesAt(s, p);
    if v !in s.procs {
      DropKeeps(s, p, h);
    } else if s.procs[v].life == Zombie {
      ModeKeeps(s, p, Killed(h));
    } else {
      DieKeeps(s, v);
      if v != p {
        ModeKeeps(Die(s, v), p, Killed(h));
      }
    }
  }

  lemma InterruptKeeps(s: System, p: Pid)
    requires Inv(s) && Enabled(s, Interrupt(p))
    ensures Inv(Drop(s, p, s.procs[p].mode.h))
  {
    assert ProbesAt(s, p);
    DropKeeps(s, p, s.procs[p].mode.h);
  }

  lemma ReapKeeps(s: System, p: Pid)
    requires Inv(s) && Enabled(s, Reap(p))
    ensures Inv(ReapStep(s, p))
  {
    var v, h := Target(s, p), s.procs[p].mode.h;
    assert RootedAt(s, v) && ProbesAt(s, p);
    if Look(s, p, v) == Ended {
      RemoveKeeps(s, v);
      DropKeeps(Remove(s, v), p, h);
    } else {
      DropKeeps(s, p, h);
    }
  }

  lemma BootKeeps()
    ensures Inv(Boot())
  {
  }
}
