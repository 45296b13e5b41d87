/** src/timer.c: the stopwatch behind the reported times, in 64-bit arithmetic. */
module Timer {
  import opened Prelude

  const WRAP := 0x1_0000_0000_0000_0000

  type U64 = x: int | 0 <= x < WRAP

  /** `a + b` and `a - b` on `uint64_t` */
  function Add(a: U64, b: U64): U64 {
    (a + b) % WRAP
  }

  function Sub(a: U64, b: U64): U64 {
    (a - b) % WRAP
  }

  // --- units ---

  datatype Unit = Nanosecond | Microsecond | Millisecond | Second | Minute

  function SizeOf(u: Unit): nat {
    match u
    case Nanosecond => 1
    case Microsecond => 1_000
    case Millisecond => 1_000_000
    case Second => 1_000_000_000
    case Minute => 60_000_000_000
  }

  datatype Time = Time(value: real, unit: Unit)

  /** How a time should read: no unit fits more often than it has to. */
  predicate Readable(t: Time) {
    match t.unit
    case Nanosecond => 0.0 <= t.value < 1000.0
    case Microsecond => 1.0 <= t.value < 1000.0
    case Millisecond => 1.0 <= t.value < 1000.0
    case Second => 1.0 <= t.value < 60.0
    case Minute => 1.0 <= t.value
  }

  /** The time stands for `ns` nanoseconds. */
  predicate StandsFor(t: Time, ns: nat) {
    t.value * SizeOf(t.unit) as real == ns as real
  }

  /** `nsec2utime`, with exact division for that of `long double` */
  function InUnits(ns: nat): (t: Time)
    ensures StandsFor(t, ns) && Readable(t)
  {
    if ns >= 60_000_000_000 then Time(ns as real / 60_000_000_000.0, Minute)
    else if ns >= 1_000_000_000 then Time(ns as real / 1_000_000_000.0, Second)
    else if ns >= 1_000_000 then Time(ns as real / 1_000_000.0, Millisecond)
    else if ns >= 1_000 then Time(ns as real / 1_000.0, Microsecond)
    else Time(ns as real, Nanosecond)
  }

  /** There is one readable way to write a number of nanoseconds, and `nsec2utime` finds it. */
  lemma OneReading(ns: nat, t: Time)
    ensures StandsFor(t, ns) && Readable(t) <==> t == InUnits(ns)
  {
  }

  // --- the stopwatch ---

  /** A reading of the clock, or its failure. */
  datatype Op = Start(clock: Option<U64>) | Stop(clock: Option<U64>) | Reset

  datatype State = State(total: U64, start: U64)

  function Step(s: State, op: Op): State {
    match op
    case Start(Some(ns)) => State(s.total, ns)
    case Stop(Some(ns)) => State(Add(s.total, Sub(ns, s.start)), ns)
    case Reset => State(0, 0)
    case _ => s
  }

  function Run(ops: seq<Op>): State {
    if ops == [] then State(0, 0) else Step(Run(ops[..|ops| - 1]), ops[|ops| - 1])
  }

  class Stopwatch {
    var total: U64
    var start: U64
    ghost var ops: seq<Op>

    ghost predicate Valid()
      reads this
    {
      State(total, start) == Run(ops)
    }

    /** `new_lua` */
    constructor ()
      ensures Valid() && ops == []
    {
      total, start, ops := 0, 0, [];
    }

    /** `start_lua` */
    method StartTimer(clock: Option<U64>) returns (ok: bool)
      requires Valid()
      modifies this
      ensures Valid() && ops == old(ops) + [Start(clock)]
      ensures ok <==> clock.Some?
      ensures !ok ==> total == old(total) && start == old(start)
    {
      RunMore(ops, Start(clock));
      ops := ops + [Start(clock)];
      if clock.None? {
        return false;
      }
      start := clock.value;
      return true;
    }

    /** `stop_lua` */
    method StopTimer(clock: Option<U64>) returns (elapsed: Option<Time>)
      requires Valid()
      modifies this
      ensures Valid() && ops == old(ops) + [Stop(clock)]
      ensures clock.None? ==> elapsed.None? && total == old(total) && start == old(start)
      ensures clock.Some? ==> elapsed == Some(InUnits(Sub(clock.value, old(start))))
    {
      RunMore(ops, Stop(clock));
      ops := ops + [Stop(clock)];
      if clock.None? {
        return None;
      }
      var ns := Sub(clock.value, start);
      total := Add(total, ns);
      start := clock.value;
      return Some(InUnits(ns));
    }

    /** `reset_lua` */
    method ResetTimer()
      requires Valid()
      modifies this
      ensures Valid() && ops == old(ops) + [Reset]
    {
      RunMore(ops, Reset);
      ops := ops + [Reset];
      start := 0;
      total := start;
    }

    /** `total_lua` */
    method Total() returns (t: Time)
      requires Valid()
      ensures StandsFor(t, Run(ops).total) && Readable(t)
    {
      return InUnits(total);
    }

    /** `elapsed_lua` */
    method Elapsed(clock: Option<U64>) returns (t: Option<Time>)
      requires Valid()
      ensures t == if clock.None? then None else Some(InUnits(Sub(clock.value, Run(ops).start)))
    {
      if clock.None? {
        return None;
      }
      return Some(InUnits(Sub(clock.value, start)));
    }
  }

  lemma RunMore(ops: seq<Op>, op: Op)
    ensures Run(ops + [op]) == Step(Run(ops), op)
  {
    assert (ops + [op])[..|ops|] == ops;
  }

  // --- what the stopwatch measures ---

  datatype Interval = Interval(from: nat, to: nat)

  function Reading(op: Op): Option<U64> {
    if op.Reset? then None else op.clock
  }

  /** The last reading since the last reset: where the next interval begins. */
  function Begin(ops: seq<Op>): U64 {
    if ops == [] || ops[|ops| - 1].Reset? then 0
    else
      match Reading(ops[|ops| - 1])
      case None => Begin(ops[..|ops| - 1])
      case Some(ns) => ns
  }

  /** The stretches of time between a start or a stop and the stop after it, since the last reset. */
  function Intervals(ops: seq<Op>): seq<Interval> {
    if ops == [] || ops[|ops| - 1].Reset? then []
    else
      var before, op := ops[..|ops| - 1], ops[|ops| - 1];
      if op.Stop? && op.clock.Some? then Intervals(before) + [Interval(Begin(before), op.clock.value)]
      else Intervals(before)
  }

  function Sum(intervals: seq<Interval>): int {
    if intervals == [] then 0
    else
      var last := intervals[|intervals| - 1];
      Sum(intervals[..|intervals| - 1]) + (last.to - last.from)
  }

  /** The readings of the clock never go back. */
  predicate Monotone(ops: seq<Op>) {
    forall i, j :: 0 <= i < j < |ops| && Reading(ops[i]).Some? && Reading(ops[j]).Some? ==>
      Reading(ops[i]).value <= Reading(ops[j]).value
  }

  /** The intervals come one after the other, and end by `now`. */
  predicate Disjoint(intervals: seq<Interval>, now: nat) {
    && (forall i :: 0 <= i < |intervals| ==> intervals[i].from <= intervals[i].to <= now)
    && (forall i, j :: 0 <= i < j < |intervals| ==> intervals[i].to <= intervals[j].from)
  }

  /** No reading is later than `now`. */
  predicate By(ops: seq<Op>, now: nat) {
    forall i :: 0 <= i < |ops| && Reading(ops[i]).Some? ==> Reading(ops[i]).value <= now
  }

  /** With a clock that never goes back nothing wraps: the total is the length of
      disjoint intervals, and `total <= start <= now`. */
  lemma {:induction false} TotalIsMeasured(ops: seq<Op>, now: U64)
    requires Monotone(ops) && By(ops, now)
    ensures 0 <= Sum(Intervals(ops)) <= Begin(ops) <= now
    ensures Run(ops) == State(Sum(Intervals(ops)), Begin(ops))
    ensures Disjoint(Intervals(ops), Begin(ops))
  {
    if ops != [] {
      var before, op := ops[..|ops| - 1], ops[|ops| - 1];
      var then_ := if op.Reset? || op.clock.None? then now else op.clock.value;
      assert op == ops[|ops| - 1];
      assert By(before, then_) by {
        forall i | 0 <= i < |before| && Reading(before[i]).Some? ensures Reading(before[i]).value <= then_ {
          assert before[i] == ops[i];
        }
      }
      assert Monotone(before);
      TotalIsMeasured(before, then_);
      hide Monotone, By, Run, Intervals, Begin, Sum, Disjoint;
      Unfold(ops);
      if op.Stop? && op.clock.Some? {
        var last := Interval(Begin(before), op.clock.value);
        SumMore(Intervals(before), last);
        DisjointMore(Intervals(before), last);
        NoWrap(Run(before).total, Begin(before), op.clock.value);
      } else if op.Start? && op.clock.Some? {
        DisjointLater(Intervals(before), Begin(before), op.clock.value);
      } else if op.Reset? {
        assert Sum([]) == 0 && Disjoint([], 0) by { NoIntervals(); }
      }
    } else {
      NoIntervals();
    }
  }

  lemma NoIntervals()
    ensures Sum([]) == 0 && Disjoint([], 0)
  {
  }

  lemma Unfold(ops: seq<Op>)
    requires ops != []
    ensures var before, op := ops[..|ops| - 1], ops[|ops| - 1];
            && Run(ops) == Step(Run(before), op)
            && Begin(ops) == (if op.Reset? then 0 else if op.clock.Some? then op.clock.value else Begin(before))
            && Intervals(ops) == (if op.Reset? then []
                                  else if op.Stop? && op.clock.Some?
                                  then Intervals(before) + [Interval(Begin(before), op.clock.value)]
                                  else Intervals(before))
  {
  }

  lemma SumMore(intervals: seq<Interval>, last: Interval)
    ensures Sum(intervals + [last]) == Sum(intervals) + (last.to - last.from)
  {
    assert (intervals + [last])[..|intervals|] == intervals;
  }

  lemma DisjointMore(intervals: seq<Interval>, last: Interval)
    requires Disjoint(intervals, last.from) && last.from <= last.to
    ensures Disjoint(intervals + [last], last.to)
  {
  }

  lemma DisjointLater(intervals: seq<Interval>, now: nat, later: nat)
    requires Disjoint(intervals, now) && now <= later
    ensures Disjoint(intervals, later)
  {
  }

  lemma NoWrap(total: U64, start: U64, ns: U64)
    requires total <= start <= ns
    ensures Sub(ns, start) == ns - start && Add(total, Sub(ns, start)) == total + (ns - start)
  {
  }

  /** A difference is exact as long as the clock has not gone back; otherwise the stop
      adds a time close to the 584 years that 64 bits of nanoseconds last. */
  lemma ExactIff(start: U64, ns: U64)
    ensures Sub(ns, start) == ns - start <==> start <= ns
    ensures start > ns ==> Sub(ns, start) == 18_446_744_073_709_551_616 - (start - ns)
  {
  }

  function Stops(readings: seq<U64>): (r: seq<Op>)
    ensures |r| == |readings|
  {
    seq(|readings|, i requires 0 <= i < |readings| => Stop(Some(readings[i])))
  }

  /** Stop after stop, the intervals telescope: together they last from the start to the last stop. */
  lemma {:induction false} Telescopes(ops: seq<Op>, start: U64, readings: seq<U64>)
    requires readings != []
    ensures var timed := ops + [Start(Some(start))];
            && Begin(timed + Stops(readings)) == readings[|readings| - 1]
            && Sum(Intervals(timed + Stops(readings))) == Sum(Intervals(ops)) + readings[|readings| - 1] - start
  {
    var timed, n := ops + [Start(Some(start))], |readings| - 1;
    var fewer, last := readings[..n], readings[n];
    var more := timed + Stops(readings);
    assert more[..|more| - 1] == timed + Stops(fewer) && more[|more| - 1] == Stop(Some(last));
    assert timed[..|timed| - 1] == ops;
    hide Run, Sum, Intervals, Begin;
    Unfold(more);
    if n == 0 {
      assert timed + Stops(fewer) == timed;
      Unfold(timed);
      SumMore(Intervals(ops), Interval(start, last));
    } else {
      Telescopes(ops, start, fewer);
      SumMore(Intervals(timed + Stops(fewer)), Interval(fewer[n - 1], last));
    }
  }
}
