/** The dispatch ring between two drains, and the open calls in the records that pass through it. */
module DispatchBound {
  import opened Basics
  import opened RingBuffers
  import opened ProcessIndex
  import opened RecordTable
  import opened OpenConservation
  import opened EventLoop
  import opened Daemon

  /** Ticks since the last drain. */
  function TicksSinceDrain(counter: nat): nat
    requires counter >= 1
  {
    (counter - 1) % DRAIN_TICKS
  }

  /** May this tick's one replacement already have been made? A pass that only picks up a pair starts
      over without a tick, and makes none. */
  predicate MayHaveReplaced(pc: Pc) {
    !pc.Top? && !Idle(pc) && pc != HasNext(false)
  }

  /** At most one record per tick, and what the sweeps have sent. */
  ghost predicate Bounded(m: Mach) {
    && m.counter >= 1
    && m.swept <= m.peak
    && (m.peak <= 512 && !m.pc.Halted? ==>
          && m.table.lost == []
          && |m.table.dispatch| <= TicksSinceDrain(m.counter) + m.swept + if MayHaveReplaced(m.pc) then 1 else 0)
  }

  lemma SendFits(t: Table, rs: seq<Rec>)
    requires |t.dispatch| + |rs| <= SIZE_RING
    ensures Send(t, rs).lost == t.lost && Send(t, rs).dispatch == t.dispatch + rs
  {
    assert t.lost + [] == t.lost;
  }

  lemma DeliveryFits(t: Table, d: Delivery)
    requires TableOk(t) && (d.Replace? ==> |t.dispatch| < SIZE_RING)
    ensures var u := Deliver(t, d);
            && u.lost == t.lost
            && |u.dispatch| <= |t.dispatch| + (if d.Replace? then 1 else 0)
  {
    if d.Replace? {
      AddExecEffect(t, d.e);
      if t.ix.At(d.e.pid).Some? {
        SendFits(t, [t.ix.At(d.e.pid).value]);
      }
    }
  }

  lemma BeatBounded(m: Mach, dead: set<int>)
    requires MachOk(m) && m.pc.Top? && Bounded(m)
    ensures Bounded(Beat(m, dead))
  {
    hide WellFormed, DyingRecs, Sweep;
    var rs := DyingRecs(m.table.ix.slots, dead);
    if Beat(m, dead).peak <= 512 && m.counter % SWEEP_TICKS == 0 {
      SendFits(m.table, rs);
    }
  }

  lemma HandBounded(m: Mach, d: Delivery, pc: Pc)
    requires TableOk(m.table) && Bounded(m) && !m.pc.Halted? && !pc.Halted?
    requires MayHaveReplaced(m.pc) ==> !d.Replace?
    requires MayHaveReplaced(m.pc) || d.Replace? ==> MayHaveReplaced(pc)
    ensures Bounded(Hand(m, d, pc))
  {
    hide WellFormed, Deliver;
    if m.peak <= 512 {
      DeliveryFits(m.table, d);
    }
  }

  lemma TopBounded(m: Mach, dead: set<int>)
    requires MachOk(m) && m.pc.Top? && Bounded(m)
    ensures Bounded(AtTop(m, dead))
  {
    hide WellFormed, Hand, Beat;
    BeatBounded(m, dead);
    var b := Beat(m, dead);
    if b.held.Some? {
      HandBounded(b, First(b.held.value), HasNext(ExecFirst(b.held.value)));
    }
  }

  lemma HasNextBounded(m: Mach, execFirst: bool)
    requires MachOk(m) && m.pc == HasNext(execFirst) && Bounded(m)
    ensures Bounded(AtHasNext(m, execFirst))
  {
    hide WellFormed, Hand;
    HandBounded(m, if execFirst then Opened(m.held.value.o) else Replace(m.held.value.e), Dead1);
  }

  lemma ReadOneBounded(m: Mach)
    requires MachOk(m) && (m.pc.ReadOpen? || m.pc.ReadCmd?) && Bounded(m)
    ensures Bounded(AtReadOne(m))
  {
    hide WellFormed, Hand;
    HandBounded(m, if m.pc.ReadOpen? then Opened(m.openQ[0]) else Insert(m.cmdQ[0]), Dead1);
  }

  lemma IdleBounded(m: Mach)
    requires MachOk(m) && Idle(m.pc) && Bounded(m)
    ensures Bounded(AtIdle(m))
  {
    hide WellFormed, AtReadOne;
    if m.pc.ReadOpen? || m.pc.ReadCmd? {
      ReadOneBounded(m);
    }
  }

  lemma TailBounded(m: Mach)
    requires MachOk(m) && m.pc.Tail? && Bounded(m)
    ensures Bounded(AtTail(m))
  {
    hide WellFormed;
    assert m.counter % DRAIN_TICKS != 0 ==> TicksSinceDrain(m.counter + 1) == TicksSinceDrain(m.counter) + 1;
  }

  lemma MainBounded(m: Mach, dead: set<int>)
    requires MachOk(m) && Bounded(m)
    ensures Bounded(MainStep(m, dead))
  {
    hide AtTop, AtHasNext, AtIdle, AtTail, MachOk, FlushTable;
    if Idle(m.pc) {
      IdleBounded(m);
    } else {
      match m.pc
      case Top => TopBounded(m, dead);
      case HasNext(execFirst) => HasNextBounded(m, execFirst);
      case Tail => TailBounded(m);
      case _ =>
    }
  }

  lemma ApplyBounded(w: World, s: Step)
    requires MachOk(w.m) && Bounded(w.m)
    ensures Bounded(Apply(w, s).m)
  {
    hide MainStep, MachOk, HandlerStep;
    match s
    case Main(dead) => MainBounded(w.m, dead);
    case _ =>
  }

  lemma {:induction false} RunBounded(w: World, steps: seq<Step>)
    requires MachOk(w.m) && Bounded(w.m)
    ensures Bounded(Run(w, steps).m)
  {
    if steps != [] {
      RunBounded(w, steps[..|steps| - 1]);
      ApplyBounded(Run(w, steps[..|steps| - 1]), steps[|steps| - 1]);
    }
  }

  /** Over every run in which the sweeps between two drains find at most 512 tracked dead entries, no
      record is lost to a full ring before the final flush. */
  lemma DispatchNeverOverflows(ix: Index, steps: seq<Step>)
    requires WellFormed(ix)
    ensures var m := Run(Start(ix), steps).m;
            m.peak <= 512 && !m.pc.Halted? ==> m.table.lost == [] && |m.table.dispatch| <= SIZE_RING
  {
    RunBounded(Start(ix), steps);
  }

  // ----- Open calls -----

  /** The open calls handed over that the table accepts. */
  function Accepted(log: seq<Delivery>, maxPid: nat): multiset<OpenCall> {
    if log == [] then multiset{}
    else
      var d := log[|log| - 1];
      Accepted(log[..|log| - 1], maxPid) + if d.Opened? && 0 <= d.o.pid < maxPid then multiset{d.o} else multiset{}
  }

  ghost predicate CallsKept(m: Mach, initial: multiset<OpenCall>) {
    AllCalls(m.table) == initial + Accepted(m.log, m.table.ix.maxPid)
  }

  lemma HandKeepsCalls(m: Mach, d: Delivery, pc: Pc, initial: multiset<OpenCall>)
    requires TableOk(m.table) && CallsKept(m, initial)
    ensures CallsKept(Hand(m, d, pc), initial)
  {
    hide WellFormed, Deliver, AllCalls, Accepted;
    DeliverConserves(m.table, d);
    AcceptedSnoc(m.log, d, m.table.ix.maxPid);
  }

  lemma AcceptedSnoc(log: seq<Delivery>, d: Delivery, maxPid: nat)
    ensures Accepted(log + [d], maxPid) ==
            Accepted(log, maxPid) + if d.Opened? && 0 <= d.o.pid < maxPid then multiset{d.o} else multiset{}
  {
    assert (log + [d])[..|log|] == log;
  }

  lemma BeatKeepsCalls(m: Mach, dead: set<int>, initial: multiset<OpenCall>)
    requires TableOk(m.table) && CallsKept(m, initial)
    ensures CallsKept(Beat(m, dead), initial)
  {
    hide WellFormed, AllCalls, DyingRecs, Accepted;
    SweepConserves(m.table, dead);
    SweepTableOk(m.table, dead);
  }

  lemma TopKeepsCalls(m: Mach, dead: set<int>, initial: multiset<OpenCall>)
    requires MachOk(m) && m.pc.Top? && CallsKept(m, initial)
    ensures CallsKept(AtTop(m, dead), initial)
  {
    hide WellFormed, Hand, Beat, AllCalls, Accepted;
    BeatKeepsCalls(m, dead, initial);
    var b := Beat(m, dead);
    if b.held.Some? {
      HandKeepsCalls(b, First(b.held.value), HasNext(ExecFirst(b.held.value)), initial);
    }
  }

  lemma HandedKeepsCalls(m: Mach, initial: multiset<OpenCall>)
    requires MachOk(m) && CallsKept(m, initial)
    ensures m.pc.HasNext? ==> CallsKept(AtHasNext(m, m.pc.execFirst), initial)
    ensures m.pc.ReadOpen? || m.pc.ReadCmd? ==> CallsKept(AtReadOne(m), initial)
  {
    hide WellFormed, Hand, AllCalls, Accepted;
    if m.pc.HasNext? {
      HandKeepsCalls(m, if m.pc.execFirst then Opened(m.held.value.o) else Replace(m.held.value.e), Dead1, initial);
    } else if m.pc.ReadOpen? || m.pc.ReadCmd? {
      HandKeepsCalls(m, if m.pc.ReadOpen? then Opened(m.openQ[0]) else Insert(m.cmdQ[0]), Dead1, initial);
    }
  }

  lemma EndKeepsCalls(m: Mach, initial: multiset<OpenCall>)
    requires MachOk(m) && CallsKept(m, initial)
    ensures m.pc.Exit? ==> CallsKept(AtExit(m), initial)
    ensures m.pc.Tail? ==> CallsKept(AtTail(m), initial)
  {
    hide WellFormed, AllCalls, FlushTable, Accepted, Drain;
    FlushTableOk(m.table);
    FlushConserves(m.table);
    DrainConserves(FlushTable(m.table));
    DrainConserves(m.table);
    DrainKeepsIndex(m.table);
    DrainKeepsIndex(FlushTable(m.table));
  }

  lemma DrainKeepsIndex(t: Table)
    ensures Drain(t).ix == t.ix
  {}

  lemma IdleKeepsCalls(m: Mach, initial: multiset<OpenCall>)
    requires MachOk(m) && Idle(m.pc) && CallsKept(m, initial)
    ensures CallsKept(AtIdle(m), initial)
  {
    hide AtReadOne, WellFormed, AllCalls, Accepted;
    HandedKeepsCalls(m, initial);
  }

  lemma MainKeepsCalls(m: Mach, dead: set<int>, initial: multiset<OpenCall>)
    requires MachOk(m) && CallsKept(m, initial)
    ensures CallsKept(MainStep(m, dead), initial)
  {
    hide AtTop, AtHasNext, AtIdle, AtExit, AtTail, MachOk, AllCalls, Accepted;
    if Idle(m.pc) {
      IdleKeepsCalls(m, initial);
    } else if !Checks(m.pc) {
      match m.pc
      case Top => TopKeepsCalls(m, dead, initial);
      case HasNext(_) => HandedKeepsCalls(m, initial);
      case Exit => EndKeepsCalls(m, initial);
      case Tail => EndKeepsCalls(m, initial);
      case _ =>
    }
  }

  lemma ApplyKeepsCalls(w: World, s: Step, initial: multiset<OpenCall>)
    requires MachOk(w.m) && CallsKept(w.m, initial)
    ensures CallsKept(Apply(w, s).m, initial)
  {
    hide MainStep, HandlerStep, AllCalls, Accepted, MachOk;
    if s.Main? {
      MainKeepsCalls(w.m, s.dead, initial);
    }
  }

  lemma {:induction false} RunKeepsCalls(w: World, steps: seq<Step>, initial: multiset<OpenCall>)
    requires MachOk(w.m) && CallsKept(w.m, initial)
    ensures CallsKept(Run(w, steps).m, initial)
  {
    if steps != [] {
      RunKeepsCalls(w, steps[..|steps| - 1], initial);
      ApplyKeepsCalls(Run(w, steps[..|steps| - 1]), steps[|steps| - 1], initial);
    }
  }

  /** Over every run, each open call the table accepted sits in exactly one call buffer: of a record in
      the index, in the dispatch ring, archived, or (never, under the bound above) refused by the ring. */
  lemma OpenCallsSitInOneBuffer(ix: Index, steps: seq<Step>)
    requires WellFormed(ix)
    ensures var m := Run(Start(ix), steps).m;
            && AllCalls(m.table) == IndexCalls(ix.slots) + Accepted(m.log, ix.maxPid)
            && (m.peak <= 512 && !m.pc.Halted? ==>
                  IndexCalls(m.table.ix.slots) + RecCalls(m.table.dispatch) + RecCalls(m.table.archived)
                  == IndexCalls(ix.slots) + Accepted(m.log, ix.maxPid))
  {
    RunKeepsCalls(Start(ix), steps, IndexCalls(ix.slots));
    RunBounded(Start(ix), steps);
  }
}
