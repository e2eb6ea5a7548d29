/** What every run of the daemon keeps: no call is lost on the way through main, and the exit is safe. */
module Shutdown {
  import opened Basics
  import opened RingBuffers
  import opened ProcessIndex
  import opened RecordTable
  import opened EventLoop
  import opened MergeOrder
  import opened Daemon

  // ----- Conservation -----

  /** The exec call main has read and not yet handed over. */
  function ExecInHand(m: Mach): seq<Exec> {
    if m.pc.ReadPairOpen? then [m.pc.e]
    else if m.held.None? || m.pc == HasNext(true) || m.pc == ReadNext(true) then []
    else [m.held.value.e]
  }

  function OpenInHand(m: Mach): seq<OpenCall> {
    if m.held.None? || m.pc == HasNext(false) || m.pc == ReadNext(false) then [] else [m.held.value.o]
  }

  /** All exec calls that ever entered the ring: handed over, in hand, or still queued, in that order. */
  function ExecStream(m: Mach): seq<Exec> {
    Execs(m.log) + ExecInHand(m) + m.cmdQ
  }

  function OpenStream(m: Mach): seq<OpenCall> {
    Opens(m.log) + OpenInHand(m) + m.openQ
  }

  /** execFirst is what the comparison of the held pair said. */
  ghost predicate Compared(m: Mach) {
    m.held.Some? && (m.pc.HasNext? || m.pc.ReadNext?) ==> m.pc.execFirst == ExecFirst(m.held.value)
  }

  ghost predicate SameStreams(m: Mach, n: Mach) {
    ExecStream(n) == ExecStream(m) && OpenStream(n) == OpenStream(m) && Compared(n)
  }

  lemma TopKeepsStreams(m: Mach, dead: set<int>)
    requires MachOk(m) && m.pc.Top?
    ensures SameStreams(m, AtTop(m, dead))
  {
    hide Deliver, SweepTable, FlushTable, WellFormed, Beat, Execs, Opens;
    var b := Beat(m, dead);
    if b.held.Some? {
      var p := b.held.value;
      ProjectSnoc(m.log, First(p));
      assert Execs(m.log) + [p.e] + [] + m.cmdQ == Execs(m.log) + [p.e] + m.cmdQ;
      assert Execs(m.log) + [] + [p.e] + m.cmdQ == Execs(m.log) + [p.e] + m.cmdQ;
      assert Opens(m.log) + [p.o] + [] + m.openQ == Opens(m.log) + [p.o] + m.openQ;
      assert Opens(m.log) + [] + [p.o] + m.openQ == Opens(m.log) + [p.o] + m.openQ;
    }
  }

  lemma HasNextKeepsStreams(m: Mach, execFirst: bool)
    requires MachOk(m) && m.pc == HasNext(execFirst) && Compared(m)
    ensures SameStreams(m, AtHasNext(m, execFirst))
  {
    hide Deliver, SweepTable, FlushTable, WellFormed, Beat, Execs, Opens;
    var p := m.held.value;
    ProjectSnoc(m.log, if execFirst then Opened(p.o) else Replace(p.e));
    assert Execs(m.log) + [p.e] + [] + m.cmdQ == Execs(m.log) + [p.e] + m.cmdQ;
    assert Execs(m.log) + [] + [] + m.cmdQ == Execs(m.log) + [] + m.cmdQ;
    assert Opens(m.log) + [p.o] + [] + m.openQ == Opens(m.log) + [p.o] + m.openQ;
    assert Opens(m.log) + [] + [] + m.openQ == Opens(m.log) + [] + m.openQ;
  }

  lemma ReadNextKeepsStreams(m: Mach, execFirst: bool)
    requires MachOk(m) && m.pc == ReadNext(execFirst)
    ensures SameStreams(m, AtReadNext(m, execFirst))
  {
    hide Deliver, SweepTable, FlushTable, WellFormed, Beat, Execs, Opens;
    if execFirst {
      assert Execs(m.log) + [m.cmdQ[0]] + m.cmdQ[1..] == Execs(m.log) + [] + m.cmdQ;
    } else {
      assert Opens(m.log) + [m.openQ[0]] + m.openQ[1..] == Opens(m.log) + [] + m.openQ;
    }
  }

  lemma ReadPairKeepsStreams(m: Mach)
    requires MachOk(m) && (m.pc.ReadPairCmd? || m.pc.ReadPairOpen?)
    ensures SameStreams(m, AtReadPair(m))
  {
    hide Deliver, SweepTable, FlushTable, WellFormed, Beat, Execs, Opens;
    if m.pc.ReadPairCmd? {
      assert Execs(m.log) + [m.cmdQ[0]] + m.cmdQ[1..] == Execs(m.log) + [] + m.cmdQ;
    } else {
      assert Opens(m.log) + [m.openQ[0]] + m.openQ[1..] == Opens(m.log) + [] + m.openQ;
    }
  }

  lemma ReadOneKeepsStreams(m: Mach)
    requires MachOk(m) && (m.pc.ReadOpen? || m.pc.ReadCmd?)
    ensures SameStreams(m, AtReadOne(m))
  {
    hide Deliver, SweepTable, FlushTable, WellFormed, Beat, Execs, Opens;
    if m.pc.ReadCmd? {
      ProjectSnoc(m.log, Insert(m.cmdQ[0]));
      assert Execs(m.log) + [m.cmdQ[0]] + [] + m.cmdQ[1..] == Execs(m.log) + [] + m.cmdQ;
      assert Opens(m.log) + [] == Opens(m.log);
    } else {
      ProjectSnoc(m.log, Opened(m.openQ[0]));
      assert Opens(m.log) + [m.openQ[0]] + [] + m.openQ[1..] == Opens(m.log) + [] + m.openQ;
      assert Execs(m.log) + [] == Execs(m.log);
    }
  }

  lemma IdleKeepsStreams(m: Mach)
    requires MachOk(m) && Idle(m.pc)
    ensures SameStreams(m, AtIdle(m))
  {
    hide AtReadPair, AtReadOne, WellFormed, Execs, Opens;
    match m.pc
    case ReadPairCmd => ReadPairKeepsStreams(m);
    case ReadPairOpen(_) => ReadPairKeepsStreams(m);
    case ReadOpen => ReadOneKeepsStreams(m);
    case ReadCmd => ReadOneKeepsStreams(m);
    case _ =>
  }

  lemma CheckKeepsStreams(m: Mach)
    requires MachOk(m) && Checks(m.pc)
    ensures SameStreams(m, AtCheck(m))
  {
    hide MachOk, Execs, Opens;
  }

  lemma ExitKeepsStreams(m: Mach)
    requires MachOk(m) && m.pc.Exit?
    ensures SameStreams(m, AtExit(m))
  {
    hide WellFormed, Execs, Opens, FlushTable;
  }

  lemma TailKeepsStreams(m: Mach)
    requires MachOk(m) && m.pc.Tail?
    ensures SameStreams(m, AtTail(m))
  {
    hide WellFormed, Execs, Opens;
  }

  lemma MainKeepsStreams(m: Mach, dead: set<int>)
    requires MachOk(m) && Compared(m)
    ensures SameStreams(m, MainStep(m, dead))
  {
    hide AtTop, AtHasNext, AtReadNext, AtIdle, AtCheck, AtExit, AtTail, MachOk, ExecStream, OpenStream;
    if Idle(m.pc) {
      IdleKeepsStreams(m);
    } else if Checks(m.pc) {
      CheckKeepsStreams(m);
    } else {
      match m.pc
      case Exit => ExitKeepsStreams(m);
      case Tail => TailKeepsStreams(m);
      case Top => TopKeepsStreams(m, dead);
      case HasNext(execFirst) => HasNextKeepsStreams(m, execFirst);
      case ReadNext(execFirst) => ReadNextKeepsStreams(m, execFirst);
      case _ =>
    }
  }

  ghost predicate Conserved(w: World) {
    w.execH.written == ExecStream(w.m) && w.openH.written == OpenStream(w.m) && Compared(w.m)
  }

  lemma ApplyConserves(w: World, s: Step)
    requires MachOk(w.m) && Conserved(w)
    ensures Conserved(Apply(w, s))
  {
    hide MainStep, Execs, Opens, MachOk, HandlerStep;
    match s
    case Main(dead) => MainKeepsStreams(w.m, dead);
    case ExecHandler(a) =>
      HandlerStepWrites(w.execH, w.m.cmdQ, w.m.execBusy, w.m.shut, a);
      forall x ensures Execs(w.m.log) + ExecInHand(w.m) + (w.m.cmdQ + [x]) == ExecStream(w.m) + [x] {}
    case OpenHandler(a) =>
      HandlerStepWrites(w.openH, w.m.openQ, w.m.openBusy, w.m.shut, a);
      forall x ensures Opens(w.m.log) + OpenInHand(w.m) + (w.m.openQ + [x]) == OpenStream(w.m) + [x] {}
    case Shutdown =>
  }

  lemma {:induction false} RunConserves(w: World, steps: seq<Step>)
    requires MachOk(w.m) && Conserved(w)
    ensures Conserved(Run(w, steps))
  {
    if steps != [] {
      RunConserves(w, steps[..|steps| - 1]);
      ApplyConserves(Run(w, steps[..|steps| - 1]), steps[|steps| - 1]);
    }
  }

  lemma StartConserved(ix: Index)
    ensures Conserved(Start(ix)) && HandlersOk(Start(ix))
  {}

  /** Over every run: what came out of each ring is, in order, what was handed over and then what is in
      hand; at the head of the loop that is one call of each kind in compare mode and none otherwise. */
  lemma CallsAreConserved(ix: Index, steps: seq<Step>)
    requires WellFormed(ix)
    ensures var w := Run(Start(ix), steps);
            && w.execH.written == Execs(w.m.log) + ExecInHand(w.m) + w.m.cmdQ
            && w.openH.written == Opens(w.m.log) + OpenInHand(w.m) + w.m.openQ
            && (w.m.pc.Top? || w.m.pc.Halted? ==>
                  && ExecInHand(w.m) == (if w.m.held.Some? then [w.m.held.value.e] else [])
                  && OpenInHand(w.m) == (if w.m.held.Some? then [w.m.held.value.o] else []))
  {
    hide Execs, Opens;
    StartConserved(ix);
    RunConserves(Start(ix), steps);
  }

  // ----- The exit protocol -----

  /** A handler that is not, and will never again be, in a position to write. */
  predicate Silent(pc: HandlerPc) {
    pc != Receiving && pc != Writing
  }

  predicate PastOpenFlag(pc: Pc) {
    pc.Dead3? || PastExecFlag(pc)
  }

  predicate PastExecFlag(pc: Pc) {
    pc.Dead4? || PastOpenRing(pc)
  }

  predicate PastOpenRing(pc: Pc) {
    pc.Dead5? || PastCmdRing(pc)
  }

  predicate PastCmdRing(pc: Pc) {
    pc.Exit? || pc.Halted?
  }

  /** What main knows as it works through the exit condition. Each part stays true whatever the other
      threads do: shutting_down is never reset, a flag is raised before the guard is looked at and
      lowered after the last write, and only handlers add to the rings. */
  ghost predicate ExitKnowledge(w: World) {
    && (w.m.pc.Dead2? || PastOpenFlag(w.m.pc) ==> w.m.shut)
    && (PastOpenFlag(w.m.pc) ==> Silent(w.openH.pc))
    && (PastExecFlag(w.m.pc) ==> Silent(w.execH.pc))
    && (PastOpenRing(w.m.pc) ==> w.m.openQ == [])
    && (PastCmdRing(w.m.pc) ==> w.m.cmdQ == [])
  }

  lemma SilentHandler<T>(h: Handler<T>, q: seq<T>, busy: bool, a: Action<T>)
    requires Silent(h.pc)
    ensures var (h', q', busy') := HandlerStep(h, q, busy, true, a);
            Silent(h'.pc) && q' == q && h'.written == h.written && h'.accepted == h.accepted
  {}

  lemma MainKeepsKnowledge(w: World, dead: set<int>)
    requires MachOk(w.m) && HandlersOk(w) && ExitKnowledge(w)
    ensures ExitKnowledge(w.(m := MainStep(w.m, dead)))
  {
    hide AtTop, AtHasNext, AtReadNext, AtReadPair, AtReadOne, AtExit, AtTail, AtIdle, WellFormed;
    if Checks(w.m.pc) {
    } else if w.m.pc.Top? {
      TopGoesOn(w.m, dead);
    } else if Idle(w.m.pc) {
      IdleGoesOn(w.m);
    }
  }

  lemma TopGoesOn(m: Mach, dead: set<int>)
    requires MachOk(m) && m.pc.Top?
    ensures AtTop(m, dead).pc.CheckCmd? || AtTop(m, dead).pc.HasNext?
  {
    hide Deliver, SweepTable, WellFormed;
  }

  lemma IdleGoesOn(m: Mach)
    requires MachOk(m) && Idle(m.pc)
    ensures var pc := AtIdle(m).pc; Idle(pc) || pc.Top? || pc.Dead1?
  {
    hide Deliver, SweepTable, WellFormed;
  }

  lemma ApplyKeepsKnowledge(w: World, s: Step)
    requires MachOk(w.m) && HandlersOk(w) && ExitKnowledge(w)
    ensures ExitKnowledge(Apply(w, s))
  {
    hide MainStep, MachOk, HandlerStep;
    match s
    case Main(dead) => MainKeepsKnowledge(w, dead);
    case ExecHandler(a) =>
      if PastExecFlag(w.m.pc) { SilentHandler(w.execH, w.m.cmdQ, w.m.execBusy, a); }
    case OpenHandler(a) =>
      if PastOpenFlag(w.m.pc) { SilentHandler(w.openH, w.m.openQ, w.m.openBusy, a); }
    case Shutdown =>
  }

  lemma {:induction false} RunKeepsKnowledge(w: World, steps: seq<Step>)
    requires MachOk(w.m) && HandlersOk(w) && ExitKnowledge(w)
    ensures HandlersOk(Run(w, steps)) && ExitKnowledge(Run(w, steps))
  {
    if steps != [] {
      var v := Run(w, steps[..|steps| - 1]);
      RunKeepsKnowledge(w, steps[..|steps| - 1]);
      ApplyHandlersOk(v, steps[|steps| - 1]);
      ApplyKeepsKnowledge(v, steps[|steps| - 1]);
    }
  }

  lemma {:induction false} SilenceLasts(w: World, steps: seq<Step>)
    requires MachOk(w.m) && HandlersOk(w) && ExitKnowledge(w) && PastCmdRing(w.m.pc)
    ensures var v := Run(w, steps);
            && PastCmdRing(v.m.pc) && v.m.openQ == [] && v.m.cmdQ == []
            && v.execH.written == w.execH.written && v.openH.written == w.openH.written
            && v.execH.accepted == w.execH.accepted && v.openH.accepted == w.openH.accepted
  {
    if steps != [] {
      var front, s := steps[..|steps| - 1], steps[|steps| - 1];
      SilenceLasts(w, front);
      RunKeepsKnowledge(w, front);
      var v := Run(w, front);
      RunSnoc(w, steps);
      RunKeepsKnowledge(w, steps);
      QuietStep(v, s);
    }
  }

  lemma QuietStep(v: World, s: Step)
    requires MachOk(v.m) && ExitKnowledge(v) && PastCmdRing(v.m.pc)
    ensures var u := Apply(v, s);
            && PastCmdRing(u.m.pc)
            && u.execH.written == v.execH.written && u.openH.written == v.openH.written
            && u.execH.accepted == v.execH.accepted && u.openH.accepted == v.openH.accepted
  {
    hide HandlerStep, FlushTable, WellFormed;
    match s
    case Main(dead) =>
    case ExecHandler(a) => SilentHandler(v.execH, v.m.cmdQ, v.m.execBusy, a);
    case OpenHandler(a) => SilentHandler(v.openH, v.m.openQ, v.m.openBusy, a);
    case Shutdown =>
  }

  /** Shutdown safety, over every interleaving: once main has found shutting_down set, both flags clear
      and both rings empty, nothing is enqueued any more, so all that was ever written to the rings has
      been handed over, except the one pair main may hold. */
  lemma ExitIsSafe(ix: Index, before: seq<Step>, after: seq<Step>)
    requires WellFormed(ix)
    requires PastCmdRing(Run(Start(ix), before).m.pc)
    ensures var w, v := Run(Start(ix), before), Run(Start(ix), before + after);
            && v.execH.written == w.execH.written && v.openH.written == w.openH.written
            && v.m.cmdQ == [] && v.m.openQ == []
            && v.execH.written == Execs(v.m.log) + ExecInHand(v.m)
            && v.openH.written == Opens(v.m.log) + OpenInHand(v.m)
  {
    hide Execs, Opens;
    StartConserved(ix);
    RunKeepsKnowledge(Start(ix), before);
    RunConcat(Start(ix), before, after);
    SilenceLasts(Run(Start(ix), before), after);
    CallsAreConserved(ix, before + after);
    var m := Run(Start(ix), before + after).m;
    assert Execs(m.log) + ExecInHand(m) + [] == Execs(m.log) + ExecInHand(m);
    assert Opens(m.log) + OpenInHand(m) + [] == Opens(m.log) + OpenInHand(m);
  }
}
