/** main() on the surveiller: its loop, one pass at a time, while the handlers are silent. */
module MainLoops {
  import opened Basics
  import opened RingBuffers
  import opened ProcessIndex
  import opened RecordTable
  import opened EventLoop
  import opened MergeOrder
  import opened QuietRuns
  import opened Surveillers
  import opened Archive

  /** The flags and ring contents shared with the handlers, and main's local variables. */
  datatype Vars = Vars(
    shut: bool, openBusy: bool, execBusy: bool, cmdQ: seq<Exec>, openQ: seq<OpenCall>, held: Option<Pair>, counter: nat)

  datatype History = History(log: seq<Delivery>, run: seq<Delivery>, swept: nat, peak: nat)

  ghost function MachOf(v: Vars, h: History, t: Table, pc: Pc): Mach {
    Mach(v.shut, v.openBusy, v.execBusy, v.cmdQ, v.openQ, pc, v.held, v.counter, t, h.log, h.run, h.swept, h.peak)
  }

  ghost function SurvRepr(surv: Surveiller): set<object>
    reads surv.procs, surv.procs.procs
  {
    {surv, surv.procs, surv.procs.procs, surv.dispatchQueue, surv.dispatchQueue.buffer, surv.db}
    + (set r <- surv.procs.Records())
  }

  ghost predicate SurvValid(surv: Surveiller)
    reads surv.procs, surv.procs.procs, SurvRepr(surv)
  {
    surv.TableValid() && surv.ArchiveValid()
  }

  /** The shutdown tick and the liveness sweep. */
  method DoBeat(surv: Surveiller, v: Vars, ghost h: History, dead: set<int>) returns (v': Vars, ghost h': History)
    requires SurvValid(surv)
    modifies SurvRepr(surv)
    ensures SurvValid(surv) && fresh(SurvRepr(surv) - old(SurvRepr(surv)))
    ensures TableOk(old(surv.State()))
    ensures MachOf(v', h', surv.State(), Top) == Beat(MachOf(v, h, old(surv.State()), Top), dead)
  {
    hide SweepTable, SlotOk, Consistent, DispatchAll;
    surv.TableOkHolds();
    ghost var table := surv.State();
    BeatFields(MachOf(v, h, table, Top), dead);
    hide Beat;
    ghost var b := Beat(MachOf(v, h, table, Top), dead);
    v' := v.(shut := v.shut || v.counter >= SHUTDOWN_TICK);
    h' := h.(swept := b.swept, peak := b.peak);
    if v.counter % SWEEP_TICKS == 0 {
      surv.CheckProcVitals(dead);
    }
  }

  lemma BeatFields(m: Mach, dead: set<int>)
    requires TableOk(m.table)
    ensures var b := Beat(m, dead);
            && b.table == (if m.counter % SWEEP_TICKS == 0 then SweepTable(m.table, dead) else m.table)
            && b.shut == (m.shut || m.counter >= SHUTDOWN_TICK)
  {
    hide SweepTable, WellFormed, DyingRecs;
  }

  /** surv_addExecCall, procindex_add or procindex_opencall_add. */
  method HandOver(surv: Surveiller, d: Delivery)
    requires SurvValid(surv)
    modifies SurvRepr(surv)
    ensures SurvValid(surv) && fresh(SurvRepr(surv) - old(SurvRepr(surv)))
    ensures TableOk(old(surv.State())) && surv.State() == Deliver(old(surv.State()), d)
  {
    hide SlotOk, AddExec, OpenAdd, Add, Consistent, DispatchAll;
    surv.TableOkHolds();
    match d
    case Replace(e) => surv.AddExecCall(e);
    case Insert(e) => surv.InsertDirectly(e);
    case Opened(o) => var _ := surv.procs.OpenCallAdd(o);
  }

  /** A pass in compare mode: hand over the earlier call; read on from its ring, or, if that is empty,
      hand over the other call too and leave the mode. */
  method CompareTurn(surv: Surveiller, v: Vars) returns (v': Vars, ghost ds: seq<Delivery>)
    requires SurvValid(surv) && v.held.Some?
    modifies SurvRepr(surv)
    ensures SurvValid(surv) && fresh(SurvRepr(surv) - old(SurvRepr(surv)))
    ensures TableOk(old(surv.State())) && surv.State() == DeliverAll(old(surv.State()), ds)
    ensures var t := TurnOf(v.cmdQ, v.openQ, v.held);
            ds == t.deliveries && !t.again && v' == v.(cmdQ := t.cmdQ, openQ := t.openQ, held := t.held)
  {
    hide SlotOk, Deliver, DeliverAll, Consistent, DispatchAll;
    surv.TableOkHolds();
    var p := v.held.value;
    var ecallFirst := AtMost(p.e.time, p.o.time);
    var first := if ecallFirst then Replace(p.e) else Opened(p.o);
    var second := if ecallFirst then Opened(p.o) else Replace(p.e);
    DeliverOne(surv.State(), first);
    DeliverTwo(surv.State(), first, second);
    HandOver(surv, first);
    var hasNext := (ecallFirst && v.cmdQ != []) || (!ecallFirst && v.openQ != []);
    if hasNext {
      ds := [first];
      v' := if ecallFirst then v.(held := Some(Pair(v.cmdQ[0], p.o)), cmdQ := v.cmdQ[1..])
            else v.(held := Some(Pair(p.e, v.openQ[0])), openQ := v.openQ[1..]);
    } else {
      HandOver(surv, second);
      ds := [first, second];
      v' := v.(held := None);
    }
  }

  /** A pass without comparison: pick up a pair and start over, or hand over the one call there is. */
  method IdleTurn(surv: Surveiller, v: Vars) returns (v': Vars, ghost ds: seq<Delivery>, again: bool)
    requires SurvValid(surv) && v.held.None?
    modifies SurvRepr(surv)
    ensures SurvValid(surv) && fresh(SurvRepr(surv) - old(SurvRepr(surv)))
    ensures TableOk(old(surv.State())) && surv.State() == DeliverAll(old(surv.State()), ds)
    ensures var t := TurnOf(v.cmdQ, v.openQ, v.held);
            ds == t.deliveries && again == t.again && v' == v.(cmdQ := t.cmdQ, openQ := t.openQ, held := t.held)
  {
    hide SlotOk, Deliver, DeliverAll, Consistent, DispatchAll;
    surv.TableOkHolds();
    DeliverNone(surv.State());
    var readyCalls := v.cmdQ != [];
    v', ds, again := v, [], false;
    if v.openQ != [] {
      if readyCalls {
        v' := v.(held := Some(Pair(v.cmdQ[0], v.openQ[0])), cmdQ := v.cmdQ[1..], openQ := v.openQ[1..]);
        again := true;
      } else {
        DeliverOne(surv.State(), Opened(v.openQ[0]));
        HandOver(surv, Opened(v.openQ[0]));
        v', ds := v.(openQ := v.openQ[1..]), [Opened(v.openQ[0])];
      }
    } else if readyCalls {
      DeliverOne(surv.State(), Insert(v.cmdQ[0]));
      HandOver(surv, Insert(v.cmdQ[0]));
      v', ds := v.(cmdQ := v.cmdQ[1..]), [Insert(v.cmdQ[0])];
    }
  }

  method DoTurn(surv: Surveiller, v: Vars) returns (v': Vars, ghost ds: seq<Delivery>, again: bool)
    requires SurvValid(surv)
    modifies SurvRepr(surv)
    ensures SurvValid(surv) && fresh(SurvRepr(surv) - old(SurvRepr(surv)))
    ensures TableOk(old(surv.State())) && surv.State() == DeliverAll(old(surv.State()), ds)
    ensures var t := TurnOf(v.cmdQ, v.openQ, v.held);
            ds == t.deliveries && again == t.again && v' == v.(cmdQ := t.cmdQ, openQ := t.openQ, held := t.held)
  {
    hide SlotOk, DeliverAll, Consistent, DispatchAll;
    if v.held.Some? {
      v', ds := CompareTurn(surv, v);
      again := false;
    } else {
      v', ds, again := IdleTurn(surv, v);
    }
  }

  /** The end of a pass: the exit condition, the final flush, the drain. */
  method ClosePass(surv: Surveiller, v: Vars) returns (v': Vars, dead: bool)
    requires SurvValid(surv)
    modifies SurvRepr(surv)
    ensures SurvValid(surv) && fresh(SurvRepr(surv) - old(SurvRepr(surv)))
    ensures TableOk(old(surv.State())) && v' == v.(counter := v.counter + 1)
    ensures dead == (v.shut && !v.openBusy && !v.execBusy && v.openQ == [] && v.cmdQ == [])
    ensures surv.State() == if dead then Drain(FlushTable(old(surv.State())))
                            else if v.counter % DRAIN_TICKS == 0 then Drain(old(surv.State())) else old(surv.State())
  {
    hide SlotOk, FlushTable, Consistent, DispatchAll;
    surv.TableOkHolds();
    dead := v.shut && !v.openBusy && !v.execBusy && v.openQ == [] && v.cmdQ == [];
    if dead {
      surv.FlushProcindex();
    }
    if dead || v.counter % DRAIN_TICKS == 0 {
      surv.DrainDispatchQueue();
    }
    v' := v.(counter := v.counter + 1);
  }

  /** A pass up to the exit condition. */
  method Work(surv: Surveiller, v: Vars, ghost h: History, deadPids: set<int>)
    returns (v': Vars, ghost h': History, again: bool)
    requires SurvValid(surv)
    modifies SurvRepr(surv)
    ensures SurvValid(surv) && fresh(SurvRepr(surv) - old(SurvRepr(surv)))
    ensures MachOk(MachOf(v, h, old(surv.State()), Top))
    ensures MachOf(v', h', surv.State(), if again then Top else Dead1)
            == Worked(MachOf(v, h, old(surv.State()), Top), deadPids)
  {
    hide WellFormed, Consistent, DispatchAll, Beat, DeliverAll, TurnOf, Worked;
    surv.TableOkHolds();
    WorkedIs(MachOf(v, h, surv.State(), Top), deadPids);
    var v1, h1 := DoBeat(surv, v, h, deadPids);
    ghost var ds;
    v', ds, again := DoTurn(surv, v1);
    h' := h1.(log := h1.log + ds,
              run := if again then [] else if v1.held.Some? then h1.run + ds else h1.run);
  }

  lemma WorkedIs(m: Mach, dead: set<int>)
    requires MachOk(m) && m.pc.Top?
    ensures var b := Beat(m, dead);
            var t := TurnOf(b.cmdQ, b.openQ, b.held);
            Worked(m, dead) ==
            b.(cmdQ := t.cmdQ, openQ := t.openQ, held := t.held, pc := if t.again then Top else Dead1,
               table := DeliverAll(b.table, t.deliveries), log := b.log + t.deliveries,
               run := if t.again then [] else if b.held.Some? then b.run + t.deliveries else b.run)
  {}

  /** One iteration of while(!dead). */
  method MainPass(surv: Surveiller, v: Vars, ghost h: History, deadPids: set<int>)
    returns (v': Vars, ghost h': History, dead: bool)
    requires SurvValid(surv)
    modifies SurvRepr(surv)
    ensures SurvValid(surv) && fresh(SurvRepr(surv) - old(SurvRepr(surv)))
    ensures MachOk(MachOf(v, h, old(surv.State()), Top))
    ensures MachOf(v', h', surv.State(), if dead then Halted else Top)
            == Pass(MachOf(v, h, old(surv.State()), Top), deadPids)
  {
    hide WellFormed, Consistent, DispatchAll, Worked, Pass, FlushTable, Drain;
    surv.TableOkHolds();
    PassIsWork(MachOf(v, h, surv.State(), Top), deadPids);
    var again;
    v', h', again := Work(surv, v, h, deadPids);
    dead := false;
    if !again {
      ghost var atDrain := v'.counter % DRAIN_TICKS == 0;
      v', dead := ClosePass(surv, v');
      h' := h'.(swept := if !dead && atDrain then 0 else h'.swept);
    }
  }

  /** The loop once shutting_down is set and both handlers have stopped: it ends with both rings empty, and
      the calls queued and in hand delivered as their stable merge, except the two calls of a pair it may
      still hold, which it does exactly when the last calls of both streams come into hand together. */
  method ShutdownLoop(surv: Surveiller, v: Vars, ghost h: History, deadPids: nat -> set<int>)
    returns (v': Vars, ghost h': History)
    requires SurvValid(surv) && v.shut && !v.openBusy && !v.execBusy
    modifies SurvRepr(surv)
    ensures SurvValid(surv)
    ensures v'.cmdQ == [] && v'.openQ == []
    ensures (h'.log, v'.held) == (h.log + ExitRun(v.cmdQ, v.openQ, v.held).0, ExitRun(v.cmdQ, v.openQ, v.held).1)
    ensures var (es, os) := WithHeld(v.cmdQ, v.openQ, v.held);
            && h.log <= h'.log
            && Uniform(h'.log[|h.log|..] + Due(v'.held)) == Merge(es, os)
            && (v'.held.Some? <==> EndsMixed(Merge(es, os)))
            && (SortedExecs(es) && SortedOpens(os) ==>
                  (v'.held.Some? <==> es != [] && os != [] && LastTwoMeet(es, os)))
  {
    ghost var merged := MergedAtExit(v.cmdQ, v.openQ, v.held, h.log);
    hide SlotOk, Consistent, DispatchAll, Pass, TurnOf, ExitRun, Load, WithHeld, Merge, LastTwoMeet,
      EndsMixed, Due, Uniform;
    v', h' := v, h;
    var dead, passes := false, 0;
    while !dead
      invariant SurvValid(surv) && fresh(SurvRepr(surv) - old(SurvRepr(surv)))
      invariant v'.shut && !v'.openBusy && !v'.execBusy
      invariant dead ==> v'.cmdQ == [] && v'.openQ == []
      invariant if dead then h'.log == h.log + ExitRun(v.cmdQ, v.openQ, v.held).0
                             && v'.held == ExitRun(v.cmdQ, v.openQ, v.held).1
                else h'.log + ExitRun(v'.cmdQ, v'.openQ, v'.held).0 == h.log + ExitRun(v.cmdQ, v.openQ, v.held).0
                     && ExitRun(v'.cmdQ, v'.openQ, v'.held).1 == ExitRun(v.cmdQ, v.openQ, v.held).1
      decreases !dead, Load(v'.cmdQ, v'.openQ, v'.held)
    {
      ghost var m := MachOf(v', h', surv.State(), Top);
      surv.TableOkHolds();
      ClosingPass(m, deadPids(passes));
      ClosingTurn(v'.cmdQ, v'.openQ, v'.held, h'.log);
      v', h', dead := MainPass(surv, v', h', deadPids(passes));
      passes := passes + 1;
    }
  }

  /** The log at the exit, as the merge. */
  lemma MergedAtExit(cmdQ: seq<Exec>, openQ: seq<OpenCall>, held: Option<Pair>, log: seq<Delivery>)
    returns (all: seq<Delivery>)
    ensures all == log + ExitRun(cmdQ, openQ, held).0 && log <= all
    ensures var (es, os) := WithHeld(cmdQ, openQ, held);
            var last := ExitRun(cmdQ, openQ, held).1;
            && Uniform(all[|log|..] + Due(last)) == Merge(es, os)
            && (last.Some? <==> EndsMixed(Merge(es, os)))
            && (SortedExecs(es) && SortedOpens(os) ==>
                  (last.Some? <==> es != [] && os != [] && LastTwoMeet(es, os)))
  {
    hide ExitRun, WithHeld, Merge, LastTwoMeet, EndsMixed, Due, Uniform;
    all := log + ExitRun(cmdQ, openQ, held).0;
    assert all[|log|..] == ExitRun(cmdQ, openQ, held).0;
    ExitRunMerges(cmdQ, openQ, held);
    PairMixedIff(cmdQ, openQ, held);
    var (es, os) := WithHeld(cmdQ, openQ, held);
    if SortedExecs(es) && SortedOpens(os) {
      PairDroppedIff(cmdQ, openQ, held);
    }
  }

  /** One turn towards the exit: the load falls, and what is still to be delivered is what is left. */
  lemma ClosingTurn(cmdQ: seq<Exec>, openQ: seq<OpenCall>, held: Option<Pair>, log: seq<Delivery>)
    ensures var t := TurnOf(cmdQ, openQ, held);
            if !t.again && t.cmdQ == [] && t.openQ == [] then ExitRun(cmdQ, openQ, held) == (t.deliveries, t.held)
            else
              && Load(t.cmdQ, t.openQ, t.held) < Load(cmdQ, openQ, held)
              && log + t.deliveries + ExitRun(t.cmdQ, t.openQ, t.held).0 == log + ExitRun(cmdQ, openQ, held).0
              && ExitRun(t.cmdQ, t.openQ, t.held).1 == ExitRun(cmdQ, openQ, held).1
  {
    var t := TurnOf(cmdQ, openQ, held);
    TurnLightensOrEnds(cmdQ, openQ, held);
    ExitRunTurn(cmdQ, openQ, held);
    hide TurnOf, ExitRun, Load;
    if t.again || t.cmdQ != [] || t.openQ != [] {
      var rest := ExitRun(t.cmdQ, t.openQ, t.held).0;
      assert log + t.deliveries + rest == log + (t.deliveries + rest);
    }
  }

  lemma ExitRunTurn(cmdQ: seq<Exec>, openQ: seq<OpenCall>, held: Option<Pair>)
    ensures var t := TurnOf(cmdQ, openQ, held);
            ExitRun(cmdQ, openQ, held) ==
            if !t.again && t.cmdQ == [] && t.openQ == [] then (t.deliveries, t.held)
            else var (rest, last) := ExitRun(t.cmdQ, t.openQ, t.held); (t.deliveries + rest, last)
  {}

  lemma TurnLightensOrEnds(cmdQ: seq<Exec>, openQ: seq<OpenCall>, held: Option<Pair>)
    ensures var t := TurnOf(cmdQ, openQ, held);
            t.again || t.cmdQ != [] || t.openQ != [] ==> Load(t.cmdQ, t.openQ, t.held) < Load(cmdQ, openQ, held)
  {}

  /** A pass is its turn and then its end. */
  lemma PassIsWork(m: Mach, dead: set<int>)
    requires MachOk(m) && m.pc.Top?
    ensures var w := Worked(m, dead);
            && (w.pc.Top? ==> Pass(m, dead) == w)
            && (w.pc.Dead1? && ExitCondition(w) ==>
                  Pass(m, dead) == w.(table := Drain(FlushTable(w.table)), counter := w.counter + 1, pc := Halted))
            && (w.pc.Dead1? && !ExitCondition(w) ==>
                  Pass(m, dead) == w.(table := if w.counter % DRAIN_TICKS == 0 then Drain(w.table) else w.table,
                                      swept := if w.counter % DRAIN_TICKS == 0 then 0 else w.swept,
                                      counter := w.counter + 1, pc := Top))
  {
    hide Pass, FlushTable, WellFormed;
    PassDoesItsTurn(m, dead);
    if Worked(m, dead).pc.Dead1? {
      FinishDecides(Worked(m, dead), dead);
    }
  }
}
