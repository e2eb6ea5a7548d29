/** Where everything is when main has left its loop. */
module EndToEnd {
  import opened Basics
  import opened RingBuffers
  import opened ProcessIndex
  import opened RecordTable
  import opened OpenConservation
  import opened EventLoop
  import opened MergeOrder
  import opened Daemon
  import opened Shutdown
  import opened DispatchBound
  import opened Attribution
  import opened TableSteps

  /** After the final flush and drain. */
  ghost predicate CleanedUp(m: Mach) {
    m.pc.Halted? ==> m.table.dispatch == [] && m.table.ix.slots == EmptySlots(|m.table.ix.slots|)
  }

  lemma MainCleansUp(m: Mach, dead: set<int>)
    requires MachOk(m) && CleanedUp(m)
    ensures CleanedUp(MainStep(m, dead))
  {
    hide WellFormed, AtTop, AtHasNext, AtReadNext, AtIdle, AtTail;
    if Idle(m.pc) {
      IdleGoesOn(m);
    } else if m.pc.Top? {
      TopGoesOn(m, dead);
    }
  }

  lemma {:induction false} RunCleansUp(w: World, steps: seq<Step>)
    requires MachOk(w.m) && CleanedUp(w.m)
    ensures CleanedUp(Run(w, steps).m)
  {
    if steps != [] {
      RunCleansUp(w, steps[..|steps| - 1]);
      var v, s := Run(w, steps[..|steps| - 1]), steps[|steps| - 1];
      ApplyCleansUp(v, s);
    }
  }

  lemma ApplyCleansUp(w: World, s: Step)
    requires MachOk(w.m) && CleanedUp(w.m)
    ensures CleanedUp(Apply(w, s).m)
  {
    hide MainStep, HandlerStep, MachOk;
    if s.Main? {
      MainCleansUp(w.m, s.dead);
    }
  }

  /** However the threads interleave: when main has left its loop the table and the dispatch ring are
      empty, every open call the handler ever wrote has been handed over, except one that may be in hand,
      and the open calls in the archived records are exactly those the table accepted, but for records a
      full dispatch ring refused. */
  lemma EverythingIsAccountedFor(ix: Index, steps: seq<Step>)
    requires WellFormed(ix) && Run(Start(ix), steps).m.pc.Halted?
    ensures var w := Run(Start(ix), steps);
            && w.m.table.dispatch == [] && (forall p :: w.m.table.ix.At(p).None?)
            && w.openH.written == Opens(w.m.log) + OpenInHand(w.m)
            && w.execH.written == Execs(w.m.log) + ExecInHand(w.m)
            && RecCalls(w.m.table.archived) + RecCalls(w.m.table.lost)
               == IndexCalls(ix.slots) + Accepted(w.m.log, ix.maxPid)
  {
    hide WellFormed, Execs, Opens, ExecInHand, OpenInHand, Accepted, IndexCalls, RecCalls;
    var m := Run(Start(ix), steps).m;
    RunCleansUp(Start(ix), steps);
    OpenCallsSitInOneBuffer(ix, steps);
    NothingLeft(m);
    assert steps + [] == steps;
    hide Run;
    ExitIsSafe(ix, steps, []);
  }

  lemma NothingLeft(m: Mach)
    requires CleanedUp(m) && m.pc.Halted?
    ensures m.table.dispatch == [] && (forall p :: m.table.ix.At(p).None?)
    ensures AllCalls(m.table) == RecCalls(m.table.archived) + RecCalls(m.table.lost)
  {
    NoSlotsNoCalls(|m.table.ix.slots|);
    assert RecCalls([]) == multiset{};
  }

  // ----- The lives of the processes, over every run -----

  /** What happens to the records in a run. */
  function RunTale(ix: Index, steps: seq<Step>): seq<Occurrence>
    requires WellFormed(ix)
  {
    if steps == [] then []
    else
      var front, s := steps[..|steps| - 1], steps[|steps| - 1];
      RunTale(ix, front) + if s.Main? then StepTale(Run(Start(ix), front).m, s.dead) else []
  }

  /** The calls handed over in a tale. */
  function HandedIn(xs: seq<Occurrence>): seq<Delivery> {
    if xs == [] then []
    else HandedIn(xs[..|xs| - 1]) + if xs[|xs| - 1].Handed? then [xs[|xs| - 1].d] else []
  }

  lemma HandedInSnoc(xs: seq<Occurrence>, x: Occurrence)
    ensures HandedIn(xs + [x]) == HandedIn(xs) + if x.Handed? then [x.d] else []
  {
    assert (xs + [x])[..|xs|] == xs;
  }

  lemma HandedInStep(xs: seq<Occurrence>, m: Mach, dead: set<int>)
    requires MachOk(m)
    ensures HandedIn(xs + StepTale(m, dead)) == HandedIn(xs) + AsSeq(HandedBy(m))
  {
    var ys, d := xs + SweepTale(m, dead), HandedBy(m);
    TaleParts(m, dead, xs);
    if Sweeps(m) {
      HandedInSnoc(xs, SweepOf(m.table.ix, dead));
    } else {
      assert ys == xs;
    }
    hide HandedBy, HandedIn, WellFormed;
    if d.Some? {
      assert Handeds([d.value]) == [Handed(d.value)];
      HandedInSnoc(ys, Handed(d.value));
    } else {
      assert Handeds([]) == [] && ys + [] == ys;
    }
  }

  lemma ApplyLogs(w: World, s: Step)
    requires MachOk(w.m)
    ensures Apply(w, s).m.log == if s.Main? then w.m.log + AsSeq(HandedBy(w.m)) else w.m.log
  {
    hide MainStep, HandlerStep, MachOk, HandedBy;
    if s.Main? {
      StepLogs(w.m, s.dead);
    }
  }

  lemma TaleSnoc(ix: Index, steps: seq<Step>)
    requires WellFormed(ix) && steps != []
    ensures var front, s := steps[..|steps| - 1], steps[|steps| - 1];
            RunTale(ix, steps) ==
            if s.Main? then RunTale(ix, front) + StepTale(Run(Start(ix), front).m, s.dead) else RunTale(ix, front)
  {
    hide WellFormed, Run, StepTale;
    assert RunTale(ix, steps[..|steps| - 1]) + [] == RunTale(ix, steps[..|steps| - 1]);
  }

  lemma EmptyRun(ix: Index)
    requires WellFormed(ix)
    ensures Run(Start(ix), []).m.log == [] && RunTale(ix, []) == [] && HandedIn([]) == [] && Handeds([]) == []
  {}

  /** The tale tells of the calls exactly what the log does. */
  lemma {:induction false} TaleIsLog(ix: Index, steps: seq<Step>)
    requires WellFormed(ix)
    ensures HandedIn(RunTale(ix, steps)) == Run(Start(ix), steps).m.log
    decreases |steps|
  {
    hide WellFormed, Run, RunTale, HandedIn, StepTale, HandedBy, Apply;
    if steps == [] {
      EmptyRun(ix);
    } else {
      var front, s := steps[..|steps| - 1], steps[|steps| - 1];
      var w := Run(Start(ix), front);
      TaleIsLog(ix, front);
      RunSnoc(Start(ix), steps);
      TaleSnoc(ix, steps);
      ApplyLogs(w, s);
      HandedInStep(RunTale(ix, front), w.m, if s.Main? then s.dead else {});
    }
  }

  lemma ApplySettles(w: World, s: Step, start: Option<Rec>, xs: seq<Occurrence>, p: int)
    requires MachOk(w.m) && w.m.table.ix.Accepts(p) && Bounded(w.m) && Safe(Apply(w, s).m)
    requires Safe(w.m) ==> Settled(w.m, [], start, xs, p)
    ensures Safe(w.m) && Bounded(Apply(w, s).m)
    ensures Settled(Apply(w, s).m, [], start, xs + if s.Main? then StepTale(w.m, s.dead) else [], p)
  {
    hide MainStep, HandlerStep, MachOk, StepTale, FlushTable;
    if s.Main? {
      SafeBefore(w.m, s.dead);
      StepSettles(w.m, s.dead, [], start, xs, p);
    } else {
      assert xs + [] == xs;
    }
  }

  lemma {:induction false} RunSettles(ix: Index, steps: seq<Step>, p: int)
    requires WellFormed(ix) && ix.Accepts(p) && Safe(Run(Start(ix), steps).m)
    ensures var m := Run(Start(ix), steps).m;
            Bounded(m) && Settled(m, [], ix.At(p), RunTale(ix, steps), p)
    decreases |steps|
  {
    RunBounded(Start(ix), steps);
    if steps == [] {
      StartSettled(ix, p);
    } else {
      var front, s := steps[..|steps| - 1], steps[|steps| - 1];
      var w := Run(Start(ix), front);
      RunSnoc(Start(ix), steps);
      RunBounded(Start(ix), front);
      hide Bounded, Settled, WellFormed, Apply, Run, Safe, StepTale;
      if Safe(w.m) {
        RunSettles(ix, front, p);
      }
      ApplySettles(w, s, ix.At(p), RunTale(ix, front), p);
    }
  }

  lemma StartSettled(ix: Index, p: int)
    requires WellFormed(ix)
    ensures Settled(Start(ix).m, [], ix.At(p), [], p)
  {
    assert GoneOf([], p) == [];
  }

  /** Over every interleaving, whatever the sweeps find dead, as long as no record is lost and main has not left
      its loop: the records of every process, those sent off and then the one present, are exactly the
      generations of its life, in order, each once and with exactly its open calls. */
  lemma RecordsAreTheGenerations(ix: Index, steps: seq<Step>, p: int)
    requires WellFormed(ix) && ix.Accepts(p)
    requires var m := Run(Start(ix), steps).m; Safe(m) && !m.pc.Halted?
    ensures var m, l := Run(Start(ix), steps).m, LifeOf(ix.At(p), RunTale(ix, steps), p);
            && m.table.lost == []
            && GoneOf(m.table.archived + m.table.dispatch, p) == l.closed
            && Present(m.table.ix, p) == l.current
            && HandedIn(RunTale(ix, steps)) == m.log
  {
    hide WellFormed, GoneOf, Present, LifeOf, RunTale, Run;
    var l := LifeOf(ix.At(p), RunTale(ix, steps), p);
    RunSettles(ix, steps, p);
    TaleIsLog(ix, steps);
    assert [] + l.closed == l.closed;
  }

  /** No sweep of this run finds the process dead. */
  predicate SparedIn(steps: seq<Step>, p: int) {
    forall i :: 0 <= i < |steps| && steps[i].Main? ==> p !in steps[i].dead
  }

  /** The life of a process that no sweep finds dead is what the log alone tells. */
  lemma {:induction false} SparedLife(ix: Index, steps: seq<Step>, p: int)
    requires WellFormed(ix) && SparedIn(steps, p)
    ensures LifeOf(ix.At(p), RunTale(ix, steps), p) ==
            LifeOf(ix.At(p), Handeds(Run(Start(ix), steps).m.log), p)
    decreases |steps|
  {
    hide WellFormed, Run, RunTale, LifeOf, StepTale, HandedBy, Apply;
    if steps == [] {
      EmptyRun(ix);
    } else {
      var front, s := steps[..|steps| - 1], steps[|steps| - 1];
      var w, xs := Run(Start(ix), front), RunTale(ix, front);
      SparedLife(ix, front, p);
      RunSnoc(Start(ix), steps);
      TaleSnoc(ix, steps);
      ApplyLogs(w, s);
      if s.Main? {
        SparedStep(ix.At(p), xs, w.m, s.dead, p);
        SameLifeAppended(ix.At(p), xs, w.m.log, HandedBy(w.m), p);
      }
    }
  }

  lemma SameLifeAppended(start: Option<Rec>, xs: seq<Occurrence>, ds: seq<Delivery>, d: Option<Delivery>, p: int)
    requires LifeOf(start, xs, p) == LifeOf(start, Handeds(ds), p)
    ensures LifeOf(start, xs + Handeds(AsSeq(d)), p) == LifeOf(start, Handeds(ds + AsSeq(d)), p)
  {
    if d.Some? {
      assert Handeds([d.value]) == [Handed(d.value)];
      HandedsSnoc(ds, d.value);
      LifeSnoc(start, xs, Handed(d.value), p);
      LifeSnoc(start, Handeds(ds), Handed(d.value), p);
    } else {
      assert Handeds([]) == [] && xs + [] == xs && ds + [] == ds;
    }
  }

  /** Over the same runs, and through the exit: every open call handed over sits in the record of the
      generation that was present then, or that it began: that of the latest replacement, or of the record at
      the start, or, if the process was unknown or a sweep had taken its record, of an insertion or a
      placeholder; together with exactly the other open calls of that generation. When main has left its loop
      that record has been archived, or refused by a full ring. */
  lemma EveryOpenCallHasItsRecord(ix: Index, steps: seq<Step>, j: nat) returns (r: Rec)
    requires WellFormed(ix) && Safe(Run(Start(ix), steps).m)
    requires var xs := RunTale(ix, steps); j < |xs| && xs[j].Handed? && xs[j].d.Opened? && ix.Accepts(xs[j].d.o.pid)
    ensures var m, xs := Run(Start(ix), steps).m, RunTale(ix, steps);
            var p := xs[j].d.o.pid;
            var i := LastStart(ix.At(p), xs, j + 1, p);
            && xs[j].d.o in r.calls && r.pid == p
            && Born(ix.At(p), xs, i, p) && GenOf(r) == GenerationFrom(ix.At(p), xs, i, p)
            && if m.pc.Halted? then r in m.table.archived + m.table.lost
               else m.table.ix.At(r.pid) == Some(r) || r in m.table.archived + m.table.dispatch
  {
    hide WellFormed, GenerationFrom, LastStart, Bounded, Run, RunTale, Settled, Safe;
    var xs := RunTale(ix, steps);
    RunSettles(ix, steps, xs[j].d.o.pid);
    r := SettledCallHasItsRecord(Run(Start(ix), steps).m, [], ix.At(xs[j].d.o.pid), xs, j);
  }

  /** The same by the log alone, for a process that no sweep finds dead, whatever happens to others. */
  lemma EveryCallOfSparedProcess(ix: Index, steps: seq<Step>, j: nat) returns (r: Rec)
    requires WellFormed(ix) && Safe(Run(Start(ix), steps).m)
    requires var log := Run(Start(ix), steps).m.log;
             j < |log| && log[j].Opened? && ix.Accepts(log[j].o.pid) && SparedIn(steps, log[j].o.pid)
    ensures var m := Run(Start(ix), steps).m;
            var p, xs := m.log[j].o.pid, Handeds(m.log);
            var i := LastStart(ix.At(p), xs, j + 1, p);
            && m.log[j].o in r.calls && r.pid == p
            && Born(ix.At(p), xs, i, p) && GenOf(r) == GenerationFrom(ix.At(p), xs, i, p)
            && if m.pc.Halted? then r in m.table.archived + m.table.lost
               else m.table.ix.At(r.pid) == Some(r) || r in m.table.archived + m.table.dispatch
  {
    hide WellFormed, GenerationFrom, LastStart, Bounded, Run, RunTale, Settled, Safe, LifeOf;
    var m := Run(Start(ix), steps).m;
    var p := m.log[j].o.pid;
    RunSettles(ix, steps, p);
    SparedLife(ix, steps, p);
    SettledWithoutSweeps(m, [], ix.At(p), RunTale(ix, steps), m.log, p);
    r := SettledCallHasItsRecord(m, [], ix.At(p), Handeds(m.log), j);
  }
}
