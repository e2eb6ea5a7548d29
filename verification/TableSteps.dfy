/** One step of main as the table sees it: a sweep, a delivery, a drain, or the final flush. */
module TableSteps {
  import opened Basics
  import opened RingBuffers
  import opened ProcessIndex
  import opened RecordTable
  import opened EventLoop
  import opened Attribution
  import opened DispatchBound

  predicate Sweeps(m: Mach) {
    m.pc.Top? && m.counter % SWEEP_TICKS == 0
  }

  /** The table behind the sweep, if this step makes one. */
  function SweptFirst(m: Mach, dead: set<int>): (t: Table)
    requires MachOk(m)
    ensures TableOk(t) && t.ix.maxPid == m.table.ix.maxPid
  {
    SweepTableOk(m.table, dead);
    if Sweeps(m) then SweepTable(m.table, dead) else m.table
  }

  /** The call this step hands over, if any. */
  function HandedBy(m: Mach): Option<Delivery>
    requires MachOk(m)
  {
    match m.pc
    case Top => if m.held.Some? then Some(First(m.held.value)) else None
    case HasNext(execFirst) =>
      if (execFirst && m.cmdQ != []) || (!execFirst && m.openQ != []) then None
      else Some(if execFirst then Opened(m.held.value.o) else Replace(m.held.value.e))
    case ReadOpen => Some(Opened(m.openQ[0]))
    case ReadCmd => Some(Insert(m.cmdQ[0]))
    case _ => None
  }

  function Delivered(t: Table, d: Option<Delivery>): Table
    requires TableOk(t)
  {
    if d.Some? then Deliver(t, d.value) else t
  }

  function AsSeq<T>(x: Option<T>): seq<T> {
    if x.Some? then [x.value] else []
  }

  /** What a step does to the table and the log. */
  ghost predicate StepsTo(m: Mach, n: Mach, dead: set<int>) {
    && MachOk(m)
    && n.log == m.log + AsSeq(HandedBy(m))
    && n.table == (if m.pc.Exit? then Drain(FlushTable(m.table))
                   else if m.pc.Tail? && m.counter % DRAIN_TICKS == 0 then Drain(m.table)
                   else Delivered(SweptFirst(m, dead), HandedBy(m)))
    && (n.pc.Halted? <==> m.pc.Exit? || m.pc.Halted?)
    && m.peak <= n.peak
  }

  lemma TopStepsTo(m: Mach, dead: set<int>)
    requires MachOk(m) && m.pc.Top?
    ensures StepsTo(m, AtTop(m, dead), dead)
  {
    hide WellFormed, Deliver, SweepTable, DyingRecs;
    assert m.log + [] == m.log;
  }

  lemma HasNextStepsTo(m: Mach, dead: set<int>)
    requires MachOk(m) && m.pc.HasNext?
    ensures StepsTo(m, AtHasNext(m, m.pc.execFirst), dead)
  {
    hide WellFormed, Deliver, SweepTable;
    assert m.log + [] == m.log;
  }

  lemma IdleStepsTo(m: Mach, dead: set<int>)
    requires MachOk(m) && Idle(m.pc)
    ensures StepsTo(m, AtIdle(m), dead)
  {
    hide WellFormed, Deliver, SweepTable;
    assert m.log + [] == m.log;
  }

  lemma EndStepsTo(m: Mach, dead: set<int>)
    requires MachOk(m)
    ensures m.pc.Exit? ==> StepsTo(m, AtExit(m), dead)
    ensures m.pc.Tail? ==> StepsTo(m, AtTail(m), dead)
    ensures Checks(m.pc) ==> StepsTo(m, AtCheck(m), dead)
    ensures m.pc.ReadNext? ==> StepsTo(m, AtReadNext(m, m.pc.execFirst), dead)
    ensures m.pc.Halted? ==> StepsTo(m, m, dead)
  {
    hide WellFormed, FlushTable, SweepTable;
    assert m.log + [] == m.log;
  }

  lemma StepOnTable(m: Mach, dead: set<int>)
    requires MachOk(m)
    ensures StepsTo(m, MainStep(m, dead), dead)
  {
    EndStepsTo(m, dead);
    if Idle(m.pc) {
      IdleStepsTo(m, dead);
    } else if m.pc.Top? {
      TopStepsTo(m, dead);
    } else if m.pc.HasNext? {
      HasNextStepsTo(m, dead);
    }
    hide StepsTo, MachOk, AtTop, AtHasNext, AtReadNext, AtIdle, AtExit, AtTail, AtCheck;
  }

  lemma StepLogs(m: Mach, dead: set<int>)
    requires MachOk(m)
    ensures MainStep(m, dead).log == m.log + AsSeq(HandedBy(m)) && m.peak <= MainStep(m, dead).peak
  {
    hide MainStep;
    StepOnTable(m, dead);
  }

  // ----- What is lost stays lost -----

  lemma SweptFirstLoses(m: Mach, dead: set<int>)
    requires MachOk(m)
    ensures m.table.lost <= SweptFirst(m, dead).lost
  {
    hide WellFormed, DyingRecs;
  }

  lemma StepLoses(m: Mach, dead: set<int>)
    requires MachOk(m)
    ensures m.table.lost <= MainStep(m, dead).table.lost
  {
    StepOnTable(m, dead);
    SweptFirstLoses(m, dead);
    DeliveredLoses(SweptFirst(m, dead), HandedBy(m));
    hide MainStep, WellFormed, SweptFirst, Delivered, TrackedRecs, HandedBy;
  }

  /** Nothing has been lost before the final flush. */
  ghost predicate Safe(m: Mach) {
    m.peak <= 512 || m.table.lost == []
  }

  lemma SafeBefore(m: Mach, dead: set<int>)
    requires MachOk(m) && Safe(MainStep(m, dead))
    ensures Safe(m)
  {
    StepOnTable(m, dead);
    StepLoses(m, dead);
  }

  // ----- The lives of the processes go on -----

  /** What one step does to the records. */
  function StepTale(m: Mach, dead: set<int>): seq<Occurrence>
    requires MachOk(m)
  {
    SweepTale(m, dead) + Handeds(AsSeq(HandedBy(m)))
  }

  /** The table follows the life of p, and no sweep has destroyed open calls. */
  ghost predicate Tells(t: Table, earlier: seq<Generation>, start: Option<Rec>, xs: seq<Occurrence>, p: int) {
    Matches(t, earlier, LifeOf(start, xs, p), p) && DropsNoCalls(start, xs, p)
  }

  lemma DropsNoCallsSnoc(start: Option<Rec>, xs: seq<Occurrence>, x: Occurrence, p: int)
    requires DropsNoCalls(start, xs, p)
    requires x.Swept? && p in x.dropped && LifeOf(start, xs, p).current.Some? ==>
               LifeOf(start, xs, p).current.value.calls == []
    ensures DropsNoCalls(start, xs + [x], p)
  {
    var ys := xs + [x];
    forall k | 0 <= k < |ys| && ys[k].Swept? && p in ys[k].dropped && p !in ys[k].taken
      ensures var l := LifeOf(start, ys[..k], p); l.current.Some? ==> l.current.value.calls == []
    {
      assert k < |xs| ==> ys[..k] == xs[..k] && ys[k] == xs[k];
      assert k == |xs| ==> ys[..k] == xs;
    }
  }

  lemma SweepTells(t: Table, earlier: seq<Generation>, start: Option<Rec>, xs: seq<Occurrence>, p: int, dead: set<int>)
    requires TableOk(t) && t.ix.Accepts(p) && Tells(t, earlier, start, xs, p) && SweepTable(t, dead).lost == t.lost
    ensures Tells(SweepTable(t, dead), earlier, start, xs + [SweepOf(t.ix, dead)], p)
  {
    hide TableOk, SweepTable, SweepOf, Matches, LifeOf, DropsNoCalls;
    var x := SweepOf(t.ix, dead);
    SweepMatches(t, earlier, LifeOf(start, xs, p), dead, p);
    LifeSnoc(start, xs, x, p);
    TellsCurrent(t, earlier, start, xs, p);
    DropsNoCallsSnoc(start, xs, x, p);
  }

  lemma TellsCurrent(t: Table, earlier: seq<Generation>, start: Option<Rec>, xs: seq<Occurrence>, p: int)
    requires Tells(t, earlier, start, xs, p)
    ensures Matches(t, earlier, LifeOf(start, xs, p), p) && DropsNoCalls(start, xs, p)
  {}

  lemma DeliverTells(t: Table, earlier: seq<Generation>, start: Option<Rec>, xs: seq<Occurrence>, p: int, d: Delivery)
    requires TableOk(t) && t.ix.Accepts(p) && Tells(t, earlier, start, xs, p) && Deliver(t, d).lost == t.lost
    ensures Tells(Deliver(t, d), earlier, start, xs + [Handed(d)], p)
  {
    hide TableOk, Deliver, Matches, LifeOf, DropsNoCalls;
    DeliverMatches(t, earlier, LifeOf(start, xs, p), d, p);
    LifeSnoc(start, xs, Handed(d), p);
    DropsNoCallsSnoc(start, xs, Handed(d), p);
  }

  /** What a sweep at the head of the loop does, if there is one. */
  function SweepTale(m: Mach, dead: set<int>): seq<Occurrence> {
    if Sweeps(m) then [SweepOf(m.table.ix, dead)] else []
  }

  lemma SweptTells(m: Mach, dead: set<int>, earlier: seq<Generation>, start: Option<Rec>, xs: seq<Occurrence>, p: int)
    requires MachOk(m) && m.table.ix.Accepts(p) && Tells(m.table, earlier, start, xs, p)
    requires SweptFirst(m, dead).lost == m.table.lost
    ensures Tells(SweptFirst(m, dead), earlier, start, xs + SweepTale(m, dead), p)
  {
    hide SweepOf, SweepTable, WellFormed, Tells;
    if Sweeps(m) {
      SweepTells(m.table, earlier, start, xs, p, dead);
    } else {
      assert xs + [] == xs;
    }
  }

  lemma DeliveredTells(t: Table, d: Option<Delivery>, earlier: seq<Generation>, start: Option<Rec>, xs: seq<Occurrence>,
                       p: int)
    requires TableOk(t) && t.ix.Accepts(p) && Tells(t, earlier, start, xs, p) && Delivered(t, d).lost == t.lost
    ensures Tells(Delivered(t, d), earlier, start, xs + Handeds(AsSeq(d)), p)
  {
    hide Deliver, WellFormed, Tells;
    if d.Some? {
      DeliverTells(t, earlier, start, xs, p, d.value);
      assert Handeds([d.value]) == [Handed(d.value)];
    } else {
      assert Handeds([]) == [] && xs + [] == xs;
    }
  }

  lemma DeliveredLoses(t: Table, d: Option<Delivery>)
    requires TableOk(t)
    ensures t.lost <= Delivered(t, d).lost
  {
    hide Deliver, WellFormed;
    if d.Some? {
      LostOnlyGrowsOnce(t, d.value);
    }
  }

  lemma StepTells(m: Mach, dead: set<int>, earlier: seq<Generation>, start: Option<Rec>, xs: seq<Occurrence>, p: int)
    requires MachOk(m) && m.table.ix.Accepts(p) && Tells(m.table, earlier, start, xs, p)
    requires !m.pc.Exit? && MainStep(m, dead).table.lost == m.table.lost
    ensures Tells(MainStep(m, dead).table, earlier, start, xs + StepTale(m, dead), p)
  {
    StepOnTable(m, dead);
    var t, d := SweptFirst(m, dead), HandedBy(m);
    if m.pc.Tail? && m.counter % DRAIN_TICKS == 0 {
      NothingTold(m, dead, xs);
      hide MainStep, WellFormed, Tells, StepTale;
      DrainTells(m.table, earlier, start, xs, p);
    } else {
      TaleParts(m, dead, xs);
      SweptFirstLoses(m, dead);
      DeliveredLoses(t, d);
      hide MainStep, WellFormed, Tells, SweptFirst, Delivered, SweepTale, StepTale, HandedBy, Handeds;
      SweptTells(m, dead, earlier, start, xs, p);
      DeliveredTells(t, d, earlier, start, xs + SweepTale(m, dead), p);
    }
  }

  lemma TaleParts(m: Mach, dead: set<int>, xs: seq<Occurrence>)
    requires MachOk(m)
    ensures xs + StepTale(m, dead) == xs + SweepTale(m, dead) + Handeds(AsSeq(HandedBy(m)))
  {}

  lemma NothingTold(m: Mach, dead: set<int>, xs: seq<Occurrence>)
    requires MachOk(m) && m.pc.Tail?
    ensures xs + StepTale(m, dead) == xs
  {
    assert Handeds([]) == [];
  }

  lemma DrainTells(t: Table, earlier: seq<Generation>, start: Option<Rec>, xs: seq<Occurrence>, p: int)
    requires Tells(t, earlier, start, xs, p)
    ensures Tells(Drain(t), earlier, start, xs, p)
  {
    DrainMatches(t, earlier, LifeOf(start, xs, p), p);
  }

  /** The same, through the final flush and drain. */
  ghost predicate Settled(m: Mach, earlier: seq<Generation>, start: Option<Rec>, xs: seq<Occurrence>, p: int) {
    if m.pc.Halted? then
      exists t :: TableOk(t) && m.table == Drain(FlushTable(t)) && Tells(t, earlier, start, xs, p)
    else Tells(m.table, earlier, start, xs, p)
  }

  lemma ExitSettles(m: Mach, dead: set<int>, earlier: seq<Generation>, start: Option<Rec>, xs: seq<Occurrence>, p: int)
    requires MachOk(m) && (m.pc.Exit? || m.pc.Halted?) && Settled(m, earlier, start, xs, p)
    ensures Settled(MainStep(m, dead), earlier, start, xs + StepTale(m, dead), p)
  {
    hide WellFormed, FlushTable, Tells;
    StepOnTable(m, dead);
    assert xs + StepTale(m, dead) == xs;
    if m.pc.Exit? {
      assert TableOk(m.table) && Tells(m.table, earlier, start, xs, p);
    }
  }

  /** Every step of main, whatever it finds dead, keeps the table in step with the life of every process. */
  lemma StepSettles(m: Mach, dead: set<int>, earlier: seq<Generation>, start: Option<Rec>, xs: seq<Occurrence>, p: int)
    requires MachOk(m) && m.table.ix.Accepts(p) && Bounded(m) && Safe(MainStep(m, dead))
    requires Settled(m, earlier, start, xs, p)
    ensures Bounded(MainStep(m, dead)) && Safe(m)
    ensures Settled(MainStep(m, dead), earlier, start, xs + StepTale(m, dead), p)
  {
    MainBounded(m, dead);
    SafeBefore(m, dead);
    StepOnTable(m, dead);
    if m.pc.Exit? || m.pc.Halted? {
      ExitSettles(m, dead, earlier, start, xs, p);
    } else {
      hide MainStep, StepTale, WellFormed, Tells;
      StepTells(m, dead, earlier, start, xs, p);
    }
  }

  // ----- A process that no sweep touches -----

  lemma SparedStep(start: Option<Rec>, xs: seq<Occurrence>, m: Mach, dead: set<int>, p: int)
    requires MachOk(m) && p !in dead
    ensures LifeOf(start, xs + StepTale(m, dead), p) == LifeOf(start, xs + Handeds(AsSeq(HandedBy(m))), p)
  {
    var ys, d := xs + SweepTale(m, dead), HandedBy(m);
    assert xs + StepTale(m, dead) == ys + Handeds(AsSeq(d));
    SparedSweep(start, xs, m, dead, p);
    hide SweepTale, HandedBy, StepTale, WellFormed, NextLife;
    if d.Some? {
      assert Handeds([d.value]) == [Handed(d.value)];
      LifeSnoc(start, xs, Handed(d.value), p);
      LifeSnoc(start, ys, Handed(d.value), p);
    } else {
      assert Handeds([]) == [] && xs + [] == xs && ys + [] == ys;
    }
  }

  lemma SparedSweep(start: Option<Rec>, xs: seq<Occurrence>, m: Mach, dead: set<int>, p: int)
    requires p !in dead
    ensures LifeOf(start, xs + SweepTale(m, dead), p) == LifeOf(start, xs, p)
  {
    if Sweeps(m) {
      LifeSnoc(start, xs, SweepOf(m.table.ix, dead), p);
      SweepOfSets(m.table.ix, dead, p);
    } else {
      assert xs + [] == xs;
    }
  }

  /** A log without sweeps tells the same as a tale that leads to the same life. */
  lemma SettledWithoutSweeps(m: Mach, earlier: seq<Generation>, start: Option<Rec>, xs: seq<Occurrence>,
                             ds: seq<Delivery>, p: int)
    requires Settled(m, earlier, start, xs, p) && LifeOf(start, xs, p) == LifeOf(start, Handeds(ds), p)
    ensures Settled(m, earlier, start, Handeds(ds), p)
  {
    hide LifeOf, FlushTable, Drain, Matches, WellFormed;
    assert DropsNoCalls(start, Handeds(ds), p);
    if m.pc.Halted? {
      var t :| TableOk(t) && m.table == Drain(FlushTable(t)) && Tells(t, earlier, start, xs, p);
      assert Tells(t, earlier, start, Handeds(ds), p);
    }
  }

  // ----- The final flush keeps every record that has open calls -----

  lemma FlushKeepsRecord(t: Table, r: Rec)
    requires TableOk(t) && r.calls != [] && Recorded(t, r)
    ensures var u := Drain(FlushTable(t)); r in u.archived + u.lost
  {
    var rs := TrackedRecs(t.ix.slots);
    if t.ix.At(r.pid) == Some(r) {
      OwnPid(t.ix, r.pid);
      FlushSendsTracked(t);
      assert TrackedAt(t.ix, r.pid, r);
    }
    hide WellFormed, TrackedRecs;
    var k := Room(t.dispatch, |rs|);
    assert rs == rs[..k] + rs[k..];
  }

  /** In a settled table every open call in the tale has its record; once main has left its loop, among the
      records archived, or refused by a full ring. */
  lemma SettledCallHasItsRecord(m: Mach, earlier: seq<Generation>, start: Option<Rec>, xs: seq<Occurrence>, j: nat)
    returns (r: Rec)
    requires MachOk(m) && j < |xs| && xs[j].Handed? && xs[j].d.Opened?
    requires Settled(m, earlier, start, xs, xs[j].d.o.pid)
    ensures var p := xs[j].d.o.pid;
            var i := LastStart(start, xs, j + 1, p);
            && xs[j].d.o in r.calls && r.pid == p
            && Born(start, xs, i, p) && GenOf(r) == GenerationFrom(start, xs, i, p)
            && if m.pc.Halted? then r in m.table.archived + m.table.lost else Recorded(m.table, r)
  {
    hide GenerationFrom, LastStart, LifeOf, WellFormed, FlushTable, Drain, Recorded, Matches, DropsNoCalls;
    var p := xs[j].d.o.pid;
    if m.pc.Halted? {
      var t :| TableOk(t) && m.table == Drain(FlushTable(t)) && Tells(t, earlier, start, xs, p);
      r := OpenCallIsAttributed(t, earlier, start, xs, j);
      FlushKeepsRecord(t, r);
    } else {
      r := OpenCallIsAttributed(m.table, earlier, start, xs, j);
    }
  }
}
