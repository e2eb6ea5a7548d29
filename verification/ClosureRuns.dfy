/** Over which runs every tracked entry's parent stays tracked. */
module ClosureRuns {
  import opened Basics
  import opened RingBuffers
  import opened ProcessIndex
  import opened AncestorTracking
  import opened RecordTable
  import opened EventLoop
  import opened Daemon
  import opened TableSteps

  lemma ClosedByEntries(a: Index, b: Index)
    requires forall p :: a.At(p) == b.At(p)
    ensures Closed(a) <==> Closed(b)
  {
    assert forall p :: Parent(a, p) == Parent(b, p);
    assert forall p :: ParentTracked(a, p) <==> ParentTracked(b, p);
  }

  /** It puts in no new record that a tracked entry names as its parent. */
  ghost predicate Harmless(ix: Index, d: Delivery) {
    match d
    case Opened(_) => true
    case Insert(e) => !ix.Accepts(e.pid) || ix.At(e.pid).Some? || !NamedByTracked(ix, e.pid)
    case Replace(e) => !ix.Accepts(e.pid) || !NamedByTracked(ix, e.pid)
  }

  lemma ReplaceKeepsClosure(t: Table, e: Exec)
    requires TableOk(t) && Closed(t.ix)
    ensures Closed(AddExec(t, e).ix) <==> Harmless(t.ix, Replace(e))
  {
    hide AddExec, Add, Closed, NamedByTracked, WellFormed;
    AddExecEffect(t, e);
    if t.ix.Accepts(e.pid) {
      var m := Retrieve(t.ix, e.pid).0;
      ReplaceKeepsClosureIff(t.ix, e);
      RetrieveRemoves(t.ix, e.pid);
      AddIsInsertion(m, NewRec(e));
      ClosedByEntries(AddExec(t, e).ix, Add(m, NewRec(e)).0);
    } else {
      AddIsInsertion(t.ix, NewRec(e));
      RejectedReplace(t, e);
    }
  }

  lemma RejectedReplace(t: Table, e: Exec)
    requires TableOk(t) && !t.ix.Accepts(e.pid)
    ensures AddExec(t, e).ix == t.ix
  {}

  /** One delivery keeps the closure exactly if it is harmless. */
  lemma DeliverKeepsClosureIff(t: Table, d: Delivery)
    requires TableOk(t) && Closed(t.ix)
    ensures Closed(Deliver(t, d).ix) <==> Harmless(t.ix, d)
  {
    hide AddExec, Add, OpenAdd, Closed, NamedByTracked, SlotOk;
    match d
    case Replace(e) => ReplaceKeepsClosure(t, e);
    case Insert(e) =>
      AddIsInsertion(t.ix, NewRec(e));
      if t.ix.Accepts(e.pid) && t.ix.At(e.pid).None? {
        AddKeepsClosureIff(t.ix, e);
      } else {
        ClosedByEntries(t.ix, Add(t.ix, NewRec(e)).0);
      }
    case Opened(o) => OpenKeepsClosure(t.ix, o);
  }

  lemma OpenKeepsClosure(ix: Index, o: OpenCall)
    requires WellFormed(ix) && Closed(ix)
    ensures Closed(OpenAdd(ix, o).0)
  {
    if ix.Accepts(o.pid) {
      OpenAddTracksExactlyAncestors(ix, o);
    }
  }

  lemma FlushedIsClosed(ix: Index)
    ensures Closed(Flushed(ix))
  {
    forall p ensures ParentTracked(Flushed(ix), p) {
      assert Flushed(ix).At(p) == None;
    }
  }

  /** What this step of main hands over, if anything, is harmless where it arrives: behind the sweep. */
  ghost predicate StepHarmless(m: Mach, dead: set<int>)
    requires MachOk(m)
  {
    HandedBy(m).Some? ==> Harmless(SweptFirst(m, dead).ix, HandedBy(m).value)
  }

  lemma StepKeepsClosureIff(m: Mach, dead: set<int>)
    requires MachOk(m) && Closed(m.table.ix)
    ensures Closed(MainStep(m, dead).table.ix) <==> StepHarmless(m, dead)
  {
    StepOnTable(m, dead);
    hide MainStep, Closed, Harmless, Deliver, WellFormed, Sweep, DyingRecs;
    if m.pc.Exit? {
      FlushedIsClosed(m.table.ix);
    } else {
      if Sweeps(m) {
        SweepKeepsClosure(m.table.ix, dead);
      }
      if HandedBy(m).Some? {
        DeliverKeepsClosureIff(SweptFirst(m, dead), HandedBy(m).value);
      }
    }
  }

  // ----- Runs -----

  ghost predicate HarmlessRun(ix: Index, steps: seq<Step>)
    requires WellFormed(ix)
  {
    steps == [] ||
    var front, s := steps[..|steps| - 1], steps[|steps| - 1];
    HarmlessRun(ix, front) && (s.Main? ==> StepHarmless(Run(Start(ix), front).m, s.dead))
  }

  ghost predicate ClosedThroughout(ix: Index, steps: seq<Step>)
    requires WellFormed(ix)
  {
    && Closed(Run(Start(ix), steps).m.table.ix)
    && (steps == [] || ClosedThroughout(ix, steps[..|steps| - 1]))
  }

  lemma ApplyKeepsClosureIff(w: World, s: Step)
    requires MachOk(w.m) && Closed(w.m.table.ix)
    ensures Closed(Apply(w, s).m.table.ix) <==> (s.Main? ==> StepHarmless(w.m, s.dead))
  {
    hide MainStep, HandlerStep, MachOk, Closed, StepHarmless;
    if s.Main? {
      StepKeepsClosureIff(w.m, s.dead);
    }
  }

  /** From a closed index, over every interleaving and whatever the sweeps find dead: every tracked entry's
      non-zero, present parent is tracked at every moment, exactly if no exec call puts in a new record whose
      pid a tracked entry names as its parent. */
  lemma {:induction false} ClosedThroughoutIff(ix: Index, steps: seq<Step>)
    requires WellFormed(ix) && Closed(ix)
    ensures ClosedThroughout(ix, steps) <==> HarmlessRun(ix, steps)
    decreases |steps|
  {
    if steps != [] {
      hide Closed, Apply, StepHarmless, WellFormed, Run;
      var front := steps[..|steps| - 1];
      ClosedThroughoutIff(ix, front);
      RunSnoc(Start(ix), steps);
      if ClosedThroughout(ix, front) {
        ApplyKeepsClosureIff(Run(Start(ix), front), steps[|steps| - 1]);
      }
    }
  }
}
