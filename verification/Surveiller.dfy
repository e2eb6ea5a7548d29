/** The surveiller of watchdog.c: main's operations on the mutable table, rings and archive. */
module Surveillers {
  import opened Basics
  import opened RingBuffers
  import opened ProcessIndex
  import opened RecordTable
  import opened ProcTables
  import opened Marshalling
  import opened Archive
  import opened ArchiveStore

  class Surveiller {
    const procs: ProcTable
    const dispatchQueue: RingBuffer<Rec>
    const db: DbManager
    const bootTime: nat
    /** What the dispatches find in uninitialised memory, one after another. */
    const noise: nat -> nat -> Noise
    var dispatches: nat
    /** Histories: the records drained, and those a full ring refused. */
    ghost var archived: seq<Rec>
    ghost var lost: seq<Rec>

    ghost predicate TableValid()
      reads this, procs, procs.procs, procs.Records(), dispatchQueue, dispatchQueue.buffer
    {
      procs.Valid() && dispatchQueue.Valid()
    }

    ghost function State(): Table
      requires TableValid()
      reads this, procs, procs.procs, procs.Records(), dispatchQueue, dispatchQueue.buffer
    {
      Table(procs.State(), dispatchQueue.Contents(), archived, lost)
    }

    /** The archive holds exactly what has been drained. */
    ghost predicate ArchiveValid()
      reads this, db
    {
      db.Valid() && db.State() == DispatchAll(EMPTY, archived, bootTime, noise) && dispatches == |archived|
    }

    constructor (guidePid: int, maxPid: nat, bootTime: nat, noise: nat -> nat -> Noise)
      requires maxPid >= 1
      ensures TableValid() && ArchiveValid()
      ensures fresh(procs) && fresh(procs.procs) && fresh(procs.Records()) && fresh(db)
      ensures fresh(dispatchQueue) && fresh(dispatchQueue.buffer)
      ensures State().dispatch == State().archived == State().lost == []
      ensures procs.maxPid == maxPid && forall p :: State().ix.At(p).None?
    {
      procs := new ProcTable(guidePid, maxPid);
      dispatchQueue := new RingBuffer<Rec>();
      db := new DbManager();
      this.bootTime := bootTime;
      this.noise := noise;
      dispatches, archived, lost := 0, [], [];
    }

    lemma TableOkHolds()
      requires TableValid()
      ensures TableOk(State())
    {
      hide WellFormed;
    }

    /** An unchecked write to the dispatch ring. */
    method SendOff(rs: seq<Rec>)
      requires TableValid()
      modifies this`lost, dispatchQueue, dispatchQueue.buffer
      ensures TableValid() && State() == Send(old(State()), rs)
    {
      hide WellFormed;
      ghost var before := State();
      ghost var refused := WriteAll(dispatchQueue, rs);
      lost := lost + refused;
      assert procs.State().slots == before.ix.slots;
    }

    /** The record in the way: retrieve it and send it off. */
    method SendOffPrevious(pid: int)
      requires TableValid() && procs.State().At(pid).Some?
      modifies this`lost, procs.procs, dispatchQueue, dispatchQueue.buffer
      ensures TableValid() && procs.Records() <= old(procs.Records())
      ensures State() ==
              Send(old(State()), [old(procs.State().At(pid).value)]).(
                ix := ProcessIndex.Retrieve(old(State()).ix, pid).0)
    {
      hide WellFormed;
      var previous := procs.Retrieve(pid);
      var copy := previous.Copy();
      SendOff([copy]);
    }

    /** surv_addExecCall */
    method AddExecCall(e: Exec)
      requires TableValid()
      modifies this`lost, procs, procs.procs, dispatchQueue, dispatchQueue.buffer
      ensures TableValid() && State() == AddExec(old(State()), e)
      ensures (procs.procs == old(procs.procs) || fresh(procs.procs)) && fresh(procs.Records() - old(procs.Records()))
    {
      hide WellFormed, ProcessIndex.Add, ProcessIndex.Retrieve, SlotOk;
      TableOkHolds();
      AddIsInsertion(State().ix, NewRec(e));
      var ecall := new ExecCall(e);
      assert procs.RecordsValid() && procs.State().slots == old(procs.State()).slots;
      var ret := procs.Add(ecall);
      if ret == AlreadyExists {
        RetrieveRemoves(procs.State(), e.pid);
        ReplacePrevious(ecall);
      }
    }

    /** procindex_add, called directly. */
    method InsertDirectly(e: Exec)
      requires TableValid()
      modifies procs, procs.procs
      ensures TableValid() && State() == old(State()).(ix := ProcessIndex.Add(old(State()).ix, NewRec(e)).0)
      ensures (procs.procs == old(procs.procs) || fresh(procs.procs)) && fresh(procs.Records() - old(procs.Records()))
    {
      hide ProcessIndex.Add, SlotOk;
      var ecall := new ExecCall(e);
      assert procs.RecordsValid() && procs.State().slots == old(procs.State()).slots;
      var _ := procs.Add(ecall);
    }

    method ReplacePrevious(ecall: ExecCall)
      requires TableValid() && ecall.Valid() && ecall !in procs.Records() && ecall.Calls() == []
      requires procs.State().At(ecall.pid).Some?
      modifies this`lost, procs, procs.procs, dispatchQueue, dispatchQueue.buffer, ecall`ppid, ecall`ptimeStamp
      ensures TableValid() && procs.Records() <= old(procs.Records()) + {ecall}
      ensures procs.procs == old(procs.procs) || fresh(procs.procs)
      ensures State() == Send(old(State()), [old(procs.State().At(ecall.pid).value)]).(
                ix := ProcessIndex.Add(ProcessIndex.Retrieve(old(State()).ix, old(ecall.pid)).0, old(ecall.Value())).0)
    {
      hide WellFormed, ProcessIndex.Add, ProcessIndex.Retrieve, Send;
      SendOffPrevious(ecall.pid);
      var _ := procs.Add(ecall);
    }

    /** surv_check_proc_vitals, given the pids kill(pid, 0) reports missing. */
    method CheckProcVitals(dead: set<int>)
      requires TableValid()
      modifies this`lost, procs.procs, procs.Records(), dispatchQueue, dispatchQueue.buffer
      ensures TableValid() && procs.Records() <= old(procs.Records())
      ensures State() == SweepTable(old(State()), dead)
    {
      hide SweepProgress, SweepTable, WellFormed;
      TableOkHolds();
      ghost var before := State();
      SweepProgressEnds(before, dead);
      var i := 0;
      while i < procs.procs.Length
        invariant i <= procs.procs.Length == |before.ix.slots|
        invariant TableValid() && procs.Records() <= old(procs.Records())
        invariant State() == SweepProgress(before, dead, i)
      {
        SweepSlot(i, dead, before);
        i := i + 1;
      }
    }

    method SweepSlot(i: nat, dead: set<int>, ghost before: Table)
      requires TableValid() && i < procs.procs.Length == |before.ix.slots|
      requires TableOk(before) && State() == SweepProgress(before, dead, i)
      modifies this`lost, procs.procs, procs.Records(), dispatchQueue, dispatchQueue.buffer
      ensures TableValid() && procs.Records() <= old(procs.Records())
      ensures State() == SweepProgress(before, dead, i + 1)
    {
      hide WellFormed, ProcTable.SweptTo;
      ProcTable.SweptToStep(before.ix, dead, i);
      ProcTable.SweptToWellFormed(before.ix, dead, i + 1);
      assert before.ix.slots[..i + 1][..i] == before.ix.slots[..i];
      var sent := procs.VisitSlot(i, dead);
      SendAppends(before, DyingRecs(before.ix.slots[..i], dead), sent);
      hide Send, DyingRecs;
      SendOff(sent);
    }

    /** surv_flush_procindex */
    method FlushProcindex()
      requires TableValid()
      modifies this`lost, procs.procs, dispatchQueue, dispatchQueue.buffer
      ensures TableValid() && procs.Records() <= old(procs.Records())
      ensures State() == FlushTable(old(State()))
    {
      hide FlushProgress, FlushTable, WellFormed;
      TableOkHolds();
      ghost var before := State();
      FlushProgressEnds(before);
      FlushBounds(before);
      var i := 0;
      while i < procs.procs.Length - 1
        invariant i <= procs.procs.Length - 1 == |before.ix.slots| - 1
        invariant TableValid() && procs.Records() <= old(procs.Records())
        invariant State() == FlushProgress(before, i + 1)
      {
        FlushSlot(i, before);
        i := i + 1;
      }
    }

    method FlushSlot(i: nat, ghost before: Table)
      requires TableValid() && i + 1 < procs.procs.Length == |before.ix.slots|
      requires |before.dispatch| <= SIZE_RING && State() == FlushProgress(before, i + 1)
      modifies this`lost, procs.procs, dispatchQueue, dispatchQueue.buffer
      ensures TableValid() && procs.Records() <= old(procs.Records())
      ensures State() == FlushProgress(before, i + 2)
    {
      hide WellFormed, FlushProgress;
      FlushProgressStep(before, i);
      var currProc := procs.Retrieve(i);
      var sent := [];
      if currProc != null && currProc.tracked {
        var copy := currProc.Copy();
        sent := [copy];
      }
      SendOff(sent);
    }

    /** One turn of the dispatch batch: the oldest record goes to the database. */
    method DispatchOldest()
      requires TableValid() && ArchiveValid() && dispatchQueue.Contents() != []
      modifies this`archived, this`dispatches, dispatchQueue`read, db
      ensures TableValid() && ArchiveValid()
      ensures archived == old(archived) + [old(dispatchQueue.Contents())[0]]
      ensures dispatchQueue.Contents() == old(dispatchQueue.Contents())[1..]
      ensures procs.State() == old(procs.State())
    {
      hide WellFormed, Dispatch, Consistent;
      ghost var before := procs.State();
      var empty, call := dispatchQueue.Read();
      db.DatabaseDispatch(call.value, bootTime, noise(dispatches));
      assert (archived + [call.value])[..|archived|] == archived;
      archived := archived + [call.value];
      dispatches := dispatches + 1;
      assert procs.State() == before;
    }

    /** The dispatch batch: everything in the ring goes to the database, in order. */
    method DrainDispatchQueue()
      requires TableValid() && ArchiveValid()
      modifies this`archived, this`dispatches, dispatchQueue`read, db
      ensures TableValid() && ArchiveValid()
      ensures State() == Drain(old(State()))
    {
      hide DispatchAll, Consistent, SlotOk;
      var batch := dispatchQueue.Size();
      ghost var drained, waiting := archived, dispatchQueue.Contents();
      var i := 0;
      while i < batch
        invariant TableValid()
        invariant ArchiveValid()
        invariant i <= batch == |waiting| && dispatchQueue.Contents() == waiting[i..]
        invariant archived == drained + waiting[..i]
        invariant procs.State() == old(procs.State())
      {
        DispatchOldest();
        i := i + 1;
      }
    }
  }

  lemma FlushBounds(before: Table)
    requires TableOk(before)
    ensures |before.ix.slots| >= 2 && |before.dispatch| <= SIZE_RING
  {}

  /** The table and the ring, as far as the final flush has come. */
  ghost function FlushProgress(before: Table, n: nat): Table
    requires |before.dispatch| <= SIZE_RING && n <= |before.ix.slots|
  {
    Send(before, TrackedRecs(before.ix.slots[..n])).(ix := before.ix.(slots := EmptySlots(n) + before.ix.slots[n..]))
  }

  lemma FlushProgressEnds(before: Table)
    requires TableOk(before)
    ensures FlushProgress(before, 1) == before
    ensures FlushProgress(before, |before.ix.slots|) == FlushTable(before)
  {
    var slots := before.ix.slots;
    assert SlotOk(slots[0], 0, |slots|);
    assert slots[..1][..0] == [] && slots[..|slots|] == slots;
    assert TrackedRecs(slots[..1]) == [];
    assert before.dispatch + [] == before.dispatch && before.lost + [] == before.lost;
    assert EmptySlots(1) + slots[1..] == slots;
    assert EmptySlots(|slots|) + slots[|slots|..] == EmptySlots(|slots|);
  }

  /** One more slot: its record leaves the table, and is sent off if it is tracked. */
  lemma FlushProgressStep(before: Table, i: nat)
    requires |before.dispatch| <= SIZE_RING && i + 1 < |before.ix.slots|
    ensures var slot, t := before.ix.slots[i + 1], FlushProgress(before, i + 1);
            && t.ix.At(i) == slot
            && FlushProgress(before, i + 2) ==
               Send(t, if slot.Some? && slot.value.tracked then [slot.value] else []).(
                 ix := ProcessIndex.Retrieve(t.ix, i).0)
  {
    var slots := before.ix.slots;
    var slot, t := slots[i + 1], FlushProgress(before, i + 1);
    assert slots[..i + 2][..i + 1] == slots[..i + 1];
    SendAppends(before, TrackedRecs(slots[..i + 1]), if slot.Some? && slot.value.tracked then [slot.value] else []);
    assert EmptySlots(i + 2) + slots[i + 2..] == ProcessIndex.Retrieve(t.ix, i).0.slots;
  }

  /** The table and the ring, as far as the liveness sweep has come. */
  ghost function SweepProgress(before: Table, dead: set<int>, n: nat): Table
    requires TableOk(before) && n <= |before.ix.slots|
  {
    Send(before, DyingRecs(before.ix.slots[..n], dead)).(ix := ProcTable.SweptTo(before.ix, dead, n))
  }

  lemma SweepProgressEnds(before: Table, dead: set<int>)
    requires TableOk(before)
    ensures SweepProgress(before, dead, 0) == before
    ensures SweepProgress(before, dead, |before.ix.slots|) == SweepTable(before, dead)
  {
    hide WellFormed;
    var slots := before.ix.slots;
    assert slots[..0] == [] && slots[..|slots|] == slots;
    assert before.dispatch + [] == before.dispatch && before.lost + [] == before.lost;
    assert ProcTable.SweptTo(before.ix, dead, 0).slots == slots;
    assert ProcTable.SweptTo(before.ix, dead, |slots|).slots == Sweep(before.ix, dead).slots;
  }
}
