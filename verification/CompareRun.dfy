/** Merge order under arrivals: the calls handed over in one uninterrupted compare run. */
module CompareRun {
  import opened Basics
  import opened ProcessIndex
  import opened RecordTable
  import opened EventLoop
  import opened MergeOrder
  import opened Daemon
  import opened Shutdown

  lemma OrderTransitive(a: Delivery, b: Delivery, c: Delivery)
    requires InOrder(a, b) && InOrder(b, c)
    ensures InOrder(a, c)
  {}

  /** Everything handed over in the run may stand before both calls in hand. */
  ghost predicate FitsBefore(run: seq<Delivery>, p: Pair) {
    forall d :: d in run ==> InOrder(d, Replace(p.e)) && InOrder(d, Opened(p.o))
  }

  ghost predicate RunOk(m: Mach) {
    && Sorted(m.run)
    && (m.held.Some? ==> FitsBefore(m.run, m.held.value))
    && (m.held.Some? && (m.pc.HasNext? || m.pc.ReadNext?) ==>
          m.log != [] && m.log[|m.log| - 1] == First(m.held.value))
  }

  lemma SortedSnoc(ds: seq<Delivery>, d: Delivery)
    requires Sorted(ds) && forall x :: x in ds ==> InOrder(x, d)
    ensures Sorted(ds + [d])
  {}

  lemma TopKeepsRun(m: Mach, dead: set<int>)
    requires MachOk(m) && m.pc.Top? && RunOk(m)
    ensures RunOk(AtTop(m, dead))
  {
    hide Deliver, SweepTable, WellFormed, Beat;
    var b := Beat(m, dead);
    if b.held.Some? {
      SortedSnoc(m.run, First(b.held.value));
    }
  }

  lemma HasNextKeepsRun(m: Mach, execFirst: bool)
    requires MachOk(m) && m.pc == HasNext(execFirst) && RunOk(m) && Compared(m)
    ensures RunOk(AtHasNext(m, execFirst))
  {
    hide Deliver, WellFormed;
    SortedSnoc(m.run, if execFirst then Opened(m.held.value.o) else Replace(m.held.value.e));
  }

  ghost predicate SortedStreams(m: Mach) {
    SortedExecs(ExecStream(m)) && SortedOpens(OpenStream(m))
  }

  /** The next call of the ring just served is not older than the one handed over. */
  lemma NextIsLater(m: Mach, execFirst: bool)
    requires MachOk(m) && m.pc == ReadNext(execFirst) && RunOk(m) && Compared(m) && SortedStreams(m)
    ensures execFirst ==> InOrder(Replace(m.held.value.e), Replace(m.cmdQ[0]))
    ensures !execFirst ==> InOrder(Opened(m.held.value.o), Opened(m.openQ[0]))
  {
    hide WellFormed, Execs, Opens;
    var front, d := m.log[..|m.log| - 1], First(m.held.value);
    assert m.log == front + [d];
    ProjectSnoc(front, d);
    if execFirst {
      var n := |Execs(front)|;
      assert ExecStream(m)[n] == d.e && ExecStream(m)[n + 1] == m.cmdQ[0];
    } else {
      var n := |Opens(front)|;
      assert OpenStream(m)[n] == d.o && OpenStream(m)[n + 1] == m.openQ[0];
    }
  }

  lemma ReadNextKeepsRun(m: Mach, execFirst: bool)
    requires MachOk(m) && m.pc == ReadNext(execFirst) && RunOk(m) && Compared(m) && SortedStreams(m)
    ensures RunOk(AtReadNext(m, execFirst))
  {
    hide WellFormed, ExecStream, OpenStream;
    NextIsLater(m, execFirst);
    var p := m.held.value;
    forall d | d in m.run
      ensures execFirst ==> InOrder(d, Replace(m.cmdQ[0]))
      ensures !execFirst ==> InOrder(d, Opened(m.openQ[0]))
    {
      if execFirst {
        OrderTransitive(d, Replace(p.e), Replace(m.cmdQ[0]));
      } else {
        OrderTransitive(d, Opened(p.o), Opened(m.openQ[0]));
      }
    }
  }

  lemma OthersKeepRun(m: Mach, dead: set<int>)
    requires MachOk(m) && RunOk(m) && !m.pc.Top? && !m.pc.HasNext? && !m.pc.ReadNext?
    ensures RunOk(MainStep(m, dead))
  {
    hide Deliver, WellFormed, FlushTable;
  }

  lemma MainKeepsRun(m: Mach, dead: set<int>)
    requires MachOk(m) && RunOk(m) && Compared(m) && SortedStreams(m)
    ensures RunOk(MainStep(m, dead))
  {
    hide AtTop, AtHasNext, AtReadNext, MachOk, ExecStream, OpenStream, RunOk;
    match m.pc
    case Top => TopKeepsRun(m, dead);
    case HasNext(execFirst) => HasNextKeepsRun(m, execFirst);
    case ReadNext(execFirst) => ReadNextKeepsRun(m, execFirst);
    case _ => OthersKeepRun(m, dead);
  }

  ghost predicate SortedRun(w: World) {
    SortedExecs(w.execH.written) && SortedOpens(w.openH.written) ==> RunOk(w.m)
  }

  lemma ApplyKeepsRun(w: World, s: Step)
    requires MachOk(w.m) && Conserved(w) && SortedRun(w)
    ensures SortedRun(Apply(w, s))
  {
    hide MainStep, HandlerStep, ExecStream, OpenStream, MachOk;
    var v := Apply(w, s);
    match s
    case Main(dead) =>
      if SortedStreams(w.m) {
        MainKeepsRun(w.m, dead);
      }
    case ExecHandler(a) =>
      HandlerStepWrites(w.execH, w.m.cmdQ, w.m.execBusy, w.m.shut, a);
      ExecPrefixSorted(w.execH.written, v.execH.written);
    case OpenHandler(a) =>
      HandlerStepWrites(w.openH, w.m.openQ, w.m.openBusy, w.m.shut, a);
      OpenPrefixSorted(w.openH.written, v.openH.written);
    case Shutdown =>
  }

  lemma ExecPrefixSorted(a: seq<Exec>, b: seq<Exec>)
    requires a <= b
    ensures SortedExecs(b) ==> SortedExecs(a)
  {}

  lemma OpenPrefixSorted(a: seq<OpenCall>, b: seq<OpenCall>)
    requires a <= b
    ensures SortedOpens(b) ==> SortedOpens(a)
  {}

  lemma {:induction false} RunKeepsRun(w: World, steps: seq<Step>)
    requires MachOk(w.m) && Conserved(w) && SortedRun(w)
    ensures SortedRun(Run(w, steps))
  {
    if steps != [] {
      RunConserves(w, steps[..|steps| - 1]);
      RunKeepsRun(w, steps[..|steps| - 1]);
      ApplyKeepsRun(Run(w, steps[..|steps| - 1]), steps[|steps| - 1]);
    }
  }

  /** What is handed over while a pair is held belongs to the run, which is empty when the pair is picked up. */
  ghost predicate RunFollows(m: Mach, n: Mach) {
    && m.log <= n.log
    && (m.held.Some? ==> n.run == m.run + n.log[|m.log|..])
    && (m.held.None? && n.held.Some? ==> n.run == [] && n.log == m.log)
  }

  lemma RunFollowsOne(m: Mach, n: Mach, d: Delivery)
    requires n.log == m.log + [d]
    requires m.held.Some? ==> n.run == m.run + [d]
    requires m.held.None? ==> n.held.None?
    ensures RunFollows(m, n)
  {
    assert n.log[|m.log|..] == [d];
  }

  lemma RunFollowsNone(m: Mach, n: Mach)
    requires n.log == m.log
    requires m.held.Some? ==> n.run == m.run
    requires m.held.None? && n.held.Some? ==> n.run == []
    ensures RunFollows(m, n)
  {
    assert n.log[|m.log|..] == [] && m.run + [] == m.run;
  }

  lemma TopFollows(m: Mach, dead: set<int>)
    requires MachOk(m) && m.pc.Top?
    ensures RunFollows(m, AtTop(m, dead))
  {
    hide WellFormed, Deliver, Beat, RunFollows;
    if m.held.Some? {
      RunFollowsOne(m, AtTop(m, dead), First(m.held.value));
    } else {
      RunFollowsNone(m, AtTop(m, dead));
    }
  }

  lemma HasNextFollows(m: Mach, execFirst: bool)
    requires MachOk(m) && m.pc == HasNext(execFirst)
    ensures RunFollows(m, AtHasNext(m, execFirst))
  {
    hide WellFormed, Deliver, RunFollows;
    var n := AtHasNext(m, execFirst);
    if n.pc.ReadNext? {
      RunFollowsNone(m, n);
    } else {
      RunFollowsOne(m, n, if execFirst then Opened(m.held.value.o) else Replace(m.held.value.e));
    }
  }

  lemma IdleFollows(m: Mach)
    requires MachOk(m) && Idle(m.pc)
    ensures RunFollows(m, AtIdle(m))
  {
    hide WellFormed, Deliver, RunFollows;
    if m.pc.ReadOpen? || m.pc.ReadCmd? {
      RunFollowsOne(m, AtIdle(m), if m.pc.ReadOpen? then Opened(m.openQ[0]) else Insert(m.cmdQ[0]));
    } else {
      RunFollowsNone(m, AtIdle(m));
    }
  }

  /** The run is the end of the log: it starts empty when a pair is picked up, and while one is held every
      call handed over belongs to it. */
  lemma RunFollowsLog(m: Mach, dead: set<int>)
    requires MachOk(m)
    ensures RunFollows(m, MainStep(m, dead))
  {
    hide WellFormed, AtTop, AtHasNext, AtIdle, FlushTable, RunFollows;
    if Idle(m.pc) {
      IdleFollows(m);
    } else if m.pc.Top? {
      TopFollows(m, dead);
    } else if m.pc.HasNext? {
      HasNextFollows(m, m.pc.execFirst);
    } else {
      RunFollowsNone(m, MainStep(m, dead));
    }
  }

  /** If what each handler accepts is sorted by time, then whatever arrives in between, the calls handed
      over since compare mode was last entered are sorted, exec calls first on ties, and none of them
      belongs behind a call in hand. */
  lemma CompareRunIsSorted(ix: Index, steps: seq<Step>)
    requires WellFormed(ix)
    ensures var w := Run(Start(ix), steps);
            SortedExecs(w.execH.accepted) && SortedOpens(w.openH.accepted) ==>
              Sorted(w.m.run) && (w.m.held.Some? ==> FitsBefore(w.m.run, w.m.held.value))
  {
    StartConserved(ix);
    RunKeepsRun(Start(ix), steps);
    HandlersLeaveNoGap(ix, steps);
    var w := Run(Start(ix), steps);
    ExecPrefixSorted(w.execH.written, w.execH.accepted);
    OpenPrefixSorted(w.openH.written, w.openH.accepted);
  }
}
