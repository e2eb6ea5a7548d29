/** The bound on the sweeps is sharp: with 513 tracked dead entries between two drains a record is lost. */
module RingLoss {
  import opened Basics
  import opened RingBuffers
  import opened ProcessIndex
  import opened RecordTable
  import opened EventLoop
  import opened MergeOrder
  import opened Daemon
  import opened QuietRuns
  import opened DispatchBound

  /** Replacing the record of one process whose new and old record both survive a sweep. */
  lemma {:induction false} DyingRecsUpdate(slots: seq<Option<Rec>>, i: nat, slot: Option<Rec>, dead: set<int>)
    requires i < |slots| && !Dying(slots[i], dead) && !Dying(slot, dead)
    ensures DyingRecs(slots[i := slot], dead) == DyingRecs(slots, dead)
  {
    var n := |slots| - 1;
    if i == n {
      assert slots[i := slot][..n] == slots[..n];
    } else {
      assert slots[i := slot][..n] == slots[..n][i := slot];
      DyingRecsUpdate(slots[..n], i, slot, dead);
    }
  }

  /** A replacement in a full enough table writes one slot. */
  lemma ReplacesOneSlot(t: Table, e: Exec)
    requires TableOk(t) && t.ix.Accepts(e.pid) && t.ix.At(e.pid).Some?
    ensures var slots := AddExec(t, e).ix.slots;
            |slots| == |t.ix.slots| && slots == t.ix.slots[e.pid + 1 := slots[e.pid + 1]]
  {
    AddIsInsertion(t.ix, NewRec(e));
    assert Grown(t.ix, e.pid).slots == t.ix.slots;
    var ix2 := Retrieve(t.ix, e.pid).0;
    RetrieveRemoves(t.ix, e.pid);
    assert Grown(ix2, e.pid).slots == ix2.slots;
  }

  lemma DyingAfterReplacement(t: Table, e: Exec, dead: set<int>)
    requires TableOk(t) && t.ix.Accepts(e.pid) && t.ix.At(e.pid).Some? && e.pid !in dead
    ensures DyingRecs(AddExec(t, e).ix.slots, dead) == DyingRecs(t.ix.slots, dead)
  {
    hide WellFormed, AddExec, DyingRecs;
    ReplacesOneSlot(t, e);
    AddExecEffect(t, e);
    OwnPid(t.ix, e.pid);
    OwnPid(AddExec(t, e).ix, e.pid);
    DyingRecsUpdate(t.ix.slots, e.pid + 1, AddExec(t, e).ix.slots[e.pid + 1], dead);
  }

  /** Compare mode, with a record of p present and nothing due but exec calls of p. */
  ghost predicate Replacing(m: Mach, p: int) {
    && MachOk(m) && m.pc.Top? && m.held.Some? && m.table.ix.Accepts(p) && m.table.ix.At(p).Some?
    && DueFor(m.held.value.e, m.held.value.o, p)
    && forall i :: 0 <= i < |m.cmdQ| ==> DueFor(m.cmdQ[i], m.held.value.o, p)
  }

  predicate DueFor(e: Exec, o: OpenCall, p: int) {
    e.pid == p && AtMost(e.time, o.time)
  }

  /** What a pass does in this mode: sweep if it is time to, replace, drain if it is time to. */
  lemma ReplacingPass(m: Mach, p: int, dead: set<int>)
    requires Replacing(m, p) && |m.cmdQ| >= 2 && p !in dead
    ensures var b, n := Beat(m, dead), Pass(m, dead);
            && TableOk(b.table) && b.table.ix.At(p).Some?
            && Replacing(n, p) && n.cmdQ == m.cmdQ[1..] && n.counter == m.counter + 1 && n.peak == b.peak
            && n.table == (if m.counter % DRAIN_TICKS == 0 then Drain(AddExec(b.table, m.held.value.e))
                           else AddExec(b.table, m.held.value.e))
  {
    hide Pass, WellFormed, AddExec, Sweep, DyingRecs;
    var b, e := Beat(m, dead), m.held.value.e;
    PassSummary(m, dead);
    SweepWellFormed(m.table.ix, dead);
    OwnPid(m.table.ix, p);
    DeliverOne(b.table, Replace(e));
    AddExecEffect(b.table, e);
  }

  lemma TickOn(counter: nat)
    requires counter >= 1 && TicksSinceDrain(counter) < DRAIN_TICKS - 1
    ensures counter % DRAIN_TICKS != 0 && TicksSinceDrain(counter + 1) == TicksSinceDrain(counter) + 1
  {}

  lemma StillReplacing(m: Mach, p: int)
    requires Replacing(m, p)
    ensures MachOk(m) && m.pc.Top?
  {}

  /** From m to n, k replacements have been made, and nothing else. */
  ghost predicate Replaced(m: Mach, n: Mach, dead: set<int>, k: nat) {
    && |n.cmdQ| == |m.cmdQ| - k && n.counter == m.counter + k && n.swept == m.swept && n.peak == m.peak
    && |n.table.dispatch| == |m.table.dispatch| + k && n.table.lost == m.table.lost
    && DyingRecs(n.table.ix.slots, dead) == DyingRecs(m.table.ix.slots, dead)
  }

  /** A tick without sweep or drain. */
  lemma QuietReplacingPass(m: Mach, p: int, dead: set<int>)
    requires Replacing(m, p) && |m.cmdQ| >= 2 && p !in dead
    requires m.counter % DRAIN_TICKS != 0 && |m.table.dispatch| < SIZE_RING
    ensures Replacing(Pass(m, {}), p) && Replaced(m, Pass(m, {}), dead, 1)
  {
    hide Pass, WellFormed, AddExec, DyingRecs;
    var e := m.held.value.e;
    assert m.counter % SWEEP_TICKS != 0;
    ReplacingPass(m, p, {});
    PassSweeps(m, {});
    AddExecEffect(m.table, e);
    SendLosesIff(m.table, [m.table.ix.At(p).value]);
    DyingAfterReplacement(m.table, e, dead);
  }

  lemma ReplacedCompose(m: Mach, n: Mach, o: Mach, dead: set<int>, k: nat)
    requires Replaced(m, n, dead, 1) && Replaced(n, o, dead, k)
    ensures Replaced(m, o, dead, k + 1)
  {}

  lemma NothingReplaced(m: Mach, dead: set<int>)
    ensures Replaced(m, m, dead, 0)
  {}

  /** There is room, in the ring and before the next drain, for k more. */
  ghost predicate RoomFor(m: Mach, k: nat) {
    && |m.cmdQ| > k && |m.table.dispatch| + k <= SIZE_RING
    && m.counter >= 1 && TicksSinceDrain(m.counter) + k < DRAIN_TICKS
  }

  lemma RoomAfterOne(m: Mach, n: Mach, dead: set<int>, k: nat)
    requires k > 0 && RoomFor(m, k)
    ensures m.counter % DRAIN_TICKS != 0 && |m.cmdQ| >= 2 && |m.table.dispatch| < SIZE_RING
    ensures Replaced(m, n, dead, 1) ==> RoomFor(n, k - 1)
  {
    TickOn(m.counter);
  }

  /** Each replacement between two drains puts one record into the ring. */
  lemma {:induction false} ReplacingPasses(m: Mach, p: int, dead: set<int>, quiet: seq<set<int>>)
    requires Replacing(m, p) && RoomFor(m, |quiet|) && p !in dead && AllAlive(quiet)
    ensures Replacing(Passes(m, quiet), p) && Replaced(m, Passes(m, quiet), dead, |quiet|)
    decreases |quiet|
  {
    hide Replaced, RoomFor, Pass, Replacing, MachOk;
    StillReplacing(m, p);
    if quiet == [] {
      NothingReplaced(m, dead);
    } else {
      var n, rest := Pass(m, {}), quiet[1..];
      assert quiet[0] == {} && AllAlive(rest);
      RoomAfterOne(m, n, dead, |quiet|);
      QuietReplacingPass(m, p, dead);
      ReplacingPasses(n, p, dead, rest);
      ReplacedCompose(m, n, Passes(n, rest), dead, |rest|);
    }
  }

  lemma PassSweeps(m: Mach, dead: set<int>)
    requires MachOk(m) && m.pc.Top? && m.counter % DRAIN_TICKS != 0
    ensures Pass(m, dead).pc.Top? ==> Pass(m, dead).swept == Beat(m, dead).swept
  {
    hide Pass, WellFormed, DeliverAll, Beat;
    PassDoesItsTurn(m, dead);
    var w := Worked(m, dead);
    if w.pc.Dead1? {
      FinishDecides(w, dead);
    }
  }

  /** From any state just after the drain between two sweeps, with 512 replacements due: 511 of them and a sweep
      of 513 records fill the ring, and the 512th replacement, made before the next drain, loses its record. */
  lemma OneMoreThanTheBoundLoses(m: Mach, p: int, quiet: seq<set<int>>, dead: set<int>)
    requires AllAlive(quiet) && |quiet| == 511
    requires Replacing(m, p) && |m.cmdQ| > 512 && p !in dead
    requires m.counter % SWEEP_TICKS == DRAIN_TICKS + 1 && m.table.dispatch == m.table.lost == []
    requires m.swept == 0 && m.peak <= 512
    requires |DyingRecs(m.table.ix.slots, dead)| == 513
    ensures var n := Pass(Passes(m, quiet), dead);
            n.pc.Top? && n.peak == 513 && n.table.lost != []
  {
    hide Pass, Passes, WellFormed, AddExec, DyingRecs;
    var last := Passes(m, quiet);
    ReplacingPasses(m, p, dead, quiet);
    ReplacingPass(last, p, dead);
    SweepLosesIff(last.table, dead);
    SendLosesIff(last.table, DyingRecs(last.table.ix.slots, dead));
    ReplaceLosesIff(Beat(last, dead).table, last.held.value.e);
  }

  // ----- A run into such a state -----

  lemma RunOne(w: World, s: Step)
    requires MachOk(w.m)
    ensures Run(w, [s]) == Apply(w, s)
  {
    RunSnoc(w, [s]);
    assert [s][..0] == [];
    assert Run(w, []) == w;
  }

  lemma EmptyRun(w: World)
    requires MachOk(w.m)
    ensures Run(w, []) == w
  {}

  lemma RunCons(w: World, s: Step, steps: seq<Step>)
    requires MachOk(w.m)
    ensures Run(w, [s] + steps) == Run(Apply(w, s), steps)
  {
    RunConcat(w, [s], steps);
    RunOne(w, s);
  }

  /** Nothing to do, and nothing to sweep. */
  ghost predicate Nothing(m: Mach) {
    && MachOk(m) && m.pc.Top? && m.held.None? && m.cmdQ == [] && m.openQ == [] && !m.shut
    && m.table.dispatch == [] && m.swept == 0
  }

  lemma IdlePass(m: Mach, dead: set<int>)
    requires Nothing(m) && m.counter < SWEEP_TICKS && m.counter % SWEEP_TICKS != 0
    ensures Pass(m, dead) == m.(counter := m.counter + 1)
  {
    hide Pass, WellFormed;
    PassDoesItsTurn(m, dead);
    DeliverNone(m.table);
    assert m.log + [] == m.log && m.table.archived + [] == m.table.archived;
    FinishDecides(Worked(m, dead), dead);
  }

  lemma {:induction false} IdlePasses(m: Mach, quiet: seq<set<int>>)
    requires Nothing(m) && m.counter >= 1 && m.counter + |quiet| <= SWEEP_TICKS
    ensures Passes(m, quiet) == m.(counter := m.counter + |quiet|)
    decreases |quiet|
  {
    hide Pass, WellFormed;
    if quiet != [] {
      IdlePass(m, quiet[0]);
      IdlePasses(m.(counter := m.counter + 1), quiet[1..]);
    }
  }

  /** A pass that only picks up a pair. */
  lemma PairPass(m: Mach, dead: set<int>)
    requires MachOk(m) && m.pc.Top? && m.held.None? && m.cmdQ != [] && m.openQ != []
    requires m.counter < SHUTDOWN_TICK && m.counter % SWEEP_TICKS != 0
    ensures Pass(m, dead) ==
            m.(held := Some(Pair(m.cmdQ[0], m.openQ[0])), cmdQ := m.cmdQ[1..], openQ := m.openQ[1..], run := [])
  {
    hide Pass, WellFormed;
    PassDoesItsTurn(m, dead);
    DeliverNone(m.table);
    assert m.log + [] == m.log;
  }

  lemma ExecWritesOne(w: World)
    requires MachOk(w.m) && w.execH.pc.Writing? && w.execH.pending != [] && |w.m.cmdQ| < SIZE_RING
    ensures var v := Apply(w, ExecHandler(GiveUp));
            && v.m == w.m.(cmdQ := w.m.cmdQ + [w.execH.pending[0]]) && v.openH == w.openH
            && v.execH.pc.Writing? && v.execH.pending == w.execH.pending[1..]
  {
    hide MachOk;
  }

  lemma {:induction false} ExecWrites(w: World) returns (steps: seq<Step>)
    requires MachOk(w.m) && w.execH.pc.Writing? && |w.m.cmdQ| + |w.execH.pending| <= SIZE_RING
    ensures var v := Run(w, steps);
            v.m == w.m.(cmdQ := w.m.cmdQ + w.execH.pending) && v.openH == w.openH
    decreases |w.execH.pending|
  {
    hide MachOk, Apply, Run;
    if w.execH.pending == [] {
      EmptyRun(w);
      steps := [];
      assert w.m.cmdQ + [] == w.m.cmdQ;
    } else {
      var s, x := ExecHandler(GiveUp), w.execH.pending[0];
      var v := Apply(w, s);
      ExecWritesOne(w);
      var rest := ExecWrites(v);
      steps := [s] + rest;
      RunCons(w, s, rest);
      assert w.m.cmdQ + [x] + w.execH.pending[1..] == w.m.cmdQ + w.execH.pending;
    }
  }

  /** The exec handler starts, connects, and receives these calls in one chunk. */
  lemma ExecFeeds(w: World, rs: seq<Exec>) returns (steps: seq<Step>)
    requires MachOk(w.m) && w.execH == NewHandler() && !w.m.shut && |w.m.cmdQ| + |rs| <= SIZE_RING
    ensures var v := Run(w, steps);
            v.m == w.m.(cmdQ := w.m.cmdQ + rs, execBusy := true) && v.openH == w.openH
  {
    hide MachOk;
    var go, take := ExecHandler(GoOn([])), ExecHandler(GoOn(rs));
    var w1 := Apply(w, go);
    var w2 := Apply(w1, go);
    var w3 := Apply(w2, go);
    var w4 := Apply(w3, take);
    assert w4.execH.pc.Writing? && w4.execH.pending == rs;
    var writes := ExecWrites(w4);
    RunCons(w3, take, writes);
    RunCons(w2, go, [take] + writes);
    RunCons(w1, go, [go] + ([take] + writes));
    RunCons(w, go, [go] + ([go] + ([take] + writes)));
    steps := [go] + ([go] + ([go] + ([take] + writes)));
  }

  /** The open-call handler starts, connects, and receives one call. */
  lemma OpenFeeds(w: World, o: OpenCall) returns (steps: seq<Step>)
    requires MachOk(w.m) && w.openH == NewHandler() && !w.m.shut && |w.m.openQ| < SIZE_RING
    ensures var v := Run(w, steps);
            v.m == w.m.(openQ := w.m.openQ + [o], openBusy := true) && v.execH == w.execH
  {
    hide MachOk;
    var go, take := OpenHandler(GoOn([])), OpenHandler(GoOn([o]));
    var w1 := Apply(w, go);
    var w2 := Apply(w1, go);
    var w3 := Apply(w2, go);
    var w4 := Apply(w3, take);
    assert w4.openH.pc.Writing? && w4.openH.pending == [o];
    RunOne(w4, go);
    RunCons(w3, take, [go]);
    RunCons(w2, go, [take] + [go]);
    RunCons(w1, go, [go] + ([take] + [go]));
    RunCons(w, go, [go] + ([go] + ([take] + [go])));
    steps := [go] + ([go] + ([go] + ([take] + [go])));
  }

  // ----- The processes of that run -----

  /** The processes 1 to n. */
  function UpTo(n: nat): (s: set<int>)
    ensures forall q :: q in s <==> 1 <= q <= n
  {
    if n == 0 then {} else UpTo(n - 1) + {n}
  }

  function CrowdedSlot(i: nat): Option<Rec> {
    if 2 <= i <= 515 then Some(Rec(i - 1, 0, [], [], EPOCH, EPOCH, true, 0, [])) else None
  }

  /** Tracked records of the processes 1 to 514. */
  function CrowdedSlots(): (slots: seq<Option<Rec>>)
    ensures |slots| == 600
    ensures forall i :: 0 <= i < 600 ==> slots[i] == CrowdedSlot(i)
  {
    seq(600, i requires i >= 0 => CrowdedSlot(i))
  }

  lemma {:induction false} CrowdDies(n: nat)
    requires n <= 600
    ensures |DyingRecs(CrowdedSlots()[..n], UpTo(513))| == if n <= 2 then 0 else if n <= 515 then n - 2 else 513
    decreases n
  {
    hide CrowdedSlots, UpTo;
    if n > 0 {
      CrowdDies(n - 1);
      assert CrowdedSlots()[..n][..n - 1] == CrowdedSlots()[..n - 1];
    }
  }

  const CROWD := Index(CrowdedSlots(), 1000)
  const NEXT_EXEC := Exec(514, 0, [], [], EPOCH)
  const NEXT_OPEN := OpenCall(514, 0, [], [], EPOCH)

  lemma CrowdWellFormed()
    ensures WellFormed(CROWD) && CROWD.Accepts(514) && CROWD.At(514).Some?
    ensures |DyingRecs(CROWD.slots, UpTo(513))| == 513
  {
    hide CrowdedSlots, UpTo;
    forall i | 0 <= i < 600 ensures SlotOk(CROWD.slots[i], i, 600) {
      assert CROWD.slots[i] == CrowdedSlot(i);
    }
    assert CROWD.slots[515] == CrowdedSlot(515);
    CrowdDies(600);
    assert CROWD.slots[..600] == CROWD.slots;
  }

  /** Process 514 execs over and over; the others are about to be found dead. */
  ghost predicate CrowdIsReady(m: Mach) {
    && m.counter == DRAIN_TICKS + 1 && m.swept == m.peak == 0
    && m.table == Table(CROWD, [], [], [])
    && m.held == Some(Pair(NEXT_EXEC, NEXT_OPEN)) && m.pc.Top?
    && |m.cmdQ| == 513 && forall i :: 0 <= i < 513 ==> m.cmdQ[i] == NEXT_EXEC
  }

  /** 512 idle ticks, then 514 exec calls and an open call arrive, and main picks up the first two. */
  lemma CrowdGetsReady() returns (steps: seq<Step>)
    requires WellFormed(CROWD)
    ensures CrowdIsReady(Run(Start(CROWD), steps).m)
  {
    hide CROWD, WellFormed, Pass, Passes, Apply, Run;
    var w := Start(CROWD);
    var quiet: seq<set<int>> := seq(512, _ => {});
    var idle := PassesAreSteps(w, quiet);
    IdlePasses(w.m, quiet);
    var w1 := Run(w, idle);
    var rs := seq(514, _ => NEXT_EXEC);
    var execs := ExecFeeds(w1, rs);
    var w2 := Run(w1, execs);
    assert w2.m.cmdQ == rs;
    var opens := OpenFeeds(w2, NEXT_OPEN);
    var w3 := Run(w2, opens);
    assert w3.m.openQ == [NEXT_OPEN];
    var pair := PassesAreSteps(w3, [{}]);
    PairPass(w3.m, {});
    OnePass(w3.m, {});
    assert [NEXT_OPEN][1..] == [];
    steps := idle + (execs + (opens + pair));
    RunConcat(w2, opens, pair);
    RunConcat(w1, execs, opens + pair);
    RunConcat(w, idle, execs + (opens + pair));
  }

  lemma ReadyReplaces(m: Mach)
    requires MachOk(m) && CrowdIsReady(m) && CROWD.Accepts(514) && CROWD.At(514).Some?
    ensures Replacing(m, 514)
  {
    hide CROWD, WellFormed;
  }

  /** 512 is sharp: there is a run in which the sweeps between two drains find 513 tracked dead entries, and a
      record is lost before the loop is left. */
  lemma BoundIsSharp() returns (ix: Index, steps: seq<Step>)
    ensures WellFormed(ix)
    ensures var m := Run(Start(ix), steps).m; !m.pc.Halted? && m.peak == 513 && m.table.lost != []
  {
    hide CrowdedSlots, CROWD, UpTo, WellFormed, Passes, Pass, Run;
    ix := CROWD;
    CrowdWellFormed();
    var ready := CrowdGetsReady();
    var w := Run(Start(ix), ready);
    ReadyReplaces(w.m);
    var quiet: seq<set<int>> := seq(511, _ => {});
    OneMoreThanTheBoundLoses(w.m, 514, quiet, UpTo(513));
    OneMorePass(w.m, quiet, UpTo(513), 514);
    var last := PassesAreSteps(w, quiet + [UpTo(513)]);
    steps := ready + last;
    RunConcat(Start(ix), ready, last);
  }

  lemma OneMorePass(m: Mach, quiet: seq<set<int>>, dead: set<int>, p: int)
    requires Replacing(m, p) && RoomFor(m, |quiet|) && p !in dead && AllAlive(quiet)
    ensures Passes(m, quiet + [dead]) == Pass(Passes(m, quiet), dead)
  {
    hide Pass, Passes, WellFormed;
    ReplacingPasses(m, p, dead, quiet);
    PassesConcat(m, quiet, [dead]);
    OnePass(Passes(m, quiet), dead);
  }

  lemma OnePass(m: Mach, dead: set<int>)
    requires MachOk(m) && m.pc.Top?
    ensures Passes(m, [dead]) == Pass(m, dead)
  {
    hide Pass;
    assert Passes(Pass(m, dead), [dead][1..]) == Pass(m, dead);
  }

  lemma {:induction false} PassesConcat(m: Mach, a: seq<set<int>>, b: seq<set<int>>)
    requires MachOk(m) && (m.pc.Top? || m.pc.Halted?)
    ensures Passes(m, a + b) == Passes(Passes(m, a), b)
    decreases |a|
  {
    if a == [] {
      assert a + b == b;
    } else if !m.pc.Halted? {
      assert (a + b)[1..] == a[1..] + b;
      PassesConcat(Pass(m, a[0]), a[1..], b);
    }
  }
}
