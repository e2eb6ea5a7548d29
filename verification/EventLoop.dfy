/** The main loop of watchdog.c, cut into steps that each touch at most one variable shared with the
    handler threads. */
module EventLoop {
  import opened Basics
  import opened RingBuffers
  import opened ProcessIndex
  import opened RecordTable

  /** tempEcall and tempOcall while compMode is 1. */
  datatype Pair = Pair(e: Exec, o: OpenCall)

  /** Where main stands. Top is the head of the loop. The Dead steps are the five reads of the exit
      condition, in the order in which && evaluates them. */
  datatype Pc =
    | Top
    | HasNext(execFirst: bool)
    | ReadNext(execFirst: bool)
    | CheckCmd
    | CheckOpen(readyCalls: bool)
    | ReadPairCmd
    | ReadPairOpen(e: Exec)
    | ReadOpen
    | ReadCmd
    | Dead1 | Dead2 | Dead3 | Dead4 | Dead5
    | Exit
    | Tail
    | Halted

  /** The flags and rings shared with the handlers, main's own variables, and a history: every delivery
      made (log), those of the latest compare run (run), and how many records the sweeps have sent off
      since the last drain (swept) and at most between two drains (peak). */
  datatype Mach = Mach(
    shut: bool, openBusy: bool, execBusy: bool,
    cmdQ: seq<Exec>, openQ: seq<OpenCall>,
    pc: Pc, held: Option<Pair>, counter: nat, table: Table,
    log: seq<Delivery>, run: seq<Delivery>, swept: nat, peak: nat)

  const SHUTDOWN_TICK := 424242
  const SWEEP_TICKS := 1024
  const DRAIN_TICKS := 512

  predicate Idle(pc: Pc) {
    pc.CheckCmd? || pc.CheckOpen? || pc.ReadPairCmd? || pc.ReadPairOpen? || pc.ReadOpen? || pc.ReadCmd?
  }

  /** What a size check has just found stays true: only main takes from the rings. */
  ghost predicate MachOk(m: Mach) {
    && TableOk(m.table)
    && (m.pc.HasNext? || m.pc.ReadNext? ==> m.held.Some?)
    && (Idle(m.pc) ==> m.held.None?)
    && (m.pc == ReadNext(true) || m.pc == CheckOpen(true) || m.pc == ReadPairCmd || m.pc == ReadCmd ==> m.cmdQ != [])
    && (m.pc == ReadNext(false) || m.pc == ReadPairCmd || m.pc.ReadPairOpen? || m.pc == ReadOpen ==> m.openQ != [])
  }

  /** What main leaves alone: the well-formedness above, the bound on pids, the handlers' flags and the
      ends of the rings. It takes at most one call from one ring, and never unsets shutting_down. */
  ghost predicate Keeps(m: Mach, n: Mach) {
    && MachOk(n)
    && n.table.ix.maxPid == m.table.ix.maxPid
    && n.openBusy == m.openBusy
    && n.execBusy == m.execBusy
    && (m.shut ==> n.shut)
    && Takes(m.cmdQ, n.cmdQ)
    && Takes(m.openQ, n.openQ)
  }

  predicate Takes<T(==)>(q: seq<T>, r: seq<T>) {
    r == q || (q != [] && r == q[1..])
  }

  /** Hand a call over, and go on at pc. */
  function Hand(m: Mach, d: Delivery, pc: Pc): (n: Mach)
    requires TableOk(m.table)
    ensures TableOk(n.table) && n.table.ix.maxPid == m.table.ix.maxPid
    ensures n == m.(table := n.table, log := n.log, run := n.run, pc := pc)
  {
    DeliverOk(m.table, d);
    m.(table := Deliver(m.table, d), log := m.log + [d], run := m.run + [d], pc := pc)
  }

  /** The head of the loop: the shutdown tick and the liveness sweep. */
  function Beat(m: Mach, dead: set<int>): (n: Mach)
    requires TableOk(m.table)
    ensures TableOk(n.table) && n.table.ix.maxPid == m.table.ix.maxPid
    ensures (m.shut ==> n.shut) && n == m.(shut := n.shut, table := n.table, swept := n.swept, peak := n.peak)
  {
    SweepTableOk(m.table, dead);
    var n := m.(shut := m.shut || m.counter >= SHUTDOWN_TICK);
    if m.counter % SWEEP_TICKS != 0 then n
    else
      var swept := m.swept + |DyingRecs(m.table.ix.slots, dead)|;
      n.(table := SweepTable(m.table, dead), swept := swept, peak := Max(m.peak, swept))
  }

  predicate ExecFirst(p: Pair) {
    AtMost(p.e.time, p.o.time)
  }

  function First(p: Pair): Delivery {
    if ExecFirst(p) then Replace(p.e) else Opened(p.o)
  }

  function Second(p: Pair): Delivery {
    if ExecFirst(p) then Opened(p.o) else Replace(p.e)
  }

  function AtTop(m: Mach, dead: set<int>): (n: Mach)
    requires MachOk(m) && m.pc.Top?
    ensures Keeps(m, n)
  {
    var b := Beat(m, dead);
    if b.held.None? then b.(pc := CheckCmd)
    else Hand(b, First(b.held.value), HasNext(ExecFirst(b.held.value)))
  }

  function AtHasNext(m: Mach, execFirst: bool): (n: Mach)
    requires MachOk(m) && m.pc == HasNext(execFirst)
    ensures Keeps(m, n) && (n.pc.ReadNext? || n.pc.Dead1?)
  {
    if (execFirst && m.cmdQ != []) || (!execFirst && m.openQ != []) then m.(pc := ReadNext(execFirst))
    else
      Hand(m, if execFirst then Opened(m.held.value.o) else Replace(m.held.value.e), Dead1).(held := None)
  }

  function AtReadNext(m: Mach, execFirst: bool): (n: Mach)
    requires MachOk(m) && m.pc == ReadNext(execFirst)
    ensures Keeps(m, n) && n.pc.Dead1?
  {
    if execFirst then m.(held := Some(Pair(m.cmdQ[0], m.held.value.o)), cmdQ := m.cmdQ[1..], pc := Dead1)
    else m.(held := Some(Pair(m.held.value.e, m.openQ[0])), openQ := m.openQ[1..], pc := Dead1)
  }

  function AtCheckOpen(m: Mach, readyCalls: bool): (n: Mach)
    requires MachOk(m) && m.pc == CheckOpen(readyCalls)
    ensures Keeps(m, n) && (n.pc.ReadPairCmd? || n.pc.ReadOpen? || n.pc.ReadCmd? || n.pc.Dead1?)
  {
    if m.openQ != [] then m.(pc := if readyCalls then ReadPairCmd else ReadOpen)
    else m.(pc := if readyCalls then ReadCmd else Dead1)
  }

  function AtReadPair(m: Mach): (n: Mach)
    requires MachOk(m) && (m.pc.ReadPairCmd? || m.pc.ReadPairOpen?)
    ensures Keeps(m, n) && n.pc == if m.pc.ReadPairCmd? then ReadPairOpen(m.cmdQ[0]) else Top
  {
    if m.pc.ReadPairCmd? then m.(cmdQ := m.cmdQ[1..], pc := ReadPairOpen(m.cmdQ[0]))
    else m.(held := Some(Pair(m.pc.e, m.openQ[0])), openQ := m.openQ[1..], run := [], pc := Top)
  }

  function AtReadOne(m: Mach): (n: Mach)
    requires MachOk(m) && (m.pc.ReadOpen? || m.pc.ReadCmd?)
    ensures Keeps(m, n) && n.pc.Dead1?
  {
    if m.pc.ReadOpen? then Hand(m, Opened(m.openQ[0]), Dead1).(openQ := m.openQ[1..], run := m.run)
    else Hand(m, Insert(m.cmdQ[0]), Dead1).(cmdQ := m.cmdQ[1..], run := m.run)
  }

  predicate Checks(pc: Pc) {
    pc.Dead1? || pc.Dead2? || pc.Dead3? || pc.Dead4? || pc.Dead5?
  }

  /** shutting_down && !processing_opencall_socket && !processing_execcall_socket
      && empty(openQueue) && empty(commandQueue), one read at a time. */
  function NextCheck(m: Mach): Pc
    requires Checks(m.pc)
  {
    match m.pc
    case Dead1 => if m.shut then Dead2 else Tail
    case Dead2 => if !m.openBusy then Dead3 else Tail
    case Dead3 => if !m.execBusy then Dead4 else Tail
    case Dead4 => if m.openQ == [] then Dead5 else Tail
    case Dead5 => if m.cmdQ == [] then Exit else Tail
  }

  function AtExit(m: Mach): (n: Mach)
    requires MachOk(m) && m.pc.Exit?
    ensures Keeps(m, n) && n.pc.Halted?
  {
    FlushTableOk(m.table);
    m.(table := Drain(FlushTable(m.table)), counter := m.counter + 1, pc := Halted)
  }

  function AtTail(m: Mach): (n: Mach)
    requires MachOk(m) && m.pc.Tail?
    ensures Keeps(m, n) && n.pc.Top?
  {
    if m.counter % DRAIN_TICKS == 0
    then m.(table := Drain(m.table), swept := 0, counter := m.counter + 1, pc := Top)
    else m.(counter := m.counter + 1, pc := Top)
  }

  function AtCheck(m: Mach): (n: Mach)
    requires MachOk(m) && Checks(m.pc)
    ensures Keeps(m, n)
  {
    m.(pc := NextCheck(m))
  }

  function AtIdle(m: Mach): (n: Mach)
    requires MachOk(m) && Idle(m.pc)
    ensures Keeps(m, n)
  {
    match m.pc
    case CheckCmd => m.(pc := CheckOpen(m.cmdQ != []))
    case CheckOpen(readyCalls) => AtCheckOpen(m, readyCalls)
    case ReadOpen => AtReadOne(m)
    case ReadCmd => AtReadOne(m)
    case _ => AtReadPair(m)
  }

  function MainStep(m: Mach, dead: set<int>): (n: Mach)
    requires MachOk(m)
    ensures Keeps(m, n)
  {
    if Checks(m.pc) then AtCheck(m)
    else if Idle(m.pc) then AtIdle(m)
    else
      match m.pc
      case Top => AtTop(m, dead)
      case HasNext(execFirst) => AtHasNext(m, execFirst)
      case ReadNext(execFirst) => AtReadNext(m, execFirst)
      case Exit => AtExit(m)
      case Tail => AtTail(m)
      case _ => m
  }

  lemma RankFalls(m: Mach, dead: set<int>)
    requires MachOk(m) && !m.pc.Top? && !m.pc.Halted?
    ensures Rank(MainStep(m, dead).pc) < Rank(m.pc)
  {
    hide Deliver, SweepTable, FlushTable, Beat, WellFormed, Hand;
  }

  /** Steps left in the pass, at most. */
  function Rank(pc: Pc): nat {
    match pc
    case Top => 0 case Halted => 0
    case CheckCmd => 12 case CheckOpen(_) => 11 case ReadPairCmd => 10 case ReadPairOpen(_) => 9
    case HasNext(_) => 10 case ReadNext(_) => 9 case ReadOpen => 9 case ReadCmd => 9
    case Dead1 => 8 case Dead2 => 7 case Dead3 => 6 case Dead4 => 5 case Dead5 => 4
    case Exit => 2 case Tail => 2
  }

  // ----- One pass of the loop while the handlers are silent -----

  function Finish(m: Mach, dead: set<int>): (n: Mach)
    requires MachOk(m)
    ensures MachOk(n) && (n.pc.Top? || n.pc.Halted?)
    decreases Rank(m.pc)
  {
    if m.pc.Top? || m.pc.Halted? then m
    else
      RankFalls(m, dead);
      Finish(MainStep(m, dead), dead)
  }

  /** From the head of the loop to the next. */
  function Pass(m: Mach, dead: set<int>): (n: Mach)
    requires MachOk(m)
    ensures MachOk(n) && (n.pc.Top? || n.pc.Halted?)
  {
    Finish(MainStep(m, dead), dead)
  }

  /** What one pass hands over, and what it leaves in the rings and in hand. */
  datatype Turn = Turn(deliveries: seq<Delivery>, cmdQ: seq<Exec>, openQ: seq<OpenCall>, held: Option<Pair>,
                       again: bool)

  function TurnOf(cmdQ: seq<Exec>, openQ: seq<OpenCall>, held: Option<Pair>): Turn {
    match held
    case Some(p) =>
      if ExecFirst(p) then
        if cmdQ != [] then Turn([Replace(p.e)], cmdQ[1..], openQ, Some(Pair(cmdQ[0], p.o)), false)
        else Turn([Replace(p.e), Opened(p.o)], cmdQ, openQ, None, false)
      else
        if openQ != [] then Turn([Opened(p.o)], cmdQ, openQ[1..], Some(Pair(p.e, openQ[0])), false)
        else Turn([Opened(p.o), Replace(p.e)], cmdQ, openQ, None, false)
    case None =>
      if openQ != [] && cmdQ != [] then Turn([], cmdQ[1..], openQ[1..], Some(Pair(cmdQ[0], openQ[0])), true)
      else if openQ != [] then Turn([Opened(openQ[0])], cmdQ, openQ[1..], None, false)
      else if cmdQ != [] then Turn([Insert(cmdQ[0])], cmdQ[1..], openQ, None, false)
      else Turn([], cmdQ, openQ, None, false)
  }

  function DeliverAll(t: Table, ds: seq<Delivery>): (u: Table)
    requires TableOk(t)
    ensures TableOk(u) && u.ix.maxPid == t.ix.maxPid && u.archived == t.archived
    decreases |ds|
  {
    if ds == [] then t
    else
      DeliverOk(t, ds[0]);
      DeliverAll(Deliver(t, ds[0]), ds[1..])
  }

  lemma {:induction false} DeliverAllConcat(t: Table, a: seq<Delivery>, b: seq<Delivery>)
    requires TableOk(t)
    ensures DeliverAll(t, a + b) == DeliverAll(DeliverAll(t, a), b)
    decreases |a|
  {
    if a == [] {
      assert a + b == b;
    } else {
      DeliverOk(t, a[0]);
      assert (a + b)[1..] == a[1..] + b;
      DeliverAllConcat(Deliver(t, a[0]), a[1..], b);
    }
  }

  /** The state in which the exit condition is evaluated. */
  function Worked(m: Mach, dead: set<int>): (n: Mach)
    requires MachOk(m) && m.pc.Top?
    ensures MachOk(n)
  {
    var b := Beat(m, dead);
    var turn := TurnOf(b.cmdQ, b.openQ, b.held);
    b.(cmdQ := turn.cmdQ, openQ := turn.openQ, held := turn.held, pc := if turn.again then Top else Dead1,
       table := DeliverAll(b.table, turn.deliveries),
       log := b.log + turn.deliveries,
       run := if turn.again then [] else if b.held.Some? then b.run + turn.deliveries else b.run)
  }

  predicate ExitCondition(m: Mach) {
    m.shut && !m.openBusy && !m.execBusy && m.openQ == [] && m.cmdQ == []
  }

  lemma FinishStep(m: Mach, dead: set<int>)
    requires MachOk(m) && !m.pc.Top? && !m.pc.Halted?
    ensures MachOk(MainStep(m, dead))
    ensures Finish(m, dead) == Finish(MainStep(m, dead), dead)
  {
    RankFalls(m, dead);
  }

  lemma DeliverNone(t: Table)
    requires TableOk(t)
    ensures DeliverAll(t, []) == t
  {}

  lemma DeliverOne(t: Table, d: Delivery)
    requires TableOk(t)
    ensures DeliverAll(t, [d]) == Deliver(t, d)
  {
    DeliverOk(t, d);
    assert DeliverAll(Deliver(t, d), [d][1..]) == Deliver(t, d);
  }

  lemma DeliverTwo(t: Table, c: Delivery, d: Delivery)
    requires TableOk(t)
    ensures TableOk(Deliver(t, c))
    ensures DeliverAll(t, [c, d]) == Deliver(Deliver(t, c), d)
  {
    DeliverOk(t, c);
    assert [c, d] == [c] + [d];
    DeliverAllConcat(t, [c], [d]);
    DeliverOne(t, c);
    DeliverOne(Deliver(t, c), d);
  }

  /** The first call of the pair is handed over. */
  lemma FirstHanded(m: Mach, dead: set<int>)
    requires MachOk(m) && m.pc.Top? && Beat(m, dead).held.Some?
    ensures var b := Beat(m, dead);
            var s := Hand(b, First(b.held.value), HasNext(ExecFirst(b.held.value)));
            MachOk(s) && Pass(m, dead) == Finish(s, dead)
  {
    hide Finish, Hand, Beat, WellFormed;
  }

  predicate NextQueued(m: Mach, execFirst: bool) {
    (execFirst && m.cmdQ != []) || (!execFirst && m.openQ != [])
  }

  /** The ring of the call handed over has another: it is read. */
  lemma NextIsRead(s: Mach, dead: set<int>, execFirst: bool)
    requires MachOk(s) && s.pc == HasNext(execFirst) && NextQueued(s, execFirst)
    ensures MachOk(s.(pc := ReadNext(execFirst)))
    ensures Finish(s, dead) == Finish(AtReadNext(s.(pc := ReadNext(execFirst)), execFirst), dead)
  {
    hide Finish, Hand, WellFormed;
    FinishStep(s, dead);
    FinishStep(s.(pc := ReadNext(execFirst)), dead);
  }

  /** It has none: the other call is handed over too. */
  lemma OtherIsHanded(s: Mach, dead: set<int>, execFirst: bool)
    requires MachOk(s) && s.pc == HasNext(execFirst) && !NextQueued(s, execFirst)
    ensures var n := AtHasNext(s, execFirst);
            && n == Hand(s, if execFirst then Opened(s.held.value.o) else Replace(s.held.value.e), Dead1).(held := None)
            && Finish(s, dead) == Finish(n, dead)
  {
    hide Finish, Hand, WellFormed;
    FinishStep(s, dead);
  }

  lemma WorkedNext(m: Mach, dead: set<int>, p: Pair)
    requires MachOk(m) && m.pc.Top? && Beat(m, dead).held == Some(p) && NextQueued(Beat(m, dead), ExecFirst(p))
    ensures var s := Hand(Beat(m, dead), First(p), ReadNext(ExecFirst(p)));
            MachOk(s) && AtReadNext(s, ExecFirst(p)) == Worked(m, dead)
  {
    hide Deliver, DeliverAll, Beat, WellFormed, First;
    DeliverOne(Beat(m, dead).table, First(p));
    FirstOfTurn(m, dead, p);
  }

  lemma FirstOfTurn(m: Mach, dead: set<int>, p: Pair)
    requires TableOk(m.table) && NextQueued(Beat(m, dead), ExecFirst(p))
    ensures TurnOf(Beat(m, dead).cmdQ, Beat(m, dead).openQ, Some(p)).deliveries == [First(p)]
  {
    hide Beat;
  }

  lemma WorkedBoth(m: Mach, dead: set<int>, p: Pair)
    requires MachOk(m) && m.pc.Top? && Beat(m, dead).held == Some(p) && !NextQueued(Beat(m, dead), ExecFirst(p))
    ensures var s := Hand(Beat(m, dead), First(p), HasNext(ExecFirst(p)));
            MachOk(s) && Hand(s, Second(p), Dead1).(held := None) == Worked(m, dead)
  {
    hide Deliver, DeliverAll, Beat, WellFormed;
    var b := Beat(m, dead);
    DeliverTwo(b.table, First(p), Second(p));
    assert b.log + [First(p)] + [Second(p)] == b.log + [First(p), Second(p)];
    assert b.run + [First(p)] + [Second(p)] == b.run + [First(p), Second(p)];
  }

  lemma ComparePassDoesItsTurn(m: Mach, dead: set<int>)
    requires MachOk(m) && m.pc.Top? && Beat(m, dead).held.Some?
    ensures Pass(m, dead) == Finish(Worked(m, dead), dead)
  {
    hide Finish, Pass, Beat, WellFormed, Worked, AtReadNext, AtHasNext;
    var b := Beat(m, dead);
    var p := b.held.value;
    var s := Hand(b, First(p), HasNext(ExecFirst(p)));
    FirstHanded(m, dead);
    if NextQueued(s, ExecFirst(p)) {
      NextIsRead(s, dead, ExecFirst(p));
      WorkedNext(m, dead, p);
    } else {
      OtherIsHanded(s, dead, ExecFirst(p));
      WorkedBoth(m, dead, p);
    }
  }

  /** The choice made by the two size checks. */
  lemma IdleChoice(m: Mach, dead: set<int>)
    requires MachOk(m) && m.pc.Top? && Beat(m, dead).held.None?
    ensures var b := Beat(m, dead);
            var s := b.(pc := if b.openQ != [] then (if b.cmdQ != [] then ReadPairCmd else ReadOpen)
                              else if b.cmdQ != [] then ReadCmd else Dead1);
            MachOk(s) && Pass(m, dead) == Finish(s, dead)
  {
    hide Finish, Deliver, SweepTable, FlushTable, Beat, WellFormed, AtTail, AtExit, AtReadOne, AtReadPair;
    var b := Beat(m, dead);
    var s1 := b.(pc := CheckCmd);
    assert MainStep(m, dead) == s1;
    FinishStep(s1, dead);
    var s2 := b.(pc := CheckOpen(b.cmdQ != []));
    assert MainStep(s1, dead) == s2;
    FinishStep(s2, dead);
  }

  lemma PairPassDoesItsTurn(m: Mach, dead: set<int>, s: Mach)
    requires MachOk(m) && m.pc.Top? && Beat(m, dead).held.None?
    requires s == Beat(m, dead).(pc := ReadPairCmd) && s.cmdQ != [] && s.openQ != []
    ensures MachOk(s) && Finish(s, dead) == Finish(Worked(m, dead), dead)
  {
    hide Finish, Deliver, SweepTable, FlushTable, DeliverAll, Beat, WellFormed;
    FinishStep(s, dead);
    FinishStep(MainStep(s, dead), dead);
    DeliverNone(s.table);
    assert s.log + [] == s.log;
    assert MainStep(MainStep(s, dead), dead) == Worked(m, dead);
  }

  lemma IdlePassDoesItsTurn(m: Mach, dead: set<int>)
    requires MachOk(m) && m.pc.Top? && Beat(m, dead).held.None?
    ensures Pass(m, dead) == Finish(Worked(m, dead), dead)
  {
    hide Finish, Deliver, SweepTable, FlushTable, DeliverAll, Beat, WellFormed, Pass;
    var b := Beat(m, dead);
    IdleChoice(m, dead);
    if b.openQ != [] && b.cmdQ != [] {
      PairPassDoesItsTurn(m, dead, b.(pc := ReadPairCmd));
    } else if b.openQ != [] || b.cmdQ != [] {
      var s := b.(pc := if b.openQ != [] then ReadOpen else ReadCmd);
      FinishStep(s, dead);
      DeliverOne(b.table, if b.openQ != [] then Opened(b.openQ[0]) else Insert(b.cmdQ[0]));
      assert MainStep(s, dead) == Worked(m, dead);
    } else {
      DeliverNone(b.table);
      assert b.log + [] == b.log;
      assert b.(pc := Dead1) == Worked(m, dead);
    }
  }

  /** The first part of a pass is the turn described above. */
  lemma PassDoesItsTurn(m: Mach, dead: set<int>)
    requires MachOk(m) && m.pc.Top?
    ensures Pass(m, dead) == Finish(Worked(m, dead), dead)
  {
    if Beat(m, dead).held.Some? {
      ComparePassDoesItsTurn(m, dead);
    } else {
      IdlePassDoesItsTurn(m, dead);
    }
  }

  lemma {:induction false} ChecksDecide(w: Mach, dead: set<int>, pc: Pc)
    requires MachOk(w) && Checks(w.pc)
    requires pc == if ChecksPass(w) then Exit else Tail
    ensures MachOk(w.(pc := pc)) && Finish(w, dead) == Finish(w.(pc := pc), dead)
    decreases Rank(w.pc)
  {
    hide Deliver, SweepTable, FlushTable, Beat, WellFormed, Finish;
    FinishStep(w, dead);
    var n := MainStep(w, dead);
    if Checks(n.pc) {
      ChecksDecide(n, dead, pc);
      assert n.(pc := pc) == w.(pc := pc);
    }
  }

  /** The checks from w.pc on all succeed. */
  predicate ChecksPass(w: Mach)
    requires Checks(w.pc)
  {
    && (w.pc.Dead1? ==> w.shut)
    && (w.pc.Dead1? || w.pc.Dead2? ==> !w.openBusy)
    && (w.pc.Dead1? || w.pc.Dead2? || w.pc.Dead3? ==> !w.execBusy)
    && (w.pc.Dead5? || w.openQ == [])
    && w.cmdQ == []
  }

  /** The second part decides between the next pass and the final flush. */
  lemma FinishDecides(w: Mach, dead: set<int>)
    requires MachOk(w) && w.pc.Dead1?
    ensures ExitCondition(w) ==>
              Finish(w, dead) == w.(table := Drain(FlushTable(w.table)), counter := w.counter + 1, pc := Halted)
    ensures !ExitCondition(w) ==>
              Finish(w, dead) == w.(table := if w.counter % DRAIN_TICKS == 0 then Drain(w.table) else w.table,
                                    swept := if w.counter % DRAIN_TICKS == 0 then 0 else w.swept,
                                    counter := w.counter + 1, pc := Top)
  {
    hide Deliver, SweepTable, FlushTable, Beat, WellFormed;
    var s := w.(pc := if ExitCondition(w) then Exit else Tail);
    ChecksDecide(w, dead, s.pc);
    FinishStep(s, dead);
  }

  /** A pass, in full. */
  lemma PassSummary(m: Mach, dead: set<int>)
    requires MachOk(m) && m.pc.Top?
    ensures var n, w := Pass(m, dead), Worked(m, dead);
            && n.log == w.log && n.cmdQ == w.cmdQ && n.openQ == w.openQ && n.held == w.held
            && n.peak == w.peak && n.shut == w.shut && n.openBusy == w.openBusy && n.execBusy == w.execBusy
            && (w.pc.Top? ==> n == w)
            && (w.pc.Dead1? ==> (n.pc.Halted? <==> ExitCondition(w)))
            && (w.pc.Dead1? && ExitCondition(w) ==> n.table == Drain(FlushTable(w.table)))
            && (w.pc.Dead1? && !ExitCondition(w) ==>
                  n.table == (if w.counter % DRAIN_TICKS == 0 then Drain(w.table) else w.table)
                  && n.counter == m.counter + 1)
  {
    PassDoesItsTurn(m, dead);
    var w := Worked(m, dead);
    if w.pc.Dead1? {
      FinishDecides(w, dead);
    }
  }

  /** Which processes are dead matters at the sweeps only: at the head of the loop, every 1024 ticks. */
  lemma DeadMattersOnlyAtSweeps(m: Mach, a: set<int>, b: set<int>)
    requires MachOk(m) && !(m.pc.Top? && m.counter % 1024 == 0)
    ensures MainStep(m, a) == MainStep(m, b)
  {
    hide WellFormed, Deliver, FlushTable, SweepTable;
  }

  /** The head of the loop, every 1024 ticks: whatever else the pass does, the processes found dead are
      looked at first. */
  lemma SweepComesFirst(m: Mach, dead: set<int>)
    requires MachOk(m) && m.pc.Top? && m.counter % 1024 == 0
    ensures var swept := m.(table := SweepTable(m.table, dead), counter := 1, swept := 0, peak := 0);
            TableOk(swept.table) && AtTop(m, dead).table == AtTop(swept, dead).table
  {
    hide WellFormed, Deliver, DyingRecs;
    SweepTableOk(m.table, dead);
  }

  /** An exec call that comes while only exec calls are queued, and whose process has a record, is lost: the
      pass takes it from the ring and leaves every record as it was. */
  lemma ReexecIsDropped(m: Mach, dead: set<int>)
    requires MachOk(m) && m.pc.Top? && m.held.None? && m.openQ == [] && m.cmdQ != [] && m.counter % 1024 != 0
    requires m.table.ix.At(m.cmdQ[0].pid).Some? && !ExitCondition(Worked(m, dead))
    ensures var n := Pass(m, dead);
            && n.cmdQ == m.cmdQ[1..] && n.held.None?
            && (forall p :: n.table.ix.At(p) == m.table.ix.At(p))
            && n.table.archived + n.table.dispatch == m.table.archived + m.table.dispatch
  {
    hide Pass, WellFormed, Add, OpenAdd, AddExec;
    var e := m.cmdQ[0];
    PassSummary(m, dead);
    DeliverOne(m.table, Insert(e));
    InsertReplacesIff(m.table, e);
    assert m.table.archived + m.table.dispatch + [] == m.table.archived + m.table.dispatch;
  }
}
