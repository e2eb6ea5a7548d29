/** The daemon: main's loop interleaved with the two handler threads and the shutdown thread. Steps are
    atomic and every thread sees the same memory. */
module Daemon {
  import opened Basics
  import opened RingBuffers
  import opened ProcessIndex
  import opened RecordTable
  import opened EventLoop

  // ----- A handler thread -----

  /** Boot is before the processing flag is raised; Lowering is at the label endfun. */
  datatype HandlerPc = Boot | Connecting | Guard | Receiving | Writing | Lowering | Stopped

  /** pending: parsed, accepted and still to be written; accepted and written are histories. */
  datatype Handler<T> = Handler(pc: HandlerPc, pending: seq<T>, tries: nat, accepted: seq<T>, written: seq<T>)

  /** What the surroundings decide: a failure (socket, connect, select, end of stream), or to go on; a
      receive then yields the accepted records of one chunk. */
  datatype Action<T> = GiveUp | GoOn(records: seq<T>)

  const MAX_TRIES := 3

  function NewHandler<T>(): Handler<T> {
    Handler(Boot, [], 0, [], [])
  }

  /** One step: the handler, its ring and its processing flag. A write that finds the ring full is tried
      three times more; then the handler gives up altogether. */
  function HandlerStep<T>(h: Handler<T>, q: seq<T>, busy: bool, shut: bool, a: Action<T>): (Handler<T>, seq<T>, bool) {
    match h.pc
    case Boot => if a.GiveUp? then (h.(pc := Lowering), q, busy) else (h.(pc := Connecting), q, true)
    case Connecting => (h.(pc := if a.GiveUp? then Lowering else Guard), q, busy)
    case Guard => (h.(pc := if shut then Lowering else Receiving), q, busy)
    case Receiving =>
      if a.GiveUp? then (h.(pc := Lowering), q, busy)
      else (h.(pc := Writing, pending := a.records, tries := 0, accepted := h.accepted + a.records), q, busy)
    case Writing =>
      if h.pending == [] then (h.(pc := Guard), q, busy)
      else if |q| < SIZE_RING then
        (h.(pending := h.pending[1..], tries := 0, written := h.written + [h.pending[0]]), q + [h.pending[0]], busy)
      else if h.tries < MAX_TRIES then (h.(tries := h.tries + 1), q, busy)
      else (h.(pc := Lowering, pending := []), q, busy)
    case Lowering => (h.(pc := Stopped), q, false)
    case Stopped => (h, q, busy)
  }

  // ----- All threads -----

  datatype World = World(m: Mach, execH: Handler<Exec>, openH: Handler<OpenCall>)

  /** Which thread moves, and what its surroundings answer. */
  datatype Step =
    | Main(dead: set<int>)
    | ExecHandler(ea: Action<Exec>)
    | OpenHandler(oa: Action<OpenCall>)
    | Shutdown

  function NewMach(ix: Index): Mach {
    Mach(false, false, false, [], [], Top, None, 1, Table(ix, [], [], []), [], [], 0, 0)
  }

  function Start(ix: Index): (w: World)
  {
    World(NewMach(ix), NewHandler(), NewHandler())
  }

  function Apply(w: World, s: Step): (v: World)
    requires MachOk(w.m)
    ensures MachOk(v.m)
    ensures v.m.table.ix.maxPid == w.m.table.ix.maxPid
  {
    match s
    case Main(dead) => w.(m := MainStep(w.m, dead))
    case ExecHandler(a) =>
      var (h, q, busy) := HandlerStep(w.execH, w.m.cmdQ, w.m.execBusy, w.m.shut, a);
      w.(execH := h, m := w.m.(cmdQ := q, execBusy := busy))
    case OpenHandler(a) =>
      var (h, q, busy) := HandlerStep(w.openH, w.m.openQ, w.m.openBusy, w.m.shut, a);
      w.(openH := h, m := w.m.(openQ := q, openBusy := busy))
    case Shutdown => w.(m := w.m.(shut := true))
  }

  /** A run: any threads, in any order, any number of times. */
  function Run(w: World, steps: seq<Step>): (v: World)
    requires MachOk(w.m)
    ensures MachOk(v.m)
    ensures v.m.table.ix.maxPid == w.m.table.ix.maxPid
  {
    if steps == [] then w else Apply(Run(w, steps[..|steps| - 1]), steps[|steps| - 1])
  }

  lemma RunSnoc(w: World, steps: seq<Step>)
    requires MachOk(w.m) && steps != []
    ensures Run(w, steps) == Apply(Run(w, steps[..|steps| - 1]), steps[|steps| - 1])
  {}

  lemma {:induction false} RunConcat(w: World, a: seq<Step>, b: seq<Step>)
    requires MachOk(w.m)
    ensures Run(w, a + b) == Run(Run(w, a), b)
    decreases |b|
  {
    if b == [] {
      assert a + b == a;
    } else {
      var c := b[..|b| - 1];
      assert (a + b)[..|a + b| - 1] == a + c;
      RunConcat(w, a, c);
    }
  }

  // ----- Handlers write a prefix of what they accept -----

  /** Between raising and lowering its flag: the handler may still write, or get to. */
  predicate Running(pc: HandlerPc) {
    pc == Connecting || pc == Guard || pc == Receiving || pc == Writing
  }

  ghost predicate HandlerOk<T>(h: Handler<T>, busy: bool) {
    && (Running(h.pc) ==> busy)
    && (h.pc.Boot? || h.pc.Stopped? ==> !busy)
    && (Running(h.pc) ==> h.accepted == h.written + h.pending)
    && (h.pc == Boot ==> h.accepted == h.written == [])
    && (h.pc != Writing ==> h.pending == [])
    && h.written <= h.accepted
  }

  lemma HandlerStepOk<T>(h: Handler<T>, q: seq<T>, busy: bool, shut: bool, a: Action<T>)
    requires HandlerOk(h, busy)
    ensures var (h', q', busy') := HandlerStep(h, q, busy, shut, a); HandlerOk(h', busy')
  {
    var (h', q', busy') := HandlerStep(h, q, busy, shut, a);
    if h.pc == Writing && h.pending != [] && |q| < SIZE_RING {
      assert h.written + [h.pending[0]] + h.pending[1..] == h.written + h.pending;
    }
  }

  /** A step of a handler writes to the end of its ring what it adds to its history, or nothing. */
  lemma HandlerStepWrites<T>(h: Handler<T>, q: seq<T>, busy: bool, shut: bool, a: Action<T>)
    ensures var (h', q', busy') := HandlerStep(h, q, busy, shut, a);
            || (h'.written == h.written && q' == q)
            || (h.pc == Writing && exists x :: h'.written == h.written + [x] && q' == q + [x])
  {}

  /** It accepts what a receive yields, and nothing else. */
  lemma HandlerStepAccepts<T>(h: Handler<T>, q: seq<T>, busy: bool, shut: bool, a: Action<T>)
    ensures HandlerStep(h, q, busy, shut, a).0.accepted ==
            h.accepted + if h.pc.Receiving? && a.GoOn? then a.records else []
  {
    assert h.accepted + [] == h.accepted;
  }

  /** The same handler after n failed attempts: the ring stays full. */
  function AfterFullRing<T>(h: Handler<T>, q: seq<T>, n: nat): Handler<T>
    decreases n
  {
    if n == 0 then h else AfterFullRing(HandlerStep(h, q, true, false, GiveUp).0, q, n - 1)
  }

  /** A record is first offered with no failed attempt on its account. */
  lemma TriesStartAfresh<T>(h: Handler<T>, q: seq<T>, busy: bool, shut: bool, a: Action<T>)
    ensures var next := HandlerStep(h, q, busy, shut, a).0;
            next.pc.Writing? && (!h.pc.Writing? || next.pending != h.pending) ==> next.tries == 0
  {}

  /** A record that finds the ring full is offered four times; only then does the handler give up, and
      it gives up for good. */
  lemma {:induction false} GivesUpAfterFourTries<T>(h: Handler<T>, q: seq<T>, n: nat)
    requires h.pc == Writing && h.pending != [] && |q| == SIZE_RING && n + h.tries <= MAX_TRIES + 1
    requires h.tries <= MAX_TRIES
    ensures var g := AfterFullRing(h, q, n);
            && (g.pc == Writing <==> n + h.tries <= MAX_TRIES)
            && (g.pc == Lowering <==> n + h.tries == MAX_TRIES + 1)
            && g.written == h.written
            && (h.tries == 0 ==> (g.pc.Writing? <==> n < 4))
    decreases n
  {
    if n > 0 {
      var next := HandlerStep(h, q, true, false, GiveUp).0;
      if next.pc == Writing {
        GivesUpAfterFourTries(next, q, n - 1);
      }
    }
  }

  /** The handler's own next steps, the ring and the flags being as they are for it. */
  function Continue<T>(h: Handler<T>, q: seq<T>, n: nat): (Handler<T>, seq<T>)
    decreases n
  {
    if n == 0 then (h, q)
    else
      var (next, q', _) := HandlerStep(h, q, true, false, GiveUp);
      Continue(next, q', n - 1)
  }

  /** With room in the ring, everything accepted from a chunk is written, in order, and the handler goes back
      to its guard. */
  lemma {:induction false} ChunkIsWritten<T>(h: Handler<T>, q: seq<T>)
    requires h.pc.Writing? && |q| + |h.pending| <= SIZE_RING
    ensures var (g, q') := Continue(h, q, |h.pending| + 1);
            && g == Handler(Guard, [], if h.pending == [] then h.tries else 0, h.accepted, h.written + h.pending)
            && q' == q + h.pending
    decreases |h.pending|
  {
    if h.pending == [] {
      assert h.written + [] == h.written && q + [] == q;
      BackToGuard(h, q);
    } else {
      var x, rest := h.pending[0], h.pending[1..];
      var next := h.(pending := rest, tries := 0, written := h.written + [x]);
      assert [x] + rest == h.pending;
      assert h.written + [x] + rest == h.written + h.pending && q + [x] + rest == q + h.pending;
      OneIsWritten(h, q, |rest| + 1);
      ChunkIsWritten(next, q + [x]);
    }
  }

  lemma BackToGuard<T>(h: Handler<T>, q: seq<T>)
    requires h.pc.Writing? && h.pending == []
    ensures Continue(h, q, 1) == (h.(pc := Guard), q)
  {
    assert Continue(h.(pc := Guard), q, 0) == (h.(pc := Guard), q);
  }

  lemma OneIsWritten<T>(h: Handler<T>, q: seq<T>, n: nat)
    requires h.pc.Writing? && h.pending != [] && |q| < SIZE_RING
    ensures var x := h.pending[0];
            Continue(h, q, n + 1) ==
            Continue(h.(pending := h.pending[1..], tries := 0, written := h.written + [x]), q + [x], n)
  {
    hide Continue;
    ContinueStep(h, q, n);
  }

  lemma ContinueStep<T>(h: Handler<T>, q: seq<T>, n: nat)
    ensures var s := HandlerStep(h, q, true, false, GiveUp); Continue(h, q, n + 1) == Continue(s.0, s.1, n)
  {
    hide HandlerStep;
  }

  /** A failure of the surroundings, before the flag is raised, while connecting or in a receive, leads to the end
      of the handler, and nothing is written on the way. */
  lemma FailureEndsHandler<T>(h: Handler<T>, q: seq<T>, busy: bool, shut: bool, b: Action<T>)
    requires h.pc.Boot? || h.pc.Connecting? || h.pc.Receiving?
    ensures var (g, q', busy') := HandlerStep(h, q, busy, shut, GiveUp);
            var (f, q'', busy'') := HandlerStep(g, q', busy', shut, b);
            f == h.(pc := Stopped) && q'' == q && !busy''
  {}

  /** At its guard a handler goes on to receive exactly if shutdown is not set; otherwise it stops, with its
      flag lowered. */
  lemma GuardObeysShutdown<T>(h: Handler<T>, q: seq<T>, busy: bool, shut: bool, a: Action<T>, b: Action<T>)
    requires h.pc.Guard?
    ensures var (g, q', busy') := HandlerStep(h, q, busy, shut, a);
            && q' == q && (g.pc.Receiving? <==> !shut)
            && (shut ==> var (f, q'', busy'') := HandlerStep(g, q', busy', shut, b);
                         f.pc.Stopped? && !busy'' && q'' == q)
  {}

  ghost predicate HandlersOk(w: World) {
    HandlerOk(w.execH, w.m.execBusy) && HandlerOk(w.openH, w.m.openBusy)
  }

  lemma ApplyHandlersOk(w: World, s: Step)
    requires MachOk(w.m) && HandlersOk(w)
    ensures HandlersOk(Apply(w, s))
  {
    hide MainStep, HandlerStep, HandlerOk;
    match s
    case Main(dead) =>
    case ExecHandler(a) => HandlerStepOk(w.execH, w.m.cmdQ, w.m.execBusy, w.m.shut, a);
    case OpenHandler(a) => HandlerStepOk(w.openH, w.m.openQ, w.m.openBusy, w.m.shut, a);
    case Shutdown =>
  }

  lemma {:induction false} RunHandlersOk(w: World, steps: seq<Step>)
    requires MachOk(w.m) && HandlersOk(w)
    ensures HandlersOk(Run(w, steps))
  {
    if steps != [] {
      RunHandlersOk(w, steps[..|steps| - 1]);
      ApplyHandlersOk(Run(w, steps[..|steps| - 1]), steps[|steps| - 1]);
    }
  }

  /** No gap: at every moment the records written to a ring are a prefix of those accepted. */
  lemma HandlersLeaveNoGap(ix: Index, steps: seq<Step>)
    requires WellFormed(ix)
    ensures var w := Run(Start(ix), steps);
            w.execH.written <= w.execH.accepted && w.openH.written <= w.openH.accepted
  {
    RunHandlersOk(Start(ix), steps);
  }

  /** A handler that has stopped, or not started, has its processing flag down. */
  lemma StoppedHandlersAreNotBusy(ix: Index, steps: seq<Step>)
    requires WellFormed(ix)
    ensures var w := Run(Start(ix), steps);
            && (w.execH.pc.Stopped? ==> !w.m.execBusy)
            && (w.openH.pc.Stopped? ==> !w.m.openBusy)
  {
    RunHandlersOk(Start(ix), steps);
  }

  // ----- Shutdown -----

  predicate Requested(steps: seq<Step>) {
    exists i :: 0 <= i < |steps| && steps[i].Shutdown?
  }

  lemma ApplyShut(w: World, s: Step)
    requires MachOk(w.m)
    ensures Apply(w, s).m.shut <==>
            w.m.shut || s.Shutdown? || (s.Main? && w.m.pc.Top? && w.m.counter >= 424242)
    ensures w.m.counter <= Apply(w, s).m.counter
  {
    hide HandlerStep, WellFormed, Deliver, SweepTable, FlushTable;
    if s.Main? {
      MainShut(w.m, s.dead);
    }
  }

  lemma TopShut(m: Mach, dead: set<int>)
    requires MachOk(m) && m.pc.Top?
    ensures AtTop(m, dead).shut <==> m.shut || m.counter >= 424242
    ensures AtTop(m, dead).counter == m.counter
  {
    hide WellFormed, Deliver, SweepTable;
  }

  lemma IdleShut(m: Mach)
    requires MachOk(m) && Idle(m.pc)
    ensures AtIdle(m).shut == m.shut && AtIdle(m).counter == m.counter
  {
    hide WellFormed, Deliver;
  }

  lemma MainShut(m: Mach, dead: set<int>)
    requires MachOk(m)
    ensures MainStep(m, dead).shut <==> m.shut || (m.pc.Top? && m.counter >= 424242)
    ensures m.counter <= MainStep(m, dead).counter
  {
    hide AtTop, AtIdle, WellFormed, Deliver, FlushTable;
    if m.pc.Top? {
      TopShut(m, dead);
    } else if Idle(m.pc) {
      IdleShut(m);
    }
  }

  /** Over every run: a shutdown request is never forgotten, and only a request or the shutdown tick sets
      shutting_down. */
  lemma {:induction false} ShutdownIsRemembered(ix: Index, steps: seq<Step>)
    requires WellFormed(ix)
    ensures var m := Run(Start(ix), steps).m;
            (Requested(steps) ==> m.shut) && (m.shut ==> Requested(steps) || m.counter >= 424242)
    decreases |steps|
  {
    hide WellFormed, Apply, Run, Requested;
    if steps == [] {
      NothingRequested(ix);
    } else {
      var front, s := steps[..|steps| - 1], steps[|steps| - 1];
      ShutdownIsRemembered(ix, front);
      RunSnoc(Start(ix), steps);
      ApplyShut(Run(Start(ix), front), s);
      RequestedSnoc(front, s);
      assert steps == front + [s];
    }
  }

  lemma NothingRequested(ix: Index)
    requires WellFormed(ix)
    ensures !Run(Start(ix), []).m.shut && !Requested([])
  {}

  lemma RequestedSnoc(steps: seq<Step>, s: Step)
    ensures Requested(steps + [s]) <==> Requested(steps) || s.Shutdown?
  {
    var all := steps + [s];
    assert all[|steps|] == s;
    if Requested(steps) {
      var i :| 0 <= i < |steps| && steps[i].Shutdown?;
      assert all[i] == steps[i];
    }
  }
}
