/** Whole runs of the main loop in which nothing arrives: emptying the rings, and draining out at shutdown. */
module QuietRuns {
  import opened Basics
  import opened RingBuffers
  import opened ProcessIndex
  import opened RecordTable
  import opened EventLoop
  import opened MergeOrder
  import opened Daemon

  /** Pass after pass; deads are the liveness answers. Nothing follows the exit. */
  function Passes(m: Mach, deads: seq<set<int>>): (n: Mach)
    requires MachOk(m) && (m.pc.Top? || m.pc.Halted?)
    ensures MachOk(n) && (n.pc.Top? || n.pc.Halted?)
    decreases |deads|
  {
    if deads == [] || m.pc.Halted? then m else Passes(Pass(m, deads[0]), deads[1..])
  }

  /** No sweep finds a process dead. */
  predicate AllAlive(deads: seq<set<int>>) {
    forall i :: 0 <= i < |deads| ==> deads[i] == {}
  }

  /** A pass is what some number of consecutive steps of main do. */
  lemma {:induction false} FinishIsMainSteps(w: World, dead: set<int>) returns (n: nat)
    requires MachOk(w.m)
    ensures Run(w, seq(n, _ => Main(dead))) == w.(m := Finish(w.m, dead))
    decreases Rank(w.m.pc)
  {
    if w.m.pc.Top? || w.m.pc.Halted? {
      n := 0;
      assert seq(0, _ => Main(dead)) == [];
    } else {
      FinishStep(w.m, dead);
      RankFalls(w.m, dead);
      var v := w.(m := MainStep(w.m, dead));
      n := FinishIsMainSteps(v, dead);
      MainStepFirst(w, dead, n);
      n := n + 1;
    }
  }

  lemma MainStepFirst(w: World, dead: set<int>, n: nat)
    requires MachOk(w.m)
    ensures Run(w, seq(n + 1, _ => Main(dead))) == Run(w.(m := MainStep(w.m, dead)), seq(n, _ => Main(dead)))
  {
    assert seq(n + 1, _ => Main(dead)) == [Main(dead)] + seq(n, _ => Main(dead));
    RunConcat(w, [Main(dead)], seq(n, _ => Main(dead)));
    RunSnoc(w, [Main(dead)]);
    assert Run(w, [Main(dead)][..0]) == w;
  }

  lemma PassIsMainSteps(w: World, dead: set<int>) returns (n: nat)
    requires MachOk(w.m)
    ensures Run(w, seq(n, _ => Main(dead))) == w.(m := Pass(w.m, dead))
  {
    var v := w.(m := MainStep(w.m, dead));
    n := FinishIsMainSteps(v, dead);
    MainStepFirst(w, dead, n);
    n := n + 1;
  }

  // ----- Nothing arrives, and main goes on -----

  /** For so many passes main has no reason to exit: a handler is still up, or shutting_down is not set
      and the shutdown tick is not reached. */
  predicate GoesOn(m: Mach, passes: nat) {
    m.openBusy || m.execBusy || (!m.shut && m.counter + passes <= SHUTDOWN_TICK)
  }

  lemma SilentPass(m: Mach, dead: set<int>, passes: nat)
    requires MachOk(m) && m.pc.Top? && passes > 0 && GoesOn(m, passes)
    ensures var n, t := Pass(m, dead), TurnOf(m.cmdQ, m.openQ, m.held);
            && n.pc.Top? && GoesOn(n, passes - 1)
            && n.log == m.log + t.deliveries && n.cmdQ == t.cmdQ && n.openQ == t.openQ && n.held == t.held
  {
    hide Pass, DeliverAll, WellFormed, SweepTable;
    PassSummary(m, dead);
  }

  /** A turn makes the load lighter, and is nothing once there is no load. */
  lemma TurnLightens(cmdQ: seq<Exec>, openQ: seq<OpenCall>, held: Option<Pair>)
    ensures var t := TurnOf(cmdQ, openQ, held);
            if Load(cmdQ, openQ, held) > 0 then
              && Load(t.cmdQ, t.openQ, t.held) < Load(cmdQ, openQ, held)
              && Drive(cmdQ, openQ, held) == t.deliveries + Drive(t.cmdQ, t.openQ, t.held)
            else t == Turn([], [], [], None, false) && Drive(cmdQ, openQ, held) == []
  {}

  /** Emptying the rings takes at most twice the queued calls, plus one, passes, and hands over their merge. */
  lemma {:induction false} QuietRunDrives(m: Mach, deads: seq<set<int>>)
    requires MachOk(m) && m.pc.Top? && GoesOn(m, |deads|)
    requires |deads| >= Load(m.cmdQ, m.openQ, m.held)
    ensures var n := Passes(m, deads);
            && n.pc.Top? && n.cmdQ == [] && n.openQ == [] && n.held == None
            && n.log == m.log + Drive(m.cmdQ, m.openQ, m.held)
    decreases |deads|
  {
    TurnLightens(m.cmdQ, m.openQ, m.held);
    hide Pass, WellFormed, GoesOn, TurnOf, Drive;
    if deads == [] {
      assert m.log + [] == m.log;
    } else {
      SilentPass(m, deads[0], |deads|);
      var n, t := Pass(m, deads[0]), TurnOf(m.cmdQ, m.openQ, m.held);
      QuietRunDrives(n, deads[1..]);
      TurnLightens(t.cmdQ, t.openQ, t.held);
      var rest := Drive(t.cmdQ, t.openQ, t.held);
      assert m.log + t.deliveries + rest == m.log + (t.deliveries + rest);
      assert m.log + [] + [] == m.log + [];
    }
  }

  // ----- Shutdown is set and the handlers have stopped -----

  /** The deliveries until the exit condition holds, and the pair then in hand. */
  function ExitRun(cmdQ: seq<Exec>, openQ: seq<OpenCall>, held: Option<Pair>): (seq<Delivery>, Option<Pair>)
    decreases Load(cmdQ, openQ, held)
  {
    var t := TurnOf(cmdQ, openQ, held);
    if !t.again && t.cmdQ == [] && t.openQ == [] then (t.deliveries, t.held)
    else
      var (rest, last) := ExitRun(t.cmdQ, t.openQ, t.held);
      (t.deliveries + rest, last)
  }

  /** The two calls of a pair, in the order in which they are due. */
  function Due(held: Option<Pair>): seq<Delivery> {
    match held
    case None => []
    case Some(p) => [First(p), Second(p)]
  }

  lemma DueMerges(held: Option<Pair>)
    ensures Uniform(Due(held)) == Merge(WithHeld([], [], held).0, WithHeld([], [], held).1)
  {
    match held
    case None =>
    case Some(p) =>
      var es, os := [p.e] + [], [p.o] + [];
      assert es == [p.e] && os == [p.o];
      MergeHead([], [], p.e, p.o);
      assert Merge([p.e], []) == [Replace(p.e)] + Merge([], []);
      assert Merge([], [p.o]) == [Opened(p.o)] + Merge([], []);
  }

  /** What the exit leaves in hand apart, what is delivered is the stable merge: each call once, in order. */
  lemma {:induction false} ExitRunMerges(cmdQ: seq<Exec>, openQ: seq<OpenCall>, held: Option<Pair>)
    ensures var (ds, last) := ExitRun(cmdQ, openQ, held);
            Uniform(ds + Due(last)) == Merge(WithHeld(cmdQ, openQ, held).0, WithHeld(cmdQ, openQ, held).1)
    decreases Load(cmdQ, openQ, held)
  {
    hide Merge, WithHeld, Due;
    var t := TurnOf(cmdQ, openQ, held);
    TurnMerges(cmdQ, openQ, held);
    if !t.again && t.cmdQ == [] && t.openQ == [] {
      DueMerges(t.held);
      UniformConcat(t.deliveries, Due(t.held));
    } else {
      ExitRunMerges(t.cmdQ, t.openQ, t.held);
      var (rest, last) := ExitRun(t.cmdQ, t.openQ, t.held);
      assert t.deliveries + rest + Due(last) == t.deliveries + (rest + Due(last));
      UniformConcat(t.deliveries, rest + Due(last));
    }
  }

  lemma ClosingPass(m: Mach, dead: set<int>)
    requires MachOk(m) && m.pc.Top? && m.shut && !m.openBusy && !m.execBusy
    ensures var n, t := Pass(m, dead), TurnOf(m.cmdQ, m.openQ, m.held);
            && n.shut && !n.openBusy && !n.execBusy
            && n.log == m.log + t.deliveries && n.cmdQ == t.cmdQ && n.openQ == t.openQ && n.held == t.held
            && (n.pc.Halted? <==> !t.again && t.cmdQ == [] && t.openQ == [])
  {
    hide Pass, DeliverAll, Beat, WellFormed;
    PassSummary(m, dead);
  }

  /** Drain-out: the loop exits within twice the queued calls, plus two, passes. */
  lemma {:induction false} ShutdownDrainsOut(m: Mach, deads: seq<set<int>>)
    requires MachOk(m) && m.pc.Top? && m.shut && !m.openBusy && !m.execBusy
    requires |deads| > Load(m.cmdQ, m.openQ, m.held)
    ensures var n := Passes(m, deads);
            && n.pc.Halted? && n.cmdQ == [] && n.openQ == []
            && n.log == m.log + ExitRun(m.cmdQ, m.openQ, m.held).0
            && n.held == ExitRun(m.cmdQ, m.openQ, m.held).1
    decreases |deads|
  {
    hide Pass, WellFormed, MachOk;
    ClosingPass(m, deads[0]);
    var n, t := Pass(m, deads[0]), TurnOf(m.cmdQ, m.openQ, m.held);
    if n.pc.Halted? {
      assert Passes(n, deads[1..]) == n;
    } else {
      ShutdownDrainsOut(n, deads[1..]);
      var rest := ExitRun(t.cmdQ, t.openQ, t.held).0;
      assert m.log + t.deliveries + rest == m.log + (t.deliveries + rest);
    }
  }

  // ----- When the exit forgets the held pair -----

  /** Counting from the end, the last calls of both rings come into hand together: neither ring's last
      call is due before the other ring's last but one. */
  predicate LastTwoMeet(es: seq<Exec>, os: seq<OpenCall>)
    requires es != [] && os != []
  {
    && |es| + |os| >= 3
    && (|os| >= 2 ==> Before(os[|os| - 2].time, es[|es| - 1].time))
    && (|es| >= 2 ==> AtMost(es[|es| - 2].time, os[|os| - 1].time))
  }

  lemma {:induction false} OneRingLeavesNothing(cmdQ: seq<Exec>, openQ: seq<OpenCall>)
    requires cmdQ == [] || openQ == []
    ensures ExitRun(cmdQ, openQ, None).1 == None
    decreases |cmdQ| + |openQ|
  {
    var t := TurnOf(cmdQ, openQ, None);
    if t.cmdQ != [] || t.openQ != [] {
      OneRingLeavesNothing(t.cmdQ, t.openQ);
    }
  }

  lemma MeetAfterExec(es: seq<Exec>, os: seq<OpenCall>)
    requires SortedExecs(es) && SortedOpens(os) && |es| >= 1 && |os| >= 1 && AtMost(es[0].time, os[0].time)
    ensures |es| == 1 ==> !LastTwoMeet(es, os)
    ensures |es| == 2 && |os| == 1 ==> LastTwoMeet(es, os)
    ensures |es| >= 2 && |es| + |os| >= 4 ==> (LastTwoMeet(es, os) <==> LastTwoMeet(es[1..], os))
  {
    FirstIsEarliest(es, os);
  }

  lemma MeetAfterOpen(es: seq<Exec>, os: seq<OpenCall>)
    requires SortedExecs(es) && SortedOpens(os) && |es| >= 1 && |os| >= 1 && Before(os[0].time, es[0].time)
    ensures |os| == 1 ==> !LastTwoMeet(es, os)
    ensures |es| == 1 && |os| == 2 ==> LastTwoMeet(es, os)
    ensures |os| >= 2 && |es| + |os| >= 4 ==> (LastTwoMeet(es, os) <==> LastTwoMeet(es, os[1..]))
  {
    FirstIsEarliest(es, os);
  }

  lemma {:induction false} HeldPairDroppedIff(cmdQ: seq<Exec>, openQ: seq<OpenCall>, p: Pair)
    requires SortedExecs([p.e] + cmdQ) && SortedOpens([p.o] + openQ)
    ensures ExitRun(cmdQ, openQ, Some(p)).1.Some? <==> LastTwoMeet([p.e] + cmdQ, [p.o] + openQ)
    decreases |cmdQ| + |openQ|
  {
    hide LastTwoMeet, SortedExecs, SortedOpens;
    var es, os := [p.e] + cmdQ, [p.o] + openQ;
    TailSorted(es, os);
    assert es[1..] == cmdQ && os[1..] == openQ;
    if ExecFirst(p) {
      MeetAfterExec(es, os);
      if cmdQ == [] {
        OneRingLeavesNothing(cmdQ, openQ);
      } else if |cmdQ| + |openQ| >= 2 {
        assert [cmdQ[0]] + cmdQ[1..] == cmdQ;
        HeldPairDroppedIff(cmdQ[1..], openQ, Pair(cmdQ[0], p.o));
      }
    } else {
      MeetAfterOpen(es, os);
      if openQ == [] {
        OneRingLeavesNothing(cmdQ, openQ);
      } else if |cmdQ| + |openQ| >= 2 {
        assert [openQ[0]] + openQ[1..] == openQ;
        HeldPairDroppedIff(cmdQ, openQ[1..], Pair(p.e, openQ[0]));
      }
    }
  }

  lemma FirstIsEarliest(es: seq<Exec>, os: seq<OpenCall>)
    requires SortedExecs(es) && SortedOpens(os)
    ensures forall i :: 0 <= i < |es| ==> AtMost(es[0].time, es[i].time)
    ensures forall i :: 0 <= i < |os| ==> AtMost(os[0].time, os[i].time)
  {}

  lemma TailSorted(es: seq<Exec>, os: seq<OpenCall>)
    requires SortedExecs(es) && SortedOpens(os) && es != [] && os != []
    ensures SortedExecs(es[1..]) && SortedOpens(os[1..])
  {}

  lemma PairDroppedIff(cmdQ: seq<Exec>, openQ: seq<OpenCall>, held: Option<Pair>)
    requires SortedExecs(WithHeld(cmdQ, openQ, held).0) && SortedOpens(WithHeld(cmdQ, openQ, held).1)
    ensures var es, os := WithHeld(cmdQ, openQ, held).0, WithHeld(cmdQ, openQ, held).1;
            ExitRun(cmdQ, openQ, held).1.Some? <==> es != [] && os != [] && LastTwoMeet(es, os)
  {
    if held.Some? {
      HeldPairDroppedIff(cmdQ, openQ, held.value);
    } else if cmdQ == [] || openQ == [] {
      OneRingLeavesNothing(cmdQ, openQ);
    } else {
      assert [cmdQ[0]] + cmdQ[1..] == cmdQ && [openQ[0]] + openQ[1..] == openQ;
      HeldPairDroppedIff(cmdQ[1..], openQ[1..], Pair(cmdQ[0], openQ[0]));
    }
  }

  // ----- The same for streams in any order -----

  /** The last two deliveries, of at least three, are one of each kind. */
  predicate EndsMixed(ds: seq<Delivery>) {
    |ds| >= 3 && IsExec(ds[|ds| - 1]) != IsExec(ds[|ds| - 2])
  }

  lemma EndsMixedTail(d: Delivery, ds: seq<Delivery>)
    ensures |ds| >= 3 ==> (EndsMixed([d] + ds) <==> EndsMixed(ds))
    ensures |ds| == 2 ==> (EndsMixed([d] + ds) <==> IsExec(ds[1]) != IsExec(ds[0]))
  {}

  lemma {:induction false} MergeLength(es: seq<Exec>, os: seq<OpenCall>)
    ensures |Merge(es, os)| == |es| + |os|
    ensures os == [] ==> forall d :: d in Merge(es, os) ==> IsExec(d)
    ensures es == [] ==> forall d :: d in Merge(es, os) ==> !IsExec(d)
    decreases |es| + |os|
  {
    if es != [] || os != [] {
      MergeStep(es, os);
      if ExecNext(es, os) {
        MergeLength(es[1..], os);
      } else {
        MergeLength(es, os[1..]);
      }
    }
  }

  lemma OneOfEach(e: Exec, o: OpenCall)
    ensures |Merge([e], [o])| == 2 && IsExec(Merge([e], [o])[1]) != IsExec(Merge([e], [o])[0])
  {
    assert [e][1..] == [] && [o][1..] == [];
    assert Merge([e], []) == [Replace(e)] + Merge([], []);
    assert Merge([], [o]) == [Opened(o)] + Merge([], []);
  }

  lemma OneKindIsNotMixed(d: Delivery, es: seq<Exec>, os: seq<OpenCall>)
    requires es == [] || os == []
    ensures !EndsMixed(Merge(es, os)) && !EndsMixed([d] + Merge(es, os))
  {
    MergeLength(es, os);
    var ds := Merge(es, os);
    if |ds| >= 2 {
      assert ds[|ds| - 1] in ds && ds[|ds| - 2] in ds;
    }
  }

  /** Of a held pair and the calls behind it, one call being due first. */
  lemma RestMixed(d: Delivery, es: seq<Exec>, os: seq<OpenCall>)
    requires es != [] && os != []
    ensures |es| + |os| == 2 ==> EndsMixed([d] + Merge(es, os))
    ensures |es| + |os| >= 3 ==> (EndsMixed([d] + Merge(es, os)) <==> EndsMixed(Merge(es, os)))
  {
    MergeLength(es, os);
    EndsMixedTail(d, Merge(es, os));
    if |es| + |os| == 2 {
      assert es == [es[0]] && os == [os[0]];
      OneOfEach(es[0], os[0]);
    }
  }

  lemma {:induction false} HeldPairMixedIff(cmdQ: seq<Exec>, openQ: seq<OpenCall>, p: Pair)
    ensures ExitRun(cmdQ, openQ, Some(p)).1.Some? <==> EndsMixed(Merge([p.e] + cmdQ, [p.o] + openQ))
    decreases |cmdQ| + |openQ|
  {
    hide Merge, EndsMixed;
    var es, os := [p.e] + cmdQ, [p.o] + openQ;
    MergeHead(cmdQ, openQ, p.e, p.o);
    if ExecFirst(p) {
      if cmdQ == [] {
        OneRingLeavesNothing(cmdQ, openQ);
        OneKindIsNotMixed(Replace(p.e), cmdQ, os);
      } else {
        assert [cmdQ[0]] + cmdQ[1..] == cmdQ;
        RestMixed(Replace(p.e), cmdQ, os);
        if |cmdQ| + |openQ| >= 2 {
          HeldPairMixedIff(cmdQ[1..], openQ, Pair(cmdQ[0], p.o));
        }
      }
    } else {
      if openQ == [] {
        OneRingLeavesNothing(cmdQ, openQ);
        OneKindIsNotMixed(Opened(p.o), es, openQ);
      } else {
        assert [openQ[0]] + openQ[1..] == openQ;
        RestMixed(Opened(p.o), es, openQ);
        if |cmdQ| + |openQ| >= 2 {
          HeldPairMixedIff(cmdQ, openQ[1..], Pair(p.e, openQ[0]));
        }
      }
    }
  }

  lemma PairMixedIff(cmdQ: seq<Exec>, openQ: seq<OpenCall>, held: Option<Pair>)
    ensures ExitRun(cmdQ, openQ, held).1.Some? <==>
            EndsMixed(Merge(WithHeld(cmdQ, openQ, held).0, WithHeld(cmdQ, openQ, held).1))
  {
    hide Merge, EndsMixed;
    if held.Some? {
      HeldPairMixedIff(cmdQ, openQ, held.value);
    } else if cmdQ == [] || openQ == [] {
      OneRingLeavesNothing(cmdQ, openQ);
      OneKindIsNotMixed(Replace(Exec(0, 0, [], [], EPOCH)), cmdQ, openQ);
    } else {
      assert [cmdQ[0]] + cmdQ[1..] == cmdQ && [openQ[0]] + openQ[1..] == openQ;
      HeldPairMixedIff(cmdQ[1..], openQ[1..], Pair(cmdQ[0], openQ[0]));
    }
  }

  /** The loop exits with the calls queued and in hand delivered as their stable merge, except the two
      calls of a pair it may still hold; and it holds one exactly when the merge has at least three calls
      and ends with one of each kind: for sorted streams, when their last calls come into hand together. */
  lemma ExitDropsPairIff(m: Mach, deads: seq<set<int>>)
    requires MachOk(m) && m.pc.Top? && m.shut && !m.openBusy && !m.execBusy
    requires |deads| > Load(m.cmdQ, m.openQ, m.held)
    ensures var n := Passes(m, deads);
            var es, os := WithHeld(m.cmdQ, m.openQ, m.held).0, WithHeld(m.cmdQ, m.openQ, m.held).1;
            && n.pc.Halted? && m.log <= n.log
            && Uniform(n.log[|m.log|..] + Due(n.held)) == Merge(es, os)
            && (n.held.Some? <==> EndsMixed(Merge(es, os)))
            && (SortedExecs(es) && SortedOpens(os) ==>
                  (n.held.Some? <==> es != [] && os != [] && LastTwoMeet(es, os)))
  {
    hide WithHeld, Merge, Passes, ExitRun, LastTwoMeet, EndsMixed, Due, Uniform;
    ShutdownDrainsOut(m, deads);
    PairMixedIff(m.cmdQ, m.openQ, m.held);
    ExitRunMerges(m.cmdQ, m.openQ, m.held);
    var es, os := WithHeld(m.cmdQ, m.openQ, m.held).0, WithHeld(m.cmdQ, m.openQ, m.held).1;
    assert Passes(m, deads).log[|m.log|..] == ExitRun(m.cmdQ, m.openQ, m.held).0;
    if SortedExecs(es) && SortedOpens(os) {
      PairDroppedIff(m.cmdQ, m.openQ, m.held);
    }
  }

  // ----- The daemon comes to its end -----

  /** Only steps of main. */
  predicate MainOnly(steps: seq<Step>) {
    forall i :: 0 <= i < |steps| ==> steps[i].Main?
  }

  /** Any number of passes is what some number of consecutive steps of main do. */
  lemma {:induction false} PassesAreSteps(w: World, deads: seq<set<int>>) returns (steps: seq<Step>)
    requires MachOk(w.m) && (w.m.pc.Top? || w.m.pc.Halted?)
    ensures Run(w, steps) == w.(m := Passes(w.m, deads)) && MainOnly(steps)
    decreases |deads|
  {
    hide Pass, MachOk;
    if deads == [] || w.m.pc.Halted? {
      steps := [];
      assert Run(w, []) == w;
    } else {
      var n := PassIsMainSteps(w, deads[0]);
      var first := seq(n, _ => Main(deads[0]));
      var rest := PassesAreSteps(w.(m := Pass(w.m, deads[0])), deads[1..]);
      steps := first + rest;
      RunConcat(w, first, rest);
    }
  }

  /** What a stopped daemon has come to: nobody is busy, and shutdown is set. */
  lemma StoppedDaemonIsReady(ix: Index, steps: seq<Step>)
    requires WellFormed(ix) && Requested(steps)
    requires var w := Run(Start(ix), steps); w.execH.pc.Stopped? && w.openH.pc.Stopped?
    ensures var m := Run(Start(ix), steps).m; m.shut && !m.openBusy && !m.execBusy
  {
    hide WellFormed, Run;
    StoppedHandlersAreNotBusy(ix, steps);
    ShutdownIsRemembered(ix, steps);
  }

  /** After any run in which shutdown has been requested and both handlers have stopped, main, at the head of
      its loop, exits within twice the queued calls plus two passes, with both rings empty and everything
      queued and held delivered as the stable merge, but for the two calls of a pair it may still hold. */
  lemma StoppedDaemonExits(ix: Index, steps: seq<Step>, deads: seq<set<int>>) returns (more: seq<Step>)
    requires WellFormed(ix) && Requested(steps)
    requires var w := Run(Start(ix), steps);
             && w.execH.pc.Stopped? && w.openH.pc.Stopped? && w.m.pc.Top?
             && |deads| > Load(w.m.cmdQ, w.m.openQ, w.m.held)
    ensures var w := Run(Start(ix), steps);
            var v := Run(Start(ix), steps + more);
            var (es, os) := WithHeld(w.m.cmdQ, w.m.openQ, w.m.held);
            && v == w.(m := Passes(w.m, deads)) && MainOnly(more)
            && v.m.pc.Halted? && v.m.cmdQ == [] && v.m.openQ == [] && w.m.log <= v.m.log
            && Uniform(v.m.log[|w.m.log|..] + Due(v.m.held)) == Merge(es, os)
            && (v.m.held.Some? <==> EndsMixed(Merge(es, os)))
  {
    hide WellFormed, Run, Passes, Load, WithHeld, Merge, EndsMixed, Due, Uniform;
    var w := Run(Start(ix), steps);
    StoppedDaemonIsReady(ix, steps);
    ExitDropsPairIff(w.m, deads);
    ShutdownDrainsOut(w.m, deads);
    more := PassesAreSteps(w, deads);
    RunConcat(Start(ix), steps, more);
  }

  /** The same from any point of the loop: steps of main alone lead out of it. */
  lemma StoppedDaemonCanExit(ix: Index, steps: seq<Step>) returns (more: seq<Step>)
    requires WellFormed(ix) && Requested(steps)
    requires var w := Run(Start(ix), steps); w.execH.pc.Stopped? && w.openH.pc.Stopped?
    ensures Run(Start(ix), steps + more).m.pc.Halted? && MainOnly(more)
  {
    hide WellFormed, Run, Passes, Load, Finish;
    var w := Run(Start(ix), steps);
    var n := FinishIsMainSteps(w, {});
    var rest: seq<Step> := seq(n, _ => Main({}));
    RunConcat(Start(ix), steps, rest);
    var v := Run(Start(ix), steps + rest);
    if v.m.pc.Halted? {
      more := rest;
    } else {
      RequestedLonger(steps, rest);
      var deads: seq<set<int>> := seq(Load(v.m.cmdQ, v.m.openQ, v.m.held) + 1, _ => {});
      var last := StoppedDaemonExits(ix, steps + rest, deads);
      more := rest + last;
      assert steps + (rest + last) == steps + rest + last;
    }
  }

  lemma RequestedLonger(a: seq<Step>, b: seq<Step>)
    requires Requested(a)
    ensures Requested(a + b)
  {
    var i :| 0 <= i < |a| && a[i].Shutdown?;
    assert (a + b)[i] == a[i];
  }
}
