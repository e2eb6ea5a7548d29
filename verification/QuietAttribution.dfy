/** Emptying the rings: from two sorted streams to the records the open calls end up in. */
module QuietAttribution {
  import opened Basics
  import opened RingBuffers
  import opened ProcessIndex
  import opened RecordTable
  import opened EventLoop
  import opened MergeOrder
  import opened Attribution
  import opened DispatchBound
  import opened TableSteps
  import opened QuietRuns

  // ----- Passes, as a process sees them that no sweep touches -----

  /** The table follows what the log tells of p behind position base. */
  ghost predicate SettledByLog(m: Mach, earlier: seq<Generation>, start: Option<Rec>, base: nat, p: int) {
    base <= |m.log| && Settled(m, earlier, start, Handeds(m.log[base..]), p)
  }

  lemma StepSettlesByLog(m: Mach, dead: set<int>, earlier: seq<Generation>, start: Option<Rec>, base: nat, p: int)
    requires MachOk(m) && m.table.ix.Accepts(p) && p !in dead && Bounded(m) && MainStep(m, dead).peak <= 512
    requires SettledByLog(m, earlier, start, base, p)
    ensures var n := MainStep(m, dead); Bounded(n) && SettledByLog(n, earlier, start, base, p)
  {
    hide MainStep, MachOk, Settled, LifeOf, Bounded, StepTale, HandedBy, Handeds;
    var n, ds, d := MainStep(m, dead), m.log[base..], HandedBy(m);
    StepSettles(m, dead, earlier, start, Handeds(ds), p);
    SparedStep(start, Handeds(ds), m, dead, p);
    StepLogs(m, dead);
    assert n.log[base..] == ds + AsSeq(d);
    HandedsConcat(ds, AsSeq(d));
    SettledWithoutSweeps(n, earlier, start, Handeds(ds) + StepTale(m, dead), n.log[base..], p);
  }

  lemma HandedsConcat(a: seq<Delivery>, b: seq<Delivery>)
    ensures Handeds(a + b) == Handeds(a) + Handeds(b)
  {}

  lemma {:induction false} FinishPeak(m: Mach, dead: set<int>)
    requires MachOk(m)
    ensures m.peak <= Finish(m, dead).peak
    decreases Rank(m.pc)
  {
    if !m.pc.Top? && !m.pc.Halted? {
      hide MainStep, MachOk;
      StepOnTable(m, dead);
      FinishStep(m, dead);
      RankFalls(m, dead);
      FinishPeak(MainStep(m, dead), dead);
    }
  }

  lemma {:induction false} FinishSettles(m: Mach, dead: set<int>, earlier: seq<Generation>, start: Option<Rec>,
                                         base: nat, p: int)
    requires MachOk(m) && m.table.ix.Accepts(p) && p !in dead && Bounded(m) && Finish(m, dead).peak <= 512
    requires SettledByLog(m, earlier, start, base, p)
    ensures var n := Finish(m, dead);
            Bounded(n) && SettledByLog(n, earlier, start, base, p) && n.table.ix.maxPid == m.table.ix.maxPid
    decreases Rank(m.pc)
  {
    if !m.pc.Top? && !m.pc.Halted? {
      hide MainStep, MachOk, SettledByLog, Bounded;
      FinishStep(m, dead);
      RankFalls(m, dead);
      FinishPeak(MainStep(m, dead), dead);
      StepSettlesByLog(m, dead, earlier, start, base, p);
      FinishSettles(MainStep(m, dead), dead, earlier, start, base, p);
    }
  }

  /** No sweep finds this process dead. */
  predicate Spared(deads: seq<set<int>>, p: int) {
    forall i :: 0 <= i < |deads| ==> p !in deads[i]
  }

  lemma {:induction false} PassesPeak(m: Mach, deads: seq<set<int>>)
    requires MachOk(m) && (m.pc.Top? || m.pc.Halted?)
    ensures m.peak <= Passes(m, deads).peak
    decreases |deads|
  {
    if deads != [] && !m.pc.Halted? {
      hide MainStep, MachOk, Finish;
      StepOnTable(m, deads[0]);
      FinishPeak(MainStep(m, deads[0]), deads[0]);
      PassesPeak(Pass(m, deads[0]), deads[1..]);
    }
  }

  /** Any number of passes, whatever other processes they find dead. */
  lemma {:induction false} PassesSettle(m: Mach, deads: seq<set<int>>, earlier: seq<Generation>, start: Option<Rec>,
                                        base: nat, p: int)
    requires MachOk(m) && (m.pc.Top? || m.pc.Halted?) && m.table.ix.Accepts(p) && Spared(deads, p)
    requires Bounded(m) && Passes(m, deads).peak <= 512 && SettledByLog(m, earlier, start, base, p)
    ensures SettledByLog(Passes(m, deads), earlier, start, base, p)
    decreases |deads|
  {
    if deads != [] && !m.pc.Halted? {
      hide MainStep, MachOk, SettledByLog, Bounded, Finish;
      var n := MainStep(m, deads[0]);
      PassesPeak(Pass(m, deads[0]), deads[1..]);
      FinishPeak(n, deads[0]);
      StepSettlesByLog(m, deads[0], earlier, start, base, p);
      FinishSettles(n, deads[0], earlier, start, base, p);
      PassesSettle(Pass(m, deads[0]), deads[1..], earlier, start, base, p);
    }
  }

  lemma StartsSettled(m: Mach, p: int)
    requires MachOk(m) && !m.pc.Halted?
    ensures SettledByLog(m, GoneOf(SentOff(m.table), p), m.table.ix.At(p), |m.log|, p)
  {
    var earlier := GoneOf(SentOff(m.table), p);
    assert m.log[|m.log|..] == [] && Handeds([]) == [];
    assert earlier + [] == earlier;
  }

  // ----- Positions in the merge and positions in the rings -----

  /** The last exec call in the ring that is of the open call's process and not later than it, or -1. */
  function LatestExec(es: seq<Exec>, o: OpenCall): (c: int)
    ensures -1 <= c < |es|
    ensures c >= 0 ==> es[c].pid == o.pid && AtMost(es[c].time, o.time)
    ensures forall k :: c < k < |es| ==> !(es[k].pid == o.pid && AtMost(es[k].time, o.time))
  {
    if es == [] then -1
    else
      var n := |es| - 1;
      if es[n].pid == o.pid && AtMost(es[n].time, o.time) then n else LatestExec(es[..n], o)
  }

  lemma {:induction false} ExecPosition(ds: seq<Delivery>, k: nat) returns (i: nat)
    requires k < |Execs(ds)|
    ensures i < |ds| && IsExec(ds[i]) && ds[i].e == Execs(ds)[k] && |Execs(ds[..i])| == k
  {
    var n := |ds| - 1;
    var front := ds[..n];
    if k < |Execs(front)| {
      i := ExecPosition(front, k);
      assert front[..i] == ds[..i];
    } else {
      i := n;
    }
  }

  lemma {:induction false} OpenPosition(ds: seq<Delivery>, k: nat) returns (i: nat)
    requires k < |Opens(ds)|
    ensures i < |ds| && !IsExec(ds[i]) && ds[i].o == Opens(ds)[k]
  {
    var n := |ds| - 1;
    if k < |Opens(ds[..n])| {
      i := OpenPosition(ds[..n], k);
    } else {
      i := n;
    }
  }

  lemma ExecAt(ds: seq<Delivery>, i: nat)
    requires i < |ds| && IsExec(ds[i])
    ensures |Execs(ds[..i])| < |Execs(ds)| && Execs(ds)[|Execs(ds[..i])|] == ds[i].e
  {
    ProjectConcat(ds[..i], ds[i..]);
    assert ds == ds[..i] + ds[i..];
    assert ds[i..] == [ds[i]] + ds[i + 1..];
    ProjectCons(ds[i], ds[i + 1..]);
  }

  lemma CountGrows(ds: seq<Delivery>, i: nat, j: nat)
    requires i <= j <= |ds|
    ensures |Execs(ds[..i])| <= |Execs(ds[..j])|
  {
    assert ds[..j] == ds[..i] + ds[i..j];
    ProjectConcat(ds[..i], ds[i..j]);
  }

  /** In a sorted sequence the last exec call of the process before an open call is the latest one, by
      timestamp, that is not later than the open call. */
  lemma LastIsLatest(ds: seq<Delivery>, j: nat, i: int)
    requires Sorted(ds) && j < |ds| && ds[j].Opened?
    requires -1 <= i < j && (i >= 0 ==> IsExec(ds[i]) && PidOf(ds[i]) == ds[j].o.pid)
    requires forall k :: i < k < j && PidOf(ds[k]) == ds[j].o.pid ==> !IsExec(ds[k])
    ensures var c := LatestExec(Execs(ds), ds[j].o);
            && (i < 0 <==> c < 0)
            && (i >= 0 ==> ds[i].e == Execs(ds)[c])
  {
    hide Execs, LatestExec;
    var o := ds[j].o;
    var c := LatestExec(Execs(ds), o);
    if i >= 0 {
      assert InOrder(ds[i], ds[j]);
      ExecAt(ds, i);
      assert |Execs(ds[..i])| <= c;
    }
    if c >= 0 {
      var k := ExecPosition(ds, c);
      LaterThanExec(ds, j, k);
      assert k <= i;
      CountGrows(ds, k, i);
    }
  }

  /** In a sorted sequence an exec call that is not later than an open call stands before it. */
  lemma LaterThanExec(ds: seq<Delivery>, j: nat, k: nat)
    requires Sorted(ds) && j < |ds| && k < |ds| && ds[j].Opened? && IsExec(ds[k])
    requires AtMost(ds[k].e.time, ds[j].o.time)
    ensures k < j
  {}

  // ----- The theorem -----

  /** What the record says of its process is what the exec call, the record the table started with, or
      the placeholder says. */
  ghost predicate Identifies(r: Rec, first: Index, es: seq<Exec>, c: int, p: int)
    requires -1 <= c < |es|
  {
    && r.pid == p
    && if c >= 0 then r.cmd == es[c].cmd && r.args == es[c].args && r.time == es[c].time
       else if first.At(p).Some? then
         r.cmd == first.At(p).value.cmd && r.args == first.At(p).value.args && r.time == first.At(p).value.time
       else r.args == UNKNOWN && r.time == EPOCH && r.calls != [] && r.cmd == r.calls[0].cmd
  }

  lemma {:induction false} AbsentMeansUnheard(start: Option<Rec>, ds: seq<Delivery>, i: nat, p: int)
    requires i <= |ds| && Absent(start, Handeds(ds), i, p)
    ensures start.None? && forall k :: 0 <= k < i ==> PidOf(ds[k]) != p
    decreases i
  {
    if i > 0 {
      AbsentMeansUnheard(start, ds, i - 1, p);
    }
  }

  /** Before an open call, with no direct insertion before it: where the generation began is the last exec
      call of the process, or there is none. */
  lemma StartIsLastExec(start: Option<Rec>, ds: seq<Delivery>, j: nat, p: int) returns (q: int)
    requires j < |ds| && ds[j].Opened? && ds[j].o.pid == p && forall k :: 0 <= k < j ==> !ds[k].Insert?
    ensures -1 <= q < j && (q >= 0 ==> IsExec(ds[q]) && PidOf(ds[q]) == p)
    ensures forall k :: q < k < j && PidOf(ds[k]) == p ==> !IsExec(ds[k])
    ensures var i := LastStart(start, Handeds(ds), j + 1, p);
            if q >= 0 then i == q else if start.Some? then i == -1 else i >= 0 && ds[i].Opened?
  {
    var xs := Handeds(ds);
    var i := LastStart(start, xs, j + 1, p);
    NoEndSinceStart(start, xs, j + 1, p);
    q := if i >= 0 && IsExec(ds[i]) then i else -1;
    if i >= 0 && !IsExec(ds[i]) {
      AbsentMeansUnheard(start, ds, i, p);
    }
    forall k | q < k < j && PidOf(ds[k]) == p ensures !IsExec(ds[k]) {
      if k > i {
        assert !Ends(xs[k], p);
      }
    }
  }

  /** Deliveries that are the front of a sorted merge, the direct insertions last: the position of the k-th
      open call, and what its generation says of the process. */
  lemma MergedCallIdentified(first: Index, ds: seq<Delivery>, rest: seq<Delivery>, es: seq<Exec>, os: seq<OpenCall>,
                             k: nat) returns (j: nat)
    requires SortedExecs(es) && SortedOpens(os) && Uniform(ds + rest) == Merge(es, os) && InsertsLast(ds)
    requires k < |os| - |Opens(rest)|
    ensures j < |ds| && ds[j] == Opened(os[k])
    ensures var start, p := first.At(os[k].pid), os[k].pid;
            var i := LastStart(start, Handeds(ds), j + 1, p);
            forall r: Rec | && r.pid == p && Born(start, Handeds(ds), i, p)
                            && GenOf(r) == GenerationFrom(start, Handeds(ds), i, p)
              :: Identifies(r, first, es, LatestExec(es, os[k]), p)
  {
    hide Execs, Opens, Merge, CallsFrom, LatestExec, LastStart;
    var all, o := ds + rest, os[k];
    UniformMerge(all, es, os);
    ProjectConcat(ds, rest);
    j := OpenPosition(ds, k);
    var start := first.At(o.pid);
    assert forall n :: 0 <= n < |ds| ==> all[n] == ds[n];
    var q := StartIsLastExec(start, ds, j, o.pid);
    LastIsLatest(all, j, q);
  }

  /** With both streams sorted by time, nothing arriving and main not about to exit, every open call queued or
      in hand whose process no sweep finds dead ends up in the buffer of the latest exec call of its process
      that is not later than it; if there is none, in the record the table held for the process, or in its
      "unknown" placeholder. Other processes may be found dead, but for an overflow of the ring. */
  lemma OpenCallsReachTheirExecCalls(m: Mach, deads: seq<set<int>>, k: nat) returns (r: Rec)
    requires MachOk(m) && m.pc.Top? && GoesOn(m, |deads|) && Bounded(m) && Passes(m, deads).peak <= 512
    requires |deads| >= Load(m.cmdQ, m.openQ, m.held)
    requires var (es, os) := WithHeld(m.cmdQ, m.openQ, m.held);
             && SortedExecs(es) && SortedOpens(os)
             && k < |os| && m.table.ix.Accepts(os[k].pid) && Spared(deads, os[k].pid)
    ensures var (es, os) := WithHeld(m.cmdQ, m.openQ, m.held);
            var t := Passes(m, deads).table;
            && (t.ix.At(r.pid) == Some(r) || r in t.archived + t.dispatch)
            && os[k] in r.calls
            && Identifies(r, m.table.ix, es, LatestExec(es, os[k]), os[k].pid)
  {
    hide WithHeld, WellFormed, Drive, LatestExec, Bounded, Merge, Execs, Passes, Load, GoesOn, Settled, LastStart,
      GenerationFrom, Identifies, GoneOf;
    var (es, os) := WithHeld(m.cmdQ, m.openQ, m.held);
    var ds, n, p := Drive(m.cmdQ, m.openQ, m.held), Passes(m, deads), os[k].pid;
    var earlier, start := GoneOf(SentOff(m.table), p), m.table.ix.At(p);
    QuietRunDrives(m, deads);
    QuietOutputIsStableMerge(m.cmdQ, m.openQ, m.held);
    DriveInsertsLast(m.cmdQ, m.openQ, m.held);
    StartsSettled(m, p);
    PassesSettle(m, deads, earlier, start, |m.log|, p);
    assert n.log[|m.log|..] == ds && ds + [] == ds;
    var j := MergedCallIdentified(m.table.ix, ds, [], es, os, k);
    r := SettledCallHasItsRecord(n, earlier, start, Handeds(ds), j);
  }

  lemma {:induction false} ExitRunInsertsLast(cmdQ: seq<Exec>, openQ: seq<OpenCall>, held: Option<Pair>)
    ensures InsertsLast(ExitRun(cmdQ, openQ, held).0)
    ensures held.None? && openQ == [] ==> forall d :: d in ExitRun(cmdQ, openQ, held).0 ==> d.Insert?
    decreases Load(cmdQ, openQ, held)
  {
    var t := TurnOf(cmdQ, openQ, held);
    if t.again || t.cmdQ != [] || t.openQ != [] {
      ExitRunInsertsLast(t.cmdQ, t.openQ, t.held);
    }
  }

  lemma DueOpens(held: Option<Pair>)
    ensures |Opens(Due(held))| == if held.Some? then 1 else 0
  {
    if held.Some? {
      var p := held.value;
      assert Due(held) == [First(p)] + [Second(p)];
      ProjectConcat([First(p)], [Second(p)]);
      ProjectOne(First(p));
      ProjectOne(Second(p));
    }
  }

  /** The same through the exit: with shutdown set and both handlers stopped, every open call queued or in
      hand whose process no sweep finds dead, but for the last one if the exit forgets it with its pair, ends
      up in a record that has been archived, or that a full ring refused during the final flush. */
  lemma OpenCallsReachTheArchive(m: Mach, deads: seq<set<int>>, k: nat) returns (r: Rec)
    requires MachOk(m) && m.pc.Top? && m.shut && !m.openBusy && !m.execBusy
    requires Bounded(m) && Passes(m, deads).peak <= 512
    requires |deads| > Load(m.cmdQ, m.openQ, m.held)
    requires var (es, os) := WithHeld(m.cmdQ, m.openQ, m.held);
             && SortedExecs(es) && SortedOpens(os)
             && k < |os| && m.table.ix.Accepts(os[k].pid) && Spared(deads, os[k].pid)
    requires k + 1 < |WithHeld(m.cmdQ, m.openQ, m.held).1| || Passes(m, deads).held.None?
    ensures var (es, os) := WithHeld(m.cmdQ, m.openQ, m.held);
            var n := Passes(m, deads);
            && n.pc.Halted? && r in n.table.archived + n.table.lost
            && os[k] in r.calls
            && Identifies(r, m.table.ix, es, LatestExec(es, os[k]), os[k].pid)
  {
    hide WithHeld, WellFormed, ExitRun, LatestExec, Bounded, Merge, Execs, Opens, Passes, Load, Due, Settled, LastStart,
      GenerationFrom, Identifies, GoneOf;
    var (es, os) := WithHeld(m.cmdQ, m.openQ, m.held);
    var (ds, last) := ExitRun(m.cmdQ, m.openQ, m.held);
    var n, p := Passes(m, deads), os[k].pid;
    var earlier, start := GoneOf(SentOff(m.table), p), m.table.ix.At(p);
    ShutdownDrainsOut(m, deads);
    ExitRunMerges(m.cmdQ, m.openQ, m.held);
    ExitRunInsertsLast(m.cmdQ, m.openQ, m.held);
    DueOpens(last);
    StartsSettled(m, p);
    PassesSettle(m, deads, earlier, start, |m.log|, p);
    assert n.log[|m.log|..] == ds;
    var j := MergedCallIdentified(m.table.ix, ds, Due(last), es, os, k);
    r := SettledCallHasItsRecord(n, earlier, start, Handeds(ds), j);
  }
}
