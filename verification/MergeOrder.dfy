/** The order in which the two rings are emptied: a stable merge by timestamp. */
module MergeOrder {
  import opened Basics
  import opened ProcessIndex
  import opened RecordTable
  import opened EventLoop

  predicate IsExec(d: Delivery) {
    !d.Opened?
  }

  function TimeOf(d: Delivery): Time {
    if d.Opened? then d.o.time else d.e.time
  }

  /** a may be handed over before b: exec calls go before open calls of the same time. */
  predicate InOrder(a: Delivery, b: Delivery) {
    if IsExec(a) || !IsExec(b) then AtMost(TimeOf(a), TimeOf(b)) else Before(TimeOf(a), TimeOf(b))
  }

  ghost predicate Sorted(ds: seq<Delivery>) {
    forall i, j :: 0 <= i < j < |ds| ==> InOrder(ds[i], ds[j])
  }

  ghost predicate SortedExecs(es: seq<Exec>) {
    forall i, j :: 0 <= i < j < |es| ==> AtMost(es[i].time, es[j].time)
  }

  ghost predicate SortedOpens(os: seq<OpenCall>) {
    forall i, j :: 0 <= i < j < |os| ==> AtMost(os[i].time, os[j].time)
  }

  function Execs(ds: seq<Delivery>): seq<Exec> {
    if ds == [] then [] else Execs(ds[..|ds| - 1]) + if IsExec(ds[|ds| - 1]) then [ds[|ds| - 1].e] else []
  }

  function Opens(ds: seq<Delivery>): seq<OpenCall> {
    if ds == [] then [] else Opens(ds[..|ds| - 1]) + if IsExec(ds[|ds| - 1]) then [] else [ds[|ds| - 1].o]
  }

  lemma ProjectSnoc(ds: seq<Delivery>, d: Delivery)
    ensures Execs(ds + [d]) == Execs(ds) + if IsExec(d) then [d.e] else []
    ensures Opens(ds + [d]) == Opens(ds) + if IsExec(d) then [] else [d.o]
  {
    assert (ds + [d])[..|ds|] == ds;
  }

  lemma {:induction false} ProjectConcat(a: seq<Delivery>, b: seq<Delivery>)
    ensures Execs(a + b) == Execs(a) + Execs(b)
    ensures Opens(a + b) == Opens(a) + Opens(b)
    decreases |b|
  {
    if b == [] {
      assert a + b == a;
    } else {
      var c, d := b[..|b| - 1], b[|b| - 1];
      assert b == c + [d] && a + b == (a + c) + [d];
      ProjectConcat(a, c);
      ProjectSnoc(a + c, d);
    }
  }

  lemma ProjectOne(d: Delivery)
    ensures Execs([d]) == if IsExec(d) then [d.e] else []
    ensures Opens([d]) == if IsExec(d) then [] else [d.o]
  {
    assert [d] == [] + [d];
    ProjectSnoc([], d);
  }

  // ----- Emptying the rings, turn by turn -----

  function Load(cmdQ: seq<Exec>, openQ: seq<OpenCall>, held: Option<Pair>): nat {
    2 * (|cmdQ| + |openQ|) + if held.Some? then 1 else 0
  }

  /** All deliveries until nothing is left, when nothing arrives. */
  function Drive(cmdQ: seq<Exec>, openQ: seq<OpenCall>, held: Option<Pair>): seq<Delivery>
    decreases Load(cmdQ, openQ, held)
  {
    if Load(cmdQ, openQ, held) == 0 then []
    else
      var t := TurnOf(cmdQ, openQ, held);
      t.deliveries + Drive(t.cmdQ, t.openQ, t.held)
  }

  /** The same delivery, whichever way an exec call is put in. */
  function AsReplace(d: Delivery): Delivery {
    if d.Insert? then Replace(d.e) else d
  }

  function Uniform(ds: seq<Delivery>): (r: seq<Delivery>)
    ensures |r| == |ds| && forall i :: 0 <= i < |ds| ==> r[i] == AsReplace(ds[i])
  {
    seq(|ds|, i requires 0 <= i < |ds| => AsReplace(ds[i]))
  }

  /** The textbook merge of two queues. */
  function Merge(es: seq<Exec>, os: seq<OpenCall>): seq<Delivery>
    decreases |es| + |os|
  {
    if es == [] && os == [] then []
    else if os == [] || (es != [] && AtMost(es[0].time, os[0].time)) then [Replace(es[0])] + Merge(es[1..], os)
    else [Opened(os[0])] + Merge(es, os[1..])
  }

  function WithHeld(cmdQ: seq<Exec>, openQ: seq<OpenCall>, held: Option<Pair>): (seq<Exec>, seq<OpenCall>) {
    match held
    case None => (cmdQ, openQ)
    case Some(p) => ([p.e] + cmdQ, [p.o] + openQ)
  }

  lemma MergeHead(es: seq<Exec>, os: seq<OpenCall>, e: Exec, o: OpenCall)
    ensures Merge([e] + es, [o] + os) ==
            if AtMost(e.time, o.time) then [Replace(e)] + Merge(es, [o] + os) else [Opened(o)] + Merge([e] + es, os)
    ensures Merge([], [o] + os) == [Opened(o)] + Merge([], os)
    ensures Merge([e] + es, []) == [Replace(e)] + Merge(es, [])
  {
    assert ([e] + es)[1..] == es && ([o] + os)[1..] == os;
  }

  lemma UniformConcat(a: seq<Delivery>, b: seq<Delivery>)
    ensures Uniform(a + b) == Uniform(a) + Uniform(b)
  {}

  /** One turn, with whatever is held, takes its deliveries off the front of the merge. */
  lemma TurnMerges(cmdQ: seq<Exec>, openQ: seq<OpenCall>, held: Option<Pair>)
    ensures var t := TurnOf(cmdQ, openQ, held);
            Uniform(t.deliveries) + Merge(WithHeld(t.cmdQ, t.openQ, t.held).0, WithHeld(t.cmdQ, t.openQ, t.held).1)
            == Merge(WithHeld(cmdQ, openQ, held).0, WithHeld(cmdQ, openQ, held).1)
  {
    hide Merge;
    match held
    case Some(p) => HeldTurnMerges(cmdQ, openQ, p);
    case None =>
      if cmdQ != [] || openQ != [] {
        IdleTurnMerges(cmdQ, openQ);
      } else {
        MergeNothing();
      }
  }

  /** Held pair and compare mode or not, what comes out is the merge. */
  lemma {:induction false} DriveMerges(cmdQ: seq<Exec>, openQ: seq<OpenCall>, held: Option<Pair>)
    ensures Uniform(Drive(cmdQ, openQ, held)) ==
            Merge(WithHeld(cmdQ, openQ, held).0, WithHeld(cmdQ, openQ, held).1)
    decreases Load(cmdQ, openQ, held)
  {
    hide Merge, WithHeld;
    TurnMerges(cmdQ, openQ, held);
    if Load(cmdQ, openQ, held) == 0 {
      NothingToMerge();
    } else {
      var t := TurnOf(cmdQ, openQ, held);
      DriveMerges(t.cmdQ, t.openQ, t.held);
      UniformConcat(t.deliveries, Drive(t.cmdQ, t.openQ, t.held));
    }
  }

  lemma NothingToMerge()
    ensures Merge(WithHeld([], [], None).0, WithHeld([], [], None).1) == []
  {}

  lemma MergeNothing()
    ensures Merge([], []) == []
  {}

  lemma UniformOne(d: Delivery)
    requires !d.Insert?
    ensures Uniform([d]) == [d]
  {}

  lemma UniformTwo(c: Delivery, d: Delivery, ds: seq<Delivery>)
    requires !c.Insert? && !d.Insert?
    ensures Uniform([c, d]) + ds == [c] + ([d] + ds)
  {}

  lemma HeldTurnMerges(cmdQ: seq<Exec>, openQ: seq<OpenCall>, p: Pair)
    ensures var t := TurnOf(cmdQ, openQ, Some(p));
            Uniform(t.deliveries) + Merge(WithHeld(t.cmdQ, t.openQ, t.held).0, WithHeld(t.cmdQ, t.openQ, t.held).1)
            == Merge([p.e] + cmdQ, [p.o] + openQ)
  {
    hide Merge, Uniform;
    var t := TurnOf(cmdQ, openQ, Some(p));
    MergeHead(cmdQ, openQ, p.e, p.o);
    UniformOne(First(p));
    UniformTwo(First(p), Second(p), Merge(cmdQ, openQ));
    if t.held.Some? {
      assert ExecFirst(p) ==> [cmdQ[0]] + cmdQ[1..] == cmdQ;
      assert !ExecFirst(p) ==> [openQ[0]] + openQ[1..] == openQ;
    }
  }

  lemma IdleTurnMerges(cmdQ: seq<Exec>, openQ: seq<OpenCall>)
    requires cmdQ != [] || openQ != []
    ensures var t := TurnOf(cmdQ, openQ, None);
            Uniform(t.deliveries) + Merge(WithHeld(t.cmdQ, t.openQ, t.held).0, WithHeld(t.cmdQ, t.openQ, t.held).1)
            == Merge(cmdQ, openQ)
  {
    hide Merge;
    assert cmdQ != [] ==> cmdQ == [cmdQ[0]] + cmdQ[1..];
    assert openQ != [] ==> openQ == [openQ[0]] + openQ[1..];
    if cmdQ == [] {
      MergeOpen(openQ);
    } else if openQ == [] {
      MergeExec(cmdQ);
    } else {
      var m := Merge(cmdQ, openQ);
      assert Uniform([]) + m == m;
    }
  }

  lemma MergeOpen(os: seq<OpenCall>)
    requires os != []
    ensures Merge([], os) == [Opened(os[0])] + Merge([], os[1..])
  {}

  lemma MergeExec(es: seq<Exec>)
    requires es != []
    ensures Merge(es, []) == [Replace(es[0])] + Merge(es[1..], [])
  {}

  // ----- What the merge is -----

  lemma ProjectCons(d: Delivery, ds: seq<Delivery>)
    ensures Execs([d] + ds) == if IsExec(d) then [d.e] + Execs(ds) else Execs(ds)
    ensures Opens([d] + ds) == if IsExec(d) then Opens(ds) else [d.o] + Opens(ds)
  {
    ProjectConcat([d], ds);
    ProjectOne(d);
  }

  predicate ExecNext(es: seq<Exec>, os: seq<OpenCall>) {
    es != [] && (os == [] || AtMost(es[0].time, os[0].time))
  }

  lemma MergeStep(es: seq<Exec>, os: seq<OpenCall>)
    requires es != [] || os != []
    ensures ExecNext(es, os) ==> Merge(es, os) == [Replace(es[0])] + Merge(es[1..], os)
    ensures !ExecNext(es, os) ==> os != [] && Merge(es, os) == [Opened(os[0])] + Merge(es, os[1..])
  {}

  lemma ProjectNone()
    ensures Execs([]) == [] && Opens([]) == [] && Merge([], []) == []
  {}

  /** Nothing is lost, added or reordered within a ring. */
  lemma {:induction false} MergeKeepsBoth(es: seq<Exec>, os: seq<OpenCall>)
    ensures Execs(Merge(es, os)) == es && Opens(Merge(es, os)) == os
    decreases |es| + |os|
  {
    hide Execs, Opens, Merge;
    if es == [] && os == [] {
      ProjectNone();
    } else {
      MergeStep(es, os);
      if ExecNext(es, os) {
        MergeKeepsBoth(es[1..], os);
        ProjectCons(Replace(es[0]), Merge(es[1..], os));
      } else {
        MergeKeepsBoth(es, os[1..]);
        ProjectCons(Opened(os[0]), Merge(es, os[1..]));
      }
    }
  }

  lemma {:induction false} MergeElements(es: seq<Exec>, os: seq<OpenCall>, d: Delivery)
    requires d in Merge(es, os)
    ensures if IsExec(d) then d == Replace(d.e) && d.e in es else d.o in os
    decreases |es| + |os|
  {
    if es == [] && os == [] {
    } else if os == [] || (es != [] && AtMost(es[0].time, os[0].time)) {
      if d != Replace(es[0]) { MergeElements(es[1..], os, d); }
    } else {
      if d != Opened(os[0]) { MergeElements(es, os[1..], d); }
    }
  }

  lemma SortedCons(d: Delivery, ds: seq<Delivery>)
    requires Sorted(ds) && forall x :: x in ds ==> InOrder(d, x)
    ensures Sorted([d] + ds)
  {}

  lemma {:induction false} MergeSorted(es: seq<Exec>, os: seq<OpenCall>)
    requires SortedExecs(es) && SortedOpens(os)
    ensures Sorted(Merge(es, os))
    decreases |es| + |os|
  {
    if es == [] && os == [] {
    } else if os == [] || (es != [] && AtMost(es[0].time, os[0].time)) {
      MergeSorted(es[1..], os);
      var rest := Merge(es[1..], os);
      forall x | x in rest ensures InOrder(Replace(es[0]), x) {
        MergeElements(es[1..], os, x);
      }
      SortedCons(Replace(es[0]), rest);
    } else {
      MergeSorted(es, os[1..]);
      var rest := Merge(es, os[1..]);
      forall x | x in rest ensures InOrder(Opened(os[0]), x) {
        MergeElements(es, os[1..], x);
      }
      SortedCons(Opened(os[0]), rest);
    }
  }

  lemma {:induction false} ProjectUniform(ds: seq<Delivery>)
    ensures Execs(Uniform(ds)) == Execs(ds) && Opens(Uniform(ds)) == Opens(ds)
  {
    if ds != [] {
      var c := ds[..|ds| - 1];
      ProjectUniform(c);
      assert Uniform(ds)[..|ds| - 1] == Uniform(c);
    }
  }

  lemma UniformSorted(ds: seq<Delivery>)
    requires Sorted(Uniform(ds))
    ensures Sorted(ds)
  {
    forall i, j | 0 <= i < j < |ds| ensures InOrder(ds[i], ds[j]) {
      assert InOrder(Uniform(ds)[i], Uniform(ds)[j]);
    }
  }

  /** A sequence of deliveries that is, but for the way exec calls are put in, the merge of es and os:
      every call once, each stream in its own order, and sorted, exec calls first on ties, if the streams
      are. */
  lemma UniformMerge(ds: seq<Delivery>, es: seq<Exec>, os: seq<OpenCall>)
    requires Uniform(ds) == Merge(es, os)
    ensures Execs(ds) == es && Opens(ds) == os
    ensures SortedExecs(es) && SortedOpens(os) ==> Sorted(ds)
  {
    hide Merge, Execs, Opens;
    MergeKeepsBoth(es, os);
    ProjectUniform(ds);
    if SortedExecs(es) && SortedOpens(os) {
      MergeSorted(es, os);
      UniformSorted(ds);
    }
  }

  /** With no arrivals the rings come out, behind the held pair if there is one, as their stable merge. */
  lemma QuietOutputIsStableMerge(cmdQ: seq<Exec>, openQ: seq<OpenCall>, held: Option<Pair>)
    ensures var ds, es, os := Drive(cmdQ, openQ, held), WithHeld(cmdQ, openQ, held).0, WithHeld(cmdQ, openQ, held).1;
            && Uniform(ds) == Merge(es, os)
            && Execs(ds) == es && Opens(ds) == os
            && (SortedExecs(es) && SortedOpens(os) ==> Sorted(ds))
  {
    hide Drive, Merge, Execs, Opens, WithHeld;
    DriveMerges(cmdQ, openQ, held);
    UniformMerge(Drive(cmdQ, openQ, held), WithHeld(cmdQ, openQ, held).0, WithHeld(cmdQ, openQ, held).1);
  }

  /** Exec calls put in by procindex_add come last: no open call follows one. */
  ghost predicate InsertsLast(ds: seq<Delivery>) {
    forall i, j :: 0 <= i < j < |ds| && ds[i].Insert? ==> ds[j].Insert?
  }

  lemma {:induction false} DriveInsertsLast(cmdQ: seq<Exec>, openQ: seq<OpenCall>, held: Option<Pair>)
    ensures InsertsLast(Drive(cmdQ, openQ, held))
    ensures held.None? && openQ == [] ==> forall d :: d in Drive(cmdQ, openQ, held) ==> d.Insert?
    decreases Load(cmdQ, openQ, held)
  {
    if Load(cmdQ, openQ, held) != 0 {
      var t := TurnOf(cmdQ, openQ, held);
      DriveInsertsLast(t.cmdQ, t.openQ, t.held);
    }
  }
}
