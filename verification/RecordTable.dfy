/** The process table together with the dispatch ring its records leave through. */
module RecordTable {
  import opened Basics
  import opened RingBuffers
  import opened ProcessIndex

  /** What main hands over: surv_addExecCall, procindex_add or procindex_opencall_add. */
  datatype Delivery = Replace(e: Exec) | Insert(e: Exec) | Opened(o: OpenCall)

  /** dispatch is the ring's contents, archived what has been drained from it, lost what a full ring
      refused: the code ignores that answer. */
  datatype Table = Table(ix: Index, dispatch: seq<Rec>, archived: seq<Rec>, lost: seq<Rec>)

  ghost predicate TableOk(t: Table) {
    WellFormed(t.ix) && |t.dispatch| <= SIZE_RING
  }

  /** How many of n records a ring holding q still takes. */
  function Room(q: seq<Rec>, n: nat): (k: nat)
    requires |q| <= SIZE_RING
    ensures k <= n && |q| + k <= SIZE_RING && (k < n ==> |q| + k == SIZE_RING)
  {
    Min(n, SIZE_RING - |q|)
  }

  /** Unchecked writes, one record after another. */
  function Send(t: Table, rs: seq<Rec>): (u: Table)
    requires |t.dispatch| <= SIZE_RING
    ensures |u.dispatch| <= SIZE_RING
  {
    var k := Room(t.dispatch, |rs|);
    t.(dispatch := t.dispatch + rs[..k], lost := t.lost + rs[k..])
  }

  /** surv_addExecCall: a record in the way is retrieved, sent off and replaced. */
  function AddExec(t: Table, e: Exec): Table
    requires TableOk(t)
  {
    var (ix1, result) := Add(t.ix, NewRec(e));
    if result != AlreadyExists then t.(ix := ix1)
    else
      AddIsInsertion(t.ix, NewRec(e));
      var (ix2, previous) := Retrieve(ix1, e.pid);
      RetrieveRemoves(ix1, e.pid);
      Send(t, [previous.value]).(ix := Add(ix2, NewRec(e)).0)
  }

  function Deliver(t: Table, d: Delivery): Table
    requires TableOk(t)
  {
    match d
    case Replace(e) => AddExec(t, e)
    case Insert(e) => t.(ix := Add(t.ix, NewRec(e)).0)
    case Opened(o) => t.(ix := OpenAdd(t.ix, o).0)
  }

  function SweepTable(t: Table, dead: set<int>): Table
    requires TableOk(t)
  {
    Send(t, DyingRecs(t.ix.slots, dead)).(ix := Sweep(t.ix, dead))
  }

  function FlushTable(t: Table): Table
    requires TableOk(t)
  {
    Send(t, TrackedRecs(t.ix.slots)).(ix := Flushed(t.ix))
  }

  function Drain(t: Table): Table {
    t.(dispatch := [], archived := t.archived + t.dispatch)
  }

  // ----- Well-formedness is kept -----

  lemma OpenAddWellFormed(ix: Index, o: OpenCall)
    requires WellFormed(ix)
    ensures WellFormed(OpenAdd(ix, o).0) && OpenAdd(ix, o).0.maxPid == ix.maxPid
    ensures OpenAdd(ix, o).0.slots[0].None?
    ensures OpenAdd(ix, o).1 == if ix.Accepts(o.pid) then Nominal else Rejected
    ensures ix.Accepts(o.pid) ==> OpenAdd(ix, o).0.Tracked(o.pid)
  {
    assert SlotOk(ix.slots[0], 0, |ix.slots|);
    if ix.Accepts(o.pid) {
      WithTargetHolds(ix, o);
      var g := WithTarget(ix, o);
      var m := Attach(g, o);
      var n := Mark(m, o.pid);
      AttachMarkedWellFormed(g, o);
      assert n.slots[0] == g.slots[0] && SlotOk(g.slots[0], 0, |g.slots|);
      if !m.Tracked(o.pid) {
        TrackParentsSlots(n, o.pid);
      } else {
        assert m == n by { assert m.slots == n.slots; }
      }
    }
  }

  lemma AttachMarkedWellFormed(g: Index, o: OpenCall)
    requires WellFormed(g) && g.At(o.pid).Some?
    ensures WellFormed(Mark(Attach(g, o), o.pid))
  {
    var n := Mark(Attach(g, o), o.pid);
    forall i | 0 <= i < |n.slots| ensures SlotOk(n.slots[i], i, |n.slots|) {
      assert SlotOk(g.slots[i], i, |g.slots|);
    }
  }

  /** The same slots, but for marks. */
  ghost predicate SameButMarks(a: Index, b: Index) {
    && WellFormed(b)
    && |b.slots| == |a.slots| > 0
    && b.slots[0] == a.slots[0]
    && (forall i :: 0 <= i < |a.slots| ==> SameCalls(a.slots[i], b.slots[i]))
    && (forall p :: a.Tracked(p) ==> b.Tracked(p))
  }

  lemma MarkSameButMarks(ix: Index, p: int)
    requires WellFormed(ix) && ix.At(p).Some?
    ensures SameButMarks(ix, Mark(ix, p))
  {
    var n := Mark(ix, p);
    forall i | 0 <= i < |n.slots| ensures SlotOk(n.slots[i], i, |n.slots|) && SameCalls(ix.slots[i], n.slots[i]) {
      assert SlotOk(ix.slots[i], i, |ix.slots|);
    }
  }

  lemma SameButMarksCompose(a: Index, b: Index, c: Index)
    requires SameButMarks(a, b) && SameButMarks(b, c)
    ensures SameButMarks(a, c)
  {
    hide WellFormed;
    forall i | 0 <= i < |a.slots| ensures SameCalls(a.slots[i], c.slots[i]) {
      assert SameCalls(a.slots[i], b.slots[i]) && SameCalls(b.slots[i], c.slots[i]);
    }
  }

  lemma SameButNoMarks(ix: Index)
    requires WellFormed(ix)
    ensures SameButMarks(ix, ix)
  {}

  /** Walking up the parents changes no slot but for its mark. */
  lemma {:induction false} TrackParentsSlots(ix: Index, child: int)
    requires WellFormed(ix) && ix.At(child).Some?
    ensures SameButMarks(ix, TrackParents(ix, child))
    decreases Untracked(ix.slots)
  {
    hide WellFormed, SameButMarks, Untracked;
    var parent: int := ix.At(child).value.ppid;
    if parent != 0 && ix.At(parent).Some? && !ix.At(parent).value.tracked {
      MarkShrinksUntracked(ix.slots, parent + 1, ix.At(parent).value.(tracked := true));
      MarkSameButMarks(ix, parent);
      SameButMarksWellFormed(ix, Mark(ix, parent));
      TrackParentsSlots(Mark(ix, parent), parent);
      SameButMarksCompose(ix, Mark(ix, parent), TrackParents(ix, child));
    } else {
      SameButNoMarks(ix);
    }
  }

  lemma SameButMarksWellFormed(a: Index, b: Index)
    requires SameButMarks(a, b)
    ensures WellFormed(b)
  {}

  predicate SameCalls(a: Option<Rec>, b: Option<Rec>) {
    a.Some? == b.Some? && (a.Some? ==> b.value == a.value.(tracked := b.value.tracked))
  }

  lemma AddExecEffect(t: Table, e: Exec)
    requires TableOk(t)
    ensures TableOk(AddExec(t, e)) && AddExec(t, e).ix.maxPid == t.ix.maxPid
    ensures AddExec(t, e).archived == t.archived
    ensures forall p :: p != e.pid ==> AddExec(t, e).ix.At(p) == t.ix.At(p)
    ensures t.ix.Accepts(e.pid) ==>
              AddExec(t, e).ix.At(e.pid) == Some(Linked(Retrieve(t.ix, e.pid).0, NewRec(e)))
    ensures AddExec(t, e) ==
            if t.ix.At(e.pid).Some? && t.ix.Accepts(e.pid)
            then Send(t, [t.ix.At(e.pid).value]).(ix := AddExec(t, e).ix) else t.(ix := AddExec(t, e).ix)
  {
    AddIsInsertion(t.ix, NewRec(e));
    var (ix1, result) := Add(t.ix, NewRec(e));
    RetrieveRemoves(t.ix, e.pid);
    if result == AlreadyExists {
      RetrieveRemoves(ix1, e.pid);
      AddIsInsertion(Retrieve(ix1, e.pid).0, NewRec(e));
      assert Linked(Retrieve(ix1, e.pid).0, NewRec(e)) == Linked(Retrieve(t.ix, e.pid).0, NewRec(e));
    }
  }

  lemma DeliverOk(t: Table, d: Delivery)
    requires TableOk(t)
    ensures TableOk(Deliver(t, d)) && Deliver(t, d).ix.maxPid == t.ix.maxPid
    ensures Deliver(t, d).archived == t.archived
  {
    match d
    case Replace(e) => AddExecEffect(t, e);
    case Insert(e) => AddIsInsertion(t.ix, NewRec(e));
    case Opened(o) => OpenAddWellFormed(t.ix, o);
  }

  lemma SweepTableOk(t: Table, dead: set<int>)
    requires TableOk(t)
    ensures TableOk(SweepTable(t, dead)) && SweepTable(t, dead).ix.maxPid == t.ix.maxPid
  {
    SweepWellFormed(t.ix, dead);
  }

  lemma FlushTableOk(t: Table)
    requires TableOk(t)
    ensures TableOk(FlushTable(t)) && FlushTable(t).ix.maxPid == t.ix.maxPid
  {
    FlushedWellFormed(t.ix);
  }

  /** The path without comparison calls procindex_add directly: it does what surv_addExecCall does exactly
      when no record of the pid is in the way; a re-exec is dropped. */
  lemma InsertReplacesIff(t: Table, e: Exec)
    requires TableOk(t)
    ensures Deliver(t, Insert(e)) == Deliver(t, Replace(e)) <==> !(t.ix.Accepts(e.pid) && t.ix.At(e.pid).Some?)
    ensures t.ix.At(e.pid).Some? ==> forall p :: Deliver(t, Insert(e)).ix.At(p) == t.ix.At(p)
  {
    AddIsInsertion(t.ix, NewRec(e));
    AddExecEffect(t, e);
    if t.ix.Accepts(e.pid) && t.ix.At(e.pid).Some? {
      var u := Send(t, [t.ix.At(e.pid).value]);
      assert |u.dispatch| + |u.lost| == |t.dispatch| + |t.lost| + 1;
    }
  }

  // ----- What a new record says -----

  /** The record of an exec call that has been put in: the call's own fields, no mark, no open calls, and the
      parent, with its timestamp, if the parent has a record of its own. */
  lemma ExecCallRecord(t: Table, d: Delivery)
    requires TableOk(t) && !d.Opened? && t.ix.Accepts(d.e.pid) && (d.Insert? ==> t.ix.At(d.e.pid).None?)
    ensures Deliver(t, d).ix.At(d.e.pid).Some?
    ensures var e, r, parent := d.e, Deliver(t, d).ix.At(d.e.pid).value, t.ix.At(d.e.ppid);
            && r.pid == e.pid && r.cmd == e.cmd && r.args == e.args && r.time == e.time
            && !r.tracked && r.deadness == 0 && r.calls == []
            && (if e.ppid != e.pid && parent.Some? then r.ppid == e.ppid && r.ptime == parent.value.time
                else r.ppid == 0 && r.ptime == Time(0, 0))
  {
    hide AddExec, Add, WellFormed;
    AddIsInsertion(t.ix, NewRec(d.e));
    AddExecEffect(t, d.e);
    RetrieveRemoves(t.ix, d.e.pid);
  }

  /** The record of a process known only by an open call. */
  lemma PlaceholderRecord(t: Table, o: OpenCall)
    requires TableOk(t) && t.ix.Accepts(o.pid) && t.ix.At(o.pid).None?
    ensures Deliver(t, Opened(o)).ix.At(o.pid).Some?
    ensures var r := Deliver(t, Opened(o)).ix.At(o.pid).value;
            && r.pid == o.pid && r.ppid == 0 && r.cmd == o.cmd && r.time == Time(0, 0)
            && r.args == ['u' as int, 'n' as int, 'k' as int, 'n' as int, 'o' as int, 'w' as int, 'n' as int]
            && r.tracked && r.deadness == 0 && r.calls == [o]
  {
    hide WithTarget, TrackParents;
    WithTargetHolds(t.ix, o);
    var n := Mark(Attach(WithTarget(t.ix, o), o), o.pid);
    AttachMarkedWellFormed(WithTarget(t.ix, o), o);
    TrackParentsSlots(n, o.pid);
    assert SameCalls(n.slots[o.pid + 1], TrackParents(n, o.pid).slots[o.pid + 1]);
    assert [] + [o] == [o];
  }

  // ----- What is lost -----

  /** Unchecked writes lose a record exactly when there are more of them than room. */
  lemma SendLosesIff(t: Table, rs: seq<Rec>)
    requires |t.dispatch| <= SIZE_RING
    ensures Send(t, rs).lost == t.lost <==> |t.dispatch| + |rs| <= SIZE_RING
    ensures Send(t, rs).lost == t.lost ==> Send(t, rs).dispatch == t.dispatch + rs
    ensures t.lost <= Send(t, rs).lost && Send(t, rs).dispatch + Send(t, rs).lost[|t.lost|..] == t.dispatch + rs
  {
    var k := Room(t.dispatch, |rs|);
    assert rs[..k] + rs[k..] == rs;
    assert t.dispatch + rs[..k] + rs[k..] == t.dispatch + (rs[..k] + rs[k..]);
    assert Send(t, rs).lost[|t.lost|..] == rs[k..];
    assert |Send(t, rs).lost| == |t.lost| + |rs| - k;
    if k == |rs| {
      assert rs[..k] == rs && rs[k..] == [];
      assert t.lost + [] == t.lost;
    }
  }

  /** surv_addExecCall loses the previous record exactly when there is one and the ring is full. */
  lemma ReplaceLosesIff(t: Table, e: Exec)
    requires TableOk(t)
    ensures AddExec(t, e).lost == t.lost <==>
            !(t.ix.Accepts(e.pid) && t.ix.At(e.pid).Some? && |t.dispatch| == SIZE_RING)
  {
    hide WellFormed, AddExec;
    AddExecEffect(t, e);
    if t.ix.Accepts(e.pid) && t.ix.At(e.pid).Some? {
      SendLosesIff(t, [t.ix.At(e.pid).value]);
    }
  }

  // ----- Records in pid order -----

  /** r is the tracked record of pid p. */
  ghost predicate TrackedAt(ix: Index, p: int, r: Rec) {
    ix.At(p) == Some(r) && r.tracked
  }

  ghost predicate ListsOnly(ix: Index, wanted: int -> bool, n: nat, rs: seq<Rec>) {
    forall k :: 0 <= k < |rs| ==> 0 <= rs[k].pid < n - 1 && wanted(rs[k].pid) && TrackedAt(ix, rs[k].pid, rs[k])
  }

  ghost predicate ByPid(rs: seq<Rec>) {
    forall j, k :: 0 <= j < k < |rs| ==> rs[j].pid < rs[k].pid
  }

  ghost predicate ListsAll(ix: Index, wanted: int -> bool, n: nat, rs: seq<Rec>) {
    forall p :: p < n - 1 && wanted(p) && ix.Tracked(p) ==> ix.At(p).value in rs
  }

  /** rs holds the wanted tracked records of the first n slots: those and no others, in pid order, each once. */
  ghost predicate Lists(ix: Index, wanted: int -> bool, n: nat, rs: seq<Rec>) {
    ListsOnly(ix, wanted, n, rs) && ByPid(rs) && ListsAll(ix, wanted, n, rs)
  }

  lemma ListsNothing(ix: Index, wanted: int -> bool)
    ensures Lists(ix, wanted, 0, [])
  {}

  /** What the next slot holds: nothing at the front, and else a record of the pid before its position. */
  lemma NextSlot(ix: Index, n: nat)
    requires WellFormed(ix) && n < |ix.slots|
    ensures n == 0 ==> ix.slots[n].None?
    ensures n > 0 ==> ix.At(n - 1) == ix.slots[n]
    ensures ix.slots[n].Some? ==> ix.slots[n].value.pid == n - 1
  {
    assert SlotOk(ix.slots[n], n, |ix.slots|);
  }

  function Picked(slot: Option<Rec>, wanted: int -> bool): seq<Rec> {
    if slot.Some? && slot.value.tracked && wanted(slot.value.pid) then [slot.value] else []
  }

  lemma ListsNextSlot(ix: Index, wanted: int -> bool, n: nat, rs: seq<Rec>)
    requires WellFormed(ix) && n < |ix.slots| && Lists(ix, wanted, n, rs)
    ensures Lists(ix, wanted, n + 1, rs + Picked(ix.slots[n], wanted))
  {
    NextSlot(ix, n);
    hide WellFormed;
    ListsNextOnly(ix, wanted, n, rs);
    ListsNextByPid(ix, wanted, n, rs);
    ListsNextAll(ix, wanted, n, rs);
  }

  lemma ListsNextOnly(ix: Index, wanted: int -> bool, n: nat, rs: seq<Rec>)
    requires n < |ix.slots| && ListsOnly(ix, wanted, n, rs)
    requires ix.slots[n].Some? ==> n > 0 && ix.At(n - 1) == ix.slots[n] && ix.slots[n].value.pid == n - 1
    ensures ListsOnly(ix, wanted, n + 1, rs + Picked(ix.slots[n], wanted))
  {
    hide Index.At;
    var more := rs + Picked(ix.slots[n], wanted);
    forall k | 0 <= k < |more|
      ensures 0 <= more[k].pid < n && wanted(more[k].pid) && TrackedAt(ix, more[k].pid, more[k])
    {
      if k < |rs| {
        assert more[k] == rs[k];
      } else {
        assert more[k] == ix.slots[n].value;
      }
    }
  }

  lemma ListsNextByPid(ix: Index, wanted: int -> bool, n: nat, rs: seq<Rec>)
    requires n < |ix.slots| && ListsOnly(ix, wanted, n, rs) && ByPid(rs)
    requires ix.slots[n].Some? ==> ix.slots[n].value.pid == n - 1
    ensures ByPid(rs + Picked(ix.slots[n], wanted))
  {
    hide Index.At;
    var more := rs + Picked(ix.slots[n], wanted);
    forall j, k | 0 <= j < k < |more| ensures more[j].pid < more[k].pid {
      assert more[j] == rs[j];
      if k < |rs| {
        assert more[k] == rs[k];
      } else {
        assert more[k] == ix.slots[n].value;
      }
    }
  }

  lemma ListsNextAll(ix: Index, wanted: int -> bool, n: nat, rs: seq<Rec>)
    requires n < |ix.slots| && ListsAll(ix, wanted, n, rs)
    requires n > 0 ==> ix.At(n - 1) == ix.slots[n]
    requires ix.slots[n].Some? ==> ix.slots[n].value.pid == n - 1
    ensures ListsAll(ix, wanted, n + 1, rs + Picked(ix.slots[n], wanted))
  {
    var more := rs + Picked(ix.slots[n], wanted);
    forall p | p < n && wanted(p) && ix.Tracked(p) ensures ix.At(p).value in more {
      assert p >= 0;
      if p == n - 1 {
        assert ix.At(p) == ix.slots[n] && Picked(ix.slots[n], wanted) == [ix.slots[n].value];
        assert more[|rs|] == ix.slots[n].value;
      } else {
        assert ix.At(p).value in rs;
      }
    }
  }

  // ----- The liveness sweep -----

  /** The sweep sends exactly the tracked records of processes found dead, in pid order. */
  lemma {:induction false} DyingRecsInPidOrder(ix: Index, dead: set<int>, n: nat)
    requires WellFormed(ix) && n <= |ix.slots|
    ensures Lists(ix, p => p in dead, n, DyingRecs(ix.slots[..n], dead))
    decreases n
  {
    hide WellFormed, Lists;
    if n == 0 {
      ListsNothing(ix, p => p in dead);
    } else {
      var rs: seq<Rec> := DyingRecs(ix.slots[..n - 1], dead);
      DyingRecsInPidOrder(ix, dead, n - 1);
      ListsNextSlot(ix, p => p in dead, n - 1, rs);
      assert ix.slots[..n][..n - 1] == ix.slots[..n - 1];
      assert rs + [] == rs;
    }
  }

  /** A sweep loses a record exactly when it sends more of them than the ring has room for. */
  lemma SweepLosesIff(t: Table, dead: set<int>)
    requires TableOk(t)
    ensures SweepTable(t, dead).lost == t.lost <==> |t.dispatch| + |DyingRecs(t.ix.slots, dead)| <= SIZE_RING
  {
    hide WellFormed;
    SendLosesIff(t, DyingRecs(t.ix.slots, dead));
  }

  /** One sweep after another. */
  function SweepAll(ix: Index, deads: seq<set<int>>): Index
    decreases |deads|
  {
    if deads == [] then ix else SweepAll(Sweep(ix, deads[0]), deads[1..])
  }

  /** How many of the sweeps find process p dead. */
  function TimesDead(deads: seq<set<int>>, p: int): nat
    decreases |deads|
  {
    if deads == [] then 0 else (if p in deads[0] then 1 else 0) + TimesDead(deads[1..], p)
  }

  /** A sweep leaves the record of every process alone that it does not find dead. */
  lemma SweepSparesTheLiving(ix: Index, dead: set<int>, p: int)
    requires WellFormed(ix) && p !in dead
    ensures Sweep(ix, dead).At(p) == ix.At(p)
  {
    SweepWellFormed(ix, dead);
    if ix.At(p).Some? {
      OwnPid(ix, p);
    }
  }

  lemma {:induction false} NothingStaysNothing(ix: Index, deads: seq<set<int>>, p: int)
    requires WellFormed(ix) && ix.At(p).None?
    ensures SweepAll(ix, deads).At(p).None?
    decreases |deads|
  {
    if deads != [] {
      SweepWellFormed(ix, deads[0]);
      NothingStaysNothing(Sweep(ix, deads[0]), deads[1..], p);
    }
  }

  /** An untracked record outlives three sweeps that find its process dead and is destroyed by the fourth,
      however many other sweeps there are; until then only its count changes. */
  lemma {:induction false} UntrackedGoesOnFourthSweep(ix: Index, deads: seq<set<int>>, p: int)
    requires WellFormed(ix) && ix.At(p).Some? && !ix.At(p).value.tracked && ix.At(p).value.deadness <= 3
    ensures var r, n := ix.At(p).value, TimesDead(deads, p);
            SweepAll(ix, deads).At(p) ==
            if n + r.deadness >= 4 then None else Some(r.(deadness := r.deadness + n))
    decreases |deads|
  {
    if deads != [] {
      SweepWellFormed(ix, deads[0]);
      OwnPid(ix, p);
      if Sweep(ix, deads[0]).At(p).None? {
        NothingStaysNothing(Sweep(ix, deads[0]), deads[1..], p);
      } else {
        UntrackedGoesOnFourthSweep(Sweep(ix, deads[0]), deads[1..], p);
      }
    }
  }

  /** A tracked record stays as it is until the first sweep that finds its process dead. */
  lemma {:induction false} TrackedGoesOnFirstSweep(ix: Index, deads: seq<set<int>>, p: int)
    requires WellFormed(ix) && ix.Tracked(p)
    ensures SweepAll(ix, deads).At(p) == if TimesDead(deads, p) > 0 then None else ix.At(p)
    decreases |deads|
  {
    if deads != [] {
      SweepWellFormed(ix, deads[0]);
      OwnPid(ix, p);
      if p in deads[0] {
        NothingStaysNothing(Sweep(ix, deads[0]), deads[1..], p);
      } else {
        TrackedGoesOnFirstSweep(Sweep(ix, deads[0]), deads[1..], p);
      }
    }
  }

  // ----- The final flush -----

  /** In slot order is in pid order, each tracked record once. */
  lemma {:induction false} TrackedRecsInPidOrder(ix: Index, n: nat)
    requires WellFormed(ix) && n <= |ix.slots|
    ensures Lists(ix, _ => true, n, TrackedRecs(ix.slots[..n]))
    decreases n
  {
    hide WellFormed, Lists;
    if n == 0 {
      ListsNothing(ix, _ => true);
    } else {
      var rs: seq<Rec> := TrackedRecs(ix.slots[..n - 1]);
      TrackedRecsInPidOrder(ix, n - 1);
      ListsNextSlot(ix, _ => true, n - 1, rs);
      assert ix.slots[..n][..n - 1] == ix.slots[..n - 1];
      assert rs + [] == rs;
    }
  }

  /** The flush empties the table; with room in the ring it sends exactly the tracked records, in pid
      order, and it loses one exactly when there are more of them than room. */
  lemma FlushSendsTracked(t: Table)
    requires TableOk(t)
    ensures var u, rs := FlushTable(t), TrackedRecs(t.ix.slots);
            && (forall p :: u.ix.At(p) == None)
            && (forall r: Rec :: r in rs <==> TrackedAt(t.ix, r.pid, r))
            && (forall j, k :: 0 <= j < k < |rs| ==> rs[j].pid < rs[k].pid)
            && (u.lost == t.lost <==> |t.dispatch| + |rs| <= SIZE_RING)
            && (u.lost == t.lost ==> u.dispatch == t.dispatch + rs)
  {
    hide WellFormed;
    var rs := TrackedRecs(t.ix.slots);
    TrackedRecsInPidOrder(t.ix, |t.ix.slots|);
    assert t.ix.slots[..|t.ix.slots|] == t.ix.slots;
    forall r: Rec | TrackedAt(t.ix, r.pid, r) ensures r in rs {
      assert t.ix.Tracked(r.pid);
    }
    SendLosesIff(t, rs);
  }
}
