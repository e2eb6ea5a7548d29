/** Where the open calls are: every one added sits in exactly one call buffer until it is archived. */
module OpenConservation {
  import opened Basics
  import opened RingBuffers
  import opened ProcessIndex
  import opened RecordTable

  function SlotCalls(slot: Option<Rec>): multiset<OpenCall> {
    if slot.Some? then multiset(slot.value.calls) else multiset{}
  }

  function IndexCalls(slots: seq<Option<Rec>>): multiset<OpenCall> {
    if slots == [] then multiset{} else IndexCalls(slots[..|slots| - 1]) + SlotCalls(slots[|slots| - 1])
  }

  function RecCalls(rs: seq<Rec>): multiset<OpenCall> {
    if rs == [] then multiset{} else RecCalls(rs[..|rs| - 1]) + multiset(rs[|rs| - 1].calls)
  }

  /** All calls in all call buffers: in the index, in the dispatch ring, archived, or refused by the ring. */
  function AllCalls(t: Table): multiset<OpenCall> {
    IndexCalls(t.ix.slots) + RingCalls(t)
  }

  /** The calls of the records that have left the index. */
  function RingCalls(t: Table): multiset<OpenCall> {
    RecCalls(t.dispatch) + RecCalls(t.archived) + RecCalls(t.lost)
  }

  lemma {:induction false} RecCallsConcat(a: seq<Rec>, b: seq<Rec>)
    ensures RecCalls(a + b) == RecCalls(a) + RecCalls(b)
  {
    if b == [] {
      assert a + b == a;
    } else {
      assert (a + b)[..|a + b| - 1] == a + b[..|b| - 1];
      RecCallsConcat(a, b[..|b| - 1]);
    }
  }

  lemma IndexCallsSnoc(slots: seq<Option<Rec>>, slot: Option<Rec>)
    ensures IndexCalls(slots + [slot]) == IndexCalls(slots) + SlotCalls(slot)
  {
    assert (slots + [slot])[..|slots|] == slots;
  }

  lemma {:induction false} IndexCallsUpdate(slots: seq<Option<Rec>>, i: nat, slot: Option<Rec>)
    requires i < |slots|
    ensures SlotCalls(slots[i]) <= IndexCalls(slots)
    ensures IndexCalls(slots[i := slot]) == IndexCalls(slots) - SlotCalls(slots[i]) + SlotCalls(slot)
  {
    hide IndexCalls, SlotCalls;
    var n := |slots| - 1;
    assert slots == slots[..n] + [slots[n]];
    IndexCallsSnoc(slots[..n], slots[n]);
    if i == n {
      assert slots[i := slot] == slots[..n] + [slot];
      IndexCallsSnoc(slots[..n], slot);
    } else {
      assert slots[i := slot] == slots[..n][i := slot] + [slots[n]];
      IndexCallsUpdate(slots[..n], i, slot);
      IndexCallsSnoc(slots[..n][i := slot], slots[n]);
    }
  }

  lemma {:induction false} IndexCallsEqual(a: seq<Option<Rec>>, b: seq<Option<Rec>>)
    requires |a| == |b| && forall i :: 0 <= i < |a| ==> SlotCalls(a[i]) == SlotCalls(b[i])
    ensures IndexCalls(a) == IndexCalls(b)
  {
    if a != [] {
      IndexCallsEqual(a[..|a| - 1], b[..|b| - 1]);
    }
  }

  lemma {:induction false} IndexCallsGrow(slots: seq<Option<Rec>>, n: nat)
    ensures IndexCalls(slots + EmptySlots(n)) == IndexCalls(slots)
    decreases n
  {
    if n == 0 {
      assert slots + EmptySlots(0) == slots;
    } else {
      assert (slots + EmptySlots(n))[..|slots| + n - 1] == slots + EmptySlots(n - 1);
      IndexCallsGrow(slots, n - 1);
    }
  }

  lemma GrownCalls(ix: Index, pid: int)
    requires WellFormed(ix) && ix.Accepts(pid)
    ensures IndexCalls(Grown(ix, pid).slots) == IndexCalls(ix.slots)
  {
    IndexCallsGrow(ix.slots, |Grown(ix, pid).slots| - |ix.slots|);
  }

  lemma AddCalls(ix: Index, r: Rec)
    requires WellFormed(ix) && r.calls == []
    ensures IndexCalls(Add(ix, r).0.slots) == IndexCalls(ix.slots)
  {
    hide IndexCalls;
    if ix.Accepts(r.pid) {
      GrownCalls(ix, r.pid);
      var g := Grown(ix, r.pid);
      if g.At(r.pid).None? {
        IndexCallsUpdate(g.slots, r.pid + 1, Some(Linked(g, r)));
        assert SlotCalls(g.At(r.pid)) == multiset{} == SlotCalls(Some(Linked(g, r)));
      }
    }
  }

  lemma RetrieveCalls(ix: Index, p: int)
    requires WellFormed(ix)
    ensures IndexCalls(Retrieve(ix, p).0.slots) + SlotCalls(ix.At(p)) == IndexCalls(ix.slots)
  {
    if ix.At(p).Some? {
      IndexCallsUpdate(ix.slots, p + 1, None);
    }
  }

  lemma WithTargetCalls(ix: Index, o: OpenCall)
    requires WellFormed(ix) && ix.Accepts(o.pid)
    ensures IndexCalls(WithTarget(ix, o).slots) == IndexCalls(ix.slots)
  {
    hide IndexCalls;
    GrownKeeps(ix, o.pid);
    GrownCalls(ix, o.pid);
    AddCalls(Grown(ix, o.pid), Placeholder(o));
  }

  lemma AttachCalls(g: Index, o: OpenCall)
    requires g.At(o.pid).Some?
    ensures IndexCalls(Attach(g, o).slots) == IndexCalls(g.slots) + multiset{o}
  {
    hide IndexCalls;
    var target := g.At(o.pid).value;
    var after := target.(calls := target.calls + [o]);
    IndexCallsUpdate(g.slots, o.pid + 1, Some(after));
    assert multiset(after.calls) == multiset(target.calls) + multiset{o};
  }

  /** Marking moves no call. */
  lemma TrackCalls(n: Index, child: int)
    requires WellFormed(n) && n.At(child).Some?
    ensures IndexCalls(TrackParents(n, child).slots) == IndexCalls(n.slots)
  {
    hide IndexCalls;
    TrackParentsSlots(n, child);
    var last := TrackParents(n, child);
    forall i | 0 <= i < |n.slots| ensures SlotCalls(n.slots[i]) == SlotCalls(last.slots[i]) {
      assert SameCalls(n.slots[i], last.slots[i]);
    }
    IndexCallsEqual(n.slots, last.slots);
  }

  lemma OpenAddCalls(ix: Index, o: OpenCall)
    requires WellFormed(ix)
    ensures IndexCalls(OpenAdd(ix, o).0.slots) ==
            IndexCalls(ix.slots) + if ix.Accepts(o.pid) then multiset{o} else multiset{}
  {
    hide IndexCalls, TrackParents;
    if ix.Accepts(o.pid) {
      WithTargetHolds(ix, o);
      WithTargetCalls(ix, o);
      var g := WithTarget(ix, o);
      AttachCalls(g, o);
      var m := Attach(g, o);
      if !m.Tracked(o.pid) {
        var n := Mark(m, o.pid);
        IndexCallsEqual(m.slots, n.slots);
        AttachMarkedWellFormed(g, o);
        TrackCalls(n, o.pid);
      }
    }
  }

  lemma SendCalls(t: Table, rs: seq<Rec>)
    requires |t.dispatch| <= SIZE_RING
    ensures RingCalls(Send(t, rs)) == RingCalls(t) + RecCalls(rs)
  {
    hide IndexCalls, RecCalls;
    var k := Room(t.dispatch, |rs|);
    RecCallsConcat(t.dispatch, rs[..k]);
    RecCallsConcat(t.lost, rs[k..]);
    RecCallsConcat(rs[..k], rs[k..]);
    assert rs == rs[..k] + rs[k..];
  }

  lemma RecCallsOne(r: Rec)
    ensures RecCalls([r]) == multiset(r.calls)
  {
    assert [r][..0] == [];
  }

  ghost function Added(t: Table, d: Delivery): multiset<OpenCall> {
    if d.Opened? && t.ix.Accepts(d.o.pid) then multiset{d.o} else multiset{}
  }

  /** A delivery puts an accepted open call into one buffer, once, and moves no other call out of the
      buffers; a replaced record takes its calls along into the ring. */
  lemma DeliverConserves(t: Table, d: Delivery)
    requires TableOk(t)
    ensures AllCalls(Deliver(t, d)) == AllCalls(t) + Added(t, d)
  {
    hide IndexCalls, RecCalls;
    match d
    case Insert(e) => AddCalls(t.ix, NewRec(e));
    case Opened(o) => OpenAddCalls(t.ix, o);
    case Replace(e) =>
      var (ix1, result) := Add(t.ix, NewRec(e));
      AddIsInsertion(t.ix, NewRec(e));
      AddCalls(t.ix, NewRec(e));
      if result == AlreadyExists {
        RetrieveRemoves(ix1, e.pid);
        RetrieveCalls(ix1, e.pid);
        var (ix2, previous) := Retrieve(ix1, e.pid);
        AddCalls(ix2, NewRec(e));
        var u := Send(t, [previous.value]);
        SendCalls(t, [previous.value]);
        RecCallsOne(previous.value);
        assert RingCalls(Deliver(t, d)) == RingCalls(u);
      }
  }

  lemma SweepSlotCalls(slot: Option<Rec>, dead: set<int>)
    requires slot.Some? && !slot.value.tracked ==> slot.value.calls == []
    ensures SlotCalls(AfterSweep(slot, dead)) + (if Dying(slot, dead) then multiset(slot.value.calls) else multiset{})
            == SlotCalls(slot)
  {}

  lemma {:induction false} SweepSlotsCalls(slots: seq<Option<Rec>>, after: seq<Option<Rec>>, dead: set<int>)
    requires |after| == |slots|
    requires forall i :: 0 <= i < |slots| ==> after[i] == AfterSweep(slots[i], dead)
    requires forall i :: 0 <= i < |slots| ==> slots[i].Some? && !slots[i].value.tracked ==> slots[i].value.calls == []
    ensures IndexCalls(after) + RecCalls(DyingRecs(slots, dead)) == IndexCalls(slots)
  {
    if slots != [] {
      hide IndexCalls, SlotCalls, AfterSweep, RecCalls;
      var n := |slots| - 1;
      var gone := if Dying(slots[n], dead) then multiset(slots[n].value.calls) else multiset{};
      SweepSlotsCalls(slots[..n], after[..n], dead);
      SweepSlotCalls(slots[n], dead);
      IndexCallsLast(slots);
      IndexCallsLast(after);
      DyingCallsLast(slots, dead);
      Regroup(IndexCalls(after[..n]), SlotCalls(after[n]), RecCalls(DyingRecs(slots[..n], dead)), gone);
    }
  }

  lemma IndexCallsLast(slots: seq<Option<Rec>>)
    requires slots != []
    ensures IndexCalls(slots) == IndexCalls(slots[..|slots| - 1]) + SlotCalls(slots[|slots| - 1])
  {}

  lemma DyingCallsLast(slots: seq<Option<Rec>>, dead: set<int>)
    requires slots != []
    ensures var n := |slots| - 1;
            RecCalls(DyingRecs(slots, dead)) == RecCalls(DyingRecs(slots[..n], dead))
              + if Dying(slots[n], dead) then multiset(slots[n].value.calls) else multiset{}
  {
    hide RecCalls;
    var n := |slots| - 1;
    var rest: seq<Rec> := DyingRecs(slots[..n], dead);
    if Dying(slots[n], dead) {
      RecCallsConcat(rest, [slots[n].value]);
      RecCallsOne(slots[n].value);
    } else {
      assert rest + [] == rest;
    }
  }

  lemma Regroup(a: multiset<OpenCall>, b: multiset<OpenCall>, c: multiset<OpenCall>, d: multiset<OpenCall>)
    ensures a + b + (c + d) == a + c + (b + d)
  {}

  lemma UntrackedHaveNoCalls(ix: Index)
    requires WellFormed(ix)
    ensures forall i :: 0 <= i < |ix.slots| ==>
              ix.slots[i].Some? && !ix.slots[i].value.tracked ==> ix.slots[i].value.calls == []
  {
    forall i | 0 <= i < |ix.slots| && ix.slots[i].Some? && !ix.slots[i].value.tracked
      ensures ix.slots[i].value.calls == []
    {
      assert SlotOk(ix.slots[i], i, |ix.slots|);
    }
  }

  /** A sweep moves calls with their records and destroys only records without calls. */
  lemma SweepConserves(t: Table, dead: set<int>)
    requires TableOk(t)
    ensures AllCalls(SweepTable(t, dead)) == AllCalls(t)
  {
    hide IndexCalls, RecCalls, DyingRecs;
    UntrackedHaveNoCalls(t.ix);
    SweepSlotsCalls(t.ix.slots, Sweep(t.ix, dead).slots, dead);
    SendCalls(t, DyingRecs(t.ix.slots, dead));
    assert RingCalls(SweepTable(t, dead)) == RingCalls(Send(t, DyingRecs(t.ix.slots, dead)));
  }

  lemma {:induction false} FlushSlotsCalls(slots: seq<Option<Rec>>)
    requires forall i :: 0 <= i < |slots| ==> slots[i].Some? && !slots[i].value.tracked ==> slots[i].value.calls == []
    ensures RecCalls(TrackedRecs(slots)) == IndexCalls(slots)
  {
    if slots != [] {
      var n := |slots| - 1;
      FlushSlotsCalls(slots[..n]);
      var rest: seq<Rec> := TrackedRecs(slots[..n]);
      if slots[n].Some? && slots[n].value.tracked {
        RecCallsConcat(rest, [slots[n].value]);
        RecCallsOne(slots[n].value);
      } else {
        assert rest + [] == rest;
      }
    }
  }

  lemma NoSlotsNoCalls(n: nat)
    ensures IndexCalls(EmptySlots(n)) == multiset{}
  {
    IndexCallsGrow([], n);
    assert [] + EmptySlots(n) == EmptySlots(n);
  }

  lemma FlushConserves(t: Table)
    requires TableOk(t)
    ensures AllCalls(FlushTable(t)) == AllCalls(t)
    ensures IndexCalls(FlushTable(t).ix.slots) == multiset{}
  {
    hide IndexCalls, RecCalls, TrackedRecs;
    UntrackedHaveNoCalls(t.ix);
    FlushSlotsCalls(t.ix.slots);
    SendCalls(t, TrackedRecs(t.ix.slots));
    assert RingCalls(FlushTable(t)) == RingCalls(Send(t, TrackedRecs(t.ix.slots)));
    NoSlotsNoCalls(|t.ix.slots|);
  }

  lemma DrainConserves(t: Table)
    ensures AllCalls(Drain(t)) == AllCalls(t)
  {
    RecCallsConcat(t.archived, t.dispatch);
  }
}
