/** procindex_add with its guards exactly as coded, and where it departs from the repaired table. */
module CodedGuards {
  import opened Basics
  import opened ProcessIndex

  function Pow2(k: nat): nat {
    if k == 0 then 1 else 2 * Pow2(k - 1)
  }

  /** Doubling from size lands exactly on n. */
  ghost predicate DoublesTo(size: nat, n: nat) {
    exists k: nat :: size * Pow2(k) == n
  }

  lemma {:induction false} DoublingGrows(size: nat, k: nat)
    requires size > 0
    ensures size * Pow2(k) >= size
    ensures k > 0 ==> size * Pow2(k) == (size * 2) * Pow2(k - 1) >= size * 2
    decreases k
  {
    if k > 0 {
      DoublingGrows(size * 2, k - 1);
    }
  }

  lemma DoublesToStep(size: nat, n: nat)
    requires 0 < size < n
    ensures DoublesTo(size, n) <==> DoublesTo(size * 2, n)
  {
    if DoublesTo(size, n) {
      var k: nat :| size * Pow2(k) == n;
      DoublingGrows(size, k);
      assert k > 0;
      assert (size * 2) * Pow2(k - 1) == n;
    }
    if DoublesTo(size * 2, n) {
      var k: nat :| (size * 2) * Pow2(k) == n;
      DoublingGrows(size, k + 1);
      assert size * Pow2(k + 1) == n;
    }
  }

  lemma TooBigToDouble(size: nat, n: nat)
    requires size > n
    ensures !DoublesTo(size, n)
  {
    forall k: nat ensures size * Pow2(k) != n {
      DoublingGrows(size, k);
    }
  }

  /** The growth loop as coded asks for pid + 1 slots, but uses slot pid + 1: it leaves that slot inside
      the table unless the pid is the largest one or doubling stops exactly at pid + 1. */
  lemma {:induction false} CodedGrowthReachesSlotIff(size: nat, maxPid: nat, pid: nat)
    requires 1 <= size <= maxPid + 1 && pid <= maxPid
    ensures pid + 1 < GrownSize(size, maxPid, pid + 1) <==> pid < maxPid && !DoublesTo(size, pid + 1)
    ensures pid + 1 < GrownSize(size, maxPid, pid + 1) ==>
              GrownSize(size, maxPid, pid + 1) == GrownSize(size, maxPid, pid + 2)
    decreases maxPid + 1 - size
  {
    if size > pid + 1 {
      TooBigToDouble(size, pid + 1);
    } else if size == pid + 1 {
      assert size * Pow2(0) == pid + 1;
    } else {
      CodedGrowthReachesSlotIff(NextSize(size, maxPid), maxPid, pid);
      DoublesToStep(size, pid + 1);
      if size * 2 > maxPid + 1 {
        TooBigToDouble(size * 2, pid + 1);
        if pid < maxPid {
          TooBigToDouble(maxPid + 1, pid + 1);
        }
      }
    }
  }

  // ----- procindex_add, line by line -----

  datatype Outcome = Fault | Done(ix: Index, result: AddResult)

  /** procs[i], if i is a position of the array. */
  predicate InBounds(ix: Index, i: int) {
    0 <= i < |ix.slots|
  }

  function CodedGrowth(ix: Index, pid: nat): (g: Index)
    requires 1 <= |ix.slots| <= ix.maxPid + 1 && pid <= ix.maxPid
  {
    ix.(slots := ix.slots + EmptySlots(GrownSize(|ix.slots|, ix.maxPid, pid + 1) - |ix.slots|))
  }

  function AddAsCoded(ix: Index, r: Rec): Outcome
    requires 1 <= |ix.slots| <= ix.maxPid + 1
  {
    if r.pid < 0 || r.pid > ix.maxPid then Done(ix, Rejected)
    else
      var g := CodedGrowth(ix, r.pid);
      if !InBounds(g, r.pid + 1) then Fault
      else if g.slots[r.pid + 1].Some? then Done(g, AlreadyExists)
      else if |g.slots| < r.ppid + 1 then Done(g.With(r.pid, Some(r.(ppid := 0))), Nominal)
      else if !InBounds(g, r.ppid + 1) then Fault
      else if g.slots[r.ppid + 1].None? then Done(g.With(r.pid, Some(r.(ppid := 0))), Nominal)
      else Fault  // time_stamp is read through slot pid + 1, which was found empty above
  }

  /** The inputs on which the code as written leaves the array or follows a null pointer. */
  ghost predicate Faulty(ix: Index, r: Rec)
    requires 1 <= |ix.slots| <= ix.maxPid + 1
  {
    && 0 <= r.pid <= ix.maxPid
    && (|| r.pid == ix.maxPid
        || DoublesTo(|ix.slots|, r.pid + 1)
        || (ix.At(r.pid).None? && (r.ppid < -1 || r.ppid + 1 == |Grown(ix, r.pid).slots| || ix.At(r.ppid).Some?)))
  }

  /** As coded and as repaired, procindex_add is the same function outside the faults, and the faults
      are exactly these. */
  lemma CodedAddAgreesUnlessFaulty(ix: Index, r: Rec)
    requires WellFormed(ix)
    ensures AddAsCoded(ix, r) == if Faulty(ix, r) then Fault else Done(Add(ix, r).0, Add(ix, r).1)
  {
    if 0 <= r.pid <= ix.maxPid {
      CodedGrowthReachesSlotIff(|ix.slots|, ix.maxPid, r.pid);
      if ix.Accepts(r.pid) && !DoublesTo(|ix.slots|, r.pid + 1) {
        assert CodedGrowth(ix, r.pid) == Grown(ix, r.pid);
        GrownKeeps(ix, r.pid);
        var g := Grown(ix, r.pid);
        assert g.At(r.pid) == ix.At(r.pid) && g.At(r.ppid) == ix.At(r.ppid);
        assert SlotOk(g.slots[0], 0, |g.slots|);
      }
    }
  }

  // ----- procindex_opencall_add and procindex_retrieve -----

  /** What procindex_opencall_add does once the call's process has a record. */
  function AttachAndTrack(g: Index, o: OpenCall): Index
    requires g.At(o.pid).Some?
  {
    var m := Attach(g, o);
    if m.Tracked(o.pid) then m else TrackParents(Mark(m, o.pid), o.pid)
  }

  function OpenAddAsCoded(ix: Index, o: OpenCall): Outcome
    requires 1 <= |ix.slots| <= ix.maxPid + 1
  {
    if o.pid < 0 || ix.maxPid < o.pid then Done(ix, Rejected)
    else
      var g := CodedGrowth(ix, o.pid);
      if !InBounds(g, o.pid + 1) then Fault
      else if g.slots[o.pid + 1].Some? then Done(AttachAndTrack(g, o), Nominal)
      else
        match AddAsCoded(g, Placeholder(o))
        case Fault => Fault
        case Done(h, _) => if h.At(o.pid).Some? then Done(AttachAndTrack(h, o), Nominal) else Fault
  }

  /** A placeholder names process 0 as its parent, so a record of process 0 brings on the wrong slot. */
  ghost predicate FaultyOpen(ix: Index, o: OpenCall) {
    && 0 <= o.pid <= ix.maxPid
    && (o.pid == ix.maxPid || DoublesTo(|ix.slots|, o.pid + 1) || (ix.At(o.pid).None? && ix.At(0).Some?))
  }

  /** Once the table has been grown, adding the placeholder goes wrong only through process 0. */
  lemma PlaceholderAsCoded(g: Index, o: OpenCall)
    requires WellFormed(g) && g.Accepts(o.pid) && o.pid + 1 < |g.slots| && g.At(o.pid).None?
    ensures AddAsCoded(g, Placeholder(o)) ==
            if g.At(0).Some? then Fault else Done(Add(g, Placeholder(o)).0, Nominal)
  {
    assert CodedGrowth(g, o.pid) == g && Grown(g, o.pid) == g;
  }

  lemma OpenAddIsAttach(ix: Index, o: OpenCall)
    requires WellFormed(ix) && ix.Accepts(o.pid)
    ensures WithTarget(ix, o).At(o.pid).Some?
    ensures OpenAdd(ix, o) == (AttachAndTrack(WithTarget(ix, o), o), Nominal)
  {
    hide TrackParents, Untracked, WithTarget, SlotOk;
    WithTargetHolds(ix, o);
  }

  /** When growth reaches the slot, only a missing record of the process can go wrong. */
  lemma GrownOpenAddAsCoded(ix: Index, o: OpenCall)
    requires WellFormed(ix) && ix.Accepts(o.pid) && CodedGrowth(ix, o.pid) == Grown(ix, o.pid)
    ensures OpenAddAsCoded(ix, o) ==
            if ix.At(o.pid).None? && ix.At(0).Some? then Fault else Done(AttachAndTrack(WithTarget(ix, o), o), Nominal)
  {
    hide AttachAndTrack, SlotOk, AddAsCoded, Add;
    var g := Grown(ix, o.pid);
    GrownKeeps(ix, o.pid);
    WithTargetHolds(ix, o);
    if ix.At(o.pid).None? {
      PlaceholderAsCoded(g, o);
    }
  }

  lemma CodedOpenAddAgreesUnlessFaulty(ix: Index, o: OpenCall)
    requires WellFormed(ix)
    ensures OpenAddAsCoded(ix, o) == if FaultyOpen(ix, o) then Fault else Done(OpenAdd(ix, o).0, OpenAdd(ix, o).1)
  {
    if 0 <= o.pid <= ix.maxPid {
      CodedGrowthReachesSlotIff(|ix.slots|, ix.maxPid, o.pid);
      if ix.Accepts(o.pid) && !DoublesTo(|ix.slots|, o.pid + 1) {
        assert CodedGrowth(ix, o.pid) == Grown(ix, o.pid);
        GrownOpenAddAsCoded(ix, o);
        OpenAddIsAttach(ix, o);
        hide OpenAddAsCoded, OpenAdd, AttachAndTrack, WithTarget, DoublesTo, SlotOk, Grown;
      } else {
        hide AttachAndTrack, AddAsCoded, DoublesTo, SlotOk;
      }
    }
  }

  function RetrieveAsCoded(ix: Index, p: int): Option<(Index, Option<Rec>)> {
    if |ix.slots| < p + 1 then Some((ix, None))
    else if !InBounds(ix, p + 1) then None
    else if ix.slots[p + 1].Some? then Some((ix.(slots := ix.slots[p + 1 := None]), ix.slots[p + 1]))
    else Some((ix, None))
  }

  /** procindex_retrieve leaves the array exactly for the pid whose slot lies just behind it, and for
      negative pids below -1. */
  lemma CodedRetrieveAgreesUnlessFaulty(ix: Index, p: int)
    requires WellFormed(ix)
    ensures RetrieveAsCoded(ix, p) == if p < -1 || p + 1 == |ix.slots| then None else Some(Retrieve(ix, p))
  {
    assert SlotOk(ix.slots[0], 0, |ix.slots|);
  }
}
