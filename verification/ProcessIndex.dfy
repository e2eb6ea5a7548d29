/** The pid-indexed process table of watchdog.c, as a value: what each operation does to the slots. */
module ProcessIndex {
  import opened Basics

  datatype OpenCall = OpenCall(pid: i32, flag: i32, cmd: CString, path: CString, time: Time)

  /** An exec call as the exec handler hands it over: execCall_init leaves the rest at zero. */
  datatype Exec = Exec(pid: i32, ppid: i32, cmd: CString, args: CString, time: Time)

  /** A process record: an exec call, or the placeholder of a process known only by an open call. */
  datatype Rec = Rec(pid: i32, ppid: i32, cmd: CString, args: CString, time: Time, ptime: Time,
                     tracked: bool, deadness: nat, calls: seq<OpenCall>)

  function NewRec(e: Exec): Rec {
    Rec(e.pid, e.ppid, e.cmd, e.args, e.time, EPOCH, false, 0, [])
  }

  /** The arguments of a placeholder: "unknown". */
  const UNKNOWN: CString := [117, 110, 107, 110, 111, 119, 110]

  function Placeholder(o: OpenCall): Rec {
    Rec(o.pid, 0, o.cmd, UNKNOWN, EPOCH, EPOCH, false, 0, [])
  }

  /** Slot p + 1 is the place of pid p; slot 0 stays empty. */
  datatype Index = Index(slots: seq<Option<Rec>>, maxPid: nat) {

    function At(p: int): Option<Rec> {
      if 0 <= p && p + 1 < |slots| then slots[p + 1] else None
    }

    function With(p: int, slot: Option<Rec>): (ix: Index)
      requires 0 <= p && p + 1 < |slots|
      ensures |ix.slots| == |slots|
      ensures forall q {:trigger ix.At(q)} :: ix.At(q) == if q == p then slot else At(q)
    {
      this.(slots := slots[p + 1 := slot])
    }

    /** A pid the table can hold. */
    predicate Accepts(pid: int) {
      0 <= pid < maxPid
    }

    predicate Tracked(p: int) {
      At(p).Some? && At(p).value.tracked
    }
  }

  predicate SlotOk(slot: Option<Rec>, i: nat, size: nat) {
    slot.Some? ==>
      && i > 0
      && slot.value.pid == i - 1
      && 0 <= slot.value.ppid
      && slot.value.ppid + 1 < size
      && (slot.value.tracked || slot.value.calls == [])
  }

  ghost predicate WellFormed(ix: Index) {
    && 2 <= |ix.slots| <= ix.maxPid + 1
    && forall i :: 0 <= i < |ix.slots| ==> SlotOk(ix.slots[i], i, |ix.slots|)
  }

  lemma OwnPid(ix: Index, p: int)
    requires WellFormed(ix) && ix.At(p).Some?
    ensures ix.At(p).value.pid == p && ix.Accepts(p)
    ensures 0 <= ix.At(p).value.ppid && ix.At(p).value.ppid + 1 < |ix.slots|
    ensures ix.At(p).value.tracked || ix.At(p).value.calls == []
  {
    assert SlotOk(ix.slots[p + 1], p + 1, |ix.slots|);
  }

  // ----- Growth -----

  function NextSize(size: nat, maxPid: nat): nat {
    if size * 2 <= maxPid + 1 then size * 2 else maxPid + 1
  }

  /** The size at which the growth loop stops, when slot need - 1 is the one wanted. */
  function GrownSize(size: nat, maxPid: nat, need: nat): (n: nat)
    requires 1 <= size <= maxPid + 1
    requires need <= maxPid + 1
    ensures Max(size, need) <= n <= maxPid + 1
    ensures need <= size ==> n == size
    decreases maxPid + 1 - size
  {
    if need <= size then size else GrownSize(NextSize(size, maxPid), maxPid, need)
  }

  function Max(a: int, b: int): int {
    if a >= b then a else b
  }

  function EmptySlots(n: nat): (s: seq<Option<Rec>>)
    ensures |s| == n
  {
    seq(n, _ => None)
  }

  /** Repaired guard: the slot of pid p is p + 1, so p + 2 slots are needed. */
  function Grown(ix: Index, pid: int): (g: Index)
    requires 1 <= |ix.slots| <= ix.maxPid + 1 && ix.Accepts(pid)
    ensures g.maxPid == ix.maxPid
    ensures Max(|ix.slots|, pid + 2) <= |g.slots| <= ix.maxPid + 1
    ensures g.slots[..|ix.slots|] == ix.slots
    ensures forall i :: |ix.slots| <= i < |g.slots| ==> g.slots[i].None?
  {
    var n := GrownSize(|ix.slots|, ix.maxPid, pid + 2);
    ix.(slots := ix.slots + EmptySlots(n - |ix.slots|))
  }

  lemma GrownKeeps(ix: Index, pid: int)
    requires WellFormed(ix) && ix.Accepts(pid)
    ensures WellFormed(Grown(ix, pid))
    ensures forall p :: Grown(ix, pid).At(p) == ix.At(p)
  {
    var g := Grown(ix, pid);
    assert forall i :: 0 <= i < |ix.slots| ==> g.slots[i] == g.slots[..|ix.slots|][i];
    forall i | 0 <= i < |g.slots| ensures SlotOk(g.slots[i], i, |g.slots|) {
      if i < |ix.slots| {
        assert SlotOk(ix.slots[i], i, |ix.slots|);
      }
    }
  }

  // ----- procindex_add -----

  datatype AddResult = Nominal | Rejected | AlreadyExists

  /** A record whose parent is not in the table has no parent; one whose parent is takes its timestamp. */
  function Linked(ix: Index, r: Rec): Rec {
    match ix.At(r.ppid)
    case None => r.(ppid := 0)
    case Some(parent) => r.(ptime := parent.time)
  }

  function Add(ix: Index, r: Rec): (Index, AddResult)
    requires 1 <= |ix.slots| <= ix.maxPid + 1
  {
    if !ix.Accepts(r.pid) then (ix, Rejected)
    else
      var g := Grown(ix, r.pid);
      if g.At(r.pid).Some? then (g, AlreadyExists)
      else (g.With(r.pid, Some(Linked(g, r))), Nominal)
  }

  lemma AddIsInsertion(ix: Index, r: Rec)
    requires WellFormed(ix) && (r.tracked || r.calls == [])
    ensures WellFormed(Add(ix, r).0) && Add(ix, r).0.maxPid == ix.maxPid
    ensures Add(ix, r).1 == if !ix.Accepts(r.pid) then Rejected
                            else if ix.At(r.pid).Some? then AlreadyExists else Nominal
    ensures forall p {:trigger Add(ix, r).0.At(p)} ::
              Add(ix, r).0.At(p) == if p == r.pid && Add(ix, r).1 == Nominal then Some(Linked(ix, r)) else ix.At(p)
  {
    if ix.Accepts(r.pid) {
      GrownKeeps(ix, r.pid);
      var g, h := Grown(ix, r.pid), Add(ix, r).0;
      forall i | 0 <= i < |h.slots| ensures SlotOk(h.slots[i], i, |h.slots|) {
        assert SlotOk(g.slots[i], i, |g.slots|);
        if i == r.pid + 1 && g.At(r.pid).None? && g.At(r.ppid).Some? {
          OwnPid(g, r.ppid);
        }
      }
    }
  }

  // ----- procindex_trackparents -----

  function Untracked(slots: seq<Option<Rec>>): nat {
    if slots == [] then 0
    else Untracked(slots[..|slots| - 1])
         + if slots[|slots| - 1].Some? && !slots[|slots| - 1].value.tracked then 1 else 0
  }

  function Mark(ix: Index, p: int): (m: Index)
    requires ix.At(p).Some?
    ensures |m.slots| == |ix.slots| && m.maxPid == ix.maxPid
    ensures forall q {:trigger m.At(q)} ::
              m.At(q) == if q == p then Some(ix.At(p).value.(tracked := true)) else ix.At(q)
  {
    ix.With(p, Some(ix.At(p).value.(tracked := true)))
  }

  lemma {:induction false} MarkShrinksUntracked(slots: seq<Option<Rec>>, i: nat, r: Rec)
    requires i < |slots| && slots[i].Some? && !slots[i].value.tracked && r.tracked
    ensures Untracked(slots[i := Some(r)]) == Untracked(slots) - 1
  {
    var n := |slots| - 1;
    var marked := slots[i := Some(r)];
    if i == n {
      assert marked[..n] == slots[..n];
    } else {
      assert marked[..n] == slots[..n][i := Some(r)];
      MarkShrinksUntracked(slots[..n], i, r);
    }
  }

  /** Walk up the parent links, marking, until a tracked, absent or zero parent. The count of untracked
      records falls at every step, so links that form a cycle are no obstacle. */
  function TrackParents(ix: Index, child: int): (m: Index)
    requires ix.At(child).Some?
    ensures |m.slots| == |ix.slots| && m.maxPid == ix.maxPid
    decreases Untracked(ix.slots)
  {
    var parent := ix.At(child).value.ppid;
    if parent != 0 && ix.At(parent).Some? && !ix.At(parent).value.tracked then
      MarkShrinksUntracked(ix.slots, parent + 1, ix.At(parent).value.(tracked := true));
      TrackParents(Mark(ix, parent), parent)
    else ix
  }

  // ----- procindex_opencall_add -----

  function Attach(ix: Index, o: OpenCall): (m: Index)
    requires ix.At(o.pid).Some?
    ensures |m.slots| == |ix.slots| && m.maxPid == ix.maxPid && m.At(o.pid).Some?
    ensures forall q {:trigger m.At(q)} ::
              m.At(q) == if q == o.pid then Some(ix.At(q).value.(calls := ix.At(q).value.calls + [o])) else ix.At(q)
  {
    ix.With(o.pid, Some(ix.At(o.pid).value.(calls := ix.At(o.pid).value.calls + [o])))
  }

  /** The table with a record for the call's process: the one present, or a placeholder. */
  function WithTarget(ix: Index, o: OpenCall): Index
    requires 1 <= |ix.slots| <= ix.maxPid + 1 && ix.Accepts(o.pid)
  {
    var g := Grown(ix, o.pid);
    if g.At(o.pid).Some? then g else Add(g, Placeholder(o)).0
  }

  lemma WithTargetHolds(ix: Index, o: OpenCall)
    requires WellFormed(ix) && ix.Accepts(o.pid)
    ensures var g := WithTarget(ix, o);
            && WellFormed(g) && g.maxPid == ix.maxPid
            && g.At(o.pid) == (if ix.At(o.pid).Some? then ix.At(o.pid) else Some(Linked(ix, Placeholder(o))))
            && forall p :: p != o.pid ==> g.At(p) == ix.At(p)
  {
    GrownKeeps(ix, o.pid);
    AddIsInsertion(Grown(ix, o.pid), Placeholder(o));
    assert Linked(Grown(ix, o.pid), Placeholder(o)) == Linked(ix, Placeholder(o));
  }

  function OpenAdd(ix: Index, o: OpenCall): (Index, AddResult)
    requires WellFormed(ix)
  {
    if !ix.Accepts(o.pid) then (ix, Rejected)
    else
      WithTargetHolds(ix, o);
      var m := Attach(WithTarget(ix, o), o);
      if m.Tracked(o.pid) then (m, Nominal)
      else (TrackParents(Mark(m, o.pid), o.pid), Nominal)
  }

  // ----- procindex_retrieve -----

  function Retrieve(ix: Index, p: int): (Index, Option<Rec>) {
    if ix.At(p).Some? then (ix.With(p, None), ix.At(p)) else (ix, None)
  }

  lemma RetrieveRemoves(ix: Index, p: int)
    requires WellFormed(ix)
    ensures WellFormed(Retrieve(ix, p).0) && Retrieve(ix, p).0.maxPid == ix.maxPid
    ensures Retrieve(ix, p).1 == ix.At(p)
    ensures forall q {:trigger Retrieve(ix, p).0.At(q)} :: Retrieve(ix, p).0.At(q) == if q == p then None else ix.At(q)
  {
    var m := Retrieve(ix, p).0;
    forall i | 0 <= i < |m.slots| ensures SlotOk(m.slots[i], i, |m.slots|) {
      assert SlotOk(ix.slots[i], i, |ix.slots|);
    }
  }

  // ----- surv_check_proc_vitals and surv_flush_procindex -----

  predicate Dying(slot: Option<Rec>, dead: set<int>) {
    slot.Some? && slot.value.pid in dead && slot.value.tracked
  }

  /** What the liveness sweep leaves in a slot, given the pids that kill(pid, 0) reports missing. */
  function AfterSweep(slot: Option<Rec>, dead: set<int>): Option<Rec> {
    if slot.None? || slot.value.pid !in dead then slot
    else if slot.value.tracked || slot.value.deadness > 2 then None
    else Some(slot.value.(deadness := slot.value.deadness + 1))
  }

  function Sweep(ix: Index, dead: set<int>): (m: Index)
    ensures |m.slots| == |ix.slots| && m.maxPid == ix.maxPid
    ensures forall i :: 0 <= i < |ix.slots| ==> m.slots[i] == AfterSweep(ix.slots[i], dead)
  {
    ix.(slots := seq(|ix.slots|, i requires 0 <= i < |ix.slots| => AfterSweep(ix.slots[i], dead)))
  }

  /** The records the sweep sends off, in slot order. */
  function DyingRecs(slots: seq<Option<Rec>>, dead: set<int>): seq<Rec> {
    if slots == [] then []
    else
      var last := slots[|slots| - 1];
      DyingRecs(slots[..|slots| - 1], dead) + if Dying(last, dead) then [last.value] else []
  }

  /** The records the final flush sends off, in slot order. */
  function TrackedRecs(slots: seq<Option<Rec>>): seq<Rec> {
    if slots == [] then []
    else
      var last := slots[|slots| - 1];
      TrackedRecs(slots[..|slots| - 1]) + if last.Some? && last.value.tracked then [last.value] else []
  }

  function Flushed(ix: Index): (m: Index)
    ensures forall p :: m.At(p) == None
  {
    ix.(slots := EmptySlots(|ix.slots|))
  }

  lemma SweepWellFormed(ix: Index, dead: set<int>)
    requires WellFormed(ix)
    ensures WellFormed(Sweep(ix, dead))
    ensures forall p {:trigger Sweep(ix, dead).At(p)} :: Sweep(ix, dead).At(p) == AfterSweep(ix.At(p), dead)
  {
    var m := Sweep(ix, dead);
    forall i | 0 <= i < |m.slots| ensures SlotOk(m.slots[i], i, |m.slots|) {
      assert SlotOk(ix.slots[i], i, |ix.slots|);
    }
  }

  lemma FlushedWellFormed(ix: Index)
    requires WellFormed(ix)
    ensures WellFormed(Flushed(ix))
  {}
}
