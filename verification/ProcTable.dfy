/** The process table on mutable records: execCall and procindex of watchdog.c, updated in place. */
module ProcTables {
  import opened Basics
  import opened ProcessIndex
  import opened RingBuffers
  import opened RecordTable

  const CALLBUFF_SIZE := 8

  /** The first n calls of a buffer. */
  function Unwrapped(buff: seq<Option<OpenCall>>, n: nat): (calls: seq<OpenCall>)
    requires n <= |buff| && forall i :: 0 <= i < n ==> buff[i].Some?
    ensures |calls| == n && forall i :: 0 <= i < n ==> calls[i] == buff[i].value
  {
    seq(n, i requires 0 <= i < n => buff[i].value)
  }

  class ExecCall {
    var pid: i32
    var ppid: i32
    var cmdName: CString
    var args: CString
    var timeStamp: Time
    var ptimeStamp: Time
    var tracked: bool
    var deadness: nat
    var callNum: nat
    /** The allocated call buffer; its length is callBuff_size. */
    var callBuff: seq<Option<OpenCall>>

    /** Two places are always free, so growing when exactly two are left keeps every write inside. */
    ghost predicate Valid()
      reads this
    {
      callNum + 2 <= |callBuff| && forall i :: 0 <= i < callNum ==> callBuff[i].Some?
    }

    ghost function Calls(): seq<OpenCall>
      requires Valid()
      reads this
    {
      Unwrapped(callBuff, callNum)
    }

    ghost function Value(): Rec
      requires Valid()
      reads this
    {
      Rec(pid, ppid, cmdName, args, timeStamp, ptimeStamp, tracked, deadness, Calls())
    }

    /** execCall_init */
    constructor (e: Exec)
      ensures Valid() && Value() == NewRec(e)
    {
      pid, ppid, cmdName, args, timeStamp, ptimeStamp := e.pid, e.ppid, e.cmd, e.args, e.time, EPOCH;
      tracked, deadness, callNum, callBuff := false, 0, 0, seq(CALLBUFF_SIZE, _ => None);
    }

    /** The dummy process of procindex_opencall_add. */
    constructor Unknown(o: OpenCall)
      ensures Valid() && Value() == Placeholder(o)
    {
      pid, ppid, cmdName, args, timeStamp, ptimeStamp := o.pid, 0, o.cmd, UNKNOWN, EPOCH, EPOCH;
      tracked, deadness, callNum, callBuff := false, 0, 0, seq(CALLBUFF_SIZE, _ => None);
    }

    /** Grow if exactly two places are left, then write. */
    method AddCall(o: OpenCall)
      requires Valid()
      modifies this`callNum, this`callBuff
      ensures Valid() && Value() == old(Value()).(calls := old(Calls()) + [o])
    {
      if callNum + 2 == |callBuff| {
        callBuff := callBuff + seq(|callBuff|, _ => None);
      }
      callBuff := callBuff[callNum := Some(o)];
      callNum := callNum + 1;
    }

    /** A copy of the record, for a ring. */
    method Copy() returns (r: Rec)
      requires Valid()
      ensures r == Value()
    {
      r := Rec(pid, ppid, cmdName, args, timeStamp, ptimeStamp, tracked, deadness, Unwrapped(callBuff, callNum));
    }
  }

  ghost predicate SlotValid(c: ExecCall?)
    reads c
  {
    c != null ==> c.Valid()
  }

  ghost function SlotValue(c: ExecCall?): Option<Rec>
    requires SlotValid(c)
    reads c
  {
    if c == null then None else Some(c.Value())
  }

  class ProcTable {
    var procs: array<ExecCall?>
    const maxPid: nat

    ghost function Records(): set<ExecCall>
      reads this, procs
    {
      set c: ExecCall | c in procs[..]
    }

    ghost predicate RecordsValid()
      reads this, procs, Records()
    {
      forall i :: 0 <= i < procs.Length ==> SlotValid(procs[i])
    }

    ghost function State(): (ix: Index)
      requires RecordsValid()
      reads this, procs, Records()
      ensures |ix.slots| == procs.Length && ix.maxPid == maxPid
      ensures forall i :: 0 <= i < procs.Length ==> ix.slots[i] == SlotValue(procs[i])
    {
      Index(seq(procs.Length,
                i requires 0 <= i < procs.Length && RecordsValid() reads this, procs, Records() => SlotValue(procs[i])),
            maxPid)
    }

    /** Well-formed slots hold different pids, hence different objects. */
    ghost predicate Valid()
      reads this, procs, Records()
    {
      RecordsValid() && WellFormed(State())
    }

    lemma SlotsDiffer(i: nat, j: nat)
      requires Valid() && i < procs.Length && j < procs.Length && i != j
      ensures procs[i] != null && procs[j] != null ==> procs[i] != procs[j]
    {
      assert SlotOk(State().slots[i], i, procs.Length) && SlotOk(State().slots[j], j, procs.Length);
    }

    lemma AllSlotsDiffer()
      requires Valid()
      ensures forall i, j :: 0 <= i < j < procs.Length && procs[i] != null ==> procs[i] != procs[j]
    {
      forall i, j | 0 <= i < j < procs.Length && procs[i] != null ensures procs[i] != procs[j] {
        SlotsDiffer(i, j);
      }
    }

    /** procindex_init */
    constructor (guidePid: int, maxPid: nat)
      requires maxPid >= 1
      ensures Valid() && fresh(procs) && Records() == {}
      ensures this.maxPid == maxPid && forall p :: State().At(p).None?
      ensures guidePid >= 1 && 2 * (guidePid + 1) < maxPid ==> procs.Length == 2 * (guidePid + 1)
      ensures guidePid < 1 || 2 * (guidePid + 1) >= maxPid ==> procs.Length == maxPid + 1
    {
      var size := if guidePid < 1 then maxPid + 1
                  else if (guidePid + 1) * 2 < maxPid then (guidePid + 1) * 2 else maxPid + 1;
      this.maxPid := maxPid;
      procs := new ExecCall?[size](_ => null);
    }

    /** realloc, and NULL in the places added */
    method Enlarge(size: nat)
      requires procs.Length <= size
      modifies this`procs
      ensures fresh(procs) && procs.Length == size
      ensures forall i :: 0 <= i < size ==> procs[i] == if i < old(procs).Length then old(procs[..])[i] else null
    {
      var newProcs := new ExecCall?[size](
        i requires 0 <= i < size reads this, procs => if i < procs.Length then procs[i] else null);
      procs := newProcs;
    }

    /** was, with empty places behind it. */
    ghost predicate Pads(was: seq<ExecCall?>)
      reads this, procs
    {
      && |was| <= procs.Length
      && forall i :: 0 <= i < procs.Length ==> procs[i] == if i < |was| then was[i] else null
    }

    lemma PaddingKeepsRecords(was: seq<ExecCall?>)
      requires Pads(was)
      ensures Records() == set c: ExecCall | c in was
    {
      forall c: ExecCall ensures c in procs[..] <==> c in was {
        if c in was {
          var i :| 0 <= i < |was| && was[i] == c;
          assert procs[i] == c;
        }
        if c in procs[..] {
          var i :| 0 <= i < procs.Length && procs[i] == c;
          assert was[i] == c;
        }
      }
    }

    lemma PaddingGrows(was: seq<ExecCall?>, ix: Index, pid: nat)
      requires Pads(was) && RecordsValid() && WellFormed(ix) && ix.Accepts(pid) && ix.maxPid == maxPid
      requires |was| == |ix.slots| && procs.Length == GrownSize(|was|, maxPid, pid + 2)
      requires forall i :: 0 <= i < |was| ==> SlotValid(was[i]) && SlotValue(was[i]) == ix.slots[i]
      ensures State() == Grown(ix, pid)
    {
      assert State().slots == Grown(ix, pid).slots;
    }

    /** The growth loop, with the repaired guard. */
    method Reserve(pid: nat)
      requires Valid() && pid < maxPid
      modifies this
      ensures Valid() && (procs == old(procs) || fresh(procs))
      ensures Records() == old(Records()) && State() == Grown(old(State()), pid)
    {
      hide Grown, SlotOk;
      ghost var was, ix := procs[..], State();
      GrownKeeps(ix, pid);
      while pid + 2 > procs.Length
        invariant procs == old(procs) || fresh(procs)
        invariant procs.Length <= maxPid + 1 && Pads(was)
        invariant GrownSize(procs.Length, maxPid, pid + 2) == GrownSize(|was|, maxPid, pid + 2)
        decreases maxPid + 1 - procs.Length
      {
        Enlarge(NextSize(procs.Length, maxPid));
      }
      PaddingKeepsRecords(was);
      assert RecordsValid();
      PaddingGrows(was, ix, pid);
    }

    method IsOccupied(p: int) returns (b: bool)
      requires Valid()
      ensures b == State().At(p).Some?
    {
      b := 0 <= p && p + 1 < procs.Length && procs[p + 1] != null;
    }

    /** Put a record into a slot; nothing else moves. */
    method PutIn(call: ExecCall)
      requires Valid() && call.Valid() && call !in Records()
      requires 0 <= call.pid && call.pid + 1 < procs.Length
      requires WellFormed(State().With(call.pid, Some(call.Value())))
      modifies procs
      ensures Valid() && State() == old(State()).With(call.pid, Some(call.Value()))
      ensures Records() <= old(Records()) + {call}
    {
      procs[call.pid + 1] := call;
      assert State().slots == old(State()).With(call.pid, Some(call.Value())).slots;
    }

    /** The parent lookup of procindex_add, with the repaired guard and slot. */
    method Link(call: ExecCall)
      requires Valid() && call.Valid() && call !in Records()
      modifies call`ppid, call`ptimeStamp
      ensures Valid() && State() == old(State())
      ensures call.Valid() && call.Value() == Linked(old(State()), old(call.Value()))
    {
      ghost var before := State();
      var parent := IsOccupied(call.ppid);
      if !parent {
        call.ppid := 0;
      } else {
        call.ptimeStamp := procs[call.ppid + 1].timeStamp;
      }
      assert State().slots == before.slots;
    }

    /** procindex_add */
    method Add(call: ExecCall) returns (ret: AddResult)
      requires Valid() && call.Valid() && call !in Records() && (call.tracked || call.Calls() == [])
      modifies this, procs, call`ppid, call`ptimeStamp
      ensures Valid() && (procs == old(procs) || fresh(procs))
      ensures (State(), ret) == ProcessIndex.Add(old(State()), old(call.Value()))
      ensures call.Valid() && (ret != Nominal ==> call.Value() == old(call.Value()))
      ensures if ret == Nominal then Records() <= old(Records()) + {call} else Records() == old(Records())
    {
      hide Grown, GrownSize, SlotOk;
      AddIsInsertion(State(), call.Value());
      if call.pid < 0 || call.pid >= maxPid {
        return Rejected;
      }
      Reserve(call.pid);
      if procs[call.pid + 1] != null {
        return AlreadyExists;
      }
      Link(call);
      PutIn(call);
      ret := Nominal;
    }

    // ----- Marking -----

    method MarkAt(p: nat, r: ExecCall)
      requires Valid() && p + 1 < procs.Length && procs[p + 1] == r
      modifies r`tracked
      ensures Valid() && State() == Mark(old(State()), p)
      ensures Records() == old(Records())
    {
      ghost var before := State();
      AllSlotsDiffer();
      r.tracked := true;
      assert State().slots == Mark(before, p).slots;
      forall i | 0 <= i < procs.Length ensures SlotOk(State().slots[i], i, procs.Length) {
        assert SlotOk(before.slots[i], i, procs.Length);
      }
    }

    /** procindex_trackparents */
    method TrackParents(child: nat)
      requires Valid() && child + 1 < procs.Length && procs[child + 1] != null
      modifies Records()`tracked
      ensures Valid() && State() == ProcessIndex.TrackParents(old(State()), child)
      ensures Records() == old(Records())
      decreases Untracked(State().slots)
    {
      hide Untracked, WellFormed;
      OwnPid(State(), child);
      var parentId: int := procs[child + 1].ppid;
      var parentProc := procs[parentId + 1];
      if parentId != 0 && parentProc != null && !parentProc.tracked {
        MarkShrinksUntracked(State().slots, parentId + 1, State().At(parentId).value.(tracked := true));
        MarkAt(parentId, parentProc);
        TrackParents(parentId);
      }
    }

    // ----- Open calls -----

    method AttachAt(o: OpenCall)
      requires Valid() && 0 <= o.pid && o.pid + 1 < procs.Length && procs[o.pid + 1] != null
      modifies procs[o.pid + 1]
      ensures RecordsValid() && State() == Attach(old(State()), o)
      ensures Records() == old(Records())
    {
      AllSlotsDiffer();
      ghost var before := State();
      procs[o.pid + 1].AddCall(o);
      assert State().slots == Attach(before, o).slots;
    }

    /** The record the call goes to: the one present, or a new placeholder. */
    method Target(o: OpenCall)
      requires Valid() && 0 <= o.pid < maxPid
      modifies this, procs
      ensures Valid() && (procs == old(procs) || fresh(procs)) && fresh(Records() - old(Records()))
      ensures State() == WithTarget(old(State()), o)
    {
      hide Grown, GrownSize, WellFormed, ProcessIndex.Add, Placeholder;
      Reserve(o.pid);
      assert State().At(o.pid).Some? <==> procs[o.pid + 1] != null;
      if procs[o.pid + 1] == null {
        AddUnknown(o);
      }
    }

    method AddUnknown(o: OpenCall)
      requires Valid() && 0 <= o.pid < maxPid
      modifies this, procs
      ensures Valid() && (procs == old(procs) || fresh(procs)) && fresh(Records() - old(Records()))
      ensures State() == ProcessIndex.Add(old(State()), Placeholder(o)).0
    {
      hide Grown, GrownSize, WellFormed;
      var newProc := new ExecCall.Unknown(o);
      assert RecordsValid() && State().slots == old(State()).slots;
      var _ := Add(newProc);
    }

    /** procindex_opencall_add */
    method OpenCallAdd(o: OpenCall) returns (ret: AddResult)
      requires Valid()
      modifies this, procs, Records()
      ensures Valid() && (procs == old(procs) || fresh(procs)) && fresh(Records() - old(Records()))
      ensures (State(), ret) == OpenAdd(old(State()), o)
    {
      if o.pid < 0 || o.pid >= maxPid {
        return Rejected;
      }
      hide Grown, GrownSize, WellFormed, WithTarget, Attach, ProcessIndex.TrackParents, Untracked;
      WithTargetHolds(State(), o);
      Target(o);
      AddToTarget(o);
      ret := Nominal;
    }

    /** The call is appended and, if its record was not tracked, marks are set. */
    method AddToTarget(o: OpenCall)
      requires Valid() && 0 <= o.pid && o.pid + 1 < procs.Length && procs[o.pid + 1] != null
      modifies Records()
      ensures Valid() && Records() == old(Records())
      ensures State() == (var m := Attach(old(State()), o);
                          if m.Tracked(o.pid) then m else ProcessIndex.TrackParents(Mark(m, o.pid), o.pid))
    {
      hide SlotOk, ProcessIndex.TrackParents, Untracked;
      AttachMarkedWellFormed(State(), o);
      var wasTracked := procs[o.pid + 1].tracked;
      AttachAndMark(o);
      if !wasTracked {
        TrackParents(o.pid);
      }
    }

    /** The call is appended; its record, tracked from now on, has calls only then. */
    method AttachAndMark(o: OpenCall)
      requires Valid() && 0 <= o.pid && o.pid + 1 < procs.Length && procs[o.pid + 1] != null
      modifies procs[o.pid + 1]
      ensures Valid() && Records() == old(Records())
      ensures State() == if old(State().Tracked(o.pid)) then Attach(old(State()), o)
                         else Mark(Attach(old(State()), o), o.pid)
    {
      AttachMarkedWellFormed(State(), o);
      ghost var a := Attach(State(), o);
      AttachAt(o);
      if !procs[o.pid + 1].tracked {
        AllDiffer(o.pid);
        procs[o.pid + 1].tracked := true;
      }
      assert State().slots == Mark(a, o.pid).slots;
    }

    /** The record of a pid stands in no other slot. */
    lemma AllDiffer(p: nat)
      requires RecordsValid() && p + 1 < procs.Length && procs[p + 1] != null
      requires State().At(p).Some? && WellFormed(Mark(State(), p))
      ensures forall i :: 0 <= i < procs.Length && i != p + 1 ==> procs[i] != procs[p + 1]
    {
      forall i | 0 <= i < procs.Length && i != p + 1 ensures procs[i] != procs[p + 1] {
        assert SlotOk(Mark(State(), p).slots[i], i, procs.Length);
        assert SlotOk(Mark(State(), p).slots[p + 1], p + 1, procs.Length);
      }
    }

    /** procindex_retrieve */
    method Retrieve(pid: int) returns (c: ExecCall?)
      requires Valid()
      modifies procs
      ensures Valid() && Records() <= old(Records())
      ensures SlotValid(c) && (State(), SlotValue(c)) == ProcessIndex.Retrieve(old(State()), pid)
      ensures c != null ==> c in old(Records())
    {
      RetrieveRemoves(State(), pid);
      var occupied := IsOccupied(pid);
      if !occupied {
        return null;
      }
      ghost var before := State();
      c := procs[pid + 1];
      procs[pid + 1] := null;
      assert State().slots == ProcessIndex.Retrieve(before, pid).0.slots;
    }

    // ----- Sending records off -----

    /** The table, as far as the liveness sweep has come. */
    static ghost function SweptTo(ix: Index, dead: set<int>, n: nat): (m: Index)
      requires n <= |ix.slots|
      ensures |m.slots| == |ix.slots| && m.maxPid == ix.maxPid
    {
      ix.(slots := Sweep(ix, dead).slots[..n] + ix.slots[n..])
    }

    static lemma SweptToWellFormed(ix: Index, dead: set<int>, n: nat)
      requires WellFormed(ix) && n <= |ix.slots|
      ensures WellFormed(SweptTo(ix, dead, n))
    {
      var m := SweptTo(ix, dead, n);
      forall i | 0 <= i < |m.slots| ensures SlotOk(m.slots[i], i, |m.slots|) {
        assert SlotOk(ix.slots[i], i, |ix.slots|);
      }
    }

    static lemma SweptToStep(ix: Index, dead: set<int>, n: nat)
      requires n < |ix.slots|
      ensures SweptTo(ix, dead, n).slots[n] == ix.slots[n]
      ensures SweptTo(ix, dead, n + 1).slots == SweptTo(ix, dead, n).slots[n := AfterSweep(ix.slots[n], dead)]
    {}

    /** One slot of the sweep: what is left in it, and the record to send off, if any. */
    method VisitSlot(i: nat, dead: set<int>) returns (sent: seq<Rec>)
      requires Valid() && i < procs.Length
      modifies procs, Records()
      ensures RecordsValid() && Records() <= old(Records())
      ensures State() == old(State()).(slots := old(State()).slots[i := AfterSweep(old(State()).slots[i], dead)])
      ensures sent == if Dying(old(State()).slots[i], dead) then [old(State()).slots[i].value] else []
    {
      AllSlotsDiffer();
      ghost var before := State();
      sent := [];
      var currProc := procs[i];
      if currProc != null {
        var needsDispatch := currProc.pid as int in dead;
        if needsDispatch && currProc.tracked {
          var copy := currProc.Copy();
          sent := [copy];
          procs[i] := null;
        } else if needsDispatch && currProc.deadness > 2 {
          procs[i] := null;
        } else if needsDispatch {
          currProc.deadness := currProc.deadness + 1;
        }
      }
      assert State().slots == before.slots[i := AfterSweep(before.slots[i], dead)];
    }
  }

  // ----- Unchecked writes to the dispatch ring -----

  lemma SendAppends(t: Table, a: seq<Rec>, b: seq<Rec>)
    requires |t.dispatch| <= SIZE_RING
    ensures Send(Send(t, a), b) == Send(t, a + b)
  {
    var k, j := Room(t.dispatch, |a|), Room(t.dispatch, |a + b|);
    assert k == |a| ==> (a + b)[..j] == a + b[..j - k] && (a + b)[j..] == b[j - k..];
    assert k < |a| ==> j == k && (a + b)[..j] == a[..k] && (a + b)[j..] == a[k..] + b;
    assert a[|a|..] == [];
    assert t.dispatch + (a[..k] + []) == t.dispatch + a[..k];
  }

  ghost function Queue(q: seq<Rec>): (t: Table)
    ensures t.dispatch == q && t.lost == []
  {
    Table(Index([], 0), q, [], [])
  }

  /** g_ringBuffer_write with the answer ignored: a full ring loses the record. */
  method WriteAll(ring: RingBuffer<Rec>, rs: seq<Rec>) returns (ghost lost: seq<Rec>)
    requires ring.Valid()
    modifies ring, ring.buffer
    ensures ring.Valid()
    ensures ring.Contents() == Send(Queue(old(ring.Contents())), rs).dispatch
    ensures lost == Send(Queue(old(ring.Contents())), rs).lost
  {
    lost := [];
    var i := 0;
    while i < |rs|
      invariant i <= |rs| && ring.Valid()
      invariant |old(ring.Contents())| <= SIZE_RING
      invariant ring.Contents() == Send(Queue(old(ring.Contents())), rs[..i]).dispatch
      invariant lost == Send(Queue(old(ring.Contents())), rs[..i]).lost
    {
      SendAppends(Queue(old(ring.Contents())), rs[..i], [rs[i]]);
      assert rs[..i + 1] == rs[..i] + [rs[i]];
      ghost var before := ring.Contents();
      var full := ring.Write(rs[i]);
      lost := if full then lost + [rs[i]] else lost;
      i := i + 1;
    }
    assert rs[..i] == rs;
  }
}
