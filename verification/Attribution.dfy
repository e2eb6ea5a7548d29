/** To which process record each open call goes, over any sequence of deliveries and liveness sweeps. */
module Attribution {
  import opened Basics
  import opened RingBuffers
  import opened ProcessIndex
  import opened AncestorTracking
  import opened RecordTable
  import opened EventLoop
  import opened MergeOrder

  // ----- The life of one process -----

  /** What happens to the records: a call is handed over, or a sweep sends off the records of some
      processes and destroys those of others. */
  datatype Occurrence = Handed(d: Delivery) | Swept(taken: set<int>, dropped: set<int>)

  /** What a record says of its process, and the open calls in its buffer. */
  datatype Generation = Generation(cmd: CString, args: CString, time: Time, calls: seq<OpenCall>)

  /** The records of a process that have been sent off, in order, and the one present. */
  datatype Life = Life(closed: seq<Generation>, current: Option<Generation>)

  function GenOf(r: Rec): Generation {
    Generation(r.cmd, r.args, r.time, r.calls)
  }

  function PidOf(d: Delivery): int {
    if d.Opened? then d.o.pid else d.e.pid
  }

  /** The generation a delivery begins: that of the exec call, or a placeholder with the open call. */
  function Begun(d: Delivery): Generation {
    if d.Opened? then Generation(d.o.cmd, UNKNOWN, EPOCH, [d.o]) else Generation(d.e.cmd, d.e.args, d.e.time, [])
  }

  function Joined(g: Generation, o: OpenCall): Generation {
    g.(calls := g.calls + [o])
  }

  /** One occurrence, as process p sees it: any delivery begins a generation if there is none; a replacement
      begins one in any case; an open call joins the present one; a sweep may end it. */
  function NextLife(l: Life, x: Occurrence, p: int): Life {
    match x
    case Handed(d) =>
      if PidOf(d) != p then l
      else if l.current.None? then l.(current := Some(Begun(d)))
      else (
        match d
        case Replace(_) => Life(l.closed + [l.current.value], Some(Begun(d)))
        case Insert(_) => l
        case Opened(o) => l.(current := Some(Joined(l.current.value, o)))
      )
    case Swept(taken, dropped) =>
      if l.current.None? then l
      else if p in taken then Life(l.closed + [l.current.value], None)
      else if p in dropped then l.(current := None)
      else l
  }

  /** The reference: the life of p, with neither table nor ring. */
  function LifeOf(start: Option<Rec>, xs: seq<Occurrence>, p: int): Life {
    if xs == [] then Life([], if start.Some? then Some(GenOf(start.value)) else None)
    else NextLife(LifeOf(start, xs[..|xs| - 1], p), xs[|xs| - 1], p)
  }

  lemma LifeSnoc(start: Option<Rec>, xs: seq<Occurrence>, x: Occurrence, p: int)
    ensures LifeOf(start, xs + [x], p) == NextLife(LifeOf(start, xs, p), x, p)
  {
    assert (xs + [x])[..|xs|] == xs;
  }

  /** A log without sweeps. */
  function Handeds(ds: seq<Delivery>): (xs: seq<Occurrence>)
    ensures |xs| == |ds| && forall i :: 0 <= i < |ds| ==> xs[i] == Handed(ds[i])
  {
    seq(|ds|, i requires 0 <= i < |ds| => Handed(ds[i]))
  }

  lemma HandedsSnoc(ds: seq<Delivery>, d: Delivery)
    ensures Handeds(ds + [d]) == Handeds(ds) + [Handed(d)]
  {}

  // ----- The table follows the reference -----

  /** The records that have left the table and are not lost, in order of departure. */
  function SentOff(t: Table): seq<Rec> {
    t.archived + t.dispatch
  }

  /** The records of p among those. */
  function GoneOf(rs: seq<Rec>, p: int): seq<Generation> {
    if rs == [] then []
    else GoneOf(rs[..|rs| - 1], p) + if rs[|rs| - 1].pid == p then [GenOf(rs[|rs| - 1])] else []
  }

  lemma GoneOfSnoc(rs: seq<Rec>, r: Rec, p: int)
    ensures GoneOf(rs + [r], p) == GoneOf(rs, p) + if r.pid == p then [GenOf(r)] else []
  {
    assert (rs + [r])[..|rs|] == rs;
  }

  lemma {:induction false} GoneOfConcat(a: seq<Rec>, b: seq<Rec>, p: int)
    ensures GoneOf(a + b, p) == GoneOf(a, p) + GoneOf(b, p)
    decreases |b|
  {
    if b == [] {
      assert a + b == a;
    } else {
      var c, r := b[..|b| - 1], b[|b| - 1];
      assert b == c + [r] && a + b == (a + c) + [r];
      GoneOfConcat(a, c, p);
      GoneOfSnoc(a + c, r, p);
    }
  }

  function Present(ix: Index, p: int): Option<Generation> {
    if ix.At(p).Some? then Some(GenOf(ix.At(p).value)) else None
  }

  /** The present record of p is the current generation; its records sent off are the closed ones, in
      order, behind those that had been sent off earlier. */
  ghost predicate Matches(t: Table, earlier: seq<Generation>, l: Life, p: int) {
    Present(t.ix, p) == l.current && GoneOf(SentOff(t), p) == earlier + l.closed
  }

  lemma OpenAddMarks(ix: Index, o: OpenCall)
    requires WellFormed(ix) && ix.Accepts(o.pid)
    ensures OnlyMarks(Attached(ix, o), OpenAdd(ix, o).0)
  {
    WithTargetHolds(ix, o);
    var a := Attached(ix, o);
    if a.Tracked(o.pid) {
      OnlyMarksSelf(a);
    } else {
      MarkOnlyMarks(a, o.pid);
      TrackParentsOnlyMarks(Mark(a, o.pid), o.pid);
      MarksCompose(a, Mark(a, o.pid), OpenAdd(ix, o).0);
    }
  }

  /** A replacement touches no other process; of its own, it sends the record present off, and a fresh one
      takes its place. */
  lemma ReplaceEffect(t: Table, e: Exec, p: int)
    requires TableOk(t) && AddExec(t, e).lost == t.lost
    ensures var u := AddExec(t, e);
            && Present(u.ix, p) == (if p == e.pid && t.ix.Accepts(p) then Some(Begun(Replace(e))) else Present(t.ix, p))
            && GoneOf(SentOff(u), p) ==
               GoneOf(SentOff(t), p)
               + (if p == e.pid && t.ix.At(p).Some? && t.ix.Accepts(p) then [GenOf(t.ix.At(p).value)] else [])
  {
    hide AddExec;
    AddExecEffect(t, e);
    var u := AddExec(t, e);
    if t.ix.At(e.pid).Some? && t.ix.Accepts(e.pid) {
      var r := t.ix.At(e.pid).value;
      OwnPid(t.ix, e.pid);
      SendLosesIff(t, [r]);
      assert SentOff(u) == SentOff(t) + [r];
      GoneOfSnoc(SentOff(t), r, p);
    } else {
      assert GoneOf(SentOff(t), p) + [] == GoneOf(SentOff(t), p);
    }
  }

  /** Where an open call goes: behind the calls of the record present, or into a placeholder. */
  lemma OpenEffect(ix: Index, o: OpenCall, p: int)
    requires WellFormed(ix)
    ensures Present(OpenAdd(ix, o).0, p) ==
            if p != o.pid || !ix.Accepts(p) then Present(ix, p)
            else if ix.At(p).None? then Some(Begun(Opened(o))) else Some(Joined(GenOf(ix.At(p).value), o))
  {
    if ix.Accepts(o.pid) {
      OpenAddMarks(ix, o);
      WithTargetHolds(ix, o);
      var n := OpenAdd(ix, o).0;
      assert Attached(ix, o).At(p).Some? == n.At(p).Some?;
      assert [] + [o] == [o];
    }
  }

  lemma OwnDeliveryMatches(t: Table, earlier: seq<Generation>, l: Life, d: Delivery)
    requires TableOk(t) && t.ix.Accepts(PidOf(d)) && Deliver(t, d).lost == t.lost && Matches(t, earlier, l, PidOf(d))
    ensures Matches(Deliver(t, d), earlier, NextLife(l, Handed(d), PidOf(d)), PidOf(d))
  {
    hide WellFormed, GoneOf, Add, OpenAdd, AddExec;
    var p := PidOf(d);
    match d
    case Replace(e) => ReplaceEffect(t, e, p);
    case Insert(e) => AddIsInsertion(t.ix, NewRec(e));
    case Opened(o) => OpenEffect(t.ix, o, p);
  }

  lemma OtherDeliveryMatches(t: Table, earlier: seq<Generation>, l: Life, d: Delivery, p: int)
    requires TableOk(t) && PidOf(d) != p && Deliver(t, d).lost == t.lost && Matches(t, earlier, l, p)
    ensures Matches(Deliver(t, d), earlier, l, p)
  {
    hide WellFormed, GoneOf, Add, OpenAdd, AddExec;
    match d
    case Replace(e) => ReplaceEffect(t, e, p);
    case Insert(e) => AddIsInsertion(t.ix, NewRec(e));
    case Opened(o) => OpenEffect(t.ix, o, p);
  }

  lemma DeliverMatches(t: Table, earlier: seq<Generation>, l: Life, d: Delivery, p: int)
    requires TableOk(t) && t.ix.Accepts(p) && Deliver(t, d).lost == t.lost && Matches(t, earlier, l, p)
    ensures Matches(Deliver(t, d), earlier, NextLife(l, Handed(d), p), p)
  {
    hide WellFormed, Deliver, Matches;
    if PidOf(d) == p {
      OwnDeliveryMatches(t, earlier, l, d);
    } else {
      OtherDeliveryMatches(t, earlier, l, d, p);
    }
  }

  lemma DrainMatches(t: Table, earlier: seq<Generation>, l: Life, p: int)
    requires Matches(t, earlier, l, p)
    ensures Matches(Drain(t), earlier, l, p)
  {
    assert SentOff(Drain(t)) == SentOff(t);
  }

  // ----- Sweeps -----

  /** What a sweep does, given the pids found dead: tracked records are sent off, untracked ones past the
      threshold destroyed. */
  function SweepOf(ix: Index, dead: set<int>): Occurrence {
    Swept(set p | p in dead && ix.Tracked(p),
          set p | p in dead && ix.At(p).Some? && !ix.At(p).value.tracked && ix.At(p).value.deadness > 2)
  }

  /** Every record stands where its pid says. */
  ghost predicate InPlace(slots: seq<Option<Rec>>) {
    forall i :: 0 <= i < |slots| && slots[i].Some? ==> slots[i].value.pid == i - 1
  }

  lemma WellFormedInPlace(ix: Index)
    requires WellFormed(ix)
    ensures InPlace(ix.slots)
  {
    forall i | 0 <= i < |ix.slots| && ix.slots[i].Some? ensures ix.slots[i].value.pid == i - 1 {
      NextSlot(ix, i);
    }
  }

  lemma {:induction false} DyingOf(slots: seq<Option<Rec>>, dead: set<int>, p: nat)
    requires InPlace(slots)
    ensures GoneOf(DyingRecs(slots, dead), p) ==
            if p + 1 < |slots| && Dying(slots[p + 1], dead) then [GenOf(slots[p + 1].value)] else []
    decreases |slots|
  {
    if slots != [] {
      var n := |slots| - 1;
      var last, rest: seq<Rec> := slots[n], DyingRecs(slots[..n], dead);
      assert InPlace(slots[..n]);
      DyingOf(slots[..n], dead, p);
      if Dying(last, dead) {
        assert last.value.pid == n - 1;
        GoneOfSnoc(rest, last.value, p);
      } else {
        assert rest + [] == rest;
      }
    }
  }

  /** Of process p a sweep sends the record off, or destroys it, or leaves it. */
  lemma SweepEffect(t: Table, dead: set<int>, p: int)
    requires TableOk(t) && t.ix.Accepts(p) && SweepTable(t, dead).lost == t.lost
    ensures var u, was := SweepTable(t, dead), t.ix.At(p);
            && Present(u.ix, p) ==
               (if p in dead && was.Some? && (was.value.tracked || was.value.deadness > 2) then None
                else Present(t.ix, p))
            && GoneOf(SentOff(u), p) ==
               GoneOf(SentOff(t), p)
               + (if p in dead && was.Some? && was.value.tracked then [GenOf(was.value)] else [])
            && (was.Some? && !was.value.tracked ==> was.value.calls == [])
  {
    SweepWellFormed(t.ix, dead);
    SweepSends(t, dead, p);
    if t.ix.At(p).Some? {
      OwnPid(t.ix, p);
    }
    hide GoneOf, SentOff, WellFormed, DyingRecs, Sweep;
  }

  lemma SweepSends(t: Table, dead: set<int>, p: int)
    requires TableOk(t) && t.ix.Accepts(p) && SweepTable(t, dead).lost == t.lost
    ensures var was := t.ix.At(p);
            GoneOf(SentOff(SweepTable(t, dead)), p) ==
            GoneOf(SentOff(t), p)
            + (if p in dead && was.Some? && was.value.tracked then [GenOf(was.value)] else [])
  {
    var rs := DyingRecs(t.ix.slots, dead);
    WellFormedInPlace(t.ix);
    DyingOf(t.ix.slots, dead, p);
    if t.ix.At(p).Some? {
      OwnPid(t.ix, p);
    }
    hide WellFormed, DyingRecs, GoneOf;
    SendLosesIff(t, rs);
    assert SentOff(SweepTable(t, dead)) == SentOff(t) + rs;
    GoneOfConcat(SentOff(t), rs, p);
  }

  lemma SweepMatches(t: Table, earlier: seq<Generation>, l: Life, dead: set<int>, p: int)
    requires TableOk(t) && t.ix.Accepts(p) && SweepTable(t, dead).lost == t.lost && Matches(t, earlier, l, p)
    ensures Matches(SweepTable(t, dead), earlier, NextLife(l, SweepOf(t.ix, dead), p), p)
    ensures p in SweepOf(t.ix, dead).dropped && l.current.Some? ==> l.current.value.calls == []
  {
    SweepEffect(t, dead, p);
    SweepOfSets(t.ix, dead, p);
    hide GoneOf, TableOk, SweepTable, SweepOf, SentOff;
    assert earlier + l.closed + [] == earlier + l.closed;
  }

  lemma SweepOfSets(ix: Index, dead: set<int>, p: int)
    ensures var x := SweepOf(ix, dead);
            && x.Swept?
            && (p in x.taken <==> p in dead && ix.Tracked(p))
            && (p in x.dropped <==>
                  p in dead && ix.At(p).Some? && !ix.At(p).value.tracked && ix.At(p).value.deadness > 2)
  {}

  /** After a sweep an open call still reaches the exec record that was present, exactly if the sweep did
      not end it: otherwise the call goes into a placeholder, although the exec call is known. */
  lemma SweptProcessKeepsRecordIff(t: Table, dead: set<int>, o: OpenCall)
    requires TableOk(t) && t.ix.Accepts(o.pid) && t.ix.At(o.pid).Some? && t.ix.At(o.pid).value.args != UNKNOWN
    ensures var was, u := t.ix.At(o.pid).value, SweepTable(t, dead);
            && TableOk(u)
            && var now := Present(Deliver(u, Opened(o)).ix, o.pid);
               && (now == Some(Joined(GenOf(was), o)) <==>
                     !(o.pid in dead && (was.tracked || was.deadness > 2)))
               && (o.pid in dead && (was.tracked || was.deadness > 2) ==> now == Some(Begun(Opened(o))))
  {
    hide DyingRecs, OpenAdd, WellFormed;
    SweepTableOk(t, dead);
    SweepWellFormed(t.ix, dead);
    OwnPid(t.ix, o.pid);
    OpenEffect(SweepTable(t, dead).ix, o, o.pid);
  }

  // ----- Any sequence of deliveries -----

  lemma LostOnlyGrowsOnce(t: Table, d: Delivery)
    requires TableOk(t)
    ensures t.lost <= Deliver(t, d).lost
  {
    hide WellFormed, OpenAdd, Add;
    if d.Replace? {
      AddExecEffect(t, d.e);
    }
  }

  lemma {:induction false} LostOnlyGrows(t: Table, ds: seq<Delivery>)
    requires TableOk(t)
    ensures t.lost <= DeliverAll(t, ds).lost
    decreases |ds|
  {
    if ds != [] {
      hide WellFormed, Deliver;
      DeliverOk(t, ds[0]);
      LostOnlyGrowsOnce(t, ds[0]);
      LostOnlyGrows(Deliver(t, ds[0]), ds[1..]);
    }
  }

  /** Over any sequence of surv_addExecCall, procindex_add and procindex_opencall_add calls in which no record
      is lost, the records of a process, first those sent off and then the one present, are exactly its
      generations, in order, each once, and each with exactly its open calls. */
  lemma {:induction false} DeliveriesAttributed(t: Table, ds: seq<Delivery>, p: int)
    requires TableOk(t) && t.ix.Accepts(p) && DeliverAll(t, ds).lost == t.lost
    ensures Matches(DeliverAll(t, ds), GoneOf(SentOff(t), p), LifeOf(t.ix.At(p), Handeds(ds), p), p)
    decreases |ds|
  {
    hide WellFormed, GoneOf, NextLife, Deliver;
    var earlier := GoneOf(SentOff(t), p);
    if ds == [] {
      assert earlier + [] == earlier;
    } else {
      var c, d := ds[..|ds| - 1], ds[|ds| - 1];
      assert ds == c + [d];
      DeliverAllConcat(t, c, [d]);
      var u := DeliverAll(t, c);
      DeliverOne(u, d);
      LostOnlyGrows(t, c);
      LostOnlyGrowsOnce(u, d);
      DeliveriesAttributed(t, c, p);
      DeliverMatches(u, earlier, LifeOf(t.ix.At(p), Handeds(c), p), d, p);
      HandedsSnoc(c, d);
      LifeSnoc(t.ix.At(p), Handeds(c), Handed(d), p);
    }
  }

  // ----- Which exec call an open call belongs to -----

  /** It ends the present generation of p. */
  predicate Ends(x: Occurrence, p: int) {
    match x
    case Handed(d) => d.Replace? && PidOf(d) == p
    case Swept(taken, dropped) => p in taken || p in dropped
  }

  /** There is no record of p before position j. */
  predicate Absent(start: Option<Rec>, xs: seq<Occurrence>, j: nat, p: int)
    requires j <= |xs|
  {
    if j == 0 then start.None?
    else if xs[j - 1].Handed? then PidOf(xs[j - 1].d) != p && Absent(start, xs, j - 1, p)
    else Ends(xs[j - 1], p) || Absent(start, xs, j - 1, p)
  }

  /** The position where the generation present before position j began: the last replacement of p, or the
      last delivery of p that found no record; -1 for the record of the start. */
  function LastStart(start: Option<Rec>, xs: seq<Occurrence>, j: nat, p: int): (i: int)
    requires j <= |xs|
    ensures -1 <= i < j
    ensures i >= 0 ==> xs[i].Handed? && PidOf(xs[i].d) == p && (xs[i].d.Replace? || Absent(start, xs, i, p))
  {
    if j == 0 then -1
    else if xs[j - 1].Handed? && PidOf(xs[j - 1].d) == p && (xs[j - 1].d.Replace? || Absent(start, xs, j - 1, p))
    then j - 1
    else LastStart(start, xs, j - 1, p)
  }

  /** The open calls of p from position k up to the end of the generation. */
  function CallsFrom(xs: seq<Occurrence>, k: nat, p: int): seq<OpenCall>
    requires k <= |xs|
    decreases |xs| - k
  {
    if k == |xs| || Ends(xs[k], p) then []
    else (if IsCallOf(xs[k], p) then [xs[k].d.o] else []) + CallsFrom(xs, k + 1, p)
  }

  predicate IsCallOf(x: Occurrence, p: int) {
    x.Handed? && x.d.Opened? && PidOf(x.d) == p
  }

  ghost predicate NoEndFrom(xs: seq<Occurrence>, k: int, p: int) {
    forall j :: k <= j < |xs| && 0 <= j ==> !Ends(xs[j], p)
  }

  /** The generation of p that begins at position i. */
  function GenerationFrom(start: Option<Rec>, xs: seq<Occurrence>, i: int, p: int): Generation
    requires -1 <= i < |xs| && (if i >= 0 then xs[i].Handed? else start.Some?)
  {
    var g := if i >= 0 then Begun(xs[i].d) else GenOf(start.value);
    g.(calls := g.calls + CallsFrom(xs, i + 1, p))
  }

  /** There is a generation that begins at position i. */
  ghost predicate Born(start: Option<Rec>, xs: seq<Occurrence>, i: int, p: int) {
    -1 <= i < |xs| && if i >= 0 then xs[i].Handed? else start.Some?
  }

  lemma {:induction false} CallsFromSnoc(xs: seq<Occurrence>, x: Occurrence, k: nat, p: int)
    requires k <= |xs|
    ensures CallsFrom(xs + [x], k, p) ==
            CallsFrom(xs, k, p) + if NoEndFrom(xs, k, p) && IsCallOf(x, p) then [x.d.o] else []
    decreases |xs| - k
  {
    var ys := xs + [x];
    if k == |xs| {
      assert ys[k] == x && CallsFrom(ys, k + 1, p) == [];
    } else {
      assert ys[k] == xs[k];
      if !Ends(xs[k], p) {
        CallsFromSnoc(xs, x, k + 1, p);
        assert NoEndFrom(xs, k, p) <==> NoEndFrom(xs, k + 1, p);
        var own := if IsCallOf(xs[k], p) then [xs[k].d.o] else [];
        var last := if NoEndFrom(xs, k, p) && IsCallOf(x, p) then [x.d.o] else [];
        assert own + (CallsFrom(xs, k + 1, p) + last) == own + CallsFrom(xs, k + 1, p) + last;
      }
    }
  }

  lemma {:induction false} CallsFromContains(xs: seq<Occurrence>, k: nat, j: nat, p: int)
    requires k <= j < |xs| && IsCallOf(xs[j], p)
    requires forall i :: k <= i < j ==> !Ends(xs[i], p)
    ensures xs[j].d.o in CallsFrom(xs, k, p)
    decreases j - k
  {
    if k < j {
      CallsFromContains(xs, k + 1, j, p);
    }
  }

  lemma {:induction false} PrefixStarts(start: Option<Rec>, xs: seq<Occurrence>, x: Occurrence, j: nat, p: int)
    requires j <= |xs|
    ensures Absent(start, xs + [x], j, p) == Absent(start, xs, j, p)
    ensures LastStart(start, xs + [x], j, p) == LastStart(start, xs, j, p)
    decreases j
  {
    if j > 0 {
      PrefixStarts(start, xs, x, j - 1, p);
      assert (xs + [x])[j - 1] == xs[j - 1];
    }
  }

  /** Since the present generation began, nothing has ended it. */
  lemma {:induction false} NoEndSinceStart(start: Option<Rec>, xs: seq<Occurrence>, j: nat, p: int)
    requires j <= |xs| && !Absent(start, xs, j, p)
    ensures forall k :: LastStart(start, xs, j, p) < k < j ==> !Ends(xs[k], p)
    ensures Born(start, xs, LastStart(start, xs, j, p), p) || |xs| == 0
    decreases j
  {
    if j > 0 && LastStart(start, xs, j, p) != j - 1 {
      NoEndSinceStart(start, xs, j - 1, p);
    }
  }

  lemma GenerationSnoc(start: Option<Rec>, xs: seq<Occurrence>, x: Occurrence, i: int, p: int)
    requires Born(start, xs, i, p)
    ensures Born(start, xs + [x], i, p)
    ensures var g := GenerationFrom(start, xs, i, p);
            GenerationFrom(start, xs + [x], i, p) ==
            if NoEndFrom(xs, i + 1, p) && IsCallOf(x, p) then Joined(g, x.d.o) else g
  {
    CallsFromSnoc(xs, x, i + 1, p);
    assert i >= 0 ==> (xs + [x])[i] == xs[i];
    var g := if i >= 0 then Begun(xs[i].d) else GenOf(start.value);
    var calls := CallsFrom(xs, i + 1, p);
    assert calls + [] == calls;
    if NoEndFrom(xs, i + 1, p) && IsCallOf(x, p) {
      assert g.calls + (calls + [x.d.o]) == g.calls + calls + [x.d.o];
    }
  }

  /** A generation of which nothing but its beginning is known. */
  lemma JustBegun(start: Option<Rec>, xs: seq<Occurrence>, d: Delivery, p: int)
    ensures Born(start, xs + [Handed(d)], |xs|, p)
    ensures GenerationFrom(start, xs + [Handed(d)], |xs|, p) == Begun(d)
  {
    var ys := xs + [Handed(d)];
    assert ys[|xs|] == Handed(d) && CallsFrom(ys, |xs| + 1, p) == [];
    assert Begun(d).calls + [] == Begun(d).calls;
  }

  /** g is the generation present at the end, told by positions. */
  ghost predicate IsCurrent(start: Option<Rec>, xs: seq<Occurrence>, p: int, g: Option<Generation>) {
    var i := LastStart(start, xs, |xs|, p);
    && (Absent(start, xs, |xs|, p) <==> g.None?)
    && (g.Some? ==>
          Born(start, xs, i, p) && NoEndFrom(xs, i + 1, p) && g.value == GenerationFrom(start, xs, i, p))
  }

  lemma {:induction false} CurrentGeneration(start: Option<Rec>, xs: seq<Occurrence>, p: int)
    ensures IsCurrent(start, xs, p, LifeOf(start, xs, p).current)
    decreases |xs|
  {
    if xs == [] {
      EmptyStart(start, p);
    } else {
      hide IsCurrent, NextLife;
      var c, x := xs[..|xs| - 1], xs[|xs| - 1];
      assert xs == c + [x];
      CurrentGeneration(start, c, p);
      CurrentNext(start, c, x, p, LifeOf(start, c, p));
    }
  }

  lemma CurrentNext(start: Option<Rec>, xs: seq<Occurrence>, x: Occurrence, p: int, l: Life)
    requires IsCurrent(start, xs, p, l.current)
    ensures IsCurrent(start, xs + [x], p, NextLife(l, x, p).current)
  {
    hide GenerationFrom;
    PrefixStarts(start, xs, x, |xs|, p);
    if x.Handed? && PidOf(x.d) == p && (x.d.Replace? || l.current.None?) {
      JustBegun(start, xs, x.d, p);
    } else if l.current.Some? {
      var i := LastStart(start, xs, |xs|, p);
      GenerationSnoc(start, xs, x, i, p);
      SplitEnd(xs, x, i + 1, p);
    }
  }

  lemma EmptyStart(start: Option<Rec>, p: int)
    ensures start.Some? ==> GenerationFrom(start, [], -1, p) == GenOf(start.value)
  {
    assert start.Some? ==> start.value.calls + [] == start.value.calls;
  }

  /** Sweeps destroy only what has no open calls. */
  ghost predicate DropsNoCalls(start: Option<Rec>, xs: seq<Occurrence>, p: int) {
    forall k :: 0 <= k < |xs| && xs[k].Swept? && p in xs[k].dropped && p !in xs[k].taken ==>
      var l := LifeOf(start, xs[..k], p); l.current.Some? ==> l.current.value.calls == []
  }

  lemma DropsNoCallsFront(start: Option<Rec>, xs: seq<Occurrence>, p: int)
    requires xs != [] && DropsNoCalls(start, xs, p)
    ensures DropsNoCalls(start, xs[..|xs| - 1], p)
  {
    var c := xs[..|xs| - 1];
    forall k | 0 <= k < |c| && c[k].Swept? && p in c[k].dropped && p !in c[k].taken
      ensures var l := LifeOf(start, c[..k], p); l.current.Some? ==> l.current.value.calls == []
    {
      assert c[..k] == xs[..k] && c[k] == xs[k];
    }
  }

  /** The generation of the open call at position j is present or closed, complete, with that call. */
  ghost predicate Stays(start: Option<Rec>, xs: seq<Occurrence>, j: nat, p: int)
    requires j < |xs|
  {
    && Born(start, xs, LastStart(start, xs, j + 1, p), p)
    && Holds(LifeOf(start, xs, p), GenerationFrom(start, xs, LastStart(start, xs, j + 1, p), p), xs, j, p)
  }

  /** g has the open call at position j, and is present, or closed if something has ended it since. */
  ghost predicate Holds(l: Life, g: Generation, xs: seq<Occurrence>, j: nat, p: int)
    requires j < |xs|
  {
    && IsCallOf(xs[j], p) && xs[j].d.o in g.calls
    && if NoEndFrom(xs, j + 1, p) then l.current == Some(g) else g in l.closed
  }

  lemma StaysAtFirst(start: Option<Rec>, xs: seq<Occurrence>, j: nat, p: int)
    requires |xs| == j + 1 && IsCallOf(xs[j], p)
    ensures Stays(start, xs, j, p)
  {
    CallIsInGeneration(start, xs, j, p);
    CurrentGeneration(start, xs, p);
  }

  lemma StaysOnce(start: Option<Rec>, xs: seq<Occurrence>, x: Occurrence, j: nat, p: int)
    requires j < |xs| && IsCallOf(xs[j], p) && Stays(start, xs, j, p) && DropsNoCalls(start, xs + [x], p)
    ensures Stays(start, xs + [x], j, p)
  {
    var ys, i := xs + [x], LastStart(start, xs, j + 1, p);
    var g := GenerationFrom(start, xs, i, p);
    PrefixStarts(start, xs, x, j + 1, p);
    GenerationSnoc(start, xs, x, i, p);
    SinceCall(start, xs, j, p);
    LifeSnoc(start, xs, x, p);
    DropsLast(start, xs, x, p);
    HoldsNext(LifeOf(start, xs, p), g, xs, x, j, p);
    assert Holds(LifeOf(start, ys, p), GenerationFrom(start, ys, i, p), ys, j, p);
  }

  lemma HoldsNext(l: Life, g: Generation, xs: seq<Occurrence>, x: Occurrence, j: nat, p: int)
    requires j < |xs| && Holds(l, g, xs, j, p)
    requires x.Swept? && p in x.dropped && p !in x.taken && l.current.Some? ==> l.current.value.calls == []
    ensures Holds(NextLife(l, x, p), if NoEndFrom(xs, j + 1, p) && IsCallOf(x, p) then Joined(g, x.d.o) else g,
                  xs + [x], j, p)
  {
    hide NextLife;
    assert (xs + [x])[j] == xs[j];
    SplitEnd(xs, x, j + 1, p);
    NextLifeKeeps(l, x, p, g);
  }

  lemma {:induction false} GenerationStays(start: Option<Rec>, xs: seq<Occurrence>, j: nat, p: int)
    requires j < |xs| && IsCallOf(xs[j], p) && DropsNoCalls(start, xs, p)
    ensures Stays(start, xs, j, p)
    decreases |xs|
  {
    hide Stays, DropsNoCalls;
    if j + 1 == |xs| {
      StaysAtFirst(start, xs, j, p);
    } else {
      var c := xs[..|xs| - 1];
      assert xs == c + [xs[|xs| - 1]];
      DropsNoCallsFront(start, xs, p);
      GenerationStays(start, c, j, p);
      StaysOnce(start, c, xs[|xs| - 1], j, p);
    }
  }

  /** A generation with open calls goes on, or is closed, or stays closed. */
  lemma NextLifeKeeps(l: Life, x: Occurrence, p: int, g: Generation)
    requires g.calls != []
    requires x.Swept? && p in x.dropped && p !in x.taken && l.current.Some? ==> l.current.value.calls == []
    ensures g in l.closed ==> g in NextLife(l, x, p).closed
    ensures l.current == Some(g) && Ends(x, p) ==> g in NextLife(l, x, p).closed
    ensures l.current == Some(g) && !Ends(x, p) ==>
              NextLife(l, x, p).current == Some(if IsCallOf(x, p) then Joined(g, x.d.o) else g)
  {}

  lemma DropsLast(start: Option<Rec>, xs: seq<Occurrence>, x: Occurrence, p: int)
    requires DropsNoCalls(start, xs + [x], p)
    ensures x.Swept? && p in x.dropped && p !in x.taken && LifeOf(start, xs, p).current.Some? ==>
              LifeOf(start, xs, p).current.value.calls == []
  {
    var ys := xs + [x];
    assert ys[|xs|] == x && ys[..|xs|] == xs;
  }

  lemma SplitEnd(xs: seq<Occurrence>, x: Occurrence, k: nat, p: int)
    requires k <= |xs|
    ensures NoEndFrom(xs + [x], k, p) <==> NoEndFrom(xs, k, p) && !Ends(x, p)
  {
    assert (xs + [x])[|xs|] == x && forall i :: 0 <= i < |xs| ==> (xs + [x])[i] == xs[i];
  }

  lemma SinceCall(start: Option<Rec>, xs: seq<Occurrence>, j: nat, p: int)
    requires j < |xs| && IsCallOf(xs[j], p)
    ensures NoEndFrom(xs, LastStart(start, xs, j + 1, p) + 1, p) <==> NoEndFrom(xs, j + 1, p)
  {
    NoEndSinceStart(start, xs, j + 1, p);
  }

  lemma CallIsInGeneration(start: Option<Rec>, xs: seq<Occurrence>, j: nat, p: int)
    requires j < |xs| && IsCallOf(xs[j], p)
    ensures var i := LastStart(start, xs, j + 1, p);
            Born(start, xs, i, p) && xs[j].d.o in GenerationFrom(start, xs, i, p).calls
  {
    var i := LastStart(start, xs, j + 1, p);
    NoEndSinceStart(start, xs, j + 1, p);
    if i == j {
      assert xs[j].d.o in Begun(xs[j].d).calls;
    } else {
      CallsFromContains(xs, i + 1, j, p);
    }
  }

  // ----- Every open call has its record -----

  /** r is in the table, or has been sent off. */
  ghost predicate Recorded(t: Table, r: Rec) {
    t.ix.At(r.pid) == Some(r) || r in SentOff(t)
  }

  lemma {:induction false} GoneHolds(rs: seq<Rec>, p: int, g: Generation) returns (r: Rec)
    requires g in GoneOf(rs, p)
    ensures r in rs && r.pid == p && GenOf(r) == g
  {
    var n := |rs| - 1;
    if g in GoneOf(rs[..n], p) {
      r := GoneHolds(rs[..n], p, g);
    } else {
      r := rs[n];
    }
  }

  /** In a table that follows the life of a process, every open call of it sits in the record of the
      generation that was present when it was handed over, or that it began, together with exactly the
      other open calls of that generation. */
  lemma OpenCallIsAttributed(t: Table, earlier: seq<Generation>, start: Option<Rec>, xs: seq<Occurrence>, j: nat)
    returns (r: Rec)
    requires TableOk(t) && j < |xs| && xs[j].Handed? && xs[j].d.Opened?
    requires var p := xs[j].d.o.pid; Matches(t, earlier, LifeOf(start, xs, p), p) && DropsNoCalls(start, xs, p)
    ensures var p := xs[j].d.o.pid;
            var i := LastStart(start, xs, j + 1, p);
            && Recorded(t, r) && xs[j].d.o in r.calls && r.pid == p
            && Born(start, xs, i, p) && GenOf(r) == GenerationFrom(start, xs, i, p)
  {
    hide GenerationFrom, LastStart, LifeOf, GoneOf, WellFormed, DropsNoCalls;
    var p := xs[j].d.o.pid;
    GenerationStays(start, xs, j, p);
    var g, l := GenerationFrom(start, xs, LastStart(start, xs, j + 1, p), p), LifeOf(start, xs, p);
    if l.current == Some(g) {
      r := t.ix.At(p).value;
      OwnPid(t.ix, p);
    } else {
      assert g in earlier + l.closed;
      r := GoneHolds(SentOff(t), p, g);
    }
  }
}
