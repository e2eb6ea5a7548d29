/** Which processes are marked as ancestors of a process that opened a watched file. */
module AncestorTracking {
  import opened Basics
  import opened ProcessIndex

  /** The non-zero, present parent of p, if there is one. */
  function Parent(ix: Index, p: int): Option<int> {
    match ix.At(p)
    case None => None
    case Some(r) => if r.ppid != 0 && ix.At(r.ppid).Some? then Some(r.ppid) else None
  }

  /** The k-th ancestor of p. */
  function Ancestor(ix: Index, p: int, k: nat): Option<int>
    decreases k
  {
    if k == 0 then Some(p)
    else
      match Parent(ix, p)
      case None => None
      case Some(q) => Ancestor(ix, q, k - 1)
  }

  ghost predicate IsAncestor(ix: Index, p: int, q: int) {
    exists k: nat :: Ancestor(ix, p, k) == Some(q)
  }

  ghost predicate ParentTracked(ix: Index, p: int) {
    ix.Tracked(p) && Parent(ix, p).Some? ==> ix.Tracked(Parent(ix, p).value)
  }

  /** A tracked entry's non-zero, present parent is tracked. */
  ghost predicate Closed(ix: Index) {
    forall p :: ParentTracked(ix, p)
  }

  ghost predicate ClosedExcept(ix: Index, child: int) {
    forall p :: p != child ==> ParentTracked(ix, p)
  }

  /** The same table, except that some records may have become tracked. */
  ghost predicate OnlyMarks(a: Index, b: Index) {
    && |a.slots| == |b.slots| && a.maxPid == b.maxPid
    && forall p {:trigger b.At(p)} ::
         && a.At(p).Some? == b.At(p).Some?
         && (a.At(p).Some? ==> b.At(p).value == a.At(p).value.(tracked := b.At(p).value.tracked))
         && (a.Tracked(p) ==> b.Tracked(p))
  }

  lemma MarksKeepParents(a: Index, b: Index, p: int)
    requires OnlyMarks(a, b)
    ensures Parent(a, p) == Parent(b, p)
  {
    assert a.At(p).Some? == b.At(p).Some?;
    if a.At(p).Some? {
      assert a.At(a.At(p).value.ppid).Some? == b.At(a.At(p).value.ppid).Some?;
    }
  }

  lemma {:induction false} MarksKeepAncestors(a: Index, b: Index, p: int, k: nat)
    requires OnlyMarks(a, b)
    ensures Ancestor(a, p, k) == Ancestor(b, p, k)
    decreases k
  {
    MarksKeepParents(a, b, p);
    if k > 0 && Parent(a, p).Some? {
      MarksKeepAncestors(a, b, Parent(a, p).value, k - 1);
    }
  }

  lemma {:induction false} ClosedReachesAncestors(ix: Index, p: int, k: nat)
    requires Closed(ix) && ix.Tracked(p) && Ancestor(ix, p, k).Some?
    ensures ix.Tracked(Ancestor(ix, p, k).value)
    decreases k
  {
    if k > 0 {
      assert ParentTracked(ix, p);
      ClosedReachesAncestors(ix, Parent(ix, p).value, k - 1);
    }
  }

  lemma MarkOnlyMarks(ix: Index, p: int)
    requires ix.At(p).Some?
    ensures OnlyMarks(ix, Mark(ix, p))
  {}

  lemma MarksCompose(a: Index, b: Index, c: Index)
    requires OnlyMarks(a, b) && OnlyMarks(b, c)
    ensures OnlyMarks(a, c)
  {
    forall p {:trigger c.At(p)}
      ensures a.At(p).Some? == c.At(p).Some?
      ensures a.At(p).Some? ==> c.At(p).value == a.At(p).value.(tracked := c.At(p).value.tracked)
      ensures a.Tracked(p) ==> c.Tracked(p)
    {
      assert a.At(p).Some? == b.At(p).Some?;
    }
  }

  lemma {:induction false} TrackParentsOnlyMarks(ix: Index, child: int)
    requires ix.At(child).Some?
    ensures OnlyMarks(ix, TrackParents(ix, child))
    decreases Untracked(ix.slots)
  {
    var parent: int := ix.At(child).value.ppid;
    if parent != 0 && ix.At(parent).Some? && !ix.At(parent).value.tracked {
      MarkShrinksUntracked(ix.slots, parent + 1, ix.At(parent).value.(tracked := true));
      MarkOnlyMarks(ix, parent);
      TrackParentsOnlyMarks(Mark(ix, parent), parent);
      MarksCompose(ix, Mark(ix, parent), TrackParents(ix, child));
    }
  }

  lemma MarkParentKeepsClosure(ix: Index, child: int)
    requires ix.Tracked(child) && ClosedExcept(ix, child) && Parent(ix, child).Some?
    ensures ClosedExcept(Mark(ix, Parent(ix, child).value), Parent(ix, child).value)
  {
    var parent := Parent(ix, child).value;
    var m := Mark(ix, parent);
    MarkOnlyMarks(ix, parent);
    forall p | p != parent ensures ParentTracked(m, p) {
      MarksKeepParents(ix, m, p);
      assert p != child ==> ParentTracked(ix, p);
    }
  }

  /** Stopping at the first tracked ancestor is enough: the walk restores the closure... */
  lemma {:induction false} TrackParentsCloses(ix: Index, child: int)
    requires ix.Tracked(child) && ClosedExcept(ix, child)
    ensures Closed(TrackParents(ix, child))
    decreases Untracked(ix.slots)
  {
    var parent: int := ix.At(child).value.ppid;
    if parent != 0 && ix.At(parent).Some? && !ix.At(parent).value.tracked {
      MarkShrinksUntracked(ix.slots, parent + 1, ix.At(parent).value.(tracked := true));
      MarkParentKeepsClosure(ix, child);
      TrackParentsCloses(Mark(ix, parent), parent);
    } else {
      forall p ensures ParentTracked(ix, p) {}
    }
  }

  /** ...and marks nothing but ancestors. */
  lemma {:induction false} TrackParentsMarksOnlyAncestors(ix: Index, child: int, q: int)
    requires ix.At(child).Some?
    requires TrackParents(ix, child).Tracked(q)
    ensures ix.Tracked(q) || IsAncestor(ix, child, q)
    decreases Untracked(ix.slots)
  {
    var parent: int := ix.At(child).value.ppid;
    if parent != 0 && ix.At(parent).Some? && !ix.At(parent).value.tracked {
      MarkShrinksUntracked(ix.slots, parent + 1, ix.At(parent).value.(tracked := true));
      var m := Mark(ix, parent);
      MarkOnlyMarks(ix, parent);
      TrackParentsMarksOnlyAncestors(m, parent, q);
      if q == parent {
        assert Ancestor(ix, parent, 0) == Some(q);
        assert Ancestor(ix, child, 1) == Some(q);
      } else if !ix.Tracked(q) {
        var k: nat :| Ancestor(m, parent, k) == Some(q);
        MarksKeepAncestors(ix, m, parent, k);
        assert Ancestor(ix, child, k + 1) == Some(q);
      }
    }
  }

  /** The table after an open call, before any mark: the call sits with its process. */
  ghost function Attached(ix: Index, o: OpenCall): Index
    requires WellFormed(ix) && ix.Accepts(o.pid)
  {
    WithTargetHolds(ix, o);
    Attach(WithTarget(ix, o), o)
  }

  /** Once the call's own process is marked, only its own parent may be missing a mark. */
  lemma AttachedParents(ix: Index, o: OpenCall)
    requires WellFormed(ix) && ix.Accepts(o.pid) && Closed(ix)
    ensures Attached(ix, o).At(o.pid).Some?
    ensures ClosedExcept(Mark(Attached(ix, o), o.pid), o.pid)
    ensures Attached(ix, o).Tracked(o.pid) ==> Closed(Attached(ix, o))
  {
    WithTargetHolds(ix, o);
    var a := Attached(ix, o);
    forall p | p != o.pid ensures ParentTracked(Mark(a, o.pid), p) {
      assert ParentTracked(ix, p);
      if a.Tracked(p) && Parent(a, p).Some? {
        AttachedParent(ix, o, p);
      }
    }
    if a.Tracked(o.pid) {
      forall p ensures ParentTracked(a, p) {
        assert ParentTracked(ix, p);
        if a.Tracked(p) && Parent(a, p).Some? {
          AttachedParent(ix, o, p);
        }
      }
    }
  }

  lemma AttachedParent(ix: Index, o: OpenCall, p: int)
    requires WellFormed(ix) && ix.Accepts(o.pid) && ParentTracked(ix, p)
    requires Attached(ix, o).Tracked(p) && Parent(Attached(ix, o), p).Some?
    requires p == o.pid ==> ix.At(p).Some?
    ensures var q := Parent(Attached(ix, o), p).value; q == o.pid || Attached(ix, o).Tracked(q)
  {
    WithTargetHolds(ix, o);
    var a := Attached(ix, o);
    var q := Parent(a, p).value;
    assert a.At(q).Some?;
    assert q != o.pid ==> ix.At(q) == a.At(q);
  }

  /** What one open call marks, in full: the closure is kept; the process and every ancestor reachable
      from it are tracked afterwards; nothing else changes its mark, and nothing but marks changes. */
  lemma OpenAddTracksExactlyAncestors(ix: Index, o: OpenCall)
    requires WellFormed(ix) && ix.Accepts(o.pid) && Closed(ix)
    ensures var m := OpenAdd(ix, o).0;
            && Closed(m)
            && OnlyMarks(Attached(ix, o), m)
            && forall q :: m.Tracked(q) <==> Attached(ix, o).Tracked(q) || IsAncestor(Attached(ix, o), o.pid, q)
  {
    WithTargetHolds(ix, o);
    AttachedParents(ix, o);
    var a, m := Attached(ix, o), OpenAdd(ix, o).0;
    if !a.Tracked(o.pid) {
      var n := Mark(a, o.pid);
      MarkOnlyMarks(a, o.pid);
      TrackParentsCloses(n, o.pid);
      TrackParentsOnlyMarks(n, o.pid);
      MarksCompose(a, n, m);
      forall q | m.Tracked(q) && !a.Tracked(q) ensures IsAncestor(a, o.pid, q) {
        TrackParentsMarksOnlyAncestors(n, o.pid, q);
        if q == o.pid {
          assert Ancestor(a, o.pid, 0) == Some(q);
        } else {
          var k: nat :| Ancestor(n, o.pid, k) == Some(q);
          MarksKeepAncestors(a, n, o.pid, k);
        }
      }
      assert n.Tracked(o.pid);
      assert m.At(o.pid).Some? && m.Tracked(o.pid);
    } else {
      OnlyMarksSelf(a);
    }
    forall q | IsAncestor(a, o.pid, q) ensures m.Tracked(q) {
      var k: nat :| Ancestor(a, o.pid, k) == Some(q);
      MarksKeepAncestors(a, m, o.pid, k);
      ClosedReachesAncestors(m, o.pid, k);
    }
    forall q | a.Tracked(q) ensures m.Tracked(q) {
      assert m.At(q).Some? == a.At(q).Some?;
    }
  }

  lemma OnlyMarksSelf(a: Index)
    ensures OnlyMarks(a, a)
  {}

  // ----- The other operations -----

  lemma RetrieveKeepsClosure(ix: Index, p: int)
    requires WellFormed(ix) && Closed(ix)
    ensures Closed(Retrieve(ix, p).0)
  {
    RetrieveRemoves(ix, p);
    var m := Retrieve(ix, p).0;
    forall q ensures ParentTracked(m, q) {
      assert ParentTracked(ix, q);
      assert m.Tracked(q) && Parent(m, q).Some? ==> Parent(ix, q) == Parent(m, q) && m.At(Parent(m, q).value).Some?;
    }
  }

  lemma SweepKeepsClosure(ix: Index, dead: set<int>)
    requires WellFormed(ix) && Closed(ix)
    ensures Closed(Sweep(ix, dead))
  {
    SweepWellFormed(ix, dead);
    var m := Sweep(ix, dead);
    forall q ensures ParentTracked(m, q) {
      assert ParentTracked(ix, q);
      assert m.Tracked(q) && Parent(m, q).Some? ==> Parent(ix, q) == Parent(m, q) && m.At(Parent(m, q).value).Some?;
    }
  }

  /** A tracked entry already names pid as its parent. */
  ghost predicate NamedByTracked(ix: Index, pid: int) {
    pid != 0 && exists q :: q != pid && ix.Tracked(q) && ix.At(q).value.ppid == pid
  }

  /** Adding an exec call keeps the closure exactly when no tracked entry names the new pid as parent. */
  lemma AddKeepsClosureIff(ix: Index, e: Exec)
    requires WellFormed(ix) && Closed(ix) && ix.Accepts(e.pid) && ix.At(e.pid).None?
    ensures Closed(Add(ix, NewRec(e)).0) <==> !NamedByTracked(ix, e.pid)
  {
    AddIsInsertion(ix, NewRec(e));
    var m := Add(ix, NewRec(e)).0;
    if NamedByTracked(ix, e.pid) {
      var q :| q != e.pid && ix.Tracked(q) && ix.At(q).value.ppid == e.pid;
      assert m.Tracked(q) && Parent(m, q) == Some(e.pid) && !m.Tracked(e.pid);
      assert !ParentTracked(m, q);
    } else {
      forall q ensures ParentTracked(m, q) {
        assert ParentTracked(ix, q);
        if m.Tracked(q) && Parent(m, q).Some? {
          assert m.At(q) == ix.At(q);
          assert Parent(m, q).value != e.pid;
          assert m.At(Parent(m, q).value) == ix.At(Parent(m, q).value);
        }
      }
    }
  }

  /** surv_addExecCall: taking the previous record out first changes nothing about that condition. */
  lemma ReplaceKeepsClosureIff(ix: Index, e: Exec)
    requires WellFormed(ix) && Closed(ix) && ix.Accepts(e.pid)
    ensures var m := Retrieve(ix, e.pid).0;
            WellFormed(m) && (Closed(Add(m, NewRec(e)).0) <==> !NamedByTracked(ix, e.pid))
  {
    RetrieveRemoves(ix, e.pid);
    RetrieveKeepsClosure(ix, e.pid);
    var m := Retrieve(ix, e.pid).0;
    AddKeepsClosureIff(m, e);
    assert forall q :: q != e.pid ==> m.At(q) == ix.At(q);
    assert forall q :: q != e.pid ==> m.Tracked(q) == ix.Tracked(q);
  }

  /** So a parent that execs again after a tracked child was recorded is lost from the chain: it is in the
      table, it is the child's parent, and further open calls of the child leave it unmarked. */
  lemma ReexecedParentStaysUntracked(ix: Index, e: Exec, child: OpenCall)
    requires WellFormed(ix) && ix.Accepts(e.pid) && ix.At(e.pid).None? && e.pid != 0
    requires child.pid != e.pid && ix.Tracked(child.pid) && ix.At(child.pid).value.ppid == e.pid
    ensures var m := Add(ix, NewRec(e)).0;
            WellFormed(m) && var n := OpenAdd(m, child).0; Parent(n, child.pid) == Some(e.pid) && !n.Tracked(e.pid)
  {
    AddIsInsertion(ix, NewRec(e));
    var m := Add(ix, NewRec(e)).0;
    OwnPid(ix, child.pid);
    WithTargetHolds(m, child);
    var n := OpenAdd(m, child).0;
    assert n == Attach(WithTarget(m, child), child);
    assert n.At(child.pid).value.ppid == e.pid && n.At(e.pid) == m.At(e.pid);
  }
}
