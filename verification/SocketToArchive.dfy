/** From the bytes on the open-call socket to the answer of a lookup by path. */
module SocketToArchive {
  import opened Basics
  import opened LineStream
  import opened StringBuffers
  import opened ProcessIndex
  import opened RecordTable
  import opened EventLoop
  import opened MergeOrder
  import opened Daemon
  import opened Attribution
  import opened TableSteps
  import opened Marshalling
  import opened Archive
  import StreamTheorems
  import QuietAttribution
  import SocketToTable
  import EndToEnd

  /** Where the k-th call of a tale stands in it. */
  lemma {:induction false} HandedPosition(xs: seq<Occurrence>, k: nat) returns (j: nat)
    requires k < |EndToEnd.HandedIn(xs)|
    ensures j < |xs| && xs[j] == Handed(EndToEnd.HandedIn(xs)[k])
  {
    var n := |xs| - 1;
    if k < |EndToEnd.HandedIn(xs[..n])| {
      j := HandedPosition(xs[..n], k);
    } else {
      j := n;
    }
  }

  lemma Found<T>(x: T, s: seq<T>) returns (i: nat)
    requires x in s
    ensures i < |s| && s[i] == x
  {
    i :| i < |s| && s[i] == x;
  }

  /** The k-th open call handed over in a run that has come to its end without losing a record is in an
      archived record: the one of its generation. */
  lemma HandedCallIsArchived(ix: Index, steps: seq<Step>, k: nat) returns (j: nat, i: nat, c: nat)
    requires WellFormed(ix)
    requires var m := Run(Start(ix), steps).m;
             m.pc.Halted? && m.table.lost == [] && k < |Opens(m.log)| && ix.Accepts(Opens(m.log)[k].pid)
    ensures var m, xs := Run(Start(ix), steps).m, EndToEnd.RunTale(ix, steps);
            var o := Opens(m.log)[k];
            && j < |xs| && xs[j] == Handed(Opened(o))
            && var start := LastStart(ix.At(o.pid), xs, j + 1, o.pid);
            && i < |m.table.archived| && c < |m.table.archived[i].calls|
            && m.table.archived[i].calls[c] == o && m.table.archived[i].pid == o.pid
            && Born(ix.At(o.pid), xs, start, o.pid)
            && GenOf(m.table.archived[i]) == GenerationFrom(ix.At(o.pid), xs, start, o.pid)
  {
    hide WellFormed, Run, EndToEnd.RunTale, EndToEnd.HandedIn, Opens, LastStart, GenerationFrom;
    var m, xs := Run(Start(ix), steps).m, EndToEnd.RunTale(ix, steps);
    EndToEnd.TaleIsLog(ix, steps);
    var n := QuietAttribution.OpenPosition(m.log, k);
    j := HandedPosition(xs, n);
    var r := EndToEnd.EveryOpenCallHasItsRecord(ix, steps, j);
    assert m.table.archived + [] == m.table.archived;
    i := Found(r, m.table.archived);
    c := Found(m.log[n].o, r.calls);
  }

  /** The answer for an open call of record i is among those of a lookup by its path; the exec call shown is
      that of the first archived record of the process and time. */
  ghost predicate IsFound(archived: seq<Rec>, boot: nat, noise: nat -> nat -> Noise, i: nat, o: OpenCall) {
    var e := DispatchAll(EMPTY, archived, boot, noise);
    && i < |archived| && Consistent(e)
    && exists full, first :: 0 <= first <= i && full in Lookup(e, o.path)
         && SameProcess(archived[first], archived[i])
         && (forall n :: 0 <= n < first ==> !SameProcess(archived[n], archived[i]))
         && Answers(full, o, archived[i], archived[first], boot)
  }

  /** Over every interleaving and whatever the sweeps find dead: if the open-call handler receives a print of
      these records, cut anywhere, then every accepted one that has been handed over when main leaves its loop
      is in the archived record of its generation, if no record was lost; and, if no open call archived before
      it has the same time and the same last 99 characters of the path, a lookup by its path finds it with the
      exec call of its process. */
  lemma PrintedOpenIsFound(ix: Index, steps: seq<Step>, chunks: seq<seq<byte>>, fill: Fill,
                           accept: SocketToTable.Accept<OpenCall>, rs: seq<Fields>, k: nat,
                           boot: nat, noise: nat -> nat -> Noise) returns (i: nat, c: nat)
    requires WellFormed(ix) && SocketToTable.Receives(SocketToTable.OpenEvents(ix, steps), chunks, fill, accept)
    requires AllPrintable(rs) && StreamTheorems.Concat(chunks) <= PrintAll(rs) && forall i :: !IsDelim(fill(i))
    requires var m := Run(Start(ix), steps).m;
             m.pc.Halted? && m.table.lost == [] && k < |Opens(m.log)|
    requires k < |SocketToTable.Accepted(rs, accept)|
    requires var o := SocketToTable.Accepted(rs, accept)[k]; ix.Accepts(o.pid) && o.pid != 0
    ensures var archived, o := Run(Start(ix), steps).m.table.archived, SocketToTable.Accepted(rs, accept)[k];
            && i < |archived| && c < |archived[i].calls| && archived[i].calls[c] == o && archived[i].pid == o.pid
            && (NoTwinBefore(archived, i, c) ==> IsFound(archived, boot, noise, i, o))
  {
    hide WellFormed, Run, Opens, SocketToTable.Accepted, SocketToTable.Receives, SocketToTable.OpenEvents, Consistent,
      Lookup, DispatchAll, NoTwinBefore, LastStart, GenerationFrom, EndToEnd.RunTale, Answers, SameProcess;
    var m := Run(Start(ix), steps).m;
    SocketToTable.PrintedRecordsReachTheTable(ix, steps, chunks, fill, accept, rs);
    assert Opens(m.log)[k] == SocketToTable.Accepted(rs, accept)[k];
    var j;
    j, i, c := HandedCallIsArchived(ix, steps, k);
    if NoTwinBefore(m.table.archived, i, c) {
      var first, full := EveryFreshCallIsFound(m.table.archived, boot, noise, i, c);
    }
  }
}
