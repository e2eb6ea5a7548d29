/** From the bytes on the two sockets to the calls main hands over, over every interleaving. */
module SocketToTable {
  import opened Basics
  import opened LineStream
  import opened StringBuffers
  import opened StreamParser
  import opened ProcessIndex
  import opened EventLoop
  import opened Daemon
  import MergeOrder
  import Shutdown
  import StreamTheorems

  /** openCall_init and the filter, or execCall_init: what they refuse yields nothing. */
  type Accept<T> = Fields -> Option<T>

  function Accepted<T>(rs: seq<Fields>, accept: Accept<T>): seq<T> {
    if rs == [] then []
    else
      var call := accept(rs[|rs| - 1]);
      Accepted(rs[..|rs| - 1], accept) + if call.Some? then [call.value] else []
  }

  lemma {:induction false} AcceptedConcat<T>(a: seq<Fields>, b: seq<Fields>, accept: Accept<T>)
    ensures Accepted(a + b, accept) == Accepted(a, accept) + Accepted(b, accept)
    decreases |b|
  {
    if b == [] {
      assert a + b == a;
    } else {
      assert (a + b)[..|a + b| - 1] == a + b[..|b| - 1];
      AcceptedConcat(a, b[..|b| - 1], accept);
    }
  }

  lemma AcceptedPrefix<T>(a: seq<Fields>, b: seq<Fields>, accept: Accept<T>)
    requires a <= b
    ensures Accepted(a, accept) <= Accepted(b, accept)
  {
    assert b == a + b[|a|..];
    AcceptedConcat(a, b[|a|..], accept);
  }

  // ----- What the parser makes of the chunks received so far -----

  function Parsed(chunks: seq<seq<byte>>, fill: Fill): (Parser, seq<Fields>) {
    StreamTheorems.Run(NewParser(), chunks, fill, AsCoded)
  }

  lemma {:induction false} ParsedSnoc(p: Parser, chunks: seq<seq<byte>>, c: seq<byte>, fill: Fill)
    requires p.text.Valid() && |p.fields| == FIELD_NUM
    ensures var (q, out) := StreamTheorems.Run(p, chunks, fill, AsCoded);
            StreamTheorems.Run(p, chunks + [c], fill, AsCoded).1 == out + Receive(q, c, fill, AsCoded).1
    decreases |chunks|
  {
    hide ScanTo, Text.AppendBytes;
    if chunks == [] {
      assert (chunks + [c])[1..] == [];
      var out := Receive(p, c, fill, AsCoded).1;
      assert out + [] == out == [] + out;
    } else {
      assert (chunks + [c])[1..] == chunks[1..] + [c];
      ParsedSnoc(Receive(p, chunks[0], fill, AsCoded).0, chunks[1..], c, fill);
    }
  }

  lemma OneMoreParsed<T>(before: seq<seq<byte>>, c: seq<byte>, fill: Fill, accept: Accept<T>)
    ensures Accepted(Parsed(before + [c], fill).1, accept) ==
            Accepted(Parsed(before, fill).1, accept)
            + Accepted(Receive(Parsed(before, fill).0, c, fill, AsCoded).1, accept)
  {
    hide Receive, StreamTheorems.Run, Accepted;
    ParsedSnoc(NewParser(), before, c, fill);
    AcceptedConcat(Parsed(before, fill).1, Receive(Parsed(before, fill).0, c, fill, AsCoded).1, accept);
  }

  lemma NothingParsed<T>(fill: Fill, accept: Accept<T>)
    ensures Accepted(Parsed([], fill).1, accept) == []
  {}

  /** However much of a print has been received: the records read so far are the first ones printed, and
      all of them once all of it has been received. */
  lemma PrintedPrefixIsParsed(chunks: seq<seq<byte>>, fill: Fill, rs: seq<Fields>)
    requires AllPrintable(rs) && StreamTheorems.Concat(chunks) <= PrintAll(rs)
    requires forall i :: !IsDelim(fill(i))
    ensures Parsed(chunks, fill).1 <= rs
    ensures StreamTheorems.Concat(chunks) == PrintAll(rs) ==> Parsed(chunks, fill).1 == rs
  {
    hide Emitted, FeedAll, TabsFit, FourTabs, StreamTheorems.Run;
    var all, part := PrintAll(rs), StreamTheorems.Concat(chunks);
    ReaderInvertsPrinter(rs);
    assert all == part + all[|part|..];
    FeedConcat(START, part, all[|part|..]);
    StreamTheorems.NulFreeParts(part, all[|part|..]);
    StreamTheorems.NewParserIsIdle();
    StreamTheorems.RunAsCoded(NewParser(), chunks, fill);
  }

  // ----- One handler among the other threads -----

  /** One step of a handler: the ring and flags it finds, and what its surroundings answer. */
  datatype Event<T> = Event(q: seq<T>, busy: bool, shut: bool, a: Action<T>)

  function After<T>(es: seq<Event<T>>): Handler<T> {
    if es == [] then NewHandler()
    else
      var e := es[|es| - 1];
      HandlerStep(After(es[..|es| - 1]), e.q, e.busy, e.shut, e.a).0
  }

  lemma AfterSnoc<T>(es: seq<Event<T>>, e: Event<T>)
    ensures After(es + [e]) == HandlerStep(After(es), e.q, e.busy, e.shut, e.a).0
  {
    assert (es + [e])[..|es|] == es;
  }

  /** The steps of the open-call handler within a run, and those of the exec-call handler. */
  function OpenEvents(ix: Index, steps: seq<Step>): seq<Event<OpenCall>>
    requires WellFormed(ix)
  {
    if steps == [] then []
    else
      var front, s := steps[..|steps| - 1], steps[|steps| - 1];
      var m := Run(Start(ix), front).m;
      OpenEvents(ix, front) + if s.OpenHandler? then [Event(m.openQ, m.openBusy, m.shut, s.oa)] else []
  }

  function ExecEvents(ix: Index, steps: seq<Step>): seq<Event<Exec>>
    requires WellFormed(ix)
  {
    if steps == [] then []
    else
      var front, s := steps[..|steps| - 1], steps[|steps| - 1];
      var m := Run(Start(ix), front).m;
      ExecEvents(ix, front) + if s.ExecHandler? then [Event(m.cmdQ, m.execBusy, m.shut, s.ea)] else []
  }

  /** Among all threads, each handler does what its own steps do. */
  lemma {:induction false} HandlersFollowTheirEvents(ix: Index, steps: seq<Step>)
    requires WellFormed(ix)
    ensures Run(Start(ix), steps).openH == After(OpenEvents(ix, steps))
    ensures Run(Start(ix), steps).execH == After(ExecEvents(ix, steps))
    decreases |steps|
  {
    hide WellFormed, MainStep, HandlerStep, After;
    if steps == [] {
      NoEvents<OpenCall>();
      NoEvents<Exec>();
    } else {
      var front, s := steps[..|steps| - 1], steps[|steps| - 1];
      var w := Run(Start(ix), front);
      HandlersFollowTheirEvents(ix, front);
      RunSnoc(Start(ix), steps);
      EventsSnoc(ix, steps);
      hide Run, OpenEvents, ExecEvents;
      if s.OpenHandler? {
        AfterSnoc(OpenEvents(ix, front), Event(w.m.openQ, w.m.openBusy, w.m.shut, s.oa));
      } else if s.ExecHandler? {
        AfterSnoc(ExecEvents(ix, front), Event(w.m.cmdQ, w.m.execBusy, w.m.shut, s.ea));
      }
    }
  }

  lemma EventsSnoc(ix: Index, steps: seq<Step>)
    requires WellFormed(ix) && steps != []
    ensures var front, s := steps[..|steps| - 1], steps[|steps| - 1];
            var m := Run(Start(ix), front).m;
            && OpenEvents(ix, steps) ==
               (if s.OpenHandler? then OpenEvents(ix, front) + [Event(m.openQ, m.openBusy, m.shut, s.oa)]
                else OpenEvents(ix, front))
            && ExecEvents(ix, steps) ==
               (if s.ExecHandler? then ExecEvents(ix, front) + [Event(m.cmdQ, m.execBusy, m.shut, s.ea)]
                else ExecEvents(ix, front))
  {
    hide WellFormed, Run;
    var front := steps[..|steps| - 1];
    assert OpenEvents(ix, front) + [] == OpenEvents(ix, front);
    assert ExecEvents(ix, front) + [] == ExecEvents(ix, front);
  }

  lemma NoEvents<T>()
    ensures After<T>([]) == NewHandler()
  {}

  /** The handler receives these chunks, one after another, and what it accepts from each is what the
      parser and the conversion make of it. */
  ghost predicate Receives<T>(es: seq<Event<T>>, chunks: seq<seq<byte>>, fill: Fill, accept: Accept<T>) {
    if es == [] then chunks == []
    else
      var front, e := es[..|es| - 1], es[|es| - 1];
      if After(front).pc.Receiving? && e.a.GoOn? then
        && chunks != []
        && var before, c := chunks[..|chunks| - 1], chunks[|chunks| - 1];
           && Receives(front, before, fill, accept)
           && e.a.records == Accepted(Receive(Parsed(before, fill).0, c, fill, AsCoded).1, accept)
      else Receives(front, chunks, fill, accept)
  }

  lemma {:induction false} AcceptsWhatIsParsed<T>(es: seq<Event<T>>, chunks: seq<seq<byte>>, fill: Fill,
                                                  accept: Accept<T>)
    requires Receives(es, chunks, fill, accept)
    ensures After(es).accepted == Accepted(Parsed(chunks, fill).1, accept)
  {
    hide Receive, Accepted, StreamTheorems.Run, HandlerStep, Parsed;
    if es == [] {
      NothingParsed(fill, accept);
    } else {
      var front, e := es[..|es| - 1], es[|es| - 1];
      HandlerStepAccepts(After(front), e.q, e.busy, e.shut, e.a);
      if After(front).pc.Receiving? && e.a.GoOn? {
        var before, c := chunks[..|chunks| - 1], chunks[|chunks| - 1];
        AcceptsWhatIsParsed(front, before, fill, accept);
        assert chunks == before + [c];
        OneMoreParsed(before, c, fill, accept);
      } else {
        AcceptsWhatIsParsed(front, chunks, fill, accept);
        assert After(front).accepted + [] == After(front).accepted;
      }
    }
  }

  // ----- The theorems -----

  /** Nothing is left to write: the handler waits at its guard or in a receive. */
  predicate Waiting(pc: HandlerPc) {
    pc.Guard? || pc.Receiving?
  }

  /** What was written, against what was printed: a prefix of it, and all of it once everything has been
      received and the handler waits for more. */
  lemma WrittenIsPrinted<T>(es: seq<Event<T>>, h: Handler<T>, busy: bool, chunks: seq<seq<byte>>, fill: Fill,
                            accept: Accept<T>, rs: seq<Fields>)
    requires h == After(es) && HandlerOk(h, busy) && Receives(es, chunks, fill, accept)
    requires AllPrintable(rs) && StreamTheorems.Concat(chunks) <= PrintAll(rs)
    requires forall i :: !IsDelim(fill(i))
    ensures h.written <= Accepted(rs, accept)
    ensures StreamTheorems.Concat(chunks) == PrintAll(rs) && Waiting(h.pc) ==> h.written == Accepted(rs, accept)
  {
    hide StreamTheorems.Run, Parsed, Accepted, Receives, After;
    AcceptsWhatIsParsed(es, chunks, fill, accept);
    PrintedPrefixIsParsed(chunks, fill, rs);
    AcceptedPrefix(Parsed(chunks, fill).1, rs, accept);
    assert Waiting(h.pc) ==> h.written + h.pending == h.written;
  }

  /** At every moment of every interleaving, while the open-call handler receives a print of these records,
      cut anywhere: what main has handed over, what it has in hand and what waits in the ring are, in that
      order, the first of the records that the filter accepts, each of them once; and all of them once the
      whole print has been received and the handler waits for more. */
  lemma PrintedRecordsReachTheTable(ix: Index, steps: seq<Step>, chunks: seq<seq<byte>>, fill: Fill,
                                    accept: Accept<OpenCall>, rs: seq<Fields>)
    requires WellFormed(ix) && Receives(OpenEvents(ix, steps), chunks, fill, accept)
    requires AllPrintable(rs) && StreamTheorems.Concat(chunks) <= PrintAll(rs)
    requires forall i :: !IsDelim(fill(i))
    ensures var w := Run(Start(ix), steps);
            var calls := MergeOrder.Opens(w.m.log) + Shutdown.OpenInHand(w.m) + w.m.openQ;
            && calls <= Accepted(rs, accept)
            && (StreamTheorems.Concat(chunks) == PrintAll(rs) && Waiting(w.openH.pc) ==> calls == Accepted(rs, accept))
  {
    hide WellFormed, Accepted, Receives, After, OpenEvents;
    var w := Run(Start(ix), steps);
    HandlersFollowTheirEvents(ix, steps);
    RunHandlersOk(Start(ix), steps);
    WrittenIsPrinted(OpenEvents(ix, steps), w.openH, w.m.openBusy, chunks, fill, accept, rs);
    Shutdown.CallsAreConserved(ix, steps);
  }

  /** The same for the exec-call handler. */
  lemma PrintedExecsReachTheTable(ix: Index, steps: seq<Step>, chunks: seq<seq<byte>>, fill: Fill,
                                  accept: Accept<Exec>, rs: seq<Fields>)
    requires WellFormed(ix) && Receives(ExecEvents(ix, steps), chunks, fill, accept)
    requires AllPrintable(rs) && StreamTheorems.Concat(chunks) <= PrintAll(rs)
    requires forall i :: !IsDelim(fill(i))
    ensures var w := Run(Start(ix), steps);
            var calls := MergeOrder.Execs(w.m.log) + Shutdown.ExecInHand(w.m) + w.m.cmdQ;
            && calls <= Accepted(rs, accept)
            && (StreamTheorems.Concat(chunks) == PrintAll(rs) && Waiting(w.execH.pc) ==> calls == Accepted(rs, accept))
  {
    hide WellFormed, Accepted, Receives, After, ExecEvents;
    var w := Run(Start(ix), steps);
    HandlersFollowTheirEvents(ix, steps);
    RunHandlersOk(Start(ix), steps);
    WrittenIsPrinted(ExecEvents(ix, steps), w.execH, w.m.execBusy, chunks, fill, accept, rs);
    Shutdown.CallsAreConserved(ix, steps);
  }
}
