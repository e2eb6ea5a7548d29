/** What the handlers make of a whole stream, however it is cut into chunks. */
module StreamTheorems {
  import opened Basics
  import opened LineStream
  import opened StringBuffers
  import opened StreamParser

  /** The receive loop: one chunk after another. */
  function Run(p: Parser, chunks: seq<seq<byte>>, fill: Fill, b: Bound): (r: (Parser, seq<Fields>))
    requires p.text.Valid() && |p.fields| == FIELD_NUM
    ensures r.0.text.Valid() && |r.0.fields| == FIELD_NUM
    decreases |chunks|
  {
    if chunks == [] then (p, [])
    else
      var (q, out) := Receive(p, chunks[0], fill, b);
      var (last, rest) := Run(q, chunks[1..], fill, b);
      (last, out + rest)
  }

  function Concat(chunks: seq<seq<byte>>): seq<byte> {
    if chunks == [] then [] else chunks[0] + Concat(chunks[1..])
  }

  lemma NulFreeParts(a: seq<byte>, b: seq<byte>)
    requires NulFree(a + b)
    ensures NulFree(a) && NulFree(b)
  {
    forall i | 0 <= i < |a| ensures a[i] != NUL { assert a[i] == (a + b)[i]; }
    forall i | 0 <= i < |b| ensures b[i] != NUL { assert b[i] == (a + b)[|a| + i]; }
  }

  // ----- The scan kept inside the content -----

  lemma {:induction false} RunWithinContent(p: Parser, chunks: seq<seq<byte>>, fill: Fill)
    requires Valid(p) && NulFree(Concat(chunks)) && TabsFit(LineOf(p), Concat(chunks))
    ensures var (q, out) := Run(p, chunks, fill, WithinContent);
            && Valid(q)
            && LineOf(q) == FeedAll(LineOf(p), Concat(chunks))
            && out == Emitted(LineOf(p), Concat(chunks))
    decreases |chunks|
  {
    hide LineOf, Receive, FeedAll, Emitted, TabsFit;
    if chunks == [] {
      FeedNothing(LineOf(p));
    } else {
      var c, rest := chunks[0], Concat(chunks[1..]);
      NulFreeParts(c, rest);
      FeedConcat(LineOf(p), c, rest);
      ReceiveWithinContent(p, c, fill);
      RunWithinContent(Receive(p, c, fill, WithinContent).0, chunks[1..], fill);
    }
  }

  lemma NewParserIsIdle()
    ensures Valid(NewParser()) && LineOf(NewParser()) == START
    ensures NoDelims(NewParser().text.mem, 0, 512)
  {
    assert BLANK == BLANK[..0] + BLANK[0..];
  }

  /** Malformed lines disturb no neighbour, and the cut does not matter: the records that come out are
      the five-field lines of the concatenated stream, in order. */
  lemma RecordsDependOnBytesOnly(chunks: seq<seq<byte>>, fill: Fill)
    requires NulFree(Concat(chunks)) && TabsFit(START, Concat(chunks))
    ensures Run(NewParser(), chunks, fill, WithinContent).1 == Records(Concat(chunks))
  {
    NewParserIsIdle();
    RunWithinContent(NewParser(), chunks, fill);
    ReaderMeetsGrammar(Concat(chunks));
  }

  // ----- The scan as coded -----

  /** The one-past-the-end read is harmless for one chunk exactly when the byte behind it is no tab, and
      is a newline only if the chunk ends its line. */
  lemma StaleByteMatters(p: Parser, chunk: seq<byte>, fill: Fill)
    requires Valid(p) && NulFree(chunk) && chunk != []
    requires TabsFit(LineOf(p), chunk + Stray(p, chunk, fill))
    ensures var (q, out) := Receive(p, chunk, fill, AsCoded);
            var (q', out') := Receive(p, chunk, fill, WithinContent);
            var stale := StaleByte(p, chunk, fill);
            && Valid(q) && Valid(q')
            && ((LineOf(q) == LineOf(q') && out == out') <==>
                (stale != TAB && (stale == NEWLINE ==> Last(chunk) == NEWLINE)))
  {
    hide LineOf, Receive, Emitted, TabsFit;
    var stray := Stray(p, chunk, fill);
    FeedConcat(LineOf(p), chunk, stray);
    ReceiveAsCoded(p, chunk, fill);
    ReceiveWithinContent(p, chunk, fill);
    var l := FeedAll(LineOf(p), chunk);
    if stray == [] {
      assert chunk + stray == chunk;
    } else {
      FeedOne(l, stray[0]);
      assert chunk == Front(chunk) + [Last(chunk)];
      FeedConcat(LineOf(p), Front(chunk), [Last(chunk)]);
      FeedOne(FeedAll(LineOf(p), Front(chunk)), Last(chunk));
      assert Emitted(LineOf(p), chunk) + [] == Emitted(LineOf(p), chunk);
    }
  }

  /** How a malformed line arms the fault. A chunk that ends with the newline of a line whose tabs are not
      four, with no delimiter left over behind it, leaves that newline in memory where the content ended
      (unless that is the very first byte). The next chunk, if it fills the buffer up to there, is taken for
      a finished line, which is wrong unless it is one. */
  lemma MalformedLineEndsNextChunk(p: Parser, w: seq<byte>, x: seq<byte>, fill: Fill)
    requires Valid(p) && NulFree(w) && TabsFit(LineOf(p), w) && |FeedAll(LineOf(p), w).fields| != FIELD_NUM - 1
    requires Stray(p, w + [NEWLINE], fill) == []
    requires NulFree(x) && TabsFit(START, x + [NEWLINE]) && |x| == p.text.end + |w| > 0
    ensures var q := Receive(p, w + [NEWLINE], fill, AsCoded).0;
            && Valid(q) && LineOf(q) == START && StaleByte(q, x, fill) == NEWLINE
            && var (r, out) := Receive(q, x, fill, AsCoded);
               && Valid(r) && LineOf(r) == START && out == Emitted(START, x + [NEWLINE])
               && var (r', out') := Receive(q, x, fill, WithinContent);
                  Valid(r') && ((LineOf(r') == START && out' == out) <==> Last(x) == NEWLINE)
  {
    hide Receive, FeedAll, Emitted, TabsFit, Feed, Emits, LineOf, Stray, StaleByte;
    var q := Receive(p, w + [NEWLINE], fill, AsCoded).0;
    MalformedLineStays(p, w, fill);
    NewlineIsStale(q, x, fill);
    StrayIs(q, x, fill);
    StaleByteMatters(q, x, fill);
    ReceiveAsCoded(q, x, fill);
    EndsAtNewline(START, x);
  }

  lemma StrayIs(p: Parser, chunk: seq<byte>, fill: Fill)
    requires p.text.Valid()
    ensures Stray(p, chunk, fill) == if IsDelim(StaleByte(p, chunk, fill)) then [StaleByte(p, chunk, fill)] else []
  {}

  lemma EndsAtNewline(l: Line, s: seq<byte>)
    ensures FeedAll(l, s + [NEWLINE]) == START
  {
    FeedConcat(l, s, [NEWLINE]);
    FeedOne(FeedAll(l, s), NEWLINE);
  }

  /** The newline of a malformed line is not blanked, and deleting the line leaves it where it was. */
  lemma MalformedLineStays(p: Parser, w: seq<byte>, fill: Fill)
    requires Valid(p) && NulFree(w) && TabsFit(LineOf(p), w) && |FeedAll(LineOf(p), w).fields| != FIELD_NUM - 1
    requires Stray(p, w + [NEWLINE], fill) == [] && p.text.end + |w| > 0
    ensures var q, n := Receive(p, w + [NEWLINE], fill, AsCoded).0, p.text.end + |w|;
            && Valid(q) && LineOf(q) == START
            && q.text.end == 0 && n + 1 < |q.text.mem| && q.text.mem[n] == NEWLINE
  {
    hide Text.Grown, ScanTo, TabsFit, FeedAll, Emitted, Emits, Follows;
    var chunk, n := w + [NEWLINE], p.text.end + |w|;
    var first := Appended(p, chunk, fill);
    FeedConcat(LineOf(p), w, [NEWLINE]);
    FeedOne(FeedAll(LineOf(p), w), NEWLINE);
    assert chunk + [] == chunk;
    ReceiveAsCoded(p, chunk, fill);
    EndsAtNewline(LineOf(p), w);
    ScanToLastByte(p, w, fill);
    ScanToNext(first, 0, n);
    ScanToNext(first, 0, n + 1);
    var s := ScanTo(first, 0, n + 2);
    DeleteWholeLine(Text(s.mem, n + 1), n);
  }

  /** Just before the newline: the fields closed so far are not four, and the newline and the byte behind
      it are as received. */
  lemma ScanToLastByte(p: Parser, w: seq<byte>, fill: Fill)
    requires Valid(p) && NulFree(w) && TabsFit(LineOf(p), w) && |FeedAll(LineOf(p), w).fields| != FIELD_NUM - 1
    ensures var first, n := Appended(p, w + [NEWLINE], fill), p.text.end + |w|;
            && n + 1 < |first.mem|
            && var s := ScanTo(first, 0, n);
               && s.curr != FIELD_NUM - 1 && s.mem[n] == NEWLINE
               && s.mem[n + 1] == StaleByte(p, w + [NEWLINE], fill)
  {
    hide Text.Grown, ScanTo, FeedAll, Emitted, TabsFit;
    var first, n, l := Appended(p, w + [NEWLINE], fill), p.text.end + |w|, LineOf(p);
    var t := p.text.AppendBytes(w + [NEWLINE], fill);
    var held := Line(l.fields, []);
    assert t.Content() == l.cur + (w + [NEWLINE]);
    assert first.mem[n] == t.Content()[n] == NEWLINE;
    assert first.mem[0..n] == t.Content()[..n] == l.cur + w;
    RescanOpenField(l, w);
    assert Follows(first, 0, held);
    ScanFollows(first, 0, n, held);
    ScanFrame(first, 0, n);
  }

  lemma DeleteWholeLine(t: Text, n: nat)
    requires t.Valid() && t.end == n + 1 && n > 0 && t.mem[n] == NEWLINE
    ensures t.DeleteHead(n + 1).end == 0 && t.DeleteHead(n + 1).mem[n] == NEWLINE
    ensures |t.DeleteHead(n + 1).mem| == |t.mem|
  {}

  lemma NewlineIsStale(q: Parser, x: seq<byte>, fill: Fill)
    requires q.text.Valid() && q.text.end == 0 && |x| + 1 < |q.text.mem| && q.text.mem[|x|] == NEWLINE
    ensures StaleByte(q, x, fill) == NEWLINE
  {
    var t := q.text.AppendBytes(x, fill);
    assert t.mem[t.end] == q.text.mem[|x|];
  }

  lemma PlainLineFeeds(w: seq<byte>)
    requires Plain(w)
    ensures FeedAll(START, w) == Line([], w) && NulFree(w)
    ensures TabsFit(START, w) && TabsFit(START, w + [NEWLINE])
    ensures Emitted(START, w + [NEWLINE]) == []
  {
    FeedPlain(START, w);
    assert [] + w == w;
    FeedConcat(START, w, [NEWLINE]);
    FeedOne(Line([], w), NEWLINE);
  }

  lemma FreshBuffer(w: seq<byte>, fill: Fill)
    requires |w| < 512
    ensures StaleByte(NewParser(), w, fill) == NUL
  {
    var t := NewParser().text.AppendBytes(w, fill);
    assert t.mem[t.end] == NewParser().text.mem[|w|];
  }

  /** So in a handler just started, any first line without tabs makes the next chunk of its length vanish,
      if that is a part of a line. */
  lemma MalformedLineSwallowsNextChunk(w: seq<byte>, x: seq<byte>, fill: Fill)
    requires Plain(w) && Plain(x) && 0 < |x| == |w| < 511
    ensures var q := Receive(NewParser(), w + [NEWLINE], fill, AsCoded).0;
            var (r, out) := Receive(q, x, fill, AsCoded);
            && Valid(r) && LineOf(r) == START && out == []
            && FeedAll(START, x) == Line([], x) != START
  {
    hide Receive, FeedAll, Emitted, TabsFit, LineOf, Stray, StaleByte, Valid;
    NewParserIsIdle();
    PlainLineFeeds(w);
    PlainLineFeeds(x);
    FreshBuffer(w + [NEWLINE], fill);
    StrayIs(NewParser(), w + [NEWLINE], fill);
    MalformedLineEndsNextChunk(NewParser(), w, x, fill);
  }

  lemma GrownKeepsNoDelims(t: Text, need: nat, fill: Fill)
    requires t.Valid() && NoDelims(t.mem, 0, |t.mem|) && forall i :: !IsDelim(fill(i))
    ensures var m := t.Grown(need, fill); NoDelims(m, 0, |m|)
  {
    var m := t.Grown(need, fill);
    forall i | 0 <= i < |m| ensures !IsDelim(m[i]) {
      if i < |t.mem| {
        assert m[i] == m[..|t.mem|][i];
      }
    }
  }

  lemma AppendKeepsNoDelims(p: Parser, chunk: seq<byte>, fill: Fill)
    requires p.text.Valid()
    requires NoDelims(p.text.mem, 0, |p.text.mem|) && forall i :: !IsDelim(fill(i))
    ensures var m := Appended(p, chunk, fill).mem; NoDelims(m, p.text.end + |chunk|, |m|)
  {
    hide Text.Grown;
    var end := p.text.end + |chunk|;
    GrownKeepsNoDelims(p.text, end, fill);
    var m, grown := Appended(p, chunk, fill).mem, p.text.Grown(end, fill);
    assert m[end..] == grown[end..];
    forall i | end <= i < |m| ensures !IsDelim(m[i]) {
      assert m[i] == m[end..][i - end] == grown[i];
    }
  }

  lemma DeleteKeepsNoDelims(t: Text, len: nat)
    requires t.Valid() && NoDelims(t.mem, 0, |t.mem|)
    ensures NoDelims(t.DeleteHead(len).mem, 0, |t.mem|) && |t.DeleteHead(len).mem| == |t.mem|
  {}

  /** Lines of exactly four tabs never meet the fault: the whole buffer stays free of delimiters. */
  lemma FourTabsLeaveNoDelims(p: Parser, chunk: seq<byte>, fill: Fill)
    requires Valid(p) && NulFree(chunk) && TabsFit(LineOf(p), chunk) && FourTabs(LineOf(p), chunk)
    requires NoDelims(p.text.mem, 0, |p.text.mem|) && forall i :: !IsDelim(fill(i))
    ensures Stray(p, chunk, fill) == []
    ensures var q := Receive(p, chunk, fill, AsCoded).0; NoDelims(q.text.mem, 0, |q.text.mem|)
  {
    hide TabsFit, FourTabs, FeedAll, Emitted, Follows, Text.Grown, ScanTo;
    var end := p.text.end + |chunk|;
    var first := Appended(p, chunk, fill);
    AppendKeepsNoDelims(p, chunk, fill);
    ScanContent(p, chunk, fill, end);
    var s := ScanTo(first, 0, end);
    ScanToNext(first, 0, end);
    assert ScanByte(s, end) == s;
    DeleteKeepsNoDelims(Text(s.mem, end), s.start);
  }

  lemma {:induction false} RunAsCoded(p: Parser, chunks: seq<seq<byte>>, fill: Fill)
    requires Valid(p) && NulFree(Concat(chunks))
    requires TabsFit(LineOf(p), Concat(chunks)) && FourTabs(LineOf(p), Concat(chunks))
    requires NoDelims(p.text.mem, 0, |p.text.mem|) && forall i :: !IsDelim(fill(i))
    ensures var (q, out) := Run(p, chunks, fill, AsCoded);
            && Valid(q)
            && LineOf(q) == FeedAll(LineOf(p), Concat(chunks))
            && out == Emitted(LineOf(p), Concat(chunks))
    decreases |chunks|
  {
    hide LineOf, Receive, FeedAll, Emitted, TabsFit, FourTabs, NoDelims;
    if chunks == [] {
      FeedNothing(LineOf(p));
    } else {
      var c, rest := chunks[0], Concat(chunks[1..]);
      NulFreeParts(c, rest);
      FeedConcat(LineOf(p), c, rest);
      FourTabsLeaveNoDelims(p, c, fill);
      assert c + Stray(p, c, fill) == c;
      ReceiveAsCoded(p, c, fill);
      RunAsCoded(Receive(p, c, fill, AsCoded).0, chunks[1..], fill);
    }
  }

  /** As coded, a stream whose every finished line has four tabs is read by the grammar. */
  lemma FourTabStreamsAreSafe(chunks: seq<seq<byte>>, fill: Fill)
    requires NulFree(Concat(chunks)) && TabsFit(START, Concat(chunks)) && FourTabs(START, Concat(chunks))
    requires forall i :: !IsDelim(fill(i))
    ensures Run(NewParser(), chunks, fill, AsCoded).1 == Records(Concat(chunks))
  {
    NewParserIsIdle();
    RunAsCoded(NewParser(), chunks, fill);
    ReaderMeetsGrammar(Concat(chunks));
  }

  /** Print, cut anywhere, parse in place: the records come back exactly and in order. */
  lemma PrintParseRoundTrip(rs: seq<Fields>, chunks: seq<seq<byte>>, fill: Fill)
    requires AllPrintable(rs) && Concat(chunks) == PrintAll(rs)
    requires forall i :: !IsDelim(fill(i))
    ensures Run(NewParser(), chunks, fill, AsCoded).1 == rs
  {
    NewParserIsIdle();
    ReaderInvertsPrinter(rs);
    RunAsCoded(NewParser(), chunks, fill);
  }
}
