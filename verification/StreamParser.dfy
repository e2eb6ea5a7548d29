/** The scan loop of the socket handlers over one buffer that is edited in place. */
module StreamParser {
  import opened Basics
  import opened LineStream
  import opened StringBuffers

  const BLANK: Fields := [[], [], [], [], []]

  /** What a handler carries from one received chunk to the next: the receive buffer, the contents
      of the five field buffers and curr_field. */
  datatype Parser = Parser(text: Text, fields: Fields, curr: nat)

  /** The loop's working state: buffer bytes, fields, curr_field, lfield_start, and the records so far. */
  datatype Scan = Scan(mem: seq<byte>, fields: Fields, curr: nat, start: nat, out: seq<Fields>)

  /** One iteration, at position i. A tab behind five others would select a sixth field buffer; the
      handlers have none, and TabsFit keeps that case away. */
  function ScanByte(s: Scan, i: nat): (r: Scan)
    requires |s.fields| == FIELD_NUM && i < |s.mem|
    ensures |r.fields| == FIELD_NUM && |r.mem| == |s.mem|
    ensures forall j :: 0 <= j < |s.mem| && j != i ==> r.mem[j] == s.mem[j]
  {
    if s.mem[i] == NEWLINE then
      if s.curr == FIELD_NUM - 1 then
        var mem := s.mem[i := NUL];
        var record := s.fields[s.curr := s.fields[s.curr] + StringAt(mem, s.start)];
        Scan(mem, BLANK, 0, i + 1, s.out + [record])
      else
        Scan(s.mem, BLANK, 0, i + 1, s.out)
    else if s.mem[i] == TAB && s.curr < FIELD_NUM then
      var mem := s.mem[i := NUL];
      Scan(mem, s.fields[s.curr := s.fields[s.curr] + StringAt(mem, s.start)], s.curr + 1, i + 1, s.out)
    else
      s
  }

  function ScanTo(s: Scan, i: nat, bound: nat): (r: Scan)
    requires |s.fields| == FIELD_NUM && i <= bound <= |s.mem|
    ensures |r.fields| == FIELD_NUM && |r.mem| == |s.mem|
    decreases bound - i
  {
    if i == bound then s else ScanTo(ScanByte(s, i), i + 1, bound)
  }

  lemma {:induction false} ScanToNext(s: Scan, i: nat, bound: nat)
    requires |s.fields| == FIELD_NUM && i <= bound < |s.mem|
    ensures ScanTo(s, i, bound + 1) == ScanByte(ScanTo(s, i, bound), bound)
    decreases bound - i
  {
    if i < bound {
      ScanToNext(ScanByte(s, i), i + 1, bound);
    }
  }

  ghost predicate Valid(p: Parser) {
    && p.text.Valid()
    && |p.fields| == FIELD_NUM
    && p.curr <= FIELD_NUM
    && p.fields == p.fields[..p.curr] + BLANK[p.curr..]
    && Plain(p.text.Content())
  }

  /** The unfinished line a parser holds. */
  ghost function LineOf(p: Parser): Line
    requires Valid(p)
  {
    Line(p.fields[..p.curr], p.text.Content())
  }

  /** sb_init for the 512-byte receive buffer. */
  function NewParser(): Parser {
    Parser(Text(seq(512, _ => NUL), 0), BLANK, 0)
  }

  /** Where the scan stops: the handlers run to i <= end_pos, one byte past the content. */
  datatype Bound = AsCoded | WithinContent

  function LoopEnd(t: Text, b: Bound): nat {
    if b.AsCoded? then t.end + 1 else t.end
  }

  /** One received chunk: append, scan, delete everything before the field still open. */
  function Receive(p: Parser, chunk: seq<byte>, fill: Fill, b: Bound): (Parser, seq<Fields>)
    requires p.text.Valid() && |p.fields| == FIELD_NUM
  {
    var t := p.text.AppendBytes(chunk, fill);
    var s := ScanTo(Scan(t.mem, p.fields, p.curr, 0, []), 0, LoopEnd(t, b));
    (Parser(Text(s.mem, t.end).DeleteHead(s.start), s.fields, s.curr), s.out)
  }

  /** The byte just behind the content once the chunk is in: left over, and read by the scan as coded. */
  ghost function StaleByte(p: Parser, chunk: seq<byte>, fill: Fill): byte
    requires p.text.Valid()
  {
    var t := p.text.AppendBytes(chunk, fill);
    t.mem[t.end]
  }

  /** That byte, if it is one the scan reacts to. */
  ghost function Stray(p: Parser, chunk: seq<byte>, fill: Fill): seq<byte>
    requires p.text.Valid()
  {
    var b := StaleByte(p, chunk, fill);
    if IsDelim(b) then [b] else []
  }

  // ----- The loop follows the byte-at-a-time reader -----

  /** After the bytes before i, the loop state stands for the line l. */
  ghost predicate Follows(s: Scan, i: nat, l: Line) {
    && |l.fields| == s.curr <= FIELD_NUM
    && s.fields == l.fields + BLANK[s.curr..]
    && s.start <= i <= |s.mem|
    && s.mem[s.start..i] == l.cur
    && Plain(l.cur)
  }

  lemma ClosedField(s: Scan, i: nat, l: Line)
    requires Follows(s, i, l) && i < |s.mem| && s.curr < FIELD_NUM
    ensures s.fields[s.curr := s.fields[s.curr] + StringAt(s.mem[i := NUL], s.start)]
            == l.fields + [l.cur] + BLANK[s.curr + 1..]
  {
    var mem := s.mem[i := NUL];
    assert mem[s.start..i] == l.cur;
    StringAtStops(mem, s.start, i);
    assert s.fields[s.curr] == BLANK[s.curr..][0] == [];
    assert [] + l.cur == l.cur;
  }

  lemma FreshLine(mem: seq<byte>, i: nat, out: seq<Fields>)
    requires i <= |mem|
    ensures Follows(Scan(mem, BLANK, 0, i, out), i, START)
  {
    assert mem[i..i] == [] && BLANK == [] + BLANK[0..];
  }

  lemma NewlineFollows(s: Scan, i: nat, l: Line)
    requires Follows(s, i, l) && i < |s.mem| && s.mem[i] == NEWLINE
    ensures Follows(ScanByte(s, i), i + 1, START)
    ensures ScanByte(s, i).out == s.out + Emits(l, NEWLINE)
  {
    var r := ScanByte(s, i);
    FreshLine(r.mem, i + 1, r.out);
    if s.curr == FIELD_NUM - 1 {
      ClosedField(s, i, l);
      hide Follows, StringAt;
      assert BLANK[s.curr + 1..] == [];
      assert l.fields + [l.cur] + [] == l.fields + [l.cur];
    } else {
      assert s.out + [] == s.out;
    }
  }

  lemma TabFollows(s: Scan, i: nat, l: Line)
    requires Follows(s, i, l) && i < |s.mem| && s.mem[i] == TAB && |l.fields| < FIELD_NUM
    ensures Follows(ScanByte(s, i), i + 1, Line(l.fields + [l.cur], []))
  {
    ClosedField(s, i, l);
    assert ScanByte(s, i).mem[i + 1..i + 1] == [];
  }

  lemma ScanByteFollows(s: Scan, i: nat, l: Line)
    requires Follows(s, i, l) && i < |s.mem|
    requires s.mem[i] != NUL
    requires s.mem[i] == TAB ==> |l.fields| < FIELD_NUM
    ensures Follows(ScanByte(s, i), i + 1, Feed(l, s.mem[i]))
    ensures ScanByte(s, i).out == s.out + Emits(l, s.mem[i])
  {
    if s.mem[i] == NEWLINE {
      NewlineFollows(s, i, l);
    } else if s.mem[i] == TAB {
      TabFollows(s, i, l);
      assert s.out + [] == s.out;
    } else {
      assert s.mem[s.start..i + 1] == l.cur + [s.mem[i]];
      assert s.out + [] == s.out;
    }
  }

  ghost predicate NoDelims(mem: seq<byte>, from: nat, to: nat) {
    forall i :: from <= i < to && i < |mem| ==> !IsDelim(mem[i])
  }

  /** A scan writes only between its bounds. */
  lemma {:induction false} ScanFrame(s: Scan, i: nat, bound: nat)
    requires |s.fields| == FIELD_NUM && i <= bound <= |s.mem|
    ensures forall j :: (0 <= j < i || bound <= j < |s.mem|) ==> ScanTo(s, i, bound).mem[j] == s.mem[j]
    decreases bound - i
  {
    if i < bound {
      ScanFrame(ScanByte(s, i), i + 1, bound);
    }
  }

  lemma {:induction false} ScanFollows(s: Scan, i: nat, bound: nat, l: Line)
    requires Follows(s, i, l) && i <= bound <= |s.mem| && |s.fields| == FIELD_NUM
    requires NulFree(s.mem[i..bound]) && TabsFit(l, s.mem[i..bound])
    ensures Follows(ScanTo(s, i, bound), bound, FeedAll(l, s.mem[i..bound]))
    ensures ScanTo(s, i, bound).out == s.out + Emitted(l, s.mem[i..bound])
    decreases bound - i
  {
    hide Follows, ScanByte, FeedAll, Emitted, TabsFit, Feed, Emits;
    if i == bound {
      FeedNothing(l);
      assert s.mem[i..bound] == [] && s.out + [] == s.out;
    } else {
      var n, b, rest := ScanByte(s, i), s.mem[i], s.mem[i + 1..bound];
      HeadByte(s.mem, i, bound);
      FeedCons(l, b, rest);
      ScanByteFollows(s, i, l);
      assert n.mem[i + 1..bound] == rest;
      ScanFollows(n, i + 1, bound, Feed(l, b));
      assert s.out + Emits(l, b) + Emitted(Feed(l, b), rest) == s.out + (Emits(l, b) + Emitted(Feed(l, b), rest));
    }
  }

  lemma HeadByte(mem: seq<byte>, i: nat, bound: nat)
    requires i < bound <= |mem|
    ensures mem[i..bound] == [mem[i]] + mem[i + 1..bound]
    ensures NulFree(mem[i..bound]) ==> mem[i] != NUL && NulFree(mem[i + 1..bound])
  {
    assert mem[i..bound][0] == mem[i];
    assert forall k :: i + 1 <= k < bound ==> mem[i..bound][k - i] == mem[k];
  }

  /** Lines of exactly four tabs leave no delimiter behind. */
  lemma {:induction false} ScanBlanksDelims(s: Scan, i: nat, bound: nat, l: Line)
    requires Follows(s, i, l) && i <= bound <= |s.mem| && |s.fields| == FIELD_NUM
    requires NulFree(s.mem[i..bound]) && TabsFit(l, s.mem[i..bound]) && FourTabs(l, s.mem[i..bound])
    ensures NoDelims(ScanTo(s, i, bound).mem, i, bound)
    decreases bound - i
  {
    hide FeedAll, Emitted, TabsFit, FourTabs;
    if i < bound {
      var n, b, rest := ScanByte(s, i), s.mem[i], s.mem[i + 1..bound];
      HeadByte(s.mem, i, bound);
      FeedCons(l, b, rest);
      ScanByteFollows(s, i, l);
      assert n.mem[i + 1..bound] == rest;
      ScanBlanksDelims(n, i + 1, bound, Feed(l, b));
      ScanFrame(n, i + 1, bound);
      BlankedHere(s, i, l);
    }
  }

  lemma BlankedHere(s: Scan, i: nat, l: Line)
    requires Follows(s, i, l) && i < |s.mem| && |s.fields| == FIELD_NUM
    requires s.mem[i] == TAB ==> |l.fields| < FIELD_NUM
    requires s.mem[i] == NEWLINE ==> |l.fields| == FIELD_NUM - 1
    ensures !IsDelim(ScanByte(s, i).mem[i])
  {}

  /** Rescanning the field kept open changes nothing: it holds no delimiter. */
  lemma RescanOpenField(l: Line, chunk: seq<byte>)
    requires Plain(l.cur)
    ensures var held := Line(l.fields, []);
            && FeedAll(held, l.cur + chunk) == FeedAll(l, chunk)
            && Emitted(held, l.cur + chunk) == Emitted(l, chunk)
            && (TabsFit(held, l.cur + chunk) <==> TabsFit(l, chunk))
            && (FourTabs(held, l.cur + chunk) <==> FourTabs(l, chunk))
  {
    var held := Line(l.fields, []);
    FeedPlain(held, l.cur);
    assert [] + l.cur == l.cur;
    FeedConcat(held, l.cur, chunk);
  }

  /** The buffer, and the loop state the handlers start from, once a chunk has been appended. */
  ghost function Appended(p: Parser, chunk: seq<byte>, fill: Fill): (s: Scan)
    requires p.text.Valid()
    ensures s.fields == p.fields
  {
    Scan(p.text.AppendBytes(chunk, fill).mem, p.fields, p.curr, 0, [])
  }

  /** The scan over the content alone: the shared part of both bounds. */
  lemma ScanContent(p: Parser, chunk: seq<byte>, fill: Fill, end: nat)
    requires Valid(p) && NulFree(chunk) && TabsFit(LineOf(p), chunk)
    requires end == p.text.end + |chunk|
    ensures end < |Appended(p, chunk, fill).mem|
    ensures var s := ScanTo(Appended(p, chunk, fill), 0, end);
            && Follows(s, end, FeedAll(LineOf(p), chunk))
            && s.out == Emitted(LineOf(p), chunk)
            && (forall j :: end <= j < |s.mem| ==> s.mem[j] == Appended(p, chunk, fill).mem[j])
            && (FourTabs(LineOf(p), chunk) ==> NoDelims(s.mem, 0, end))
  {
    var t := p.text.AppendBytes(chunk, fill);
    var first := Appended(p, chunk, fill);
    var l := LineOf(p);
    var held := Line(l.fields, []);
    assert first.mem[0..end] == t.Content() == l.cur + chunk;
    RescanOpenField(l, chunk);
    assert Follows(first, 0, held);
    ScanFollows(first, 0, end, held);
    ScanFrame(first, 0, end);
    if FourTabs(l, chunk) {
      ScanBlanksDelims(first, 0, end, held);
    }
    assert [] + Emitted(l, chunk) == Emitted(l, chunk);
  }

  /** What DeleteHead leaves is the open field. */
  lemma KeepOpenField(s: Scan, end: nat, l: Line)
    requires Follows(s, end, l) && end < |s.mem| && |s.fields| == FIELD_NUM
    ensures var p := Parser(Text(s.mem, end).DeleteHead(s.start), s.fields, s.curr); Valid(p) && LineOf(p) == l
  {
    var t := Text(s.mem, end);
    assert t.Content()[s.start..] == s.mem[s.start..end];
    assert s.fields[..s.curr] == l.fields;
  }

  /** With the scan kept inside the content, a chunk is exactly its bytes. */
  lemma ReceiveWithinContent(p: Parser, chunk: seq<byte>, fill: Fill)
    requires Valid(p) && NulFree(chunk) && TabsFit(LineOf(p), chunk)
    ensures var (q, out) := Receive(p, chunk, fill, WithinContent);
            && Valid(q)
            && LineOf(q) == FeedAll(LineOf(p), chunk)
            && out == Emitted(LineOf(p), chunk)
  {
    var end := p.text.end + |chunk|;
    ScanContent(p, chunk, fill, end);
    KeepOpenField(ScanTo(Appended(p, chunk, fill), 0, end), end, FeedAll(LineOf(p), chunk));
  }

  lemma FeedOne(l: Line, b: byte)
    ensures FeedAll(l, [b]) == Feed(l, b)
    ensures Emitted(l, [b]) == Emits(l, b)
    ensures TabsFit(l, [b]) <==> (b == TAB ==> |l.fields| < FIELD_NUM)
  {
    assert FeedAll(Feed(l, b), [b][1..]) == Feed(l, b);
    assert Emitted(Feed(l, b), [b][1..]) == [] && Emits(l, b) + [] == Emits(l, b);
    assert TabsFit(Feed(l, b), [b][1..]);
  }

  /** A delimiter read at the end position is obeyed like a received one, and nothing is left open. */
  lemma KeepAfterStray(s: Scan, end: nat, l: Line)
    requires Follows(s, end, l) && end < |s.mem| && IsDelim(s.mem[end])
    requires s.mem[end] == TAB ==> |l.fields| < FIELD_NUM
    ensures var r := ScanByte(s, end);
            var p := Parser(Text(r.mem, end).DeleteHead(r.start), r.fields, r.curr);
            && Valid(p) && LineOf(p) == Feed(l, s.mem[end]) && r.out == s.out + Emits(l, s.mem[end])
  {
    ScanByteFollows(s, end, l);
    var r := ScanByte(s, end);
    assert r.start == end + 1;
    var t := Text(r.mem, end);
    assert t.DeleteHead(r.start).Content() == t.Content()[end..] == [];
    assert r.fields[..r.curr] == Feed(l, s.mem[end]).fields;
  }

  /** As coded, the scan takes one step more than there is content. */
  lemma ReceiveStepsPast(p: Parser, chunk: seq<byte>, fill: Fill)
    requires p.text.Valid() && |p.fields| == FIELD_NUM
    ensures var first, end := Appended(p, chunk, fill), p.text.end + |chunk|;
            && end < |first.mem| && first.mem[end] == StaleByte(p, chunk, fill)
            && var s := ScanByte(ScanTo(first, 0, end), end);
               Receive(p, chunk, fill, AsCoded) ==
               (Parser(Text(s.mem, end).DeleteHead(s.start), s.fields, s.curr), s.out)
  {
    hide ScanTo, ScanByte, Text.Grown;
    ScanToNext(Appended(p, chunk, fill), 0, p.text.end + |chunk|);
  }

  /** As coded, a chunk is its bytes followed by a left-over delimiter, if one lies just behind them. */
  lemma ReceiveAsCoded(p: Parser, chunk: seq<byte>, fill: Fill)
    requires Valid(p) && NulFree(chunk) && TabsFit(LineOf(p), chunk + Stray(p, chunk, fill))
    ensures var (q, out) := Receive(p, chunk, fill, AsCoded);
            && Valid(q)
            && LineOf(q) == FeedAll(LineOf(p), chunk + Stray(p, chunk, fill))
            && out == Emitted(LineOf(p), chunk + Stray(p, chunk, fill))
  {
    hide Follows, ScanTo, FeedAll, Emitted, TabsFit, Emits, Feed, Receive, Appended, StaleByte, LineOf, Text.DeleteHead;
    var stray, end := Stray(p, chunk, fill), p.text.end + |chunk|;
    var l := FeedAll(LineOf(p), chunk);
    FeedConcat(LineOf(p), chunk, stray);
    ScanContent(p, chunk, fill, end);
    ReceiveStepsPast(p, chunk, fill);
    var s := ScanTo(Appended(p, chunk, fill), 0, end);
    if stray == [] {
      assert chunk + stray == chunk;
      assert ScanByte(s, end) == s;
      KeepOpenField(s, end, l);
    } else {
      FeedOne(l, stray[0]);
      KeepAfterStray(s, end, l);
    }
  }
}
