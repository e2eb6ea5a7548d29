/** The line protocol of the two sockets, read one byte at a time and read as a grammar. */
module LineStream {
  import opened Basics

  /** A line whose content is five tab-separated fields is a record. */
  const FIELD_NUM := 5

  type Fields = seq<seq<byte>>

  predicate IsDelim(b: byte) {
    b == TAB || b == NEWLINE
  }

  /** Free of tab, newline and NUL. */
  predicate Plain(s: seq<byte>) {
    forall i :: 0 <= i < |s| ==> !IsDelim(s[i]) && s[i] != NUL
  }

  /** The unfinished line: the fields already closed by a tab, and the one still open. */
  datatype Line = Line(fields: Fields, cur: seq<byte>)

  const START := Line([], [])

  function Feed(l: Line, b: byte): Line {
    if b == NEWLINE then START
    else if b == TAB then Line(l.fields + [l.cur], [])
    else Line(l.fields, l.cur + [b])
  }

  function Emits(l: Line, b: byte): seq<Fields> {
    if b == NEWLINE && |l.fields| == FIELD_NUM - 1 then [l.fields + [l.cur]] else []
  }

  function FeedAll(l: Line, s: seq<byte>): Line
    decreases |s|
  {
    if s == [] then l else FeedAll(Feed(l, s[0]), s[1..])
  }

  function Emitted(l: Line, s: seq<byte>): seq<Fields>
    decreases |s|
  {
    if s == [] then [] else Emits(l, s[0]) + Emitted(Feed(l, s[0]), s[1..])
  }

  /** No line has more than five tabs: the handlers own five field buffers. */
  predicate TabsFit(l: Line, s: seq<byte>)
    decreases |s|
  {
    s == [] || ((s[0] == TAB ==> |l.fields| < FIELD_NUM) && TabsFit(Feed(l, s[0]), s[1..]))
  }

  /** Every line that ends has exactly four tabs. */
  predicate FourTabs(l: Line, s: seq<byte>)
    decreases |s|
  {
    s == [] || ((s[0] == NEWLINE ==> |l.fields| == FIELD_NUM - 1) && FourTabs(Feed(l, s[0]), s[1..]))
  }

  lemma FeedNothing(l: Line)
    ensures FeedAll(l, []) == l && Emitted(l, []) == [] && TabsFit(l, []) && FourTabs(l, [])
  {}

  lemma FeedCons(l: Line, b: byte, s: seq<byte>)
    ensures FeedAll(l, [b] + s) == FeedAll(Feed(l, b), s)
    ensures Emitted(l, [b] + s) == Emits(l, b) + Emitted(Feed(l, b), s)
    ensures TabsFit(l, [b] + s) <==> (b == TAB ==> |l.fields| < FIELD_NUM) && TabsFit(Feed(l, b), s)
    ensures FourTabs(l, [b] + s) <==> (b == NEWLINE ==> |l.fields| == FIELD_NUM - 1) && FourTabs(Feed(l, b), s)
  {
    assert ([b] + s)[1..] == s;
  }

  lemma {:induction false} FeedConcat(l: Line, a: seq<byte>, b: seq<byte>)
    ensures FeedAll(l, a + b) == FeedAll(FeedAll(l, a), b)
    ensures Emitted(l, a + b) == Emitted(l, a) + Emitted(FeedAll(l, a), b)
    ensures TabsFit(l, a + b) <==> TabsFit(l, a) && TabsFit(FeedAll(l, a), b)
    ensures FourTabs(l, a + b) <==> FourTabs(l, a) && FourTabs(FeedAll(l, a), b)
    decreases |a|
  {
    if a == [] {
      assert a + b == b;
    } else {
      assert (a + b)[1..] == a[1..] + b;
      FeedConcat(Feed(l, a[0]), a[1..], b);
    }
  }

  lemma {:induction false} FeedPlain(l: Line, s: seq<byte>)
    requires Plain(s)
    ensures FeedAll(l, s) == Line(l.fields, l.cur + s)
    ensures Emitted(l, s) == []
    ensures TabsFit(l, s) && FourTabs(l, s)
    decreases |s|
  {
    if s == [] {
      assert l.cur + s == l.cur;
    } else {
      FeedPlain(Feed(l, s[0]), s[1..]);
      assert l.cur + [s[0]] + s[1..] == l.cur + s;
    }
  }

  lemma {:induction false} FeedKeepsPlain(l: Line, s: seq<byte>)
    requires Plain(l.cur) && NulFree(s)
    ensures Plain(FeedAll(l, s).cur)
    decreases |s|
  {
    if s != [] {
      assert Plain(Feed(l, s[0]).cur);
      FeedKeepsPlain(Feed(l, s[0]), s[1..]);
    }
  }

  // ----- The grammar: cut at newlines, cut each line at tabs, keep the five-field lines -----

  function Split(s: seq<byte>, d: byte): (r: seq<seq<byte>>)
    ensures r != []
  {
    if s == [] then [[]]
    else if s[0] == d then [[]] + Split(s[1..], d)
    else
      var rest := Split(s[1..], d);
      [[s[0]] + rest[0]] + rest[1..]
  }

  function Last<T>(s: seq<T>): T
    requires s != []
  {
    s[|s| - 1]
  }

  function Front<T>(s: seq<T>): seq<T>
    requires s != []
  {
    s[..|s| - 1]
  }

  /** The lines that a newline has completed. */
  function CompleteLines(s: seq<byte>): seq<seq<byte>> {
    Front(Split(s, NEWLINE))
  }

  function FiveFieldLines(lines: seq<seq<byte>>): seq<Fields> {
    if lines == [] then []
    else
      var fields := Split(Last(lines), TAB);
      FiveFieldLines(Front(lines)) + if |fields| == FIELD_NUM then [fields] else []
  }

  function Records(s: seq<byte>): seq<Fields> {
    FiveFieldLines(CompleteLines(s))
  }

  lemma {:induction false} SplitSnoc(s: seq<byte>, b: byte, d: byte)
    ensures b == d ==> Split(s + [b], d) == Split(s, d) + [[]]
    ensures b != d ==> Split(s + [b], d) == Front(Split(s, d)) + [Last(Split(s, d)) + [b]]
  {
    if s == [] {
      assert (s + [b])[1..] == [];
      assert Split([], d) == [[]];
      if b != d {
        assert [b] + [] == [b] == [] + [b];
      }
    } else {
      assert (s + [b])[1..] == s[1..] + [b];
      SplitSnoc(s[1..], b, d);
      if b != d {
        SnocInside(s[0], Split(s[1..], d), b, d);
      }
    }
  }

  /** Extending the last piece commutes with putting one more character in front. */
  lemma SnocInside(c: byte, rest: seq<seq<byte>>, b: byte, d: byte)
    requires rest != []
    ensures var more := Front(rest) + [Last(rest) + [b]];
            var whole := if c == d then [[]] + rest else [[c] + rest[0]] + rest[1..];
            Front(whole) + [Last(whole) + [b]] == if c == d then [[]] + more else [[c] + more[0]] + more[1..]
  {
    var more := Front(rest) + [Last(rest) + [b]];
    if c == d {
      assert Front([[]] + rest) == [[]] + Front(rest);
    } else if |rest| == 1 {
      assert [c] + (rest[0] + [b]) == [c] + rest[0] + [b];
    } else {
      assert more[1..] == Front(rest)[1..] + [Last(rest) + [b]];
      assert Front([[c] + rest[0]] + rest[1..]) == [[c] + rest[0]] + Front(rest)[1..];
    }
  }

  lemma FiveFieldLinesSnoc(lines: seq<seq<byte>>, line: seq<byte>)
    ensures FiveFieldLines(lines + [line]) ==
            FiveFieldLines(lines) + if |Split(line, TAB)| == FIELD_NUM then [Split(line, TAB)] else []
  {
    assert Front(lines + [line]) == lines;
  }

  lemma NothingSplits(d: byte)
    ensures Split([], d) == [[]] && CompleteLines([]) == [] && Records([]) == []
  {}

  /** One more byte, on the grammar's side: a newline completes the last line, anything else extends it. */
  lemma GrammarSnoc(t: seq<byte>, b: byte)
    ensures var line := Last(Split(t, NEWLINE));
            && (b == NEWLINE ==>
                  Last(Split(t + [b], NEWLINE)) == []
                  && Records(t + [b]) ==
                     Records(t) + if |Split(line, TAB)| == FIELD_NUM then [Split(line, TAB)] else [])
            && (b != NEWLINE ==> Last(Split(t + [b], NEWLINE)) == line + [b] && Records(t + [b]) == Records(t))
  {
    hide Split, FiveFieldLines;
    SplitSnoc(t, b, NEWLINE);
    var line := Last(Split(t, NEWLINE));
    if b == NEWLINE {
      assert CompleteLines(t + [b]) == Split(t, NEWLINE) == CompleteLines(t) + [line];
      FiveFieldLinesSnoc(CompleteLines(t), line);
    } else {
      assert CompleteLines(t + [b]) == CompleteLines(t);
    }
  }

  /** The byte-at-a-time reader and the grammar agree on every stream. */
  lemma {:induction false} ReaderMeetsGrammar(s: seq<byte>)
    ensures Emitted(START, s) == Records(s)
    ensures var l := FeedAll(START, s); l.fields + [l.cur] == Split(Last(Split(s, NEWLINE)), TAB)
    decreases |s|
  {
    hide Split, Records, FeedAll, Emitted, TabsFit, FourTabs;
    if s == [] {
      NothingSplits(NEWLINE);
      NothingSplits(TAB);
      FeedNothing(START);
    } else {
      var t, b := Front(s), Last(s);
      assert s == t + [b];
      ReaderMeetsGrammar(t);
      var l := FeedAll(START, t);
      FeedConcat(START, t, [b]);
      FeedCons(l, b, []);
      FeedNothing(Feed(l, b));
      assert [b] + [] == [b] && Emits(l, b) + [] == Emits(l, b);
      GrammarSnoc(t, b);
      var line := Last(Split(t, NEWLINE));
      assert |Split(line, TAB)| == |l.fields| + 1;
      NothingSplits(TAB);
      SplitSnoc(line, b, TAB);
      assert Front(l.fields + [l.cur]) == l.fields;
      assert Emitted(START, t) + [] == Emitted(START, t);
    }
  }

  // ----- Printing -----

  /** Five fields that can be sent: no tab, newline or NUL inside. */
  predicate Printable(r: Fields) {
    |r| == FIELD_NUM && forall i :: 0 <= i < |r| ==> Plain(r[i])
  }

  /** "%s\t%s\t%s\t%s\t%s\n" */
  function Print(r: Fields): seq<byte>
    requires |r| == FIELD_NUM
  {
    r[0] + [TAB] + r[1] + [TAB] + r[2] + [TAB] + r[3] + [TAB] + r[4] + [NEWLINE]
  }

  predicate AllPrintable(rs: seq<Fields>) {
    forall i :: 0 <= i < |rs| ==> Printable(rs[i])
  }

  function PrintAll(rs: seq<Fields>): seq<byte>
    requires AllPrintable(rs)
  {
    if rs == [] then [] else Print(rs[0]) + PrintAll(rs[1..])
  }

  /** One plain field and the delimiter that closes it. */
  lemma FeedField(l: Line, prefix: seq<byte>, f: seq<byte>, d: byte)
    requires Plain(f) && IsDelim(d)
    ensures var m := FeedAll(l, prefix);
            && FeedAll(l, prefix + f + [d]) == Feed(Line(m.fields, m.cur + f), d)
            && Emitted(l, prefix + f + [d]) == Emitted(l, prefix) + Emits(Line(m.fields, m.cur + f), d)
            && (TabsFit(l, prefix + f + [d]) <==> TabsFit(l, prefix) && (d == TAB ==> |m.fields| < FIELD_NUM))
            && (FourTabs(l, prefix + f + [d]) <==>
                FourTabs(l, prefix) && (d == NEWLINE ==> |m.fields| == FIELD_NUM - 1))
  {
    var m := FeedAll(l, prefix);
    FeedConcat(l, prefix, f);
    FeedPlain(m, f);
    FeedConcat(l, prefix + f, [d]);
    var n := Line(m.fields, m.cur + f);
    assert Emitted(n, [d]) == Emits(n, d) + Emitted(Feed(n, d), []) == Emits(n, d);
    assert FeedAll(n, [d]) == FeedAll(Feed(n, d), []);
    assert TabsFit(Feed(n, d), []) && FourTabs(Feed(n, d), []);
  }

  /** Read so far: these fields, each closed by its tab, and nothing open. */
  ghost predicate HasRead(prefix: seq<byte>, fields: Fields) {
    && FeedAll(START, prefix) == Line(fields, [])
    && Emitted(START, prefix) == [] && TabsFit(START, prefix) && FourTabs(START, prefix)
  }

  lemma ReadsField(prefix: seq<byte>, fields: Fields, f: seq<byte>)
    requires HasRead(prefix, fields) && Plain(f) && |fields| < FIELD_NUM
    ensures HasRead(prefix + f + [TAB], fields + [f])
  {
    FeedField(START, prefix, f, TAB);
    assert [] + f == f;
  }

  lemma FeedPrinted(r: Fields)
    requires Printable(r)
    ensures FeedAll(START, Print(r)) == START
    ensures Emitted(START, Print(r)) == [r]
    ensures TabsFit(START, Print(r)) && FourTabs(START, Print(r))
  {
    FeedNothing(START);
    var p1 := [] + r[0] + [TAB];
    var p2 := p1 + r[1] + [TAB];
    var p3 := p2 + r[2] + [TAB];
    var p4 := p3 + r[3] + [TAB];
    assert Print(r) == p4 + r[4] + [NEWLINE];
    assert [] + r[4] == r[4] && [] + [r[0]] + [r[1]] + [r[2]] + [r[3]] + [r[4]] == r;
    hide FeedAll, Emitted, TabsFit, FourTabs;
    assert HasRead([], []);
    ReadsField([], [], r[0]);
    ReadsField(p1, [] + [r[0]], r[1]);
    ReadsField(p2, [] + [r[0]] + [r[1]], r[2]);
    ReadsField(p3, [] + [r[0]] + [r[1]] + [r[2]], r[3]);
    FeedField(START, p4, r[4], NEWLINE);
    assert [] + [r] == [r];
  }

  /** Whatever is printed is read back, record by record. */
  lemma {:induction false} ReaderInvertsPrinter(rs: seq<Fields>)
    requires AllPrintable(rs)
    ensures Emitted(START, PrintAll(rs)) == rs
    ensures FeedAll(START, PrintAll(rs)) == START
    ensures TabsFit(START, PrintAll(rs)) && FourTabs(START, PrintAll(rs))
    ensures NulFree(PrintAll(rs))
  {
    if rs != [] {
      FeedPrinted(rs[0]);
      ReaderInvertsPrinter(rs[1..]);
      FeedConcat(START, Print(rs[0]), PrintAll(rs[1..]));
      assert NulFree(Print(rs[0]));
    }
  }
}
