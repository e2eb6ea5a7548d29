/** The growable string buffer of containers.c, with the bytes beyond its end position kept in the model. */
module StringBuffers {
  import opened Basics

  /** What realloc leaves in memory it has just added, by position. */
  type Fill = nat -> byte

  /** The size reached by doubling until position `need` lies inside the buffer. */
  function DoubledSize(size: nat, need: nat): (n: nat)
    requires size > 0
    ensures n > need
    ensures n >= size
    ensures need < size ==> n == size
    ensures need >= size ==> n <= 2 * need
    decreases need + 1 - size
  {
    if need < size then size else DoubledSize(size * 2, need)
  }

  /** The C string that starts at position `from`: everything before the first NUL. */
  function StringAt(mem: seq<byte>, from: nat): (s: seq<byte>)
    ensures NulFree(s)
    decreases |mem| - from
  {
    if from >= |mem| || mem[from] == NUL then [] else [mem[from]] + StringAt(mem, from + 1)
  }

  lemma {:induction false} StringAtStops(mem: seq<byte>, from: nat, end: nat)
    requires from <= end < |mem|
    requires NulFree(mem[from..end])
    requires mem[end] == NUL
    ensures StringAt(mem, from) == mem[from..end]
    decreases end - from
  {
    if from < end {
      assert mem[from] == mem[from..end][0];
      assert mem[from + 1..end] == mem[from..end][1..];
      StringAtStops(mem, from + 1, end);
    }
  }

  /** A snapshot of a string buffer: the whole allocation, and how much of it is content. */
  datatype Text = Text(mem: seq<byte>, end: nat) {

    ghost predicate Valid() {
      end < |mem|
    }

    function Content(): seq<byte>
      requires Valid()
    {
      mem[..end]
    }

    function Grown(need: nat, fill: Fill): (m: seq<byte>)
      requires Valid()
      ensures |m| > need
      ensures |m| >= |mem| && m[..|mem|] == mem
    {
      mem + seq(DoubledSize(|mem|, need) - |mem|, i requires 0 <= i => fill(|mem| + i))
    }

    /** sb_appendl */
    function AppendBytes(s: seq<byte>, fill: Fill): (t: Text)
      requires Valid()
      ensures t.Valid() && t.Content() == Content() + s
    {
      var m := Grown(end + |s|, fill);
      Text(m[..end] + s + m[end + |s|..], end + |s|)
    }

    /** sb_append: the terminator is copied too, but is not content. */
    function AppendString(s: CString, fill: Fill): (t: Text)
      requires Valid()
      ensures t.Valid() && t.Content() == Content() + s
    {
      var m := Grown(end + |s|, fill);
      Text(m[..end] + (s + [NUL]) + m[end + |s| + 1..], end + |s|)
    }

    /** sb_deletehead: what lay behind the content stays where it was. */
    function DeleteHead(len: nat): (t: Text)
      requires Valid()
      ensures t.Valid() && t.Content() == Content()[Min(len, end)..]
    {
      var n := Min(len, end);
      Text(mem[n..end] + [NUL] + mem[end + 1 - n..], end - n)
    }

    /** sb_flush */
    function Flush(): Text {
      Text(seq(|mem|, _ => NUL), 0)
    }
  }

  /** As C reads it, a field buffer holds what has been appended to it since it was flushed. */
  lemma AppendedReadsBack(t: Text, s: CString, fill: Fill)
    requires t.Valid() && NulFree(t.Content())
    ensures StringAt(t.AppendString(s, fill).mem, 0) == t.Content() + s
  {
    hide Text.Grown;
    var u := t.AppendString(s, fill);
    assert u.mem[0..u.end] == u.Content() == t.Content() + s;
    assert u.mem[u.end] == (s + [NUL])[|s|] == NUL;
    StringAtStops(u.mem, 0, u.end);
  }

  /** Behind a flush no byte of what was there can be read. */
  lemma FlushedReadsEmpty(t: Text, from: nat)
    requires t.Valid()
    ensures t.Flush().Valid() && |t.Flush().mem| == |t.mem| && t.Flush().Content() == []
    ensures StringAt(t.Flush().mem, from) == []
  {}

  /** Deleting the head moves the rest down, terminator included, and terminates it. */
  lemma MovedDown(t: Text, len: nat)
    requires t.Valid()
    ensures var n := Min(len, t.end);
            t.DeleteHead(len) == Text((t.mem[n..t.end + 1] + t.mem[t.end + 1 - n..])[t.end - n := NUL], t.end - n)
  {
    var n := Min(len, t.end);
    assert t.mem[n..t.end + 1] == t.mem[n..t.end] + [t.mem[t.end]];
  }

  class StringBuffer {
    var bytes: array<byte>
    var endPos: nat

    ghost function State(): Text
      reads this, bytes
    {
      Text(bytes[..], endPos)
    }

    ghost predicate Valid()
      reads this, bytes
    {
      State().Valid()
    }

    ghost function Content(): seq<byte>
      requires Valid()
      reads this, bytes
    {
      State().Content()
    }

    /** sb_init */
    constructor (size: nat)
      requires size > 0
      ensures Valid() && fresh(bytes)
      ensures State() == Text(seq(size, _ => NUL), 0)
    {
      bytes := new byte[size](_ => NUL);
      endPos := 0;
    }

    /** The reallocation loop shared by sb_append and sb_appendl. */
    method Reserve(need: nat, fill: Fill)
      requires Valid()
      modifies this`bytes
      ensures bytes == old(bytes) || fresh(bytes)
      ensures State() == Text(old(State()).Grown(need, fill), old(endPos))
    {
      var first := bytes;
      while need >= bytes.Length
        invariant bytes == first || fresh(bytes)
        invariant endPos < first.Length <= bytes.Length
        invariant DoubledSize(bytes.Length, need) == DoubledSize(first.Length, need)
        invariant bytes.Length <= DoubledSize(first.Length, need)
        invariant bytes[..first.Length] == first[..]
        invariant forall i :: first.Length <= i < bytes.Length ==> bytes[i] == fill(i)
        decreases need - bytes.Length
      {
        var bigger := new byte[bytes.Length * 2](
          i requires 0 <= i < bytes.Length * 2 reads this, bytes => if i < bytes.Length then bytes[i] else fill(i));
        assert forall i :: 0 <= i < first.Length ==> bigger[i] == bytes[..first.Length][i];
        bytes := bigger;
      }
    }

    /** memcpy(string + end_pos, s, |s|) */
    method CopyIn(s: seq<byte>)
      requires endPos + |s| <= bytes.Length
      modifies bytes
      ensures bytes[..] == old(bytes[..])[..endPos] + s + old(bytes[..])[endPos + |s|..]
    {
      forall i | 0 <= i < |s| {
        bytes[endPos + i] := s[i];
      }
    }

    method AppendBytes(s: seq<byte>, fill: Fill)
      requires Valid()
      modifies this, bytes
      ensures Valid()
      ensures bytes == old(bytes) || fresh(bytes)
      ensures State() == old(State()).AppendBytes(s, fill)
    {
      hide Text.Grown, DoubledSize;
      Reserve(endPos + |s|, fill);
      CopyIn(s);
      endPos := endPos + |s|;
    }

    method Append(s: CString, fill: Fill)
      requires Valid()
      modifies this, bytes
      ensures Valid()
      ensures bytes == old(bytes) || fresh(bytes)
      ensures State() == old(State()).AppendString(s, fill)
    {
      hide Text.Grown, DoubledSize;
      Reserve(endPos + |s|, fill);
      CopyIn(s + [NUL]);
      endPos := endPos + |s|;
    }

    /** memmove(string, string + n, end_pos + 1 - n) */
    method MoveDown(n: nat)
      requires n <= endPos < bytes.Length
      modifies bytes
      ensures bytes[..] == old(bytes[..])[n..endPos + 1] + old(bytes[..])[endPos + 1 - n..]
    {
      forall i | 0 <= i < endPos + 1 - n {
        bytes[i] := bytes[n + i];
      }
    }

    method DeleteHead(len: nat)
      requires Valid()
      modifies this`endPos, bytes
      ensures Valid()
      ensures State() == old(State()).DeleteHead(len)
    {
      hide Text.DeleteHead;
      var n := Min(len, endPos);
      ghost var before := State();
      MovedDown(before, len);
      MoveDown(n);
      endPos := endPos - n;
      bytes[endPos] := NUL;
      assert bytes[..] == (before.mem[n..before.end + 1] + before.mem[before.end + 1 - n..])[endPos := NUL];
    }

    /** sb_stringCpy, for content that is a C string. */
    method Copy() returns (s: seq<byte>)
      requires Valid()
      ensures s == Content()
    {
      s := bytes[..endPos];
    }

    method Flush()
      requires Valid()
      modifies this`endPos, bytes
      ensures Valid()
      ensures State() == old(State()).Flush()
    {
      forall i | 0 <= i < bytes.Length {
        bytes[i] := NUL;
      }
      endPos := 0;
    }
  }
}
