/** The receive loop body of surv_handleOpenCallSocket and surv_handleExecCallSocket, on the mutable buffer. */
module SocketHandlers {
  import opened Basics
  import opened LineStream
  import opened StringBuffers
  import opened StreamParser

  class SocketHandler {
    const sbuf: StringBuffer
    /** The contents of the five field buffers. */
    var fields: Fields
    var currField: nat

    ghost function State(): Parser
      reads this, sbuf, sbuf.bytes
    {
      Parser(sbuf.State(), fields, currField)
    }

    ghost predicate Valid()
      reads this, sbuf, sbuf.bytes
    {
      StreamParser.Valid(State())
    }

    ghost function OpenLine(): Line
      requires Valid()
      reads this, sbuf, sbuf.bytes
    {
      LineOf(State())
    }

    constructor ()
      ensures Valid() && fresh(sbuf) && fresh(sbuf.bytes)
      ensures State() == NewParser() && OpenLine() == START
    {
      sbuf := new StringBuffer(512);
      fields := BLANK;
      currField := 0;
    }

    /** The string that starts in the receive buffer at lfield_start, as strlen finds it. */
    method FieldAt(start: nat) returns (s: seq<byte>)
      ensures s == StringAt(sbuf.bytes[..], start)
    {
      var end := start;
      s := [];
      while end < sbuf.bytes.Length && sbuf.bytes[end] != NUL
        invariant s + StringAt(sbuf.bytes[..], end) == StringAt(sbuf.bytes[..], start)
        decreases sbuf.bytes.Length - end
      {
        assert s + [sbuf.bytes[end]] + StringAt(sbuf.bytes[..], end + 1)
            == s + ([sbuf.bytes[end]] + StringAt(sbuf.bytes[..], end + 1));
        s := s + [sbuf.bytes[end]];
        end := end + 1;
      }
      assert s + [] == s;
    }

    /** Blank the delimiter at i and append the field in front of it to the current field buffer. */
    method CloseField(i: nat, start: nat)
      requires |fields| == FIELD_NUM && i < sbuf.bytes.Length && currField < FIELD_NUM
      modifies this`fields, sbuf.bytes
      ensures sbuf.bytes[..] == old(sbuf.bytes[..])[i := NUL]
      ensures fields == old(fields)[currField := old(fields[currField]) + StringAt(sbuf.bytes[..], start)]
    {
      sbuf.bytes[i] := NUL;
      var s := FieldAt(start);
      fields := fields[currField := fields[currField] + s];
    }

    /** The switch in the scan loop. */
    method HandleByte(i: nat, lfieldStart: nat, out: seq<Fields>) returns (start: nat, out': seq<Fields>)
      requires |fields| == FIELD_NUM && i < sbuf.bytes.Length
      modifies this`fields, this`currField, sbuf.bytes
      ensures |fields| == FIELD_NUM
      ensures Scan(sbuf.bytes[..], fields, currField, start, out')
              == ScanByte(old(Scan(sbuf.bytes[..], fields, currField, lfieldStart, out)), i)
    {
      start, out' := lfieldStart, out;
      if sbuf.bytes[i] == NEWLINE {
        if currField == FIELD_NUM - 1 {
          CloseField(i, lfieldStart);
          out' := out + [fields];
        }
        start, currField, fields := i + 1, 0, BLANK;
      } else if sbuf.bytes[i] == TAB && currField < FIELD_NUM {
        CloseField(i, lfieldStart);
        start, currField := i + 1, currField + 1;
      }
    }

    /** for (i = 0; i <= end_pos; i++) */
    method ScanLoop() returns (lfieldStart: nat, out: seq<Fields>)
      requires sbuf.Valid() && |fields| == FIELD_NUM
      modifies this`fields, this`currField, sbuf.bytes
      ensures |fields| == FIELD_NUM
      ensures Scan(sbuf.bytes[..], fields, currField, lfieldStart, out)
              == ScanTo(old(Scan(sbuf.bytes[..], fields, currField, 0, [])), 0, sbuf.endPos + 1)
    {
      hide ScanByte;
      ghost var first := Scan(sbuf.bytes[..], fields, currField, 0, []);
      var i := 0;
      lfieldStart, out := 0, [];
      while i <= sbuf.endPos
        invariant i <= sbuf.endPos + 1 && |fields| == FIELD_NUM
        invariant ScanTo(Scan(sbuf.bytes[..], fields, currField, lfieldStart, out), i, sbuf.endPos + 1)
                  == ScanTo(first, 0, sbuf.endPos + 1)
      {
        lfieldStart, out := HandleByte(i, lfieldStart, out);
        i := i + 1;
      }
    }

    /** From the append of a received chunk to the deletion of what has been consumed. */
    method ScanChunk(chunk: seq<byte>, fill: Fill) returns (out: seq<Fields>)
      requires sbuf.Valid() && |fields| == FIELD_NUM
      modifies this`fields, this`currField, sbuf, sbuf.bytes
      ensures sbuf.Valid() && |fields| == FIELD_NUM
      ensures sbuf.bytes == old(sbuf.bytes) || fresh(sbuf.bytes)
      ensures (State(), out) == Receive(old(State()), chunk, fill, AsCoded)
    {
      hide ScanByte, ScanTo, Text.Grown, Text.DeleteHead, StringAt;
      var lfieldStart;
      sbuf.AppendBytes(chunk, fill);
      ghost var t := sbuf.State();
      lfieldStart, out := ScanLoop();
      ghost var s := ScanTo(Scan(t.mem, old(fields), old(currField), 0, []), 0, t.end + 1);
      assert sbuf.State() == Text(s.mem, t.end);
      sbuf.DeleteHead(lfieldStart);
    }

    /** One turn of the receive loop, told in lines: the chunk, and then a left-over delimiter behind it. */
    method HandleChunk(chunk: seq<byte>, fill: Fill) returns (out: seq<Fields>)
      requires Valid()
      requires NulFree(chunk) && TabsFit(OpenLine(), chunk + Stray(State(), chunk, fill))
      modifies this`fields, this`currField, sbuf, sbuf.bytes
      ensures Valid() && (sbuf.bytes == old(sbuf.bytes) || fresh(sbuf.bytes))
      ensures (State(), out) == Receive(old(State()), chunk, fill, AsCoded)
      ensures OpenLine() == FeedAll(old(OpenLine()), chunk + old(Stray(State(), chunk, fill)))
      ensures out == Emitted(old(OpenLine()), chunk + old(Stray(State(), chunk, fill)))
    {
      ReceiveAsCoded(State(), chunk, fill);
      out := ScanChunk(chunk, fill);
    }
  }
}
