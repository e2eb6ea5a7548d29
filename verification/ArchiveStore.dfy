/** The marshaller and the database manager of database.c, on mutable buffers and stores. */
module ArchiveStore {
  import opened Basics
  import opened StringBuffers
  import opened Vectors
  import opened ProcessIndex
  import opened Marshalling
  import opened Archive

  /** m_object */
  class MObject {
    var buffer: array?<byte>
    var size: nat

    /** m_object_init */
    constructor ()
      ensures buffer == null && size == 0
    {
      buffer := null;
      size := 0;
    }

    /** The bytes added so far. */
    ghost function Bytes(): seq<byte>
      requires buffer != null && size <= buffer.Length
      reads this, buffer
    {
      buffer[..size]
    }

    /** m_object_add */
    method Add(data: seq<byte>)
      requires buffer != null && size + |data| <= buffer.Length
      modifies this`size, buffer
      ensures size == old(size) + |data| <= buffer.Length
      ensures Bytes() == old(Bytes()) + data
    {
      forall i | 0 <= i < |data| {
        buffer[size + i] := data[i];
      }
      size := size + |data|;
    }

    /** db_execCall_marshall: the buffer it allocates is filled to the last byte. */
    method MarshalExec(r: ExecRecord) returns (ret: int)
      requires buffer == null ==> size == 0
      modifies this
      ensures old(buffer) != null ==> ret == -1 && buffer == old(buffer) && size == old(size)
      ensures old(buffer) == null ==> ret == 0 && buffer != null && fresh(buffer)
      ensures old(buffer) == null ==> size == buffer.Length == ExecSize(r) && buffer[..] == ExecBytes(r)
    {
      if buffer != null {
        return -1;
      }
      buffer := new byte[ExecSize(r)];
      Add(TimeBytes(r.time));
      Add(I32Bytes(r.pid));
      Add(I32Bytes(r.ppid));
      Add(Terminated(r.cmd));
      Add(Terminated(r.args));
      Add(Terminated(r.env));
      assert [] + TimeBytes(r.time) == TimeBytes(r.time);
      assert buffer[..] == Bytes();
      ret := 0;
    }

    /** db_openCall_marshall */
    method MarshalOpen(o: OpenRecord, pad: Padding) returns (ret: int)
      requires buffer == null ==> size == 0
      modifies this
      ensures old(buffer) != null ==> ret == -1 && buffer == old(buffer) && size == old(size)
      ensures old(buffer) == null ==> ret == 0 && buffer != null && fresh(buffer)
      ensures old(buffer) == null ==> size == buffer.Length == OpenSize(o) && buffer[..] == OpenBytes(o, pad)
    {
      if buffer != null {
        return -1;
      }
      buffer := new byte[OpenSize(o)];
      Add(TimeBytes(o.time));
      Add(I32Bytes(o.flag));
      Add(KeyBytes(o.key, pad));
      Add(Terminated(o.path));
      assert [] + TimeBytes(o.time) == TimeBytes(o.time);
      assert buffer[..] == Bytes();
      ret := 0;
    }
  }

  /** m_object_buffer_getstring: the string, and how far bufpos moves. */
  method GetString(b: seq<byte>, bufpos: nat) returns (target: CString, length: nat)
    ensures target == StringAt(b, bufpos)
    ensures length == |target| + 1
  {
    var end := bufpos;
    var s: seq<byte> := [];
    while end < |b| && b[end] != NUL
      invariant s + StringAt(b, end) == StringAt(b, bufpos)
      decreases |b| - end
    {
      assert s + [b[end]] + StringAt(b, end + 1) == s + ([b[end]] + StringAt(b, end + 1));
      s := s + [b[end]];
      end := end + 1;
    }
    assert s + [] == s;
    target, length := s, |s| + 1;
  }

  /** db_execCall_unmarshall, on a record cleared by db_execCall_init */
  method ReadExec(b: seq<byte>) returns (r: ExecRecord)
    requires |b| >= 24
    ensures r == UnmarshalExec(b)
  {
    var bufpos := 24;
    var cmd, args, env, length;
    cmd, length := GetString(b, bufpos);
    bufpos := bufpos + length;
    args, length := GetString(b, bufpos);
    bufpos := bufpos + length;
    env, length := GetString(b, bufpos);
    r := ExecRecord(BytesTime(b[..16]), BytesI32(b[16..20]), BytesI32(b[20..24]), cmd, args, env, NO_KEY);
  }

  /** db_openCall_unmarshall */
  method ReadOpen(b: seq<byte>) returns (o: OpenRecord)
    requires |b| >= 44
    ensures o == UnmarshalOpen(b)
  {
    var path, length := GetString(b, 44);
    o := OpenRecord(BytesTime(b[..16]), BytesI32(b[16..20]), BytesKey(b[20..44]), path);
  }

  /** db_manager, with its three stores. */
  class DbManager {
    var execs: map<EKey, seq<byte>>
    var opens: map<OKey, seq<byte>>
    var paths: map<seq<byte>, seq<OKey>>

    ghost function State(): Db
      reads this
    {
      Db(execs, opens, paths)
    }

    ghost predicate Valid()
      reads this
    {
      Consistent(State())
    }

    constructor ()
      ensures Valid() && State() == EMPTY
    {
      execs, opens, paths := map[], map[], map[];
    }

    /** db_add_execCall */
    method AddExecCall(r: ExecRecord) returns (ret: PutResult)
      requires Valid()
      modifies this
      ensures Valid() && (State(), ret) == PutExec(old(State()), r)
      ensures KeyOf(r) in execs && (ret == KeyExists <==> KeyOf(r) in old(execs))
      ensures ret == Ok ==> GetExec(State(), KeyOf(r)) == Some(r.(parent := NO_KEY))
    {
      PutThenGet(State(), r);
      hide Consistent, ExecBytes, UnmarshalExec;
      PutExecConsistent(State(), r);
      var obj := new MObject();
      var _ := obj.MarshalExec(r);
      if KeyOf(r) in execs {
        return KeyExists;
      }
      execs := execs[KeyOf(r) := obj.buffer[..]];
      ret := Ok;
    }

    /** db_add_openCall, with the put into the associated secondary index */
    method AddOpenCall(o: OpenRecord, noise: Noise) returns (ret: PutResult)
      requires Valid() && o.key in execs
      modifies this
      ensures Valid() && (State(), ret) == PutOpen(old(State()), o, noise)
      ensures execs == old(execs)
    {
      hide Consistent, OpenBytes, UnmarshalOpen, StringAt, OKeyOf;
      PutOpenConsistent(State(), o, noise);
      OpenRoundTrip(o, noise.pad);
      var obj := new MObject();
      var _ := obj.MarshalOpen(o, noise.pad);
      var k := OKeyOf(o, noise);
      if k in opens {
        return KeyExists;
      }
      var b := obj.buffer[..];
      opens := opens[k := b];
      paths := paths[PathKey(b) := (if PathKey(b) in paths then paths[PathKey(b)] else []) + [k]];
      ret := Ok;
    }

    /** db_get_execCall_by_key */
    method GetExecCall(k: EKey) returns (r: Option<ExecRecord>)
      requires Valid()
      ensures r == GetExec(State(), k)
    {
      if k !in execs {
        return None;
      }
      var e := ReadExec(execs[k]);
      r := Some(e);
    }

    /** The loop over next_eCallKey. */
    method ExecChain(first: EKey) returns (chain: seq<ExecRecord>)
      requires Valid()
      ensures chain == Chain(State(), first) && |chain| <= 1
    {
      ChainIsShort(State(), first);
      var next := first;
      chain := [];
      while next.pid != 0
        invariant chain + Chain(State(), next) == Chain(State(), first)
        decreases next.pid != 0
      {
        var r := GetExecCall(next);
        if r.None? {
          next := next.(pid := 0);
        } else {
          assert chain + [r.value] + Chain(State(), r.value.parent)
              == chain + ([r.value] + Chain(State(), r.value.parent));
          chain := chain + [r.value];
          next := r.value.parent;
        }
      }
      assert chain + [] == chain;
    }

    /** The full record of one stored open call. */
    method FullRecordOf(k: OKey) returns (f: FullRecord)
      requires Valid() && k in opens
      ensures f == FullFor(State(), k)
    {
      var o := ReadOpen(opens[k]);
      var chain := ExecChain(o.key);
      f := FullRecord(o, chain);
    }

    /** retrieveRecords_Path: DB_SET, then DB_NEXT_DUP until there is none. */
    method RetrieveRecordsPath(recordList: Vector<FullRecord>, path: CString)
      requires Valid() && recordList.Valid() && recordList.elems.Length >= 2
      modifies recordList, recordList.elems
      ensures recordList.Valid()
      ensures recordList.Contents() == old(recordList.Contents()) + Lookup(State(), path)
    {
      hide FullFor, Consistent;
      var query := Terminated(path);
      ghost var found := Lookup(State(), path);
      var keys := if query in paths then paths[query] else [];
      assert keys == Filed(State(), query);
      FiledAreStored(State(), query);
      var i := 0;
      while i < |keys|
        invariant i <= |keys| == |found| && recordList.Valid() && recordList.elems.Length >= 2
        invariant recordList.elems == old(recordList.elems) || fresh(recordList.elems)
        invariant recordList.Contents() == old(recordList.Contents()) + found[..i]
      {
        var f := FullRecordOf(keys[i]);
        assert f == found[i];
        recordList.Append(f);
        i := i + 1;
      }
      assert found[..i] == found;
    }

    /** surv_database_dispatch */
    method DatabaseDispatch(r: Rec, boot: nat, noise: nat -> Noise)
      requires Valid()
      modifies this
      ensures Valid() && State() == Dispatch(old(State()), r, boot, noise)
    {
      hide Consistent, PutExec, PutOpen, RecordFor;
      var record := RecordFor(r, boot);
      var _ := AddExecCall(record);
      ghost var db := State();
      var i := 0;
      while i < |r.calls|
        invariant i <= |r.calls| && Valid() && KeyOf(record) in execs
        invariant State() == PutOpens(db, r.calls[..i], boot, KeyOf(record), noise)
      {
        assert r.calls[..i + 1][..i] == r.calls[..i];
        var _ := AddOpenCall(OpenFor(r.calls[i], boot, KeyOf(record)), noise(i));
        i := i + 1;
      }
      assert r.calls[..i] == r.calls;
    }
  }
}
