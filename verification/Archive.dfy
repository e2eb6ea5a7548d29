/** The archive: an exec store, an open store, and the open store's secondary index by path. Berkeley DB
    is taken as maps; put with DB_NOOVERWRITE fails exactly on an existing key. */
module Archive {
  import opened Basics
  import opened StringBuffers
  import opened ProcessIndex
  import opened Marshalling

  /** The open store's key, 120 bytes in all: a timestamp, a 100-byte array of which only a string is
      written, and four bytes of padding behind it. */
  datatype OKey = OKey(time: Time, suffix: seq<byte>, tail: Padding)

  const MAX_SUFFIX := 100

  /** What lies in memory that the code does not initialise: the padding of a marshalled exec key, the
      suffix array before the suffix is written, and the padding of the open key. */
  datatype Noise = Noise(pad: Padding, bytes: SuffixArray, tail: Padding)

  type SuffixArray = s: seq<byte> | |s| == MAX_SUFFIX witness seq(MAX_SUFFIX, _ => 0)

  /** gen_filepath_suffix: the last 99 characters of the path. */
  function SuffixOf(path: CString): (s: CString)
    ensures |s| < MAX_SUFFIX
  {
    if |path| < MAX_SUFFIX then path else path[|path| - (MAX_SUFFIX - 1)..]
  }

  /** db_openCall_genKey */
  function OKeyOf(o: OpenRecord, noise: Noise): OKey {
    var s := Terminated(SuffixOf(o.path));
    OKey(o.time, s + noise.bytes[|s|..], noise.tail)
  }

  datatype Db = Db(execs: map<EKey, seq<byte>>, opens: map<OKey, seq<byte>>, paths: map<seq<byte>, seq<OKey>>)

  const EMPTY := Db(map[], map[], map[])

  datatype PutResult = Ok | KeyExists

  function PutExec(db: Db, r: ExecRecord): (Db, PutResult) {
    if KeyOf(r) in db.execs then (db, KeyExists)
    else (db.(execs := db.execs[KeyOf(r) := ExecBytes(r)]), Ok)
  }

  function Filed(db: Db, path: seq<byte>): seq<OKey> {
    if path in db.paths then db.paths[path] else []
  }

  /** A put into the open store also files the record in the secondary index, under the callback's key. */
  function PutOpen(db: Db, o: OpenRecord, noise: Noise): (Db, PutResult) {
    var k, b := OKeyOf(o, noise), OpenBytes(o, noise.pad);
    if k in db.opens then (db, KeyExists)
    else
      OpenRoundTrip(o, noise.pad);
      (db.(opens := db.opens[k := b], paths := db.paths[PathKey(b) := Filed(db, PathKey(b)) + [k]]), Ok)
  }

  // ----- surv_database_dispatch -----

  function Wrap64(x: int): i64 {
    var n := x % TWO64;
    if n < TWO63 then n else n - TWO64
  }

  /** tv_sec += boot_time */
  function Shift(t: Time, boot: nat): Time {
    Time(Wrap64(t.sec + boot), t.usec)
  }

  /** The parent key's timestamp is not shifted. */
  function RecordFor(r: Rec, boot: nat): ExecRecord {
    ExecRecord(Shift(r.time, boot), r.pid, r.ppid, r.cmd, r.args, [], EKey(r.ptime, r.ppid))
  }

  function OpenFor(o: OpenCall, boot: nat, key: EKey): OpenRecord {
    OpenRecord(Shift(o.time, boot), o.flag, key, o.path)
  }

  function PutOpens(db: Db, calls: seq<OpenCall>, boot: nat, key: EKey, noise: nat -> Noise): Db
    decreases |calls|
  {
    if calls == [] then db
    else
      var n := |calls| - 1;
      PutOpen(PutOpens(db, calls[..n], boot, key, noise), OpenFor(calls[n], boot, key), noise(n)).0
  }

  /** One drained record: its exec call, whether or not that key is taken, and then its open calls. */
  function Dispatch(db: Db, r: Rec, boot: nat, noise: nat -> Noise): Db {
    PutOpens(PutExec(db, RecordFor(r, boot)).0, r.calls, boot, KeyOf(RecordFor(r, boot)), noise)
  }

  /** Every record drained in the life of the daemon; noise(i) is what the i-th dispatch finds in memory. */
  function DispatchAll(db: Db, rs: seq<Rec>, boot: nat, noise: nat -> nat -> Noise): Db {
    if rs == [] then db
    else
      var n := |rs| - 1;
      Dispatch(DispatchAll(db, rs[..n], boot, noise), rs[n], boot, noise(n))
  }

  // ----- What the stores keep -----

  ghost predicate ExecStoreOk(db: Db) {
    forall k :: k in db.execs ==> |db.execs[k]| >= 24 && KeyOf(UnmarshalExec(db.execs[k])) == k
  }

  ghost predicate OpenStoreOk(db: Db) {
    forall k :: k in db.opens ==> |db.opens[k]| >= 44
  }

  /** Every stored open record's exec key is in the exec store. */
  ghost predicate References(db: Db) {
    OpenStoreOk(db) && forall k :: k in db.opens ==> UnmarshalOpen(db.opens[k]).key in db.execs
  }

  /** The secondary index files each stored record once, under its own path, and nothing else. */
  ghost predicate IndexAgrees(db: Db) {
    && OpenStoreOk(db)
    && (forall q, k :: k in Filed(db, q) <==> k in db.opens && PathKey(db.opens[k]) == q)
    && (forall q, i, j :: 0 <= i < j < |Filed(db, q)| ==> Filed(db, q)[i] != Filed(db, q)[j])
  }

  ghost predicate Consistent(db: Db) {
    ExecStoreOk(db) && References(db) && IndexAgrees(db)
  }

  lemma PutExecKeepsIndex(db: Db, e: Db)
    requires IndexAgrees(db) && e.opens == db.opens && e.paths == db.paths
    ensures IndexAgrees(e)
  {
    assert forall q :: Filed(e, q) == Filed(db, q);
  }

  lemma PutExecKeepsStore(db: Db, r: ExecRecord)
    requires ExecStoreOk(db)
    ensures ExecStoreOk(PutExec(db, r).0)
  {
    hide ExecBytes, UnmarshalExec;
    ExecRoundTrip(r);
  }

  /** What has been put under a free key comes back, every field of it but the parent key; a taken key is left
      as it is. */
  lemma PutThenGet(db: Db, r: ExecRecord)
    requires ExecStoreOk(db)
    ensures var e := PutExec(db, r).0;
            && ExecStoreOk(e) && e.opens == db.opens && e.paths == db.paths
            && (KeyOf(r) !in db.execs ==> GetExec(e, KeyOf(r)) == Some(r.(parent := EKey(Time(0, 0), 0))))
            && (KeyOf(r) in db.execs ==> e.execs == db.execs)
            && forall k :: k != KeyOf(r) ==>
                 (k in e.execs <==> k in db.execs) && (k in db.execs ==> e.execs[k] == db.execs[k])
  {
    hide ExecBytes, UnmarshalExec;
    ExecRoundTrip(r);
    PutExecKeepsStore(db, r);
  }

  lemma PutExecConsistent(db: Db, r: ExecRecord)
    requires Consistent(db)
    ensures Consistent(PutExec(db, r).0) && KeyOf(r) in PutExec(db, r).0.execs
  {
    hide IndexAgrees, ExecStoreOk, ExecBytes, UnmarshalOpen;
    PutExecKeepsStore(db, r);
    PutExecKeepsIndex(db, PutExec(db, r).0);
  }

  lemma FiledAfterPut(db: Db, o: OpenRecord, noise: Noise, q: seq<byte>)
    requires OKeyOf(o, noise) !in db.opens
    ensures Filed(PutOpen(db, o, noise).0, q) ==
            Filed(db, q) + if q == Terminated(o.path) then [OKeyOf(o, noise)] else []
  {
    OpenRoundTrip(o, noise.pad);
  }

  lemma PutOpenIndexed(db: Db, o: OpenRecord, noise: Noise)
    requires IndexAgrees(db)
    ensures IndexAgrees(PutOpen(db, o, noise).0)
  {
    var k, b := OKeyOf(o, noise), OpenBytes(o, noise.pad);
    if k !in db.opens {
      OpenRoundTrip(o, noise.pad);
      var e := PutOpen(db, o, noise).0;
      assert e.opens == db.opens[k := b] && PathKey(b) == Terminated(o.path);
      forall q ensures Filed(e, q) == Filed(db, q) + if q == Terminated(o.path) then [k] else [] {
        FiledAfterPut(db, o, noise, q);
      }
      hide PutOpen, OKeyOf, OpenBytes, UnmarshalOpen, PathKey, Filed, Terminated;
      FilingOneMore(db, e, k, b);
    }
  }

  /** Filing a fresh key under its own path keeps the index in agreement with the store. */
  lemma FilingOneMore(db: Db, e: Db, k: OKey, b: seq<byte>)
    requires IndexAgrees(db) && k !in db.opens && |b| >= 44 && e.opens == db.opens[k := b]
    requires forall q :: Filed(e, q) == Filed(db, q) + if q == PathKey(b) then [k] else []
    ensures IndexAgrees(e)
  {
    hide Filed, PathKey;
    forall q, j ensures j in Filed(e, q) <==> j in e.opens && PathKey(e.opens[j]) == q {
      assert j in Filed(e, q) <==> j in Filed(db, q) || (q == PathKey(b) && j == k);
    }
  }

  lemma PutOpenConsistent(db: Db, o: OpenRecord, noise: Noise)
    requires Consistent(db) && o.key in db.execs
    ensures Consistent(PutOpen(db, o, noise).0)
    ensures PutOpen(db, o, noise).0.execs == db.execs
  {
    hide IndexAgrees, OpenBytes, UnmarshalOpen, OKeyOf, PathKey;
    PutOpenIndexed(db, o, noise);
    OpenRoundTrip(o, noise.pad);
  }

  lemma {:induction false} PutOpensConsistent(db: Db, calls: seq<OpenCall>, boot: nat, key: EKey, noise: nat -> Noise)
    requires Consistent(db) && key in db.execs
    ensures var e := PutOpens(db, calls, boot, key, noise); Consistent(e) && e.execs == db.execs
    decreases |calls|
  {
    if calls != [] {
      hide Consistent;
      var n := |calls| - 1;
      PutOpensConsistent(db, calls[..n], boot, key, noise);
      PutOpenConsistent(PutOpens(db, calls[..n], boot, key, noise), OpenFor(calls[n], boot, key), noise(n));
    }
  }

  lemma DispatchConsistent(db: Db, r: Rec, boot: nat, noise: nat -> Noise)
    requires Consistent(db)
    ensures Consistent(Dispatch(db, r, boot, noise))
  {
    hide Consistent;
    PutExecConsistent(db, RecordFor(r, boot));
    PutOpensConsistent(PutExec(db, RecordFor(r, boot)).0, r.calls, boot, KeyOf(RecordFor(r, boot)), noise);
  }

  lemma EmptyConsistent()
    ensures Consistent(EMPTY)
  {}

  /** Whatever records are archived, duplicates included, the archive stays consistent. */
  lemma {:induction false} ArchiveIsConsistent(rs: seq<Rec>, boot: nat, noise: nat -> nat -> Noise)
    ensures Consistent(DispatchAll(EMPTY, rs, boot, noise))
  {
    if rs == [] {
      EmptyConsistent();
    } else {
      var n := |rs| - 1;
      ArchiveIsConsistent(rs[..n], boot, noise);
      DispatchConsistent(DispatchAll(EMPTY, rs[..n], boot, noise), rs[n], boot, noise(n));
    }
  }

  // ----- What is archived stays archived -----

  ghost predicate Extends(db: Db, e: Db) {
    && (forall k :: k in db.execs ==> k in e.execs && e.execs[k] == db.execs[k])
    && (forall k :: k in db.opens ==> k in e.opens && e.opens[k] == db.opens[k])
  }

  lemma {:induction false} PutOpensStores(db: Db, calls: seq<OpenCall>, boot: nat, key: EKey, noise: nat -> Noise)
    ensures var e := PutOpens(db, calls, boot, key, noise);
            && Extends(db, e)
            && forall i :: 0 <= i < |calls| ==> OKeyOf(OpenFor(calls[i], boot, key), noise(i)) in e.opens
    decreases |calls|
  {
    hide OKeyOf, OpenFor, OpenBytes, PathKey;
    if calls != [] {
      PutOpensStores(db, calls[..|calls| - 1], boot, key, noise);
    }
  }

  ghost predicate Holds(db: Db, r: Rec, boot: nat, noise: nat -> Noise) {
    var key := KeyOf(RecordFor(r, boot));
    && key in db.execs
    && forall j :: 0 <= j < |r.calls| ==> OKeyOf(OpenFor(r.calls[j], boot, key), noise(j)) in db.opens
  }

  lemma DispatchStores(db: Db, r: Rec, boot: nat, noise: nat -> Noise)
    ensures Extends(db, Dispatch(db, r, boot, noise)) && Holds(Dispatch(db, r, boot, noise), r, boot, noise)
  {
    hide OKeyOf, OpenFor, RecordFor, ExecBytes;
    PutOpensStores(PutExec(db, RecordFor(r, boot)).0, r.calls, boot, KeyOf(RecordFor(r, boot)), noise);
  }

  lemma ExtensionHolds(db: Db, e: Db, r: Rec, boot: nat, noise: nat -> Noise)
    requires Extends(db, e) && Holds(db, r, boot, noise)
    ensures Holds(e, r, boot, noise)
  {
    hide OKeyOf, OpenFor, RecordFor;
  }

  /** From the i-th dispatch on, the exec key of its record and the keys of all its open calls are stored,
      and nothing stored before is ever overwritten. */
  lemma {:induction false} EveryRecordIsStored(rs: seq<Rec>, boot: nat, noise: nat -> nat -> Noise, i: nat)
    requires i < |rs|
    ensures var e := DispatchAll(EMPTY, rs, boot, noise);
            Extends(DispatchAll(EMPTY, rs[..i], boot, noise), e) && Holds(e, rs[i], boot, noise(i))
  {
    hide Holds, Dispatch, EMPTY;
    var n := |rs| - 1;
    var before := DispatchAll(EMPTY, rs[..n], boot, noise);
    DispatchStores(before, rs[n], boot, noise(n));
    if i < n {
      EveryRecordIsStored(rs[..n], boot, noise, i);
      assert rs[..n][..i] == rs[..i];
      ExtensionHolds(before, DispatchAll(EMPTY, rs, boot, noise), rs[i], boot, noise(i));
    }
  }

  // ----- Lookups -----

  /** db_get_execCall_by_key */
  function GetExec(db: Db, k: EKey): Option<ExecRecord>
    requires ExecStoreOk(db)
  {
    if k in db.execs then Some(UnmarshalExec(db.execs[k])) else None
  }

  /** The inner loop of retrieveRecords_Path. It would climb to the parents, but an unmarshalled record
      carries no parent key. */
  function Chain(db: Db, k: EKey): seq<ExecRecord>
    requires ExecStoreOk(db)
    decreases k.pid != 0
  {
    if k.pid == 0 then []
    else
      match GetExec(db, k)
      case None => []
      case Some(r) => [r] + Chain(db, r.parent)
  }

  /** The climb ends after the first record: none comes back with a parent key. */
  lemma ChainIsShort(db: Db, k: EKey)
    requires ExecStoreOk(db)
    ensures |Chain(db, k)| <= 1
  {
    var r := GetExec(db, k);
    if k.pid != 0 && r.Some? {
      assert r.value.parent == NO_KEY && Chain(db, r.value.parent) == [];
    }
  }

  /** db_full_Record */
  datatype FullRecord = FullRecord(open: OpenRecord, execs: seq<ExecRecord>)

  function FullFor(db: Db, k: OKey): FullRecord
    requires Consistent(db) && k in db.opens
  {
    var o := UnmarshalOpen(db.opens[k]);
    FullRecord(o, Chain(db, o.key))
  }

  function Lookup(db: Db, path: CString): (rs: seq<FullRecord>)
    requires Consistent(db)
  {
    var keys := Filed(db, Terminated(path));
    seq(|keys|, i requires 0 <= i < |keys| => FullFor(db, keys[i]))
  }

  /** Referential integrity: every stored open record leads to exactly the exec record it names, and to
      no more than that one; an open record of pid 0 leads to none. */
  lemma StoredOpenFindsItsExec(db: Db, k: OKey)
    requires Consistent(db) && k in db.opens
    ensures var key := UnmarshalOpen(db.opens[k]).key;
            && GetExec(db, key).Some? && KeyOf(GetExec(db, key).value) == key
            && FullFor(db, k).execs == (if key.pid == 0 then [] else [GetExec(db, key).value])
  {
    var key := UnmarshalOpen(db.opens[k]).key;
    var r := GetExec(db, key).value;
    assert r.parent == NO_KEY && Chain(db, r.parent) == [];
  }

  lemma FiledAreStored(db: Db, q: seq<byte>)
    requires Consistent(db)
    ensures forall i :: 0 <= i < |Filed(db, q)| ==> Filed(db, q)[i] in db.opens
  {
    forall i | 0 <= i < |Filed(db, q)| ensures Filed(db, q)[i] in db.opens {
      assert Filed(db, q)[i] in Filed(db, q);
    }
  }

  lemma SamePath(a: CString, b: CString)
    requires Terminated(a) == Terminated(b)
    ensures a == b
  {
    assert Terminated(a)[..|a|] == Terminated(b)[..|b|];
  }

  /** A lookup by path is a full scan of the open store: every stored record whose path is the query,
      each once, and no other. */
  lemma LookupIsFullScan(db: Db, path: CString)
    requires Consistent(db)
    ensures var keys, rs := Filed(db, Terminated(path)), Lookup(db, path);
            && (forall k :: k in keys <==> k in db.opens && UnmarshalOpen(db.opens[k]).path == path)
            && (forall i, j :: 0 <= i < j < |keys| ==> keys[i] != keys[j])
            && |rs| == |keys|
            && (forall i :: 0 <= i < |rs| ==> rs[i].open == UnmarshalOpen(db.opens[keys[i]]) && rs[i].open.path == path)
  {
    var keys := Filed(db, Terminated(path));
    forall k | k in db.opens && PathKey(db.opens[k]) == Terminated(path)
      ensures UnmarshalOpen(db.opens[k]).path == path
    {
      SamePath(StringAt(db.opens[k], 44), path);
    }
  }

  /** An archived open call is found again by its path, with the exec record of its process, unless the
      open store already held its key. */
  lemma ArchivedOpenIsFound(db: Db, o: OpenRecord, noise: Noise)
    requires Consistent(db) && o.key in db.execs && o.key.pid != 0 && OKeyOf(o, noise) !in db.opens
    ensures var e := PutOpen(db, o, noise).0;
            Consistent(e) && FullRecord(o, [UnmarshalExec(db.execs[o.key])]) in Lookup(e, o.path)
  {
    var k, e := OKeyOf(o, noise), PutOpen(db, o, noise).0;
    PutOpenConsistent(db, o, noise);
    OpenRoundTrip(o, noise.pad);
    FiledAfterPut(db, o, noise, Terminated(o.path));
    StoredOpenFindsItsExec(e, k);
    var keys := Filed(e, Terminated(o.path));
    assert keys[|keys| - 1] == k;
    assert Lookup(e, o.path)[|keys| - 1] == FullFor(e, k);
  }

  lemma ExtendsOn(a: Db, b: Db, c: Db)
    requires Extends(a, b) && Extends(b, c)
    ensures Extends(a, c)
  {}

  lemma PutOpenExtends(db: Db, o: OpenRecord, noise: Noise)
    ensures Extends(db, PutOpen(db, o, noise).0)
  {}

  lemma {:induction false} PutOpensExtends(db: Db, calls: seq<OpenCall>, boot: nat, key: EKey,
                                           noise: nat -> Noise, j: nat)
    requires j <= |calls|
    ensures Extends(PutOpens(db, calls[..j], boot, key, noise), PutOpens(db, calls, boot, key, noise))
    decreases |calls|
  {
    if j == |calls| {
      assert calls[..j] == calls;
      ExtendsSelf(PutOpens(db, calls, boot, key, noise));
    } else {
      hide PutOpen, Extends, OpenFor;
      var n := |calls| - 1;
      PutOpensExtends(db, calls[..n], boot, key, noise, j);
      assert calls[..n][..j] == calls[..j];
      PutOpenExtends(PutOpens(db, calls[..n], boot, key, noise), OpenFor(calls[n], boot, key), noise(n));
      ExtendsOn(PutOpens(db, calls[..j], boot, key, noise), PutOpens(db, calls[..n], boot, key, noise),
                PutOpens(db, calls, boot, key, noise));
    }
  }

  /** The archive just before call j of record i is put. */
  function BeforePut(rs: seq<Rec>, boot: nat, noise: nat -> nat -> Noise, i: nat, j: nat): Db
    requires i < |rs| && j < |rs[i].calls|
  {
    var r := RecordFor(rs[i], boot);
    PutOpens(PutExec(DispatchAll(EMPTY, rs[..i], boot, noise), r).0, rs[i].calls[..j], boot, KeyOf(r), noise(i))
  }

  lemma PutSurvives(rs: seq<Rec>, boot: nat, noise: nat -> nat -> Noise, i: nat, j: nat)
    requires i < |rs| && j < |rs[i].calls|
    ensures var o := OpenFor(rs[i].calls[j], boot, KeyOf(RecordFor(rs[i], boot)));
            && Extends(PutOpen(BeforePut(rs, boot, noise, i, j), o, noise(i)(j)).0, DispatchAll(EMPTY, rs, boot, noise))
            && KeyOf(RecordFor(rs[i], boot)) in DispatchAll(EMPTY, rs, boot, noise).execs
  {
    hide OKeyOf, OpenFor, RecordFor, PutOpen, PutExec, PutOpens, DispatchAll, Extends;
    var first, calls := rs[..i + 1], rs[i].calls;
    var r := RecordFor(rs[i], boot);
    var db := DispatchAll(EMPTY, rs[..i], boot, noise);
    assert first[..i] == rs[..i] && calls[..j + 1][..j] == calls[..j];
    DispatchAllSnoc(rs, boot, noise, i);
    PutOpensSnoc(PutExec(db, r).0, calls, boot, KeyOf(r), noise(i), j);
    PutOpensExtends(PutExec(db, r).0, calls, boot, KeyOf(r), noise(i), j + 1);
    LaterDispatchesExtend(rs, boot, noise, i + 1);
    EveryRecordIsStored(rs, boot, noise, i);
    ExtendsOn(PutOpens(PutExec(db, r).0, calls[..j + 1], boot, KeyOf(r), noise(i)),
              DispatchAll(EMPTY, first, boot, noise),
              DispatchAll(EMPTY, rs, boot, noise));
  }

  lemma PutOpensSnoc(db: Db, calls: seq<OpenCall>, boot: nat, key: EKey, noise: nat -> Noise, j: nat)
    requires j < |calls|
    ensures PutOpens(db, calls[..j + 1], boot, key, noise) ==
            PutOpen(PutOpens(db, calls[..j], boot, key, noise), OpenFor(calls[j], boot, key), noise(j)).0
  {
    assert calls[..j + 1][..j] == calls[..j];
  }

  lemma DispatchAllSnoc(rs: seq<Rec>, boot: nat, noise: nat -> nat -> Noise, i: nat)
    requires i < |rs|
    ensures DispatchAll(EMPTY, rs[..i + 1], boot, noise) ==
            PutOpens(PutExec(DispatchAll(EMPTY, rs[..i], boot, noise), RecordFor(rs[i], boot)).0, rs[i].calls, boot,
                     KeyOf(RecordFor(rs[i], boot)), noise(i))
  {
    assert rs[..i + 1][..i] == rs[..i];
  }

  lemma LaterDispatchesExtend(rs: seq<Rec>, boot: nat, noise: nat -> nat -> Noise, i: nat)
    requires 0 < i <= |rs|
    ensures Extends(DispatchAll(EMPTY, rs[..i], boot, noise), DispatchAll(EMPTY, rs, boot, noise))
  {
    hide DispatchAll, Holds;
    if i < |rs| {
      EveryRecordIsStored(rs, boot, noise, i);
    } else {
      assert rs[..i] == rs;
      ExtendsSelf(DispatchAll(EMPTY, rs, boot, noise));
    }
  }

  lemma ExtendsSelf(db: Db)
    ensures Extends(db, db)
  {}

  lemma StoredIsFiled(db: Db, k: OKey)
    requires Consistent(db) && k in db.opens
    ensures FullFor(db, k) in Lookup(db, UnmarshalOpen(db.opens[k]).path)
  {
    var path := UnmarshalOpen(db.opens[k]).path;
    var keys := Filed(db, Terminated(path));
    assert k in keys;
    var i :| 0 <= i < |keys| && keys[i] == k;
    assert Lookup(db, path)[i] == FullFor(db, k);
  }

  /** After any archived sequence: an open call whose key was free when it was put is found by its path,
      with the exec record that is stored under the key of its process. */
  lemma FreeKeyIsFound(rs: seq<Rec>, boot: nat, noise: nat -> nat -> Noise, i: nat, j: nat)
    requires i < |rs| && j < |rs[i].calls| && rs[i].pid != 0
    requires var o := OpenFor(rs[i].calls[j], boot, KeyOf(RecordFor(rs[i], boot)));
             OKeyOf(o, noise(i)(j)) !in BeforePut(rs, boot, noise, i, j).opens
    ensures var o := OpenFor(rs[i].calls[j], boot, KeyOf(RecordFor(rs[i], boot)));
            var e := DispatchAll(EMPTY, rs, boot, noise);
            && Consistent(e) && o.key in e.execs
            && FullRecord(o, [UnmarshalExec(e.execs[o.key])]) in Lookup(e, o.path)
  {
    hide BeforePut, DispatchAll, Lookup, OKeyOf, OpenBytes, UnmarshalOpen, UnmarshalExec, PathKey;
    var o := OpenFor(rs[i].calls[j], boot, KeyOf(RecordFor(rs[i], boot)));
    var e, k := DispatchAll(EMPTY, rs, boot, noise), OKeyOf(o, noise(i)(j));
    ArchiveIsConsistent(rs, boot, noise);
    PutSurvives(rs, boot, noise, i, j);
    OpenRoundTrip(o, noise(i)(j).pad);
    assert e.opens[k] == OpenBytes(o, noise(i)(j).pad);
    StoredIsFiled(e, k);
    StoredOpenFindsItsExec(e, k);
  }

  // ----- When a key is free -----

  /** The last n elements, or all if there are fewer. */
  function LastOf<T>(s: seq<T>, n: nat): seq<T> {
    if |s| <= n then s else s[|s| - n..]
  }

  /** What a key of the open store tells of its record, whatever lies in memory: the time, and the last 99
      characters of the path. */
  lemma KeyCarries(o: OpenRecord, noise: Noise)
    ensures OKeyOf(o, noise).time == o.time && StringAt(OKeyOf(o, noise).suffix, 0) == LastOf(o.path, 99)
  {
    var s := SuffixOf(o.path);
    var suffix := OKeyOf(o, noise).suffix;
    assert suffix[0..|s|] == s && suffix[|s|] == Terminated(s)[|s|] == NUL;
    StringAtStops(suffix, 0, |s|);
  }

  /** Two open records take the same key exactly if their times and the last 99 characters of their paths are
      equal, and so is what lies in memory behind them. */
  lemma OpenKeysCollideIff(a: OpenRecord, na: Noise, b: OpenRecord, nb: Noise)
    ensures var k := |LastOf(a.path, 99)| + 1;
            OKeyOf(a, na) == OKeyOf(b, nb) <==>
              a.time == b.time && LastOf(a.path, 99) == LastOf(b.path, 99)
              && na.bytes[k..] == nb.bytes[k..] && na.tail == nb.tail
  {
    KeyCarries(a, na);
    KeyCarries(b, nb);
    if OKeyOf(a, na) == OKeyOf(b, nb) {
      var k := |LastOf(a.path, 99)| + 1;
      assert OKeyOf(a, na).suffix[k..] == na.bytes[k..];
      assert OKeyOf(b, nb).suffix[k..] == nb.bytes[k..];
    }
  }

  /** Every key of the open store carries the time and the end of the path of the record stored under it. */
  ghost predicate OpenKeysOk(db: Db) {
    forall k :: k in db.opens ==>
      && |db.opens[k]| >= 44
      && k.time == UnmarshalOpen(db.opens[k]).time
      && StringAt(k.suffix, 0) == LastOf(UnmarshalOpen(db.opens[k]).path, 99)
  }

  lemma PutOpenKeepsKeys(db: Db, o: OpenRecord, noise: Noise)
    requires OpenKeysOk(db)
    ensures OpenKeysOk(PutOpen(db, o, noise).0)
  {
    hide OKeyOf, OpenBytes, UnmarshalOpen, PathKey, StringAt, LastOf;
    KeyCarries(o, noise);
    OpenRoundTrip(o, noise.pad);
  }

  lemma {:induction false} PutOpensKeepsKeys(db: Db, calls: seq<OpenCall>, boot: nat, key: EKey, noise: nat -> Noise)
    requires OpenKeysOk(db)
    ensures OpenKeysOk(PutOpens(db, calls, boot, key, noise))
    decreases |calls|
  {
    if calls != [] {
      hide OpenKeysOk, PutOpen, OpenFor;
      var n := |calls| - 1;
      PutOpensKeepsKeys(db, calls[..n], boot, key, noise);
      PutOpenKeepsKeys(PutOpens(db, calls[..n], boot, key, noise), OpenFor(calls[n], boot, key), noise(n));
    }
  }

  lemma {:induction false} ArchiveKeysOk(rs: seq<Rec>, boot: nat, noise: nat -> nat -> Noise)
    ensures OpenKeysOk(DispatchAll(EMPTY, rs, boot, noise))
  {
    if rs != [] {
      hide PutOpens, RecordFor, UnmarshalOpen, StringAt, LastOf;
      var n := |rs| - 1;
      ArchiveKeysOk(rs[..n], boot, noise);
      PutOpensKeepsKeys(PutExec(DispatchAll(EMPTY, rs[..n], boot, noise), RecordFor(rs[n], boot)).0, rs[n].calls, boot,
                        KeyOf(RecordFor(rs[n], boot)), noise(n));
    }
  }

  /** An open record is refused only if a stored one has the same time and the same last 99 characters of its
      path. */
  lemma RefusedPutHasTwin(db: Db, o: OpenRecord, noise: Noise) returns (k: OKey)
    requires OpenKeysOk(db) && PutOpen(db, o, noise).1.KeyExists?
    ensures k in db.opens
    ensures UnmarshalOpen(db.opens[k]).time == o.time
    ensures LastOf(UnmarshalOpen(db.opens[k]).path, 99) == LastOf(o.path, 99)
  {
    KeyCarries(o, noise);
    k := OKeyOf(o, noise);
  }

  // ----- The shift by the boot time -----

  /** b is a, boot seconds later, as 64-bit seconds. */
  predicate MovedBy(a: Time, b: Time, boot: nat) {
    b.usec == a.usec && (b.sec - a.sec - boot) % 0x1_0000_0000_0000_0000 == 0
  }

  lemma ShiftMoves(a: Time, boot: nat)
    ensures MovedBy(a, Shift(a, boot), boot)
  {}

  lemma MovedBySeconds(a: Time, b: Time, boot: nat)
    requires MovedBy(a, b, boot) && a.sec + boot < 0x8000_0000_0000_0000
    ensures b.sec == a.sec + boot
  {}

  lemma ShiftInjective(a: Time, b: Time, boot: nat)
    ensures Shift(a, boot) == Shift(b, boot) <==> a == b
  {
    ShiftMoves(a, boot);
    ShiftMoves(b, boot);
  }

  // ----- Where the stored records come from -----

  /** The same process at the same time: records that share an exec key. */
  predicate SameProcess(a: Rec, b: Rec) {
    a.pid == b.pid && a.time == b.time
  }

  lemma SameProcessSharesKey(a: Rec, b: Rec, boot: nat)
    ensures KeyOf(RecordFor(a, boot)) == KeyOf(RecordFor(b, boot)) <==> SameProcess(a, b)
  {
    ShiftInjective(a.time, b.time, boot);
  }

  lemma {:induction false} PutOpensKeepsExecs(db: Db, calls: seq<OpenCall>, boot: nat, key: EKey, noise: nat -> Noise)
    ensures PutOpens(db, calls, boot, key, noise).execs == db.execs
    decreases |calls|
  {
    if calls != [] {
      hide OKeyOf, OpenBytes, PathKey;
      PutOpensKeepsExecs(db, calls[..|calls| - 1], boot, key, noise);
    }
  }

  lemma {:induction false} ExecComesFrom(rs: seq<Rec>, boot: nat, noise: nat -> nat -> Noise, k: EKey) returns (i: nat)
    requires k in DispatchAll(EMPTY, rs, boot, noise).execs
    ensures i < |rs| && k == KeyOf(RecordFor(rs[i], boot))
  {
    hide RecordFor, PutOpens;
    var n := |rs| - 1;
    var db := DispatchAll(EMPTY, rs[..n], boot, noise);
    PutOpensKeepsExecs(PutExec(db, RecordFor(rs[n], boot)).0, rs[n].calls, boot, KeyOf(RecordFor(rs[n], boot)),
                       noise(n));
    if k in db.execs {
      i := ExecComesFrom(rs[..n], boot, noise, k);
    } else {
      i := n;
    }
  }

  /** Under its key stands the first archived record of a process and time, as it was archived. */
  lemma FirstRecordIsStored(rs: seq<Rec>, boot: nat, noise: nat -> nat -> Noise, i: nat)
    requires i < |rs| && forall n :: 0 <= n < i ==> !SameProcess(rs[n], rs[i])
    ensures var e, r := DispatchAll(EMPTY, rs, boot, noise), RecordFor(rs[i], boot);
            ExecStoreOk(e) && GetExec(e, KeyOf(r)) == Some(r.(parent := NO_KEY))
  {
    hide RecordFor, DispatchAll, PutOpens, PutExec, UnmarshalExec, References, IndexAgrees;
    var db, r, key := DispatchAll(EMPTY, rs[..i], boot, noise), RecordFor(rs[i], boot), KeyOf(RecordFor(rs[i], boot));
    if key in db.execs {
      var n := ExecComesFrom(rs[..i], boot, noise, key);
      SameProcessSharesKey(rs[n], rs[i], boot);
    }
    ArchiveIsConsistent(rs[..i], boot, noise);
    ArchiveIsConsistent(rs, boot, noise);
    PutThenGet(db, r);
    PutOpensKeepsExecs(PutExec(db, r).0, rs[i].calls, boot, key, noise(i));
    DispatchAllSnoc(rs, boot, noise, i);
    LaterDispatchesExtend(rs, boot, noise, i + 1);
  }

  lemma {:induction false} OpenComesFromCalls(db: Db, calls: seq<OpenCall>, boot: nat, key: EKey, noise: nat -> Noise,
                                              k: OKey) returns (j: nat)
    requires k in PutOpens(db, calls, boot, key, noise).opens && k !in db.opens
    ensures j < |calls| && k == OKeyOf(OpenFor(calls[j], boot, key), noise(j))
    decreases |calls|
  {
    hide OKeyOf, OpenFor, OpenBytes, PathKey;
    var n := |calls| - 1;
    if k in PutOpens(db, calls[..n], boot, key, noise).opens {
      j := OpenComesFromCalls(db, calls[..n], boot, key, noise, k);
    } else {
      j := n;
    }
  }

  lemma {:induction false} OpenComesFrom(rs: seq<Rec>, boot: nat, noise: nat -> nat -> Noise, k: OKey)
    returns (i: nat, j: nat)
    requires k in DispatchAll(EMPTY, rs, boot, noise).opens
    ensures i < |rs| && j < |rs[i].calls|
    ensures k == OKeyOf(OpenFor(rs[i].calls[j], boot, KeyOf(RecordFor(rs[i], boot))), noise(i)(j))
  {
    hide OKeyOf, OpenFor, RecordFor, PutOpens, ExecBytes;
    var n := |rs| - 1;
    var db := DispatchAll(EMPTY, rs[..n], boot, noise);
    if k in db.opens {
      i, j := OpenComesFrom(rs[..n], boot, noise, k);
    } else {
      i := n;
      j := OpenComesFromCalls(PutExec(db, RecordFor(rs[n], boot)).0, rs[n].calls, boot, KeyOf(RecordFor(rs[n], boot)),
                              noise(n), k);
    }
  }

  /** The same moment, and the same last 99 characters of the path. */
  predicate Twins(a: OpenCall, b: OpenCall) {
    a.time == b.time && LastOf(a.path, 99) == LastOf(b.path, 99)
  }

  /** No open call archived before call j of record i is its twin. */
  ghost predicate NoTwinBefore(rs: seq<Rec>, i: nat, j: nat)
    requires i < |rs| && j < |rs[i].calls|
  {
    forall n, c :: 0 <= n <= i && 0 <= c < |rs[n].calls| && (n < i || c < j) ==> !Twins(rs[n].calls[c], rs[i].calls[j])
  }

  lemma SameKeyMeansTwins(a: OpenCall, ka: EKey, na: Noise, b: OpenCall, kb: EKey, nb: Noise, boot: nat)
    requires OKeyOf(OpenFor(a, boot, ka), na) == OKeyOf(OpenFor(b, boot, kb), nb)
    ensures Twins(a, b)
  {
    hide OKeyOf, LastOf, Shift;
    KeyCarries(OpenFor(a, boot, ka), na);
    KeyCarries(OpenFor(b, boot, kb), nb);
    ShiftInjective(a.time, b.time, boot);
  }

  lemma WithoutTwinsKeyIsFree(rs: seq<Rec>, boot: nat, noise: nat -> nat -> Noise, i: nat, j: nat)
    requires i < |rs| && j < |rs[i].calls| && NoTwinBefore(rs, i, j)
    ensures OKeyOf(OpenFor(rs[i].calls[j], boot, KeyOf(RecordFor(rs[i], boot))), noise(i)(j))
            !in BeforePut(rs, boot, noise, i, j).opens
  {
    hide OKeyOf, OpenFor, RecordFor, PutOpens, DispatchAll, Twins;
    var r := RecordFor(rs[i], boot);
    var k := OKeyOf(OpenFor(rs[i].calls[j], boot, KeyOf(r)), noise(i)(j));
    var db := PutExec(DispatchAll(EMPTY, rs[..i], boot, noise), r).0;
    if k in BeforePut(rs, boot, noise, i, j).opens {
      if k in db.opens {
        var n, c := OpenComesFrom(rs[..i], boot, noise, k);
        SameKeyMeansTwins(rs[n].calls[c], KeyOf(RecordFor(rs[n], boot)), noise(n)(c),
                          rs[i].calls[j], KeyOf(r), noise(i)(j), boot);
      } else {
        var c := OpenComesFromCalls(db, rs[i].calls[..j], boot, KeyOf(r), noise(i), k);
        SameKeyMeansTwins(rs[i].calls[c], KeyOf(r), noise(i)(c), rs[i].calls[j], KeyOf(r), noise(i)(j), boot);
      }
    }
  }

  // ----- What a lookup tells of the processes -----

  /** The answer for an open call of the record owner, told by the fields of the records: exec is the one whose
      exec call is shown. */
  ghost predicate Answers(full: FullRecord, o: OpenCall, owner: Rec, exec: Rec, boot: nat) {
    && full.open.path == o.path && full.open.flag == o.flag && MovedBy(o.time, full.open.time, boot)
    && full.open.key.pid == owner.pid && MovedBy(owner.time, full.open.key.time, boot)
    && |full.execs| == 1
    && var x := full.execs[0];
       && x.pid == exec.pid && x.ppid == exec.ppid && x.cmd == exec.cmd && x.args == exec.args && x.env == []
       && MovedBy(exec.time, x.time, boot)
  }

  lemma {:induction false} FirstOfProcess(rs: seq<Rec>, i: nat, n: nat) returns (first: nat)
    requires n <= i < |rs| && forall k :: 0 <= k < n ==> !SameProcess(rs[k], rs[i])
    ensures first <= i && SameProcess(rs[first], rs[i]) && forall k :: 0 <= k < first ==> !SameProcess(rs[k], rs[i])
    decreases i - n
  {
    if SameProcess(rs[n], rs[i]) {
      first := n;
    } else {
      first := FirstOfProcess(rs, i, n + 1);
    }
  }

  lemma RecordTells(r: Rec, boot: nat)
    ensures var x := RecordFor(r, boot);
            && x.pid == r.pid && x.ppid == r.ppid && x.cmd == r.cmd && x.args == r.args && x.env == []
            && MovedBy(r.time, x.time, boot) && KeyOf(x) == EKey(x.time, r.pid)
  {
    ShiftMoves(r.time, boot);
  }

  lemma OpenTells(o: OpenCall, boot: nat, key: EKey)
    ensures var x := OpenFor(o, boot, key);
            x.path == o.path && x.flag == o.flag && x.key == key && MovedBy(o.time, x.time, boot)
  {
    ShiftMoves(o.time, boot);
  }

  /** After any archived sequence, every open call that has no twin before it, of a process other than 0, is found
      by its path: with its own flag and time, the key of its process, and the exec call of the first archived
      record of that process and time, which is its own record's if that is the first. */
  lemma EveryFreshCallIsFound(rs: seq<Rec>, boot: nat, noise: nat -> nat -> Noise, i: nat, j: nat)
    returns (first: nat, full: FullRecord)
    requires i < |rs| && j < |rs[i].calls| && rs[i].pid != 0 && NoTwinBefore(rs, i, j)
    ensures first <= i && SameProcess(rs[first], rs[i]) && forall n :: 0 <= n < first ==> !SameProcess(rs[n], rs[i])
    ensures var e := DispatchAll(EMPTY, rs, boot, noise);
            && Consistent(e) && full in Lookup(e, rs[i].calls[j].path)
            && Answers(full, rs[i].calls[j], rs[i], rs[first], boot)
  {
    hide BeforePut, DispatchAll, Lookup, OKeyOf, UnmarshalExec, OpenFor, RecordFor, NoTwinBefore, SameProcess, MovedBy,
      References, IndexAgrees;
    var e, r, own := DispatchAll(EMPTY, rs, boot, noise), rs[i], RecordFor(rs[i], boot);
    var o := OpenFor(r.calls[j], boot, KeyOf(own));
    first := FirstOfProcess(rs, i, 0);
    var x := RecordFor(rs[first], boot);
    SameProcessSharesKey(rs[first], rs[i], boot);
    FirstIsFirst(rs, i, first);
    FirstRecordIsStored(rs, boot, noise, first);
    WithoutTwinsKeyIsFree(rs, boot, noise, i, j);
    RecordTells(rs[first], boot);
    RecordTells(r, boot);
    OpenTells(r.calls[j], boot, KeyOf(own));
    FreeKeyIsFound(rs, boot, noise, i, j);
    full := FullRecord(o, [UnmarshalExec(e.execs[o.key])]);
  }

  lemma FirstIsFirst(rs: seq<Rec>, i: nat, first: nat)
    requires first <= i < |rs| && SameProcess(rs[first], rs[i])
    requires forall n :: 0 <= n < first ==> !SameProcess(rs[n], rs[i])
    ensures forall n :: 0 <= n < first ==> !SameProcess(rs[n], rs[first])
  {}
}
