/** How database.c lays records out in bytes, and reads them back. */
module Marshalling {
  import opened Basics
  import opened StringBuffers

  // ----- Integers in memory: little-endian two's complement -----

  function NatBytes(n: nat, k: nat): (s: seq<byte>)
    ensures |s| == k
    decreases k
  {
    if k == 0 then [] else [n % 256] + NatBytes(n / 256, k - 1)
  }

  function BytesNat(s: seq<byte>): nat {
    if s == [] then 0 else s[0] + 256 * BytesNat(s[1..])
  }

  function Pow256(k: nat): nat {
    if k == 0 then 1 else 256 * Pow256(k - 1)
  }

  lemma {:induction false} NatRoundTrip(n: nat, k: nat)
    requires n < Pow256(k)
    ensures BytesNat(NatBytes(n, k)) == n
    decreases k
  {
    if k > 0 {
      NatRoundTrip(n / 256, k - 1);
      assert NatBytes(n, k)[1..] == NatBytes(n / 256, k - 1);
    }
  }

  const TWO31 := 0x8000_0000
  const TWO32 := 0x1_0000_0000
  const TWO63 := 0x8000_0000_0000_0000
  const TWO64 := 0x1_0000_0000_0000_0000

  function I32Bytes(x: i32): (s: seq<byte>)
    ensures |s| == 4
  {
    NatBytes(if x < 0 then x + TWO32 else x, 4)
  }

  function BytesI32(s: seq<byte>): i32
    requires |s| == 4
  {
    var n := BytesNat(s) % TWO32;
    if n < TWO31 then n else n - TWO32
  }

  function I64Bytes(x: i64): (s: seq<byte>)
    ensures |s| == 8
  {
    NatBytes(if x < 0 then x + TWO64 else x, 8)
  }

  function BytesI64(s: seq<byte>): i64
    requires |s| == 8
  {
    var n := BytesNat(s) % TWO64;
    if n < TWO63 then n else n - TWO64
  }

  lemma Powers()
    ensures Pow256(4) == TWO32 && Pow256(8) == TWO64
  {
    assert Pow256(1) == 256 && Pow256(2) == 65536 && Pow256(3) == 0x100_0000;
    assert Pow256(5) == 256 * Pow256(4) && Pow256(6) == 256 * Pow256(5) && Pow256(7) == 256 * Pow256(6);
  }

  lemma I32RoundTrip(x: i32)
    ensures BytesI32(I32Bytes(x)) == x
  {
    hide NatBytes, BytesNat, Pow256;
    Powers();
    NatRoundTrip(if x < 0 then x + TWO32 else x, 4);
  }

  lemma I64RoundTrip(x: i64)
    ensures BytesI64(I64Bytes(x)) == x
  {
    hide NatBytes, BytesNat, Pow256;
    Powers();
    NatRoundTrip(if x < 0 then x + TWO64 else x, 8);
  }

  // ----- Records -----

  /** db_eCallKey */
  datatype EKey = EKey(time: Time, pid: i32)

  const NO_KEY := EKey(EPOCH, 0)

  /** eCallRecord */
  datatype ExecRecord = ExecRecord(time: Time, pid: i32, ppid: i32, cmd: CString, args: CString, env: CString,
                                   parent: EKey)

  /** oCallRecord */
  datatype OpenRecord = OpenRecord(time: Time, flag: i32, key: EKey, path: CString)

  function KeyOf(r: ExecRecord): EKey {
    EKey(r.time, r.pid)
  }

  function TimeBytes(t: Time): (s: seq<byte>)
    ensures |s| == 16
  {
    I64Bytes(t.sec) + I64Bytes(t.usec)
  }

  function BytesTime(s: seq<byte>): Time
    requires |s| == 16
  {
    Time(BytesI64(s[..8]), BytesI64(s[8..]))
  }

  lemma TimeRoundTrip(t: Time)
    ensures BytesTime(TimeBytes(t)) == t
  {
    I64RoundTrip(t.sec);
    I64RoundTrip(t.usec);
    assert TimeBytes(t)[..8] == I64Bytes(t.sec) && TimeBytes(t)[8..] == I64Bytes(t.usec);
  }

  /** sizeof(db_eCallKey) is 24: four bytes of padding, of no particular value, follow the pid. */
  type Padding = s: seq<byte> | |s| == 4 witness [0, 0, 0, 0]

  function KeyBytes(k: EKey, pad: Padding): (s: seq<byte>)
    ensures |s| == 24
  {
    TimeBytes(k.time) + I32Bytes(k.pid) + pad
  }

  function BytesKey(s: seq<byte>): EKey
    requires |s| == 24
  {
    EKey(BytesTime(s[..16]), BytesI32(s[16..20]))
  }

  lemma KeyRoundTrip(k: EKey, pad: Padding)
    ensures BytesKey(KeyBytes(k, pad)) == k
  {
    TimeRoundTrip(k.time);
    I32RoundTrip(k.pid);
    assert KeyBytes(k, pad)[..16] == TimeBytes(k.time) && KeyBytes(k, pad)[16..20] == I32Bytes(k.pid);
  }

  function Terminated(s: CString): (b: seq<byte>)
    ensures |b| == |s| + 1
  {
    s + [NUL]
  }

  /** What db_execCall_marshall writes. */
  function ExecBytes(r: ExecRecord): seq<byte> {
    TimeBytes(r.time) + I32Bytes(r.pid) + I32Bytes(r.ppid) + Terminated(r.cmd) + Terminated(r.args) + Terminated(r.env)
  }

  /** nSize in db_execCall_marshall. */
  function ExecSize(r: ExecRecord): nat {
    16 + 4 + 4 + (|r.cmd| + 1) + (|r.args| + 1) + (|r.env| + 1)
  }

  /** What db_openCall_marshall writes. */
  function OpenBytes(o: OpenRecord, pad: Padding): seq<byte> {
    TimeBytes(o.time) + I32Bytes(o.flag) + KeyBytes(o.key, pad) + Terminated(o.path)
  }

  function OpenSize(o: OpenRecord): nat {
    16 + 4 + 24 + (|o.path| + 1)
  }

  /** db_execCall_unmarshall into a record that db_execCall_init has cleared. */
  function UnmarshalExec(b: seq<byte>): ExecRecord
    requires |b| >= 24
  {
    var cmd := StringAt(b, 24);
    var args := StringAt(b, 24 + |cmd| + 1);
    var env := StringAt(b, 24 + |cmd| + 1 + |args| + 1);
    ExecRecord(BytesTime(b[..16]), BytesI32(b[16..20]), BytesI32(b[20..24]), cmd, args, env, NO_KEY)
  }

  /** db_openCall_unmarshall */
  function UnmarshalOpen(b: seq<byte>): OpenRecord
    requires |b| >= 44
  {
    OpenRecord(BytesTime(b[..16]), BytesI32(b[16..20]), BytesKey(b[20..44]), StringAt(b, 44))
  }

  /** The key under which the secondary index files a stored open record: db_openCalls_filepathCallback. */
  function PathKey(b: seq<byte>): seq<byte>
    requires |b| >= 44
  {
    Terminated(StringAt(b, 44))
  }

  function ExecHead(r: ExecRecord): (s: seq<byte>)
    ensures |s| == 24
  {
    TimeBytes(r.time) + I32Bytes(r.pid) + I32Bytes(r.ppid)
  }

  lemma ExecHeadRoundTrip(r: ExecRecord, b: seq<byte>)
    requires |b| >= 24 && b[..24] == ExecHead(r)
    ensures BytesTime(b[..16]) == r.time && BytesI32(b[16..20]) == r.pid && BytesI32(b[20..24]) == r.ppid
  {
    hide BytesTime, BytesI32, TimeBytes, I32Bytes;
    TimeRoundTrip(r.time);
    I32RoundTrip(r.pid);
    I32RoundTrip(r.ppid);
    assert b[..16] == b[..24][..16] == TimeBytes(r.time);
    assert b[16..20] == b[..24][16..20] == I32Bytes(r.pid);
    assert b[20..24] == b[..24][20..24] == I32Bytes(r.ppid);
  }

  lemma StringSlice(b: seq<byte>, from: nat, s: CString)
    requires from + |s| + 1 <= |b| && b[from..from + |s| + 1] == Terminated(s)
    ensures StringAt(b, from) == s
  {
    assert b[from..from + |s|] == Terminated(s)[..|s|] == s;
    assert b[from + |s|] == Terminated(s)[|s|] == NUL;
    StringAtStops(b, from, from + |s|);
  }

  lemma Pieces(a: seq<byte>, b: seq<byte>, c: seq<byte>, d: seq<byte>)
    ensures var s := a + b + c + d;
            && s[..|a|] == a
            && s[|a|..|a| + |b|] == b
            && s[|a| + |b|..|a| + |b| + |c|] == c
            && s[|a| + |b| + |c|..|a| + |b| + |c| + |d|] == d
  {}

  /** The computed size is the size written; every field but the parent key, which is not written, comes
      back, the parent key as the cleared one. */
  lemma ExecRoundTrip(r: ExecRecord)
    ensures |ExecBytes(r)| == ExecSize(r)
    ensures UnmarshalExec(ExecBytes(r)) == r.(parent := NO_KEY)
  {
    hide StringAt, ExecBytes, BytesTime, BytesI32, TimeBytes, I32Bytes, Terminated, ExecHead, NulFree;
    var b := ExecBytes(r);
    ExecPieces(r, b);
    ExecHeadRoundTrip(r, b);
    StringSlice(b, 24, r.cmd);
    StringSlice(b, 24 + |r.cmd| + 1, r.args);
    StringSlice(b, 24 + |r.cmd| + 1 + |r.args| + 1, r.env);
  }

  lemma ExecPieces(r: ExecRecord, b: seq<byte>)
    requires b == ExecBytes(r)
    ensures |b| == ExecSize(r) && b[..24] == ExecHead(r)
    ensures b[24..24 + |r.cmd| + 1] == Terminated(r.cmd)
    ensures b[24 + |r.cmd| + 1..24 + |r.cmd| + 1 + |r.args| + 1] == Terminated(r.args)
    ensures b[24 + |r.cmd| + 1 + |r.args| + 1..] == Terminated(r.env)
  {
    hide TimeBytes, I32Bytes, Terminated;
    Pieces(ExecHead(r), Terminated(r.cmd), Terminated(r.args), Terminated(r.env));
  }

  /** The callback's offset is where the marshaller put the path. */
  lemma OpenRoundTrip(o: OpenRecord, pad: Padding)
    ensures |OpenBytes(o, pad)| == OpenSize(o)
    ensures UnmarshalOpen(OpenBytes(o, pad)) == o
    ensures PathKey(OpenBytes(o, pad)) == Terminated(o.path)
  {
    var b := OpenBytes(o, pad);
    OpenPieces(o, pad, b);
    TimeRoundTrip(o.time);
    I32RoundTrip(o.flag);
    KeyRoundTrip(o.key, pad);
    StringSlice(b, 44, o.path);
  }

  lemma OpenPieces(o: OpenRecord, pad: Padding, b: seq<byte>)
    requires b == OpenBytes(o, pad)
    ensures |b| == OpenSize(o)
    ensures b[..16] == TimeBytes(o.time) && b[16..20] == I32Bytes(o.flag) && b[20..44] == KeyBytes(o.key, pad)
    ensures b[44..44 + |o.path| + 1] == Terminated(o.path)
  {
    hide TimeBytes, I32Bytes, KeyBytes, Terminated;
    Pieces(TimeBytes(o.time), I32Bytes(o.flag), KeyBytes(o.key, pad), Terminated(o.path));
  }

  // ----- Where the fields stand -----

  lemma ExecLayout(r: ExecRecord)
    ensures var b := ExecBytes(r);
            && |b| == 27 + |r.cmd| + |r.args| + |r.env|
            && BytesI64(b[0..8]) == r.time.sec && BytesI64(b[8..16]) == r.time.usec
            && BytesI32(b[16..20]) == r.pid && BytesI32(b[20..24]) == r.ppid
            && StringAt(b, 24) == r.cmd
            && StringAt(b, 25 + |r.cmd|) == r.args
            && StringAt(b, 26 + |r.cmd| + |r.args|) == r.env
  {
    hide StringAt, BytesI64, BytesI32, I32Bytes, I64Bytes, Terminated, ExecBytes;
    var b := ExecBytes(r);
    ExecPieces(r, b);
    ExecHeadRoundTrip(r, b);
    assert b[..16][..8] == b[0..8] && b[..16][8..] == b[8..16];
    StringSlice(b, 24, r.cmd);
    StringSlice(b, 25 + |r.cmd|, r.args);
    StringSlice(b, 26 + |r.cmd| + |r.args|, r.env);
  }

  lemma OpenLayout(o: OpenRecord, pad: Padding)
    ensures var b := OpenBytes(o, pad);
            && |b| == 45 + |o.path|
            && BytesI64(b[0..8]) == o.time.sec && BytesI64(b[8..16]) == o.time.usec
            && BytesI32(b[16..20]) == o.flag
            && BytesI64(b[20..28]) == o.key.time.sec && BytesI64(b[28..36]) == o.key.time.usec
            && BytesI32(b[36..40]) == o.key.pid && b[40..44] == pad
            && StringAt(b, 44) == o.path
  {
    var b := OpenBytes(o, pad);
    OpenPieces(o, pad, b);
    hide StringAt, BytesI64, BytesI32, I32Bytes, I64Bytes, Terminated, OpenBytes;
    TimeRoundTrip(o.time);
    I32RoundTrip(o.flag);
    KeyRoundTrip(o.key, pad);
    assert b[..16][..8] == b[0..8] && b[..16][8..] == b[8..16];
    assert b[20..44][..16][..8] == b[20..28] && b[20..44][..16][8..] == b[28..36];
    assert b[20..44][16..20] == b[36..40];
    assert b[20..44][20..] == b[40..44] && KeyBytes(o.key, pad)[20..] == pad;
    StringSlice(b, 44, o.path);
  }

  /** Numbers are stored with their lowest byte first. */
  lemma LowestByteFirst(x: i32)
    requires x >= 0
    ensures I32Bytes(x) == [x % 256, x / 256 % 256, x / 65536 % 256, x / 16777216]
  {
    assert NatBytes(x / 16777216 / 256, 0) == [];
    assert NatBytes(x / 16777216, 1) == [x / 16777216 % 256];
    assert NatBytes(x / 65536, 2) == [x / 65536 % 256] + NatBytes(x / 65536 / 256, 1);
    assert NatBytes(x / 256, 3) == [x / 256 % 256] + NatBytes(x / 256 / 256, 2);
    assert NatBytes(x, 4) == [x % 256] + NatBytes(x / 256, 3);
  }

  // ----- The exec store's key order -----

  /** A difference of two ints, as it wraps. */
  function Wrap32(x: int): i32 {
    var n := x % TWO32;
    if n < TWO31 then n else n - TWO32
  }

  /** db_execCall_KeyComp on two keys */
  function KeyComp(a: EKey, b: EKey): i32 {
    var c := (if Before(b.time, a.time) then 1 else 0) - (if Before(a.time, b.time) then 1 else 0);
    if c != 0 then c else Wrap32(a.pid - b.pid)
  }

  /** The comparison tells apart exactly the different keys; and it puts them by time and then by pid,
      exactly if the times differ or the difference of the pids does not wrap. */
  lemma KeyCompOrdersIff(a: EKey, b: EKey)
    ensures KeyComp(a, b) == 0 <==> a == b
    ensures (KeyComp(a, b) > 0 <==> Before(b.time, a.time) || (a.time == b.time && a.pid > b.pid))
            <==> (a.time != b.time || -TWO31 <= a.pid - b.pid < TWO31)
  {}

  predicate KeyBefore(a: EKey, b: EKey) {
    Before(a.time, b.time) || (a.time == b.time && a.pid < b.pid)
  }

  lemma KeyCompSign(a: EKey, b: EKey)
    requires a.pid >= 0 && b.pid >= 0
    ensures KeyComp(a, b) < 0 <==> KeyBefore(a, b)
    ensures KeyComp(a, b) > 0 <==> KeyBefore(b, a)
  {}

  /** On the keys of processes, whose pids are not negative, it is a total order, as the B-tree needs. */
  lemma KeyCompIsTotalOrder(a: EKey, b: EKey, c: EKey)
    requires a.pid >= 0 && b.pid >= 0 && c.pid >= 0
    ensures KeyComp(a, b) == 0 <==> a == b
    ensures KeyComp(a, b) > 0 <==> KeyComp(b, a) < 0
    ensures KeyComp(a, b) <= 0 && KeyComp(b, c) <= 0 ==> KeyComp(a, c) <= 0
  {
    hide KeyComp;
    KeyCompSign(a, b);
    KeyCompSign(b, a);
    KeyCompSign(b, c);
    KeyCompSign(a, c);
  }
}
