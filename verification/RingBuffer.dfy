/** The ring buffer of containers.c: 1024 slots addressed by two free-running 32-bit cursors. */
module RingBuffers {
  import opened Basics

  const SIZE_RING := 1024
  const WORD := 0x1_0000_0000

  /** val & (SIZE_RING - 1); SIZE_RING is a power of two. */
  function Mask(val: nat): nat {
    val % SIZE_RING
  }

  /** A snapshot of the three fields of a ring. */
  datatype Ring<T> = Ring(read: nat, write: nat, buffer: seq<T>) {

    /** write - read in u_int32_t arithmetic. */
    function Size(): nat {
      (write - read) % WORD
    }

    ghost predicate Valid() {
      && |buffer| == SIZE_RING
      && read < WORD
      && write < WORD
      && Size() <= SIZE_RING
    }

    function Put(x: T): (Ring<T>, bool)
      requires Valid()
    {
      if Size() == SIZE_RING then (this, true)
      else (Ring(read, (write + 1) % WORD, buffer[Mask(write) := x]), false)
    }

    function Take(): (Ring<T>, Option<T>)
      requires Valid()
    {
      if read == write then (this, None)
      else (Ring((read + 1) % WORD, write, buffer), Some(buffer[Mask(read)]))
    }

    /** The queue a ring stands for, oldest element first. */
    ghost function Contents(): (s: seq<T>)
      requires Valid()
      ensures |s| == Size()
    {
      seq(Size(), k requires 0 <= k < Size() => buffer[Mask(read + k)])
    }
  }

  /** Wrapping the cursor never disturbs the slot it selects: SIZE_RING divides the word. */
  lemma MaskIgnoresWrap(v: nat)
    ensures Mask(v % WORD) == Mask(v)
  {
    var q := v / WORD;
    assert v == v % WORD + SIZE_RING * (q * (WORD / SIZE_RING));
    RemainderShift(v % WORD, q * (WORD / SIZE_RING));
  }

  lemma RemainderShift(a: nat, k: nat)
    ensures (a + SIZE_RING * k) % SIZE_RING == a % SIZE_RING
  {}

  lemma CursorDistance<T>(r: Ring<T>)
    requires r.Valid()
    ensures r.Size() == if r.write >= r.read then r.write - r.read else r.write + WORD - r.read
  {}

  /** Two cursor positions less than a full ring apart select different slots. */
  lemma MaskInjective(a: nat, j: nat, k: nat)
    requires j < k < SIZE_RING
    ensures Mask(a + j) != Mask(a + k)
  {
    var d := k - j;
    assert (a + k) == (a + j) + d;
  }

  /** What a write does to the k-th element of the queue. */
  lemma PutAt<T>(r: Ring<T>, x: T, k: nat)
    requires r.Valid() && r.Size() < SIZE_RING && k <= r.Size()
    ensures r.Put(x).0.buffer[Mask(r.read + k)] == if k < r.Size() then r.buffer[Mask(r.read + k)] else x
  {
    CursorDistance(r);
    MaskIgnoresWrap(r.read + r.Size());
    assert Mask(r.write) == Mask(r.read + r.Size());
    if k < r.Size() {
      MaskInjective(r.read, k, r.Size());
    }
  }

  lemma PutAppends<T>(r: Ring<T>, x: T)
    requires r.Valid()
    ensures r.Put(x).0.Valid()
    ensures r.Put(x).1 <==> |r.Contents()| == SIZE_RING
    ensures r.Put(x).0.Contents() == if |r.Contents()| == SIZE_RING then r.Contents() else r.Contents() + [x]
  {
    CursorDistance(r);
    if r.Size() < SIZE_RING {
      var n := r.Put(x).0;
      assert n.Size() == r.Size() + 1;
      hide Mask;
      forall k | 0 <= k < n.Size()
        ensures n.Contents()[k] == (r.Contents() + [x])[k]
      {
        PutAt(r, x, k);
      }
    }
  }

  lemma TakeRemovesOldest<T>(r: Ring<T>)
    requires r.Valid()
    ensures r.Take().0.Valid()
    ensures r.Contents() == [] ==> r.Take() == (r, None)
    ensures r.Contents() != [] ==> r.Take().1 == Some(r.Contents()[0]) && r.Take().0.Contents() == r.Contents()[1..]
  {
    CursorDistance(r);
    if r.read != r.write {
      var n := r.Take().0;
      assert n.Size() == r.Size() - 1;
      forall k | 0 <= k < n.Size()
        ensures n.Contents()[k] == r.Contents()[k + 1]
      {
        MaskIgnoresWrap(r.read + 1);
        assert Mask(n.read + k) == Mask(r.read + 1 + k);
      }
    }
  }

  // ----- Any history of operations -----

  datatype Op<T> = Write(x: T) | Read

  datatype Answer<T> = Full | Stored | Empty | Got(x: T)

  function RunRing<T>(r: Ring<T>, ops: seq<Op<T>>): (Ring<T>, seq<Answer<T>>)
    requires r.Valid()
    decreases |ops|
  {
    if ops == [] then (r, [])
    else
      match ops[0]
      case Write(x) =>
        PutAppends(r, x);
        var (n, full) := r.Put(x);
        var (last, answers) := RunRing(n, ops[1..]);
        (last, [if full then Full else Stored] + answers)
      case Read =>
        TakeRemovesOldest(r);
        var (n, got) := r.Take();
        var (last, answers) := RunRing(n, ops[1..]);
        (last, [if got.None? then Empty else Got(got.value)] + answers)
  }

  /** The reference: a first-in first-out queue that refuses its 1025th element. */
  function RunFifo<T>(q: seq<T>, ops: seq<Op<T>>): (seq<T>, seq<Answer<T>>)
    decreases |ops|
  {
    if ops == [] then (q, [])
    else
      match ops[0]
      case Write(x) =>
        var fits := |q| < SIZE_RING;
        var (last, answers) := RunFifo(if fits then q + [x] else q, ops[1..]);
        (last, [if fits then Stored else Full] + answers)
      case Read =>
        var (last, answers) := RunFifo(if q == [] then q else q[1..], ops[1..]);
        (last, [if q == [] then Empty else Got(q[0])] + answers)
  }

  /** A ring answers every history of reads and writes, however long, as a bounded queue does. */
  lemma {:induction false} RingRefinesFifo<T>(r: Ring<T>, ops: seq<Op<T>>)
    requires r.Valid()
    ensures RunRing(r, ops).0.Valid()
    ensures RunRing(r, ops).1 == RunFifo(r.Contents(), ops).1
    ensures RunRing(r, ops).0.Contents() == RunFifo(r.Contents(), ops).0
    decreases |ops|
  {
    if ops != [] {
      match ops[0]
      case Write(x) =>
        PutAppends(r, x);
        RingRefinesFifo(r.Put(x).0, ops[1..]);
      case Read =>
        TakeRemovesOldest(r);
        RingRefinesFifo(r.Take().0, ops[1..]);
    }
  }

  // ----- The mutable ring -----

  class RingBuffer<T(0)> {
    var read: nat
    var write: nat
    const buffer: array<T>

    ghost function State(): Ring<T>
      reads this, buffer
    {
      Ring(read, write, buffer[..])
    }

    ghost predicate Valid()
      reads this, buffer
    {
      State().Valid()
    }

    ghost function Contents(): (s: seq<T>)
      requires Valid()
      reads this, buffer
    {
      State().Contents()
    }

    /** g_ringBuffer_init */
    constructor ()
      ensures Valid() && fresh(buffer)
      ensures Contents() == []
    {
      read := 0;
      write := 0;
      buffer := new T[SIZE_RING];
    }

    /** g_ringBuffer_size */
    method Size() returns (n: nat)
      requires Valid()
      ensures n == |Contents()|
    {
      n := (write - read) % WORD;
    }

    /** g_ringBuffer_write: the result is the "full" answer. */
    method Write(x: T) returns (full: bool)
      requires Valid()
      modifies this`write, buffer
      ensures Valid()
      ensures full <==> |old(Contents())| == SIZE_RING
      ensures Contents() == if full then old(Contents()) else old(Contents()) + [x]
      ensures State() == old(State()).Put(x).0
    {
      PutAppends(State(), x);
      var size := Size();
      full := size == SIZE_RING;
      if !full {
        buffer[Mask(write)] := x;
        write := (write + 1) % WORD;
      }
    }

    /** g_ringBuffer_read: the result is the "empty" answer and, if there is one, the element. */
    method Read() returns (empty: bool, content: Option<T>)
      requires Valid()
      modifies this`read
      ensures Valid()
      ensures empty <==> old(Contents()) == []
      ensures empty ==> content == None && Contents() == []
      ensures !empty ==> content == Some(old(Contents())[0]) && Contents() == old(Contents())[1..]
      ensures State() == old(State()).Take().0
    {
      CursorDistance(State());
      TakeRemovesOldest(State());
      empty, content := read == write, None;
      if !empty {
        content := Some(buffer[Mask(read)]);
        read := (read + 1) % WORD;
      }
    }
  }
}
