/** The growable pointer vector of containers.c. */
module Vectors {
  import opened Basics

  /** (capacity * 3) / 2 */
  function NextCapacity(capacity: nat): nat {
    capacity * 3 / 2
  }

  /** Growing makes room exactly from capacity two on. */
  lemma GrowthMakesRoomIff(capacity: nat)
    ensures NextCapacity(capacity) > capacity <==> capacity >= 2
  {}

  class Vector<T(0)> {
    var elems: array<T>
    var length: nat

    ghost predicate Valid()
      reads this
    {
      length <= elems.Length
    }

    ghost function Contents(): seq<T>
      requires Valid()
      reads this, elems
    {
      elems[..length]
    }

    /** The element after next still finds a place: a capacity below two cannot grow. */
    predicate CanAppend()
      reads this
    {
      length < elems.Length || elems.Length >= 2
    }

    /** vector_init */
    constructor (capacity: nat)
      ensures Valid() && fresh(elems) && elems.Length == capacity
      ensures Contents() == []
    {
      elems := new T[capacity];
      length := 0;
    }

    /** vector_append */
    method Append(elem: T)
      requires Valid() && CanAppend()
      modifies this, elems
      ensures Valid() && (elems == old(elems) || fresh(elems))
      ensures elems.Length ==
              if old(length) < old(elems.Length) then old(elems.Length) else NextCapacity(old(elems.Length))
      ensures Contents() == old(Contents()) + [elem]
    {
      if elems.Length < length + 1 {
        var bigger := new T[NextCapacity(elems.Length)];
        forall i | 0 <= i < length {
          bigger[i] := elems[i];
        }
        elems := bigger;
        assert elems[..length] == old(elems[..length]);
      }
      elems[length] := elem;
      length := length + 1;
    }

    /** vector_get */
    method Get(pos: nat) returns (elem: Option<T>)
      requires Valid()
      ensures elem == if pos < |Contents()| then Some(Contents()[pos]) else None
    {
      if pos >= length {
        return None;
      }
      elem := Some(elems[pos]);
    }
  }
}
