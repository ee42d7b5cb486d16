/**
 BufferT (base/buffer.h): a growable array with a growth policy.

 The elements are bytes.  A source to copy from is passed as a value, so it does not alias the buffer.
 */
module Buffers {
  import opened Basics

  /** The growth policy, for a request that does not fit. */
  function NewCapacity(capacity: nat, request: nat, headroom: bool): nat {
    if headroom then Max(request, capacity + capacity / 2) else request
  }

  /** The capacity after making room for `request` elements, with headroom. */
  function Grown(capacity: nat, request: nat): nat {
    if request <= capacity then capacity else NewCapacity(capacity, request, true)
  }

  /** The amortised bounds: at most three elements copied for every element of capacity, and capacity at
      most one and a half times the largest size requested. */
  ghost predicate Amortised(capacity: nat, copied: nat, requested: nat) {
    copied <= 3 * capacity && 2 * capacity <= 3 * requested
  }

  /** A reallocation with headroom keeps both bounds. */
  lemma GrowthIsAmortised(capacity: nat, copied: nat, requested: nat, size: nat, request: nat)
    requires Amortised(capacity, copied, requested) && size <= capacity < request
    ensures Amortised(NewCapacity(capacity, request, true), copied + size, Max(requested, request))
  {
    var c := NewCapacity(capacity, request, true);
    assert 3 * c >= 4 * capacity;
  }

  /** Elements copied while a full buffer grows one element at a time to `n`, each time by EnsureCapacity. */
  ghost function CopiedByOnes(n: nat): nat {
    if n == 0 then 0 else CopiedByOnes(n - 1) + (n - 1)
  }

  /** Without headroom the copying is quadratic, and the bound fails from capacity 8 on. */
  lemma {:induction false} NoHeadroomIsQuadratic(n: nat)
    ensures 2 * CopiedByOnes(n) == n * (n - 1)
    ensures Amortised(n, CopiedByOnes(n), n) <==> n <= 7
  {
    if n > 0 {
      NoHeadroomIsQuadratic(n - 1);
      assert n * (n - 1) == (n - 1) * (n - 2) + 2 * (n - 1);
    }
    if n <= 7 {
      assert n * (n - 1) <= n * 6;
    } else {
      assert n * (n - 1) >= n * 7;
    }
  }

  class Buffer {
    const zeroOnFree: bool
    var data: array<byte>
    var size: nat

    /** Elements copied by reallocation so far. */
    ghost var copied: nat

    /** The largest size asked for so far. */
    ghost var requested: nat

    /** No capacity was ever asked for without headroom. */
    ghost var headroomOnly: bool

    /** Everything from here on in `data` has never been written. */
    ghost var touched: nat

    function Capacity(): nat
      reads this
    {
      data.Length
    }

    ghost predicate Consistent()
      reads this
    {
      size <= touched <= data.Length && (headroomOnly ==> Amortised(data.Length, copied, requested))
    }

    /** No element from `start` on still holds anything that was ever stored there. */
    ghost predicate Wiped(start: nat)
      reads this, data
    {
      touched <= data.Length && (zeroOnFree ==> forall i | start <= i < touched :: data[i] == 0)
    }

    ghost predicate Valid()
      reads this, data
    {
      Consistent() && Wiped(size)
    }

    function Contents(): seq<byte>
      requires size <= data.Length
      reads this, data
    {
      data[..size]
    }

    constructor (size: nat, capacity: nat, zeroOnFree: bool)
      ensures Valid() && fresh(data) && headroomOnly
      ensures this.zeroOnFree == zeroOnFree && this.size == size && data.Length == Max(size, capacity)
      ensures copied == 0 && requested == data.Length
    {
      this.zeroOnFree := zeroOnFree;
      this.size := size;
      data := new byte[Max(size, capacity)];
      copied, requested, headroomOnly, touched := 0, Max(size, capacity), true, size;
    }

    constructor Copy(source: seq<byte>, capacity: nat, zeroOnFree: bool)
      ensures Valid() && fresh(data) && headroomOnly
      ensures this.zeroOnFree == zeroOnFree && Contents() == source && data.Length == Max(|source|, capacity)
      ensures copied == 0 && requested == data.Length
    {
      this.zeroOnFree := zeroOnFree;
      size := |source|;
      var storage := new byte[Max(|source|, capacity)];
      forall i | 0 <= i < |source| {
        storage[i] := source[i];
      }
      data := storage;
      copied, requested, headroomOnly, touched := 0, Max(|source|, capacity), true, |source|;
    }

    /** Contents stay; the storage grows if it has to, by the policy.  Storage that is given up is wiped
        when the buffer has been told to. */
    method EnsureCapacityWithHeadroom(capacity: nat, extraHeadroom: bool)
      requires Consistent()
      modifies this, data
      ensures Consistent() && size == old(size) && Contents() == old(Contents())
      ensures if capacity <= old(data.Length) then data == old(data) && data[..] == old(data[..])
                                                   && touched == old(touched) && copied == old(copied)
              else fresh(data) && touched == size
                   && data.Length == NewCapacity(old(data.Length), capacity, extraHeadroom)
                   && copied == old(copied) + size
      ensures requested == Max(old(requested), capacity)
      ensures headroomOnly == (old(headroomOnly) && (extraHeadroom || capacity <= old(data.Length)))
      ensures zeroOnFree && data != old(data) ==> forall i | 0 <= i < old(data.Length) :: old(data)[i] == 0
    {
      requested := Max(requested, capacity);
      if capacity <= data.Length {
        return;
      }
      var newCapacity := NewCapacity(data.Length, capacity, extraHeadroom);
      if extraHeadroom && headroomOnly {
        GrowthIsAmortised(data.Length, copied, old(requested), size, capacity);
      }
      var newData := new byte[newCapacity];
      forall i | 0 <= i < size {
        newData[i] := data[i];
      }
      ghost var given := data;
      MaybeZeroCompleteBuffer();
      assert zeroOnFree ==> forall i | 0 <= i < given.Length :: given[i] == 0;
      copied := copied + size;
      headroomOnly := headroomOnly && extraHeadroom;
      data := newData;
      touched := size;
    }

    method MaybeZeroCompleteBuffer()
      modifies data
      ensures zeroOnFree ==> forall i | 0 <= i < data.Length :: data[i] == 0
      ensures !zeroOnFree ==> data[..] == old(data[..])
    {
      if zeroOnFree {
        forall i | 0 <= i < data.Length {
          data[i] := 0;
        }
      }
    }

    method ZeroTrailingData(count: nat)
      requires count <= data.Length - size
      modifies data
      ensures data[..size] == old(data[..size])
      ensures forall i | size + count <= i < data.Length :: data[i] == old(data[i])
      ensures forall i | size <= i < size + count :: data[i] == 0
    {
      forall i | size <= i < size + count {
        data[i] := 0;
      }
    }

    method AppendData(source: seq<byte>)
      requires Consistent()
      modifies this, data
      ensures Consistent() && (old(Wiped(size)) ==> Valid()) && (data == old(data) || fresh(data))
      ensures Contents() == old(Contents()) + source
      ensures data.Length == Grown(old(data.Length), size)
      ensures headroomOnly == old(headroomOnly) && requested == Max(old(requested), size)
      ensures copied == old(copied) + if size <= old(data.Length) then 0 else old(size)
      ensures touched == Max(if size <= old(data.Length) then old(touched) else 0, size)
      ensures zeroOnFree && data != old(data) ==> forall i | 0 <= i < old(data.Length) :: old(data)[i] == 0
      ensures size <= old(data.Length) ==>
                data == old(data) && forall i | size <= i < data.Length :: data[i] == old(data[i])
    {
      ghost var was := Contents();
      var newSize := size + |source|;
      EnsureCapacityWithHeadroom(newSize, true);
      forall i | 0 <= i < |source| {
        data[size + i] := source[i];
      }
      size := newSize;
      touched := Max(touched, newSize);
      assert Contents() == was + source;
    }

    method SetSize(newSize: nat)
      requires Valid()
      modifies this, data
      ensures Valid() && (data == old(data) || fresh(data))
      ensures size == newSize && (newSize <= old(size) ==> data == old(data))
      ensures Contents()[..Min(newSize, old(size))] == old(Contents())[..Min(newSize, old(size))]
      ensures data.Length == Grown(old(data.Length), newSize)
      ensures headroomOnly == old(headroomOnly) && requested == Max(old(requested), newSize)
      ensures zeroOnFree && data != old(data) ==> forall i | 0 <= i < old(data.Length) :: old(data)[i] == 0
      ensures copied == old(copied) + if newSize <= old(data.Length) then 0 else old(size)
    {
      var oldSize := size;
      ghost var was := Contents();
      EnsureCapacityWithHeadroom(newSize, true);
      size := newSize;
      if zeroOnFree && size < oldSize {
        ZeroTrailingData(oldSize - size);
      }
      touched := Max(touched, newSize);
      assert data[..Min(newSize, oldSize)] == was[..Min(newSize, oldSize)];
    }

    method SetData(source: seq<byte>)
      requires Valid()
      modifies this, data
      ensures Valid() && (data == old(data) || fresh(data))
      ensures Contents() == source
      ensures data.Length == Grown(old(data.Length), |source|)
      ensures headroomOnly == old(headroomOnly) && requested == Max(old(requested), |source|)
      ensures zeroOnFree && data != old(data) ==> forall i | 0 <= i < old(data.Length) :: old(data)[i] == 0
      ensures copied == old(copied)
    {
      var oldSize := size;
      size := 0;
      AppendData(source);
      if zeroOnFree && size < oldSize {
        ZeroTrailingData(oldSize - size);
      }
    }

    method EnsureCapacity(capacity: nat)
      requires Valid()
      modifies this, data
      ensures Valid() && (data == old(data) || fresh(data)) && Contents() == old(Contents())
      ensures data.Length == Max(old(data.Length), capacity)
      ensures copied == old(copied) + if capacity <= old(data.Length) then 0 else size
      ensures zeroOnFree && data != old(data) ==> forall i | 0 <= i < old(data.Length) :: old(data)[i] == 0
    {
      EnsureCapacityWithHeadroom(capacity, false);
    }

    method Clear()
      requires Valid()
      modifies this, data
      ensures Valid() && data == old(data) && Contents() == []
      ensures headroomOnly == old(headroomOnly) && copied == old(copied) && requested == old(requested)
    {
      MaybeZeroCompleteBuffer();
      size := 0;
    }

    method Equals(other: Buffer) returns (equal: bool)
      requires size <= data.Length && other.size <= other.data.Length
      ensures equal <==> Contents() == other.Contents()
    {
      if size != other.size {
        return false;
      }
      for i := 0 to size
        invariant data[..i] == other.data[..i]
      {
        if data[i] != other.data[i] {
          assert Contents()[i] != other.Contents()[i];
          return false;
        }
      }
      return true;
    }
  }

  /** Growing a buffer one element at a time, each time by EnsureCapacity, copies what NoHeadroomIsQuadratic
      counts. */
  method GrowByOnes(n: nat) returns (b: Buffer)
    ensures fresh(b) && b.Valid() && b.size == n && b.data.Length == n && b.copied == CopiedByOnes(n)
  {
    b := new Buffer(0, 0, false);
    for k := 0 to n
      invariant fresh(b) && fresh(b.data) && b.Valid()
      invariant b.size == k && b.data.Length == k && b.copied == CopiedByOnes(k)
    {
      b.EnsureCapacity(k + 1);
      b.AppendData([0]);
    }
  }
}
