/**
 CopyOnWriteBuffer (base/copyonwritebuffer.h, base/copyonwritebuffer.cc): handles on reference-counted
 buffers that are cloned before a write when they are shared.

 The buffer behind a handle is its contents and its capacity, which is what Buffers.Buffer is proved to
 keep.  Source bytes are values, so they do not alias the target.
 */
module CopyOnWrite {
  import opened Basics
  import opened Buffers

  /** RefCountedObject<Buffer>. */
  class SharedBuffer {
    var contents: seq<byte>
    var capacity: nat
    var refCount: nat

    /** The handles that hold a reference. */
    ghost var holders: set<CopyOnWriteBuffer>

    constructor (contents: seq<byte>, capacity: nat)
      ensures this.contents == contents && this.capacity == Max(|contents|, capacity)
      ensures refCount == 0 && holders == {}
    {
      this.contents, this.capacity, refCount, holders := contents, Max(|contents|, capacity), 0, {};
    }

    predicate HasOneRef()
      reads this
    {
      refCount == 1
    }
  }

  /** All handles of a program, and all buffers they have referred to.  A buffer without references is
      deleted. */
  class Heap {
    ghost var live: set<CopyOnWriteBuffer>
    ghost var buffers: set<SharedBuffer>

    ghost predicate Valid()
      reads this, live, buffers
    {
      && (forall h | h in live :: h.heap == this && (h.buffer != null ==> h.buffer in buffers && h in h.buffer.holders))
      && (forall b | b in buffers :: BufferOk(b))
    }

    /** The reference count is the number of handles on the buffer; so while there is one, it is not deleted. */
    ghost predicate BufferOk(b: SharedBuffer)
      reads this, live, b
    {
      && |b.contents| <= b.capacity
      && b.refCount == |b.holders|
      && forall h | h in b.holders :: h in live && h.buffer == b
    }

    /** IsConsistent, of every handle. */
    ghost predicate Consistent()
      reads this, buffers
    {
      forall b | b in buffers && b.refCount > 0 :: b.capacity > 0
    }

    constructor ()
      ensures Valid() && Consistent() && live == {} && buffers == {}
    {
      live, buffers := {}, {};
    }
  }

  /** Handles in `hs` refer to what they referred to before, and observe what they observed. */
  twostate predicate Kept(heap: Heap, hs: set<CopyOnWriteBuffer>)
    requires heap.Valid() && hs <= heap.live && hs <= old(heap.live)
    reads heap, heap.live, heap.buffers
  {
    forall h | h in hs ::
      h.buffer == old(h.buffer) && h.Value() == old(h.Value()) && h.Capacity() == old(h.Capacity())
  }

  lemma RemoveOne<T>(s: set<T>, x: T)
    requires x in s
    ensures |s - {x}| == |s| - 1 && (|s| == 1 ==> s - {x} == {})
  {
  }

  lemma OnlyHolder<T>(s: set<T>, a: T, b: T)
    requires |s| == 1 && a in s && b in s
    ensures a == b
  {
    RemoveOne(s, a);
    assert b !in s - {a};
  }

  class CopyOnWriteBuffer {
    ghost const heap: Heap
    var buffer: SharedBuffer?

    /** The bytes a user of the handle observes. */
    function Value(): seq<byte>
      reads this, buffer
    {
      if buffer == null then [] else buffer.contents
    }

    function Capacity(): nat
      reads this, buffer
    {
      if buffer == null then 0 else buffer.capacity
    }

    predicate IsConsistent()
      reads this, buffer
    {
      buffer == null || buffer.capacity > 0
    }

    ghost predicate Valid()
      reads this, heap, heap.live, heap.buffers
    {
      heap.Valid() && this in heap.live
    }

    /** The other handles, and what they observe, are as before. */
    twostate predicate Unchanged(besides: set<CopyOnWriteBuffer>)
      requires heap.Valid()
      reads heap, heap.live, heap.buffers
    {
      heap.live == old(heap.live) && Kept(heap, heap.live - besides)
    }

    twostate predicate OthersUnchanged()
      requires heap.Valid()
      reads heap, heap.live, heap.buffers
    {
      Unchanged({this})
    }

    constructor (ghost heap: Heap)
      requires heap.Valid()
      modifies heap`live
      ensures this.heap == heap && Valid() && heap.live == old(heap.live) + {this}
      ensures buffer == null
    {
      this.heap, buffer := heap, null;
      new;
      heap.live := heap.live + {this};
    }

    /** Gives up the reference; with the last one the buffer is deleted. */
    method Release()
      requires Valid()
      modifies this, heap.buffers`refCount, heap.buffers`holders
      ensures Valid() && buffer == null && OthersUnchanged()
      ensures forall b | b in heap.buffers && b != old(buffer) ::
                b.refCount == old(b.refCount) && b.holders == old(b.holders)
      ensures old(buffer) != null ==> old(buffer).refCount == old(buffer.refCount) - 1
    {
      if buffer != null {
        var was := buffer;
        ghost var rest := was.holders - {this};
        RemoveOne(was.holders, this);
        assert forall x | x in heap.buffers && x != was :: this !in x.holders;
        was.refCount := was.refCount - 1;
        buffer := null;
        was.holders := rest;
      }
    }

    ghost predicate Adoptable(b: SharedBuffer)
      reads heap, heap.buffers, b
    {
      b in heap.buffers || (b.refCount == 0 && b.holders == {} && |b.contents| <= b.capacity)
    }

    /** Takes a reference. */
    method AddRef(b: SharedBuffer)
      requires Valid() && buffer == null && Adoptable(b)
      modifies this, heap`buffers, b`refCount, b`holders
      ensures Valid() && buffer == b && heap.buffers == old(heap.buffers) + {b} && OthersUnchanged()
      ensures b.refCount == old(b.refCount) + 1
    {
      b.refCount := b.refCount + 1;
      buffer := b;
      b.holders := b.holders + {this};
      heap.buffers := heap.buffers + {b};
    }

    /** scoped_refptr assignment.  Taking a reference on the new buffer before giving up the old one matters
        only when they are the same, and then neither changes. */
    method SetBuffer(b: SharedBuffer?)
      requires Valid() && (b != null ==> Adoptable(b))
      modifies this, heap`buffers, heap.buffers`refCount, heap.buffers`holders
      modifies (if b == null then {} else {b})`refCount, (if b == null then {} else {b})`holders
      ensures Valid() && buffer == b && OthersUnchanged()
      ensures heap.buffers == old(heap.buffers) + if b == null then {} else {b}
      ensures b != null && b != old(buffer) ==> b.refCount == old(b.refCount) + 1
    {
      if b != buffer {
        Release();
        if b != null {
          AddRef(b);
        }
      }
    }

    /** Writes to a buffer that this handle alone refers to. */
    method Overwrite(contents: seq<byte>, capacity: nat)
      requires Valid() && buffer != null && buffer.HasOneRef() && |contents| <= capacity
      modifies buffer`contents, buffer`capacity
      ensures Valid() && buffer.contents == contents && buffer.capacity == capacity && OthersUnchanged()
      ensures capacity > 0 && old(heap.Consistent()) ==> heap.Consistent()
    {
      forall h | h in heap.live && h.buffer == buffer
        ensures h == this
      {
        OnlyHolder(buffer.holders, h, this);
      }
      buffer.contents, buffer.capacity := contents, capacity;
    }

    /** Moves on to a new buffer. */
    method Replace(contents: seq<byte>, capacity: nat)
      requires Valid()
      modifies this, heap, heap.buffers`refCount, heap.buffers`holders
      ensures Valid() && buffer != null && fresh(buffer) && buffer.HasOneRef() && OthersUnchanged()
      ensures buffer.contents == contents && buffer.capacity == Max(|contents|, capacity)
      ensures heap.buffers <= old(heap.buffers) + {buffer}
    {
      var b := new SharedBuffer(contents, capacity);
      SetBuffer(b);
    }

    method CloneDataIfReferenced(newCapacity: nat)
      requires Valid() && buffer != null
      modifies this, heap, heap.buffers
      ensures Valid() && buffer != null && buffer.HasOneRef() && OthersUnchanged()
      ensures (buffer == old(buffer) || fresh(buffer)) && Value() == old(Value())
      ensures buffer.capacity == if old(buffer.HasOneRef()) then old(buffer.capacity) else Max(|Value()|, newCapacity)
      ensures newCapacity > 0 && old(heap.Consistent()) ==> heap.Consistent()
    {
      if buffer.HasOneRef() {
        return;
      }
      Replace(buffer.contents, newCapacity);
    }

    method AppendData(source: seq<byte>)
      requires Valid()
      modifies this, heap, heap.buffers
      ensures Valid() && OthersUnchanged()
      ensures Value() == old(Value()) + source
      ensures old(heap.Consistent()) ==> (heap.Consistent() <==> !(old(buffer) == null && source == []))
    {
      if buffer == null {
        Replace(source, |source|);
        return;
      }
      CloneDataIfReferenced(Max(buffer.capacity, |buffer.contents| + |source|));
      Overwrite(buffer.contents + source, Grown(buffer.capacity, |buffer.contents| + |source|));
    }

    method SetData(source: seq<byte>)
      requires Valid()
      modifies this, heap, heap.buffers
      ensures Valid() && OthersUnchanged() && Value() == source
      ensures old(heap.Consistent()) ==> heap.Consistent()
    {
      if buffer == null {
        if |source| > 0 {
          Replace(source, |source|);
        }
      } else if !buffer.HasOneRef() {
        Replace(source, buffer.capacity);
      } else {
        Overwrite(source, Grown(buffer.capacity, |source|));
      }
    }

    /** Moves on to a copy of what is to be kept, unless the buffer is this handle's alone. */
    method Unshare(kept: seq<byte>, capacity: nat)
      requires Valid() && buffer != null
      modifies this, heap, heap.buffers`refCount, heap.buffers`holders
      ensures Valid() && buffer != null && buffer.HasOneRef() && OthersUnchanged()
      ensures buffer == old(buffer) || fresh(buffer)
      ensures capacity > 0 && old(heap.Consistent()) ==> heap.Consistent()
    {
      if !buffer.HasOneRef() {
        Replace(kept, capacity);
      }
    }

    method SetSize(size: nat)
      requires Valid()
      modifies this, heap, heap.buffers
      ensures Valid() && OthersUnchanged() && |Value()| == size
      ensures Value()[..Min(size, |old(Value())|)] == old(Value())[..Min(size, |old(Value())|)]
      ensures old(heap.Consistent()) ==> heap.Consistent()
    {
      if buffer == null {
        if size > 0 {
          var bytes := Uninitialized(size);
          Replace(bytes, size);
        }
        return;
      }
      var kept := buffer.contents[..Min(|buffer.contents|, size)];
      Unshare(kept, Max(buffer.capacity, size));
      var rest := Uninitialized(size - |kept|);
      Overwrite(kept + rest, Grown(buffer.capacity, size));
    }

    method EnsureCapacity(capacity: nat)
      requires Valid()
      modifies this, heap, heap.buffers
      ensures Valid() && OthersUnchanged() && Value() == old(Value())
      ensures Capacity() == Max(old(Capacity()), capacity)
      ensures old(heap.Consistent()) ==> heap.Consistent()
    {
      if buffer == null {
        if capacity > 0 {
          Replace([], capacity);
        }
        return;
      } else if capacity <= buffer.capacity {
        return;
      }
      CloneDataIfReferenced(Max(buffer.capacity, capacity));
      Overwrite(buffer.contents, Max(buffer.capacity, capacity));
    }

    method Clear()
      requires Valid()
      modifies this, heap, heap.buffers
      ensures Valid() && OthersUnchanged() && Value() == [] && Capacity() == old(Capacity())
      ensures old(heap.Consistent()) ==> heap.Consistent()
    {
      if buffer == null {
        return;
      }
      if buffer.HasOneRef() {
        Overwrite([], buffer.capacity);
      } else {
        Replace([], buffer.capacity);
      }
    }

    /** A write through the mutable operator[]. */
    method Write(index: nat, value: byte)
      requires Valid() && index < |Value()|
      modifies this, heap, heap.buffers
      ensures Valid() && OthersUnchanged() && Value() == old(Value())[index := value] && Capacity() == old(Capacity())
      ensures old(heap.Consistent()) ==> heap.Consistent()
    {
      CloneDataIfReferenced(buffer.capacity);
      Overwrite(buffer.contents[index := value], buffer.capacity);
    }

    /** Copy construction. */
    constructor Copy(other: CopyOnWriteBuffer)
      requires other.Valid()
      modifies other.heap, other.heap.buffers`refCount, other.heap.buffers`holders
      ensures heap == other.heap && Valid() && heap.live == old(other.heap.live) + {this}
      ensures buffer == other.buffer && Value() == old(other.Value())
      ensures old(other.heap.Consistent()) ==> heap.Consistent()
      ensures Kept(heap, old(other.heap.live))
    {
      heap, buffer := other.heap, null;
      new;
      heap.live := heap.live + {this};
      assert Valid();
      SetBuffer(other.buffer);
    }

    /** Construction from bytes, with room for `capacity`. */
    constructor FromData(ghost heap: Heap, source: seq<byte>, capacity: nat)
      requires heap.Valid()
      modifies heap, heap.buffers
      ensures this.heap == heap && Valid() && heap.live == old(heap.live) + {this}
      ensures Value() == source && Capacity() == Max(|source|, capacity)
      ensures old(heap.Consistent()) ==> heap.Consistent()
      ensures Kept(heap, old(heap.live))
    {
      this.heap, buffer := heap, null;
      new;
      heap.live := heap.live + {this};
      assert Valid();
      if |source| > 0 || capacity > 0 {
        Replace(source, capacity);
      }
    }

    /** Destruction. */
    method Destroy()
      requires Valid()
      modifies this, heap, heap.buffers`refCount, heap.buffers`holders
      ensures heap.Valid() && heap.live == old(heap.live) - {this} && Kept(heap, heap.live)
      ensures old(heap.Consistent()) ==> heap.Consistent()
    {
      Release();
      heap.live := heap.live - {this};
    }

    /** Copy assignment, and SetData from another handle. */
    method Assign(other: CopyOnWriteBuffer)
      requires Valid() && other.Valid() && other.heap == heap
      modifies this, heap, heap.buffers`refCount, heap.buffers`holders
      ensures Valid() && OthersUnchanged() && Value() == old(other.Value()) && buffer == old(other.buffer)
      ensures old(heap.Consistent()) ==> heap.Consistent()
    {
      if other != this {
        SetBuffer(other.buffer);
      }
    }

    /** Move assignment: the source is empty afterwards, unless it is this handle.  The reference that moves
        is taken by one handle and given up by the other. */
    method MoveAssign(other: CopyOnWriteBuffer)
      requires Valid() && other.Valid() && other.heap == heap
      modifies this, other, heap, heap.buffers`refCount, heap.buffers`holders
      ensures Valid() && Unchanged({this, other}) && Value() == old(other.Value())
      ensures other != this ==> other.Value() == []
      ensures old(heap.Consistent()) ==> heap.Consistent()
    {
      if other != this {
        SetBuffer(other.buffer);
        other.Release();
      }
    }

    /** Appending `size` bytes leaves the bytes of this handle where they are until they have been read: the
        buffer is shared, or has room, or there is nothing to move. */
    ghost predicate StaysReadable(size: nat)
      reads this, buffer
    {
      buffer == null || buffer.refCount > 1 || size == 0 || |buffer.contents| + size <= buffer.capacity
    }

    /** Appends what `other` observes.  A handle may be appended to itself as long as its bytes stay readable:
        the source copies them after it has made room. */
    method AppendFrom(other: CopyOnWriteBuffer)
      requires Valid() && other.Valid() && other.heap == heap
      requires other == this ==> StaysReadable(|Value()|)
      modifies this, heap, heap.buffers
      ensures Valid() && OthersUnchanged() && Value() == old(Value()) + old(other.Value())
    {
      AppendData(other.Value());
    }

    /** Equal handles observe the same bytes; the converse fails exactly between a handle that has a buffer
        and one that has none, which their capacities tell. */
    method Equals(other: CopyOnWriteBuffer) returns (equal: bool)
      requires Valid() && other.Valid() && other.heap == heap && IsConsistent() && other.IsConsistent()
      ensures equal <==> Value() == other.Value() && (Capacity() == 0 <==> other.Capacity() == 0)
    {
      equal := buffer == other.buffer
               || (buffer != null && other.buffer != null && buffer.contents == other.buffer.contents);
    }
  }

  /** Two handles that both observe no bytes and yet do not compare equal. */
  method EmptyButDifferent() returns (none: CopyOnWriteBuffer, empty: CopyOnWriteBuffer, equal: bool)
    ensures none.Value() == empty.Value() == [] && !equal
  {
    var heap := new Heap();
    none := new CopyOnWriteBuffer(heap);
    empty := new CopyOnWriteBuffer.FromData(heap, [], 1);
    equal := none.Equals(empty);
  }

  /** Memory nobody has written yet: any bytes. */
  method Uninitialized(size: nat) returns (bytes: seq<byte>)
    ensures |bytes| == size
  {
    bytes := seq(size, _ => 0);
  }
}
