/**
 BufferQueue (base/bufferqueue.cc): a bounded queue of packets whose buffers are recycled.

 Every operation holds the lock throughout, so each is one step.
 */
module PacketQueue {
  import opened Basics
  import opened Buffers

  /** No buffer twice, and no storage shared. */
  ghost predicate Distinct(bs: seq<Buffer>)
    reads bs
  {
    forall i, j | 0 <= i < j < |bs| :: bs[i] != bs[j] && bs[i].data != bs[j].data
  }

  function Members(bs: seq<Buffer>): set<Buffer> {
    set b | b in bs
  }

  /** Moving the first buffer to the end. */
  lemma Rotated(bs: seq<Buffer>)
    requires bs != [] && Distinct(bs)
    ensures var cs := bs[1..] + [bs[0]]; Distinct(cs) && Members(cs) == Members(bs)
  {
    var cs := bs[1..] + [bs[0]];
    assert forall i | 0 <= i < |bs| - 1 :: cs[i] == bs[i + 1];
    assert bs == [bs[0]] + bs[1..];
  }

  /** Moving the last buffer forward. */
  lemma MovedForward(a: seq<Buffer>, b: seq<Buffer>, x: Buffer)
    requires Distinct(a + b + [x])
    ensures Distinct(a + [x] + b) && Members(a + [x] + b) == Members(a + b + [x])
  {
    var s, t := a + b + [x], a + [x] + b;
    forall i, j | 0 <= i < j < |t|
      ensures t[i] != t[j] && t[i].data != t[j].data
    {
      var p := if i < |a| then i else if i == |a| then |s| - 1 else i - 1;
      var q := if j < |a| then j else if j == |a| then |s| - 1 else j - 1;
      assert s[p] == t[i] && s[q] == t[j] && p != q;
    }
  }

  /** The buffers in a sequence are at most its length. */
  lemma {:induction false} CountBuffers(bs: seq<Buffer>, these: set<Buffer>)
    requires forall b | b in these :: b in bs
    ensures |these| <= |bs|
  {
    if bs == [] {
      assert these == {};
    } else {
      CountBuffers(bs[1..], these - {bs[0]});
    }
  }

  /** Writing a packet into one buffer leaves the others alone. */
  method Fill(ghost others: seq<Buffer>, packet: Buffer, source: seq<byte>)
    requires Distinct(others + [packet]) && packet.Valid() && forall b | b in others :: b.Valid()
    modifies packet, packet.data
    ensures Distinct(others + [packet]) && packet.Valid() && packet.Contents() == source
    ensures packet.data == old(packet.data) || fresh(packet.data)
    ensures forall b | b in others :: b.Valid() && b.Contents() == old(b.Contents())
  {
    ghost var all := others + [packet];
    forall b | b in others
      ensures b != packet && b.data != packet.data
    {
      var i :| 0 <= i < |others| && others[i] == b;
      assert all[i] == b && all[|others|] == packet;
    }
    packet.SetData(source);
    assert forall b | b in others :: b.data == old(b.data);
  }

  class BufferQueue {
    const capacity: nat
    const defaultSize: nat
    var queue: seq<Buffer>
    var freeList: seq<Buffer>

    /** The packets waiting to be read, first one first. */
    ghost var packets: seq<seq<byte>>

    /** Every buffer ever allocated. */
    ghost var made: set<Buffer>

    ghost function Pool(): seq<Buffer>
      reads this
    {
      queue + freeList
    }

    ghost function Storage(): set<object>
      reads this, made
    {
      set b | b in made :: b.data
    }

    /** Each buffer is in exactly one of the queue and the free list, once. */
    ghost predicate Valid()
      reads this, made, Storage()
    {
      && |packets| == |queue| && |Pool()| <= capacity
      && made == Members(Pool())
      && (forall b | b in made :: b.Valid())
      && (forall i | 0 <= i < |queue| :: queue[i] in made && queue[i].Contents() == packets[i])
      && Distinct(Pool())
    }

    /** The pool is never larger than the queue may get. */
    lemma MadeAtMostCapacity()
      requires Valid()
      ensures |made| <= capacity
    {
      CountBuffers(Pool(), made);
    }

    constructor (capacity: nat, defaultSize: nat)
      ensures Valid() && packets == [] && made == {}
      ensures this.capacity == capacity && this.defaultSize == defaultSize
    {
      this.capacity, this.defaultSize := capacity, defaultSize;
      queue, freeList, packets, made := [], [], [], {};
    }

    method Size() returns (n: nat)
      requires Valid()
      ensures n == |packets|
    {
      n := |queue|;
    }

    /** Moves the first buffer to the free list. */
    method Recycle()
      requires Valid() && queue != []
      modifies this
      ensures Valid() && queue == old(queue[1..]) && packets == old(packets[1..]) && made == old(made)
    {
      Rotated(Pool());
      assert Pool()[1..] + [Pool()[0]] == queue[1..] + (freeList + [queue[0]]);
      queue, freeList := queue[1..], freeList + [queue[0]];
      packets := packets[1..];
    }

    method Clear()
      requires Valid()
      modifies this
      ensures Valid() && packets == [] && made == old(made)
    {
      while queue != []
        invariant Valid() && made == old(made)
        decreases |queue|
      {
        Recycle();
      }
    }

    /** Takes the first packet, or as much of it as there is room for. */
    method ReadFront(bytes: nat) returns (ok: bool, data: seq<byte>, notifyWritable: bool)
      requires Valid()
      modifies this
      ensures Valid() && made == old(made)
      ensures ok <==> old(packets) != []
      ensures !ok ==> packets == [] && data == [] && !notifyWritable
      ensures ok ==> packets == old(packets[1..]) && data == old(packets[0][..Min(bytes, |packets[0]|)])
                     && notifyWritable == (|old(packets)| == capacity)
    {
      if queue == [] {
        return false, [], false;
      }
      var wasWritable := |queue| < capacity;
      var packet := queue[0];
      var n := Min(bytes, packet.size);
      data := packet.data[..n];
      assert packet.Contents()[..n] == packet.data[..n];
      Recycle();
      return true, data, !wasWritable;
    }

    /** Between the two halves of a write: everything is in place but for `packet`, which is in neither. */
    ghost predicate Loose(packet: Buffer)
      reads this, made, Storage()
    {
      && |packets| == |queue| && |Pool()| < capacity
      && made == Members(Pool() + [packet])
      && (forall b | b in made :: b.Valid())
      && (forall i | 0 <= i < |queue| :: queue[i] in made && queue[i].Contents() == packets[i])
      && Distinct(Pool() + [packet])
    }

    /** Takes the last free buffer, or makes one. */
    method TakeBuffer(bytes: nat) returns (packet: Buffer)
      requires Valid() && |queue| < capacity
      modifies this`freeList, this`made
      ensures Loose(packet) && made == old(made) + {packet}
      ensures packet in old(made) || (old(freeList) == [] && fresh(packet) && fresh(packet.data))
    {
      if freeList != [] {
        packet := freeList[|freeList| - 1];
        assert Pool() == queue + freeList[..|freeList| - 1] + [packet];
        freeList := freeList[..|freeList| - 1];
      } else {
        packet := new Buffer(bytes, defaultSize, false);
        made := made + {packet};
      }
    }

    /** Fills a buffer and appends it. */
    method Enqueue(packet: Buffer, source: seq<byte>)
      requires Loose(packet)
      modifies this`queue, this`packets, packet, packet.data
      ensures Valid() && packets == old(packets) + [source]
    {
      Fill(Pool(), packet, source);
      MovedForward(queue, freeList, packet);
      ghost var others := Pool();
      assert forall i | 0 <= i < |queue| :: queue[i] == others[i] && queue[i] in others;
      queue := queue + [packet];
      packets := packets + [source];
    }

    /** Appends a packet, unless the queue is full. */
    method WriteBack(source: seq<byte>) returns (ok: bool, notifyReadable: bool)
      requires Valid()
      modifies this, made, Storage()
      ensures Valid() && old(made) <= made && fresh(made - old(made))
      ensures old(freeList) != [] ==> made == old(made)
      ensures ok <==> |old(packets)| < capacity
      ensures packets == if ok then old(packets) + [source] else old(packets)
      ensures notifyReadable == (ok && old(packets) == [])
    {
      if |queue| == capacity {
        return false, false;
      }
      var wasReadable := queue != [];
      var packet := TakeBuffer(|source|);
      Enqueue(packet, source);
      return true, !wasReadable;
    }
  }
}
