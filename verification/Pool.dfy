/**
 * The leased buffer pool (crates/rosplus_core/src/pool.rs): a free list of equal buffers,
 * leases that give their buffer back on their final release, and a count of the leases
 * that had to be taken from the heap.
 */
module Pool {
  import opened Outcomes

  type byte = x: int | 0 <= x < 256

  const LIMIT: nat := 512 * 1024 * 1024

  class Lease {
    var bytes: array<byte>
    const pooled: bool
    const len: nat

    constructor (bytes: array<byte>, pooled: bool, len: nat)
      ensures this.bytes == bytes && this.pooled == pooled && this.len == len
    {
      this.bytes, this.pooled, this.len := bytes, pooled, len;
    }
  }

  class Pool {
    const chunkSize: nat
    const capacity: nat
    var free: seq<array<byte>>
    var spills: nat
    /** Every lease that is alive, and every heap lease ever granted. */
    ghost var live: set<Lease>
    ghost var heap: seq<Lease>

    ghost function Pooled(): set<Lease>
      reads this
    {
      set l | l in live && l.pooled
    }

    /** Free and leased-out buffers are all of the pool; no buffer has two owners; every buffer has its size. */
    ghost predicate Valid()
      reads this, live
    {
      && |free| + |Pooled()| == capacity && spills == |heap|
      && (forall i :: 0 <= i < |free| ==> free[i].Length == chunkSize)
      && (forall i, j :: 0 <= i < j < |free| ==> free[i] != free[j])
      && (forall l :: l in live ==> l.bytes.Length == (if l.pooled then chunkSize else l.len) && l.len <= l.bytes.Length)
      && (forall l, m :: l in live && m in live && l != m ==> l.bytes != m.bytes)
      && (forall l, i :: l in live && 0 <= i < |free| ==> l.bytes != free[i])
      && (forall l :: l in live && !l.pooled ==> l in heap)
    }

    constructor (chunks: nat, chunkSize: nat)
      ensures Valid() && capacity == chunks && this.chunkSize == chunkSize && |free| == chunks && spills == 0 && live == {}
      ensures forall b :: b in free ==> fresh(b) && forall k :: 0 <= k < chunkSize ==> b[k] == 0
    {
      this.chunkSize, capacity, spills, live, heap := chunkSize, chunks, 0, {}, [];
      free := [];
      new;
      while |free| < chunks
        invariant |free| <= chunks && live == {} && heap == [] && spills == 0
        invariant forall b :: b in free ==>
          fresh(b) && allocated(b) && b.Length == chunkSize && forall k :: 0 <= k < chunkSize ==> b[k] == 0
        invariant forall i, j :: 0 <= i < j < |free| ==> free[i] != free[j]
      {
        var b := new byte[chunkSize](_ => 0);
        free := free + [b];
      }
      assert Pooled() == {};
    }

    /** A lease of the buffer that was freed last; its old contents are left in it. */
    method TakePooled(len: nat) returns (l: Lease)
      requires Valid() && free != [] && len <= chunkSize
      modifies this`free, this`live
      ensures Valid() && fresh(l) && l.len == len && l.pooled && live == old(live) + {l}
      ensures free + [l.bytes] == old(free)
    {
      var k := |free| - 1;
      l := new Lease(free[k], true, len);
      free := free[..k];
      live := live + {l};
      assert Pooled() == old(Pooled()) + {l};
    }

    /** A zeroed lease from the heap, counted as a spill. */
    method TakeHeap(len: nat) returns (l: Lease)
      requires Valid()
      modifies this`spills, this`heap, this`live
      ensures Valid() && fresh(l) && l.len == len && !l.pooled && live == old(live) + {l}
      ensures spills == old(spills) + 1 && heap == old(heap) + [l]
      ensures fresh(l.bytes) && l.bytes.Length == len && forall k :: 0 <= k < len ==> l.bytes[k] == 0
    {
      var b := new byte[len](_ => 0);
      l := new Lease(b, false, len);
      spills, heap, live := spills + 1, heap + [l], live + {l};
      assert Pooled() == old(Pooled());
    }

    /** acquire: a pooled buffer if the message fits and one is free, else the heap if allowed. */
    method Acquire(len: nat, allowSpill: bool) returns (res: Result<Lease, ()>)
      requires Valid()
      modifies this
      ensures Valid()
      ensures res.Err? <==> (len > chunkSize || old(free) == []) && !allowSpill
      ensures res.Err? ==> unchanged(this)
      ensures res.Ok? ==> fresh(res.value) && res.value.len == len && live == old(live) + {res.value}
      ensures res.Ok? ==> (res.value.pooled <==> len <= chunkSize && old(free) != [])
      ensures res.Ok? && res.value.pooled ==>
        free + [res.value.bytes] == old(free) && spills == old(spills) && heap == old(heap)
      ensures res.Ok? && !res.value.pooled ==>
        free == old(free) && spills == old(spills) + 1 && heap == old(heap) + [res.value] && fresh(res.value.bytes)
    {
      if len <= chunkSize {
        if |free| > 0 {
          var l := TakePooled(len);
          return Ok(l);
        }
      }
      if !allowSpill {
        return Err(());
      }
      var l := TakeHeap(len);
      return Ok(l);
    }

    /** The final release of a lease: a pooled buffer goes back to the free list. */
    method Release(l: Lease)
      requires Valid() && l in live
      modifies this, l
      ensures Valid() && live == old(live) - {l} && spills == old(spills) && heap == old(heap)
      ensures free == if l.pooled then old(free) + [old(l.bytes)] else old(free)
    {
      live := live - {l};
      if l.pooled {
        var b := l.bytes;
        l.bytes := new byte[0];
        free := free + [b];
        assert old(Pooled()) == Pooled() + {l};
      } else {
        assert old(Pooled()) == Pooled();
      }
    }

    /** stats: leased, free and spilled; the subtraction never underflows. */
    method Stats() returns (leased: nat, available: nat, spilled: nat)
      requires Valid()
      ensures leased == |Pooled()| && available == |free| && leased + available == capacity && spilled == |heap|
    {
      leased, available, spilled := capacity - |free|, |free|, spills;
    }
  }

  /** Pool::new: nonempty and at most 512 MiB in all. */
  method Open(chunks: nat, chunkSize: nat) returns (res: Result<Pool, ()>)
    ensures res.Ok? <==> 0 < chunks && 0 < chunkSize && chunks * chunkSize <= 536_870_912
    ensures res.Ok? ==> fresh(res.value) && res.value.Valid() && res.value.capacity == chunks && |res.value.free| == chunks
  {
    if chunks == 0 || chunkSize == 0 || chunks * chunkSize > LIMIT {
      return Err(());
    }
    var p := new Pool(chunks, chunkSize);
    return Ok(p);
  }
}
