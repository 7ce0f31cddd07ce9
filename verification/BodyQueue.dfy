/** The stream body queue as the source keeps it: a slice of chunks with a head index, lazily
    compacted, whose payloads live in pooled buffers that other streams will reuse.

    Buffers are shared mutable memory, so the FIFO behaviour rests on ownership: every buffer
    is at all times either free in the pool or owned by one queue slot or one reader. `Pool`
    makes a second return of the same buffer impossible to call. */
module BodyQueue {
  import opened Numbers
  import opened HttpFrames
  import opened BodySpec

  class Buffer {
    var data: Bytes

    constructor ()
    {
      data := [];
    }
  }

  class Pool {
    var free: set<Buffer>
    ghost var lent: set<Buffer>

    ghost predicate Valid()
      reads this
    {
      free !! lent
    }

    constructor ()
      ensures Valid() && free == {} && lent == {}
    {
      free, lent := {}, {};
    }

    /** GetDataSlice, and the copy of data into the slice. */
    method Lend(data: Bytes) returns (b: Buffer)
      requires Valid()
      modifies this, free
      ensures Valid() && b.data == data
      ensures b !in old(lent) && lent == old(lent) + {b}
      ensures fresh(b) || b in old(free)
      ensures free == old(free) - {b}
    {
      if free == {} {
        b := new Buffer();
      } else {
        b :| b in free;
        free := free - {b};
      }
      b.data := data;
      lent := lent + {b};
    }

    /** PutDataSlice. */
    method Return(b: Buffer)
      requires Valid() && b in lent
      modifies this
      ensures Valid() && lent == old(lent) - {b} && free == old(free) + {b}
    {
      free := free + {b};
      lent := lent - {b};
    }
  }

  datatype Slot = Vacant | Chunk(bp: Buffer)

  predicate AllChunks(ss: seq<Slot>) {
    forall i :: 0 <= i < |ss| ==> ss[i].Chunk?
  }

  function Handles(ss: seq<Slot>): seq<Buffer>
    requires AllChunks(ss)
  {
    seq(|ss|, i requires 0 <= i < |ss| => ss[i].bp)
  }

  predicate Distinct(bs: seq<Buffer>) {
    forall i, j :: 0 <= i < j < |bs| ==> bs[i] != bs[j]
  }

  ghost function Contents(bs: seq<Buffer>): seq<Bytes>
    reads bs
  {
    seq(|bs|, i requires 0 <= i < |bs| reads bs => bs[i].data)
  }

  ghost function ToSet(bs: seq<Buffer>): set<Buffer> {
    set b | b in bs
  }

  class Stream {
    const pool: Pool
    var slots: seq<Slot>   // backing array; the slice is slots[..len]
    var len: nat
    var qHead: nat
    var dataDone: bool
    var dataErr: Option<Error>

    // The body reader: the handle of the current chunk, and the bytes left of it as a view
    // [off, end) of a buffer. Close gives the handle back but keeps the view.
    var bp: Buffer?
    var src: Buffer?
    var off: nat
    var end: nat

    ghost var popped: nat  // chunks taken off the queue so far
    ghost var moved: nat   // chunks copied by compaction so far

    /** The queue's shape. The consumed prefix is short, or less than half of the slice; and
        compaction has copied no more chunks than were popped. */
    ghost predicate Shape()
      reads this
    {
      && qHead <= len <= |slots|
      && AllChunks(slots[qHead..len])
      && (qHead <= 8 || 2 * qHead < len)
      && moved + qHead <= popped
    }

    ghost function Queue(): seq<Buffer>
      reads this
      requires Shape()
    {
      Handles(slots[qHead..len])
    }

    /** Live slots and the reader own distinct buffers, all of them lent by the pool. Slots outside
        the live range may hold stale copies; nothing is said about them. */
    ghost predicate Valid()
      reads this, pool, pool.lent
    {
      && pool.Valid()
      && Shape()
      && Distinct(Queue())
      && ToSet(Queue()) <= pool.lent
      && off <= end
      && (bp != null ==> bp in pool.lent && bp !in Queue() && src == bp && end == |bp.data|)
    }

    /** The reader holds a buffer exactly while bytes of it are left. Only Close can break this,
        by giving back a buffer that is partly unread. */
    ghost predicate Settled()
      reads this
    {
      bp != null <==> off < end
    }

    /** The reader has given its buffer back but keeps a view of the rest of it. */
    ghost predicate Stale()
      reads this
    {
      bp == null && off < end
    }

    ghost function View(): Body
      reads this, pool, pool.lent
      requires Valid()
    {
      Body(Contents(Queue()), if bp != null then bp.data[off..] else [], dataDone, dataErr)
    }

    /** The buffers this stream owns. */
    ghost function Owned(): set<Buffer>
      reads this
      requires Shape()
    {
      ToSet(Queue()) + if bp != null then {bp} else {}
    }

    constructor (pool: Pool)
      requires pool.Valid()
      ensures Valid() && Settled() && this.pool == pool
      ensures View() == Empty() && Owned() == {}
    {
      this.pool := pool;
      slots, len, qHead := [], 0, 0;
      dataDone, dataErr := false, None;
      bp, src, off, end := null, null, 0, 0;
      popped, moved := 0, 0;
    }

    method PushData(b: Buffer)
      requires Valid() && b in pool.lent && b !in Owned()
      modifies this`slots, this`len
      ensures Valid() && Settled() == old(Settled())
      ensures View() == Apply(old(View()), Push(b.data))
      ensures Owned() == old(Owned()) + {b}
    {
      if len < |slots| {
        slots := slots[len := Chunk(b)];
      } else {
        slots := slots + [Chunk(b)];
      }
      len := len + 1;
      assert slots[qHead..len] == old(slots[qHead..len]) + [Chunk(b)];
      assert Queue() == old(Queue()) + [b];
      assert Contents(Queue()) == old(Contents(Queue())) + [b.data];
    }

    method CloseData()
      requires Valid()
      modifies this`dataDone
      ensures Valid() && Settled() == old(Settled())
      ensures View() == Apply(old(View()), Op.Close)
      ensures Owned() == old(Owned())
    {
      dataDone := true;
    }

    method FailBody(e: Error)
      requires Valid()
      modifies this`dataDone, this`dataErr
      ensures Valid() && Settled() == old(Settled())
      ensures View() == Apply(old(View()), Fail(e))
      ensures Owned() == old(Owned())
    {
      if dataErr.None? {
        dataErr := Some(e);
      }
      dataDone := true;
    }

    method ReturnBuf()
      requires Valid()
      modifies this`bp, pool
      ensures Valid() && bp == null
      ensures View() == old(View()).(buf := [])
      ensures Owned() == old(Owned()) - (if old(bp) != null then {old(bp)} else {})
      ensures pool.lent == old(pool.lent) - (if old(bp) != null then {old(bp)} else {})
      ensures pool.free == old(pool.free) + (if old(bp) != null then {old(bp)} else {})
    {
      if bp != null {
        pool.Return(bp);
        bp := null;
      }
    }

    /** Takes the oldest chunk off the queue, compacting once the slice is mostly drained. */
    method Pop() returns (b: Buffer)
      requires Shape() && qHead < len
      modifies this`slots, this`len, this`qHead, this`popped, this`moved
      ensures Shape()
      ensures old(Queue()) == [b] + Queue()
    {
      b := slots[qHead].bp;
      ghost var rest := slots[qHead+1..len];
      assert slots[qHead..len] == [slots[qHead]] + rest;
      slots := slots[qHead := Vacant];
      qHead := qHead + 1;
      popped := popped + 1;
      if qHead > 8 && qHead * 2 >= len {
        var n := len - qHead;
        slots := slots[qHead..len] + slots[n..];
        len, qHead := n, 0;
        moved := moved + n;
      }
      assert slots[qHead..len] == rest;
      assert Handles([Chunk(b)] + rest) == [b] + Handles(rest);
    }

    /** Makes the oldest chunk the reader's current one. Nothing changes hands. */
    method TakeChunk()
      requires Valid() && bp == null && qHead < len
      modifies this
      ensures Valid() && bp != null && off == 0
      ensures dataDone == old(dataDone) && dataErr == old(dataErr)
      ensures old(Queue()) == [bp] + Queue()
      ensures Owned() == old(Owned())
      ensures View() == old(View()).(chunks := old(View()).chunks[1..], buf := old(View()).chunks[0])
    {
      var chunk := Pop();
      HeadIsApart(chunk, Queue());
      bp, src, off, end := chunk, chunk, 0, |chunk.data|;
      assert old(Contents(Queue())) == [chunk.data] + Contents(Queue());
      assert chunk.data[0..] == chunk.data;
    }

    /** Copies up to n bytes of the current chunk out, and returns its buffer if that is all of it. */
    method CopyOut(n: nat) returns (bytes: Bytes)
      requires Valid() && bp != null
      requires off <= end
      modifies this`bp, this`off, pool
      ensures Valid() && Settled()
      ensures var b := old(View()).buf;
              var k := Min(n, |b|);
              bytes == b[..k] && View() == old(View()).(buf := b[k..])
      ensures Owned() <= old(Owned())
      ensures pool.lent == old(pool.lent) - (old(Owned()) - Owned())
      ensures pool.free == old(pool.free) + (old(Owned()) - Owned())
    {
      var k := Min(n, end - off);
      bytes := src.data[off..off + k];
      off := off + k;
      if off == end {
        ReturnBuf();
      }
    }

    /** A read of a stale view: nothing changes hands. The bytes are those of a buffer that may since have
        been reused, so nothing is said about them but their number. */
    method ReadStale(n: nat) returns (bytes: Bytes)
      requires Valid() && Stale()
      modifies this`off
      ensures Valid() && View() == old(View()) && Owned() == old(Owned())
      ensures |bytes| == Min(n, old(end - off)) && off == old(off) + |bytes|
    {
      var k := Min(n, end - off);
      bytes := *;
      if |bytes| != k {
        bytes := seq(k, _ => 0);
      }
      off := off + k;
    }

    /** Reads up to n bytes. Wait means the caller parks on the condition variable and tries
        again. A buffer that is read to the end goes back to the pool, and no other. */
    method Read(n: nat) returns (r: Result)
      requires Valid() && (Settled() || Stale())
      modifies this, pool
      ensures Valid() && (Settled() || Stale())
      ensures old(Settled()) ==> Settled() && (View(), r) == ReadStep(old(View()), n)
      ensures old(Stale()) ==>
                && bp == null && View() == old(View()) && Owned() == old(Owned())
                && r.Got? && |r.bytes| == Min(n, old(end - off)) && end - off == old(end - off) - |r.bytes|
      ensures Owned() <= old(Owned())
      ensures pool.lent == old(pool.lent) - (old(Owned()) - Owned())
      ensures pool.free == old(pool.free) + (old(Owned()) - Owned())
    {
      if off < end && bp == null {
        var stale := ReadStale(n);
        return Got(stale);
      }
      if off == end {
        if qHead == len {
          if !dataDone {
            return Wait;
          }
          return if dataErr.Some? then Failed(dataErr.value) else Eof;
        }
        TakeChunk();
      }
      var bytes := CopyOut(n);
      r := Got(bytes);
    }

    /** Returns every queued buffer and empties the queue. */
    method DropQueue()
      requires Valid()
      modifies this`slots, this`len, this`qHead, pool
      ensures Valid() && Queue() == []
      ensures pool.lent == old(pool.lent) - ToSet(old(Queue()))
      ensures pool.free == old(pool.free) + ToSet(old(Queue()))
    {
      ghost var q := Queue();
      var i := qHead;
      while i < len
        invariant qHead == old(qHead) <= i <= len == old(len) <= |slots| && |q| == len - qHead
        invariant forall k :: i <= k < len ==> slots[k] == Chunk(q[k - qHead])
        invariant pool.Valid()
        invariant pool.lent == old(pool.lent) - ToSet(q[..i - qHead])
        invariant pool.free == old(pool.free) + ToSet(q[..i - qHead])
      {
        TakeOneMore(q, i - qHead);
        assert slots[i].bp in ToSet(q);
        pool.Return(slots[i].bp);
        slots := slots[i := Vacant];
        i := i + 1;
      }
      assert q[..|q|] == q;
      len, qHead := 0, 0;
    }

    /** bodyReader.Close: gives back everything the stream owns, but keeps the reader's view of a
        partly read chunk. */
    method Close()
      requires Valid()
      modifies this`slots, this`len, this`qHead, this`bp, pool
      ensures Valid() && Owned() == {} && View() == old(View()).(chunks := [], buf := [])
      ensures pool.lent == old(pool.lent) - old(Owned())
      ensures pool.free == old(pool.free) + old(Owned())
      ensures Settled() <==> off >= end
    {
      ReturnBuf();
      DropQueue();
    }

    /** Release: as Close, and the stream object itself is then reused. */
    method Release()
      requires Valid()
      modifies this`slots, this`len, this`qHead, this`bp, this`dataErr, pool
      ensures Valid() && Owned() == {} && View() == old(View()).(chunks := [], buf := [], err := None)
      ensures pool.lent == old(pool.lent) - old(Owned())
      ensures pool.free == old(pool.free) + old(Owned())
      ensures Settled() <==> off >= end
    {
      ReturnBuf();
      DropQueue();
      dataErr := None;
    }

    /** Acquire: the reused object starts from scratch. */
    method Reset()
      requires Valid() && Owned() == {}
      modifies this
      ensures Valid() && Settled() && Owned() == {} && View() == Empty()
    {
      len, qHead := 0, 0;
      dataDone, dataErr := false, None;
      bp, src, off, end := null, null, 0, 0;
    }

    /** What HandleInboundData does to a registered stream: the payload is copied into a pooled
        buffer of its own. */
    method Inbound(data: Bytes, endStream: bool)
      requires Valid()
      modifies this`slots, this`len, this`dataDone, pool, pool.free
      ensures Valid() && Settled() == old(Settled())
      ensures View() == Arrive(old(View()), data, endStream)
      ensures old(Owned()) <= Owned() && pool.lent == old(pool.lent) + Owned() && pool.free <= old(pool.free)
      ensures forall b :: b in Owned() ==> b in old(Owned()) || b !in old(pool.lent)
      ensures forall b :: b in pool.lent && b !in old(pool.lent) ==> fresh(b) || b in old(pool.free)
      ensures forall b :: b in old(pool.lent) ==> b.data == old(b.data)
    {
      if |data| > 0 {
        var b := pool.Lend(data);
        assert Queue() == old(Queue()) && Contents(Queue()) == old(Contents(Queue()));
        PushData(b);
      }
      if endStream {
        CloseData();
      }
    }
  }

  lemma TakeOneMore(q: seq<Buffer>, k: nat)
    requires k < |q| && Distinct(q)
    ensures ToSet(q[..k+1]) == ToSet(q[..k]) + {q[k]} && q[k] !in ToSet(q[..k])
  {
    assert q[..k+1] == q[..k] + [q[k]];
  }

  lemma HeadIsApart(b: Buffer, bs: seq<Buffer>)
    requires Distinct([b] + bs)
    ensures Distinct(bs) && b !in bs
  {
    assert ([b] + bs)[1..] == bs;
    assert ([b] + bs)[0] == b;
    forall i | 0 <= i < |bs| ensures bs[i] != b {
      assert ([b] + bs)[i + 1] == bs[i];
    }
    forall i, j | 0 <= i < j < |bs| ensures bs[i] != bs[j] {
      assert ([b] + bs)[i + 1] == bs[i] && ([b] + bs)[j + 1] == bs[j];
    }
  }
}
