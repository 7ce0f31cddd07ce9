/** Any number of streams sharing one buffer pool. In every run, each lent buffer is owned by exactly one
    stream, and a stream's body moves only by its own operations. */
module BodyPool {
  import opened Numbers
  import opened HttpFrames
  import opened BodySpec
  import opened BodyQueue

  datatype StreamOp =
    | Inbound(data: Bytes, endStream: bool)
    | Read(n: nat)
    | Fail(err: Error)
    | CloseReader
    | Release
    | Reset

  /** A stream's body, and how many bytes its reader still sees of a buffer it gave back. */
  datatype Held = Held(body: Body, stale: nat)

  /** What an operation does to its own stream. A reader that was closed over a partly read chunk reads
      the rest of its stale view before anything else, and a stream is reused only when it holds
      nothing. */
  function Moved(h: Held, op: StreamOp): Held {
    match op
    case Inbound(data, end) => h.(body := Arrive(h.body, data, end))
    case Read(n) =>
      if h.stale > 0 then h.(stale := h.stale - Min(n, h.stale)) else h.(body := ReadStep(h.body, n).0)
    case Fail(e) => h.(body := Apply(h.body, Op.Fail(e)))
    case CloseReader => Held(h.body.(chunks := [], buf := []), h.stale + |h.body.buf|)
    case Release => Held(h.body.(chunks := [], buf := [], err := None), h.stale + |h.body.buf|)
    case Reset => if h.body.chunks == [] && h.body.buf == [] then Held(Empty(), 0) else h
  }

  ghost predicate Sound(s: Stream)
    reads s, s.pool, s.pool.lent
  {
    s.Valid() && (s.bp != null ==> s.off < s.end)
  }

  ghost function HeldBy(s: Stream): Held
    reads s, s.pool, s.pool.lent
    requires Sound(s)
  {
    Held(s.View(), if s.bp == null then s.end - s.off else 0)
  }

  /** Operations other than Inbound: no byte changes, and the pool gets back exactly what the stream
      gives up. */
  method Consume(s: Stream, op: StreamOp)
    requires Sound(s) && !op.Inbound?
    modifies s, s.pool
    ensures Sound(s) && HeldBy(s) == Moved(old(HeldBy(s)), op)
    ensures s.Owned() <= old(s.Owned())
    ensures s.pool.lent == old(s.pool.lent) - (old(s.Owned()) - s.Owned())
    ensures s.pool.free == old(s.pool.free) + (old(s.Owned()) - s.Owned())
  {
    match op {
      case Read(n) => var _ := s.Read(n);
      case Fail(e) => s.FailBody(e);
      case CloseReader => s.Close();
      case Release => s.Release();
      case Reset =>
        if s.qHead == s.len && s.bp == null {
          s.Reset();
        }
    }
  }

  /** One operation on one stream: the pool lends what the stream gains and gets back what it loses, and
      the bytes of every lent buffer stay as they are. */
  method Perform(s: Stream, op: StreamOp)
    requires Sound(s)
    modifies s, s.pool, s.pool.free
    ensures Sound(s) && HeldBy(s) == Moved(old(HeldBy(s)), op)
    ensures s.pool.lent == (old(s.pool.lent) - old(s.Owned())) + s.Owned()
    ensures s.Owned() * old(s.pool.lent) <= old(s.Owned())
    ensures forall b :: b in old(s.pool.lent) ==> b.data == old(b.data)
    ensures forall b :: b in s.pool.lent ==> b in old(s.pool.lent) || b in old(s.pool.free) || fresh(b)
    ensures forall b :: b in s.pool.free ==> b in old(s.pool.lent) || b in old(s.pool.free) || fresh(b)
  {
    if op.Inbound? {
      s.Inbound(op.data, op.endStream);
    } else {
      Consume(s, op);
    }
  }

  // ---- many streams --------------------------------------------------------------------------------

  /** The owners share nothing, and between them hold exactly what is lent. */
  predicate Exact(lent: set<Buffer>, owners: seq<set<Buffer>>) {
    && (forall i, j :: 0 <= i < j < |owners| ==> owners[i] !! owners[j])
    && (forall i :: 0 <= i < |owners| ==> owners[i] <= lent)
    && (forall b :: b in lent ==> exists i :: 0 <= i < |owners| && b in owners[i])
  }

  lemma ExactStays(lent: set<Buffer>, owners: seq<set<Buffer>>, lent': set<Buffer>, owners': seq<set<Buffer>>, k: nat)
    requires Exact(lent, owners) && k < |owners| == |owners'| && owners' == owners[k := owners'[k]]
    requires lent' == (lent - owners[k]) + owners'[k] && owners'[k] * lent <= owners[k]
    ensures Exact(lent', owners')
  {
    forall i | 0 <= i < |owners| && i != k
      ensures owners'[i] == owners[i] && owners[i] !! owners[k] && owners'[i] !! owners'[k] && owners'[i] <= lent'
    {
      assert owners[i] <= lent;
    }
    forall b | b in lent'
      ensures exists i :: 0 <= i < |owners'| && b in owners'[i]
    {
      if b !in owners'[k] {
        var i :| 0 <= i < |owners| && b in owners[i];
        assert b in owners'[i];
      }
    }
  }

  lemma ExactGrows(lent: set<Buffer>, owners: seq<set<Buffer>>)
    requires Exact(lent, owners)
    ensures Exact(lent, owners + [{}])
  {
    forall b | b in lent
      ensures exists i :: 0 <= i < |owners + [{}]| && b in (owners + [{}])[i]
    {
      var i :| 0 <= i < |owners| && b in owners[i];
      assert b in (owners + [{}])[i];
    }
  }

  ghost predicate AllSound(pool: Pool, streams: seq<Stream>)
    reads pool, pool.lent, streams, set s | s in streams :: s.pool, set s, b | s in streams && b in s.pool.lent :: b
  {
    && (forall i :: 0 <= i < |streams| ==> streams[i].pool == pool && Sound(streams[i]))
    && (forall i, j :: 0 <= i < j < |streams| ==> streams[i] != streams[j])
  }

  ghost function Owners(streams: seq<Stream>): seq<set<Buffer>>
    reads streams
    requires forall i :: 0 <= i < |streams| ==> streams[i].Shape()
  {
    seq(|streams|, i requires 0 <= i < |streams| && streams[i].Shape() reads streams => streams[i].Owned())
  }

  /** Distinct streams on one pool, none owning a buffer of another, and every lent buffer owned. */
  ghost predicate Shared(pool: Pool, streams: seq<Stream>)
    reads pool, pool.lent, streams, set s | s in streams :: s.pool, set s, b | s in streams && b in s.pool.lent :: b
  {
    AllSound(pool, streams) && Exact(pool.lent, Owners(streams))
  }

  /** A stream whose own fields and buffers are left alone is as it was. */
  twostate lemma Untouched(s: Stream)
    requires old(Sound(s)) && unchanged(s) && s.pool.Valid()
    requires forall b :: b in old(s.Owned()) ==> b in s.pool.lent && b.data == old(b.data)
    ensures Sound(s) && HeldBy(s) == old(HeldBy(s)) && s.Owned() == old(s.Owned())
  {
  }

  /** One operation on stream k of many. */
  method PerformAt(pool: Pool, streams: seq<Stream>, k: nat, op: StreamOp)
    requires Shared(pool, streams) && k < |streams|
    modifies pool, pool.free, streams[k]
    ensures Shared(pool, streams)
    ensures forall i :: 0 <= i < |streams| ==>
              HeldBy(streams[i]) == if i == k then Moved(old(HeldBy(streams[i])), op) else old(HeldBy(streams[i]))
    ensures forall b :: b in pool.lent ==> b in old(pool.lent) || b in old(pool.free) || fresh(b)
    ensures forall b :: b in pool.free ==> b in old(pool.lent) || b in old(pool.free) || fresh(b)
  {
    ghost var lent, owners := pool.lent, Owners(streams);
    Perform(streams[k], op);
    forall i | 0 <= i < |streams| && i != k
      ensures Sound(streams[i]) && HeldBy(streams[i]) == old(HeldBy(streams[i]))
      ensures streams[i].Owned() == owners[i]
    {
      assert owners[i] !! owners[k] && owners[i] <= lent;
      Untouched(streams[i]);
    }
    ExactStays(lent, owners, pool.lent, Owners(streams), k);
  }

  datatype Tagged = Tagged(k: nat, op: StreamOp)

  /** What a run of operations on many streams makes of stream i: its own operations, in order. */
  function MovedAll(h: Held, ops: seq<Tagged>, i: nat): Held {
    if ops == [] then h
    else
      var before := MovedAll(h, ops[..|ops|-1], i);
      if ops[|ops|-1].k == i then Moved(before, ops[|ops|-1].op) else before
  }

  // ---- the body is the byte FIFO -------------------------------------------------------------------

  /** Stream i's share of a run, as operations on the byte FIFO. */
  function Ops(ops: seq<Tagged>, i: nat): seq<Op> {
    if ops == [] then []
    else
      var t := ops[|ops|-1];
      Ops(ops[..|ops|-1], i) + if t.k == i then Meaning(t.op) else []
  }

  function Meaning(op: StreamOp): seq<Op> {
    match op
    case Inbound(data, end) => (if data == [] then [] else [Push(data)]) + (if end then [Close] else [])
    case Read(n) => [Op.Read(n)]
    case Fail(e) => [Op.Fail(e)]
    case _ => []
  }

  /** Stream i is not closed, released or reused during the run. */
  predicate Undisturbed(ops: seq<Tagged>, i: nat) {
    forall t :: 0 <= t < |ops| && ops[t].k == i ==> ops[t].op.Inbound? || ops[t].op.Read? || ops[t].op.Fail?
  }

  lemma AfterOne(ops: seq<Op>, op: Op)
    ensures BodySpec.After(ops + [op]) == Apply(BodySpec.After(ops), op)
  {
    assert (ops + [op])[..|ops|] == ops;
  }

  lemma PushedThen(before: seq<Op>, data: Bytes)
    ensures BodySpec.After(before + if data == [] then [] else [Push(data)]) ==
            Arrive(BodySpec.After(before), data, false)
  {
    if data == [] {
      assert before + [] == before;
    } else {
      AfterOne(before, Push(data));
    }
  }

  lemma InboundMeans(before: seq<Op>, data: Bytes, end: bool)
    ensures BodySpec.After(before + Meaning(Inbound(data, end))) == Arrive(BodySpec.After(before), data, end)
  {
    var push: seq<Op> := if data == [] then [] else [Push(data)];
    PushedThen(before, data);
    if end {
      AfterOne(before + push, Close);
      Assoc(before, push, [Close]);
    } else {
      assert push + [] == push;
    }
  }

  lemma MeaningIs(before: seq<Op>, op: StreamOp)
    requires op.Inbound? || op.Read? || op.Fail?
    ensures Moved(Held(BodySpec.After(before), 0), op) == Held(BodySpec.After(before + Meaning(op)), 0)
  {
    match op {
      case Inbound(data, end) => InboundMeans(before, data, end);
      case Read(n) => AfterOne(before, Op.Read(n));
      case Fail(e) => AfterOne(before, Op.Fail(e));
    }
  }

  /** Whatever the other streams do, a new stream's body is the byte FIFO fed by its own operations, so all
      that is proved of the FIFO holds of it. */
  lemma {:induction false} PooledBodyIsFifo(ops: seq<Tagged>, i: nat)
    requires Undisturbed(ops, i)
    ensures MovedAll(Held(Empty(), 0), ops, i) == Held(BodySpec.After(Ops(ops, i)), 0)
  {
    if ops != [] {
      var init, t := ops[..|ops|-1], ops[|ops|-1];
      PooledBodyIsFifo(init, i);
      if t.k == i {
        MeaningIs(Ops(init, i), t.op);
      } else {
        assert Ops(init, i) + [] == Ops(init, i);
      }
    }
  }

  /** Any sequence of operations on any number of streams: ownership stays exact and exclusive, and no
      stream's body is touched by another stream's operations, however their buffers are reused. */
  method PerformAll(pool: Pool, streams: seq<Stream>, ops: seq<Tagged>)
    requires Shared(pool, streams)
    requires forall t :: 0 <= t < |ops| ==> ops[t].k < |streams|
    modifies pool, pool.free, pool.lent, streams
    ensures Shared(pool, streams)
    ensures forall i :: 0 <= i < |streams| ==> HeldBy(streams[i]) == MovedAll(old(HeldBy(streams[i])), ops, i)
  {
    for t := 0 to |ops|
      invariant Shared(pool, streams)
      invariant forall b :: b in pool.lent ==> b in old(pool.lent) || b in old(pool.free) || fresh(b)
      invariant forall b :: b in pool.free ==> b in old(pool.lent) || b in old(pool.free) || fresh(b)
      invariant forall i :: 0 <= i < |streams| ==> HeldBy(streams[i]) == MovedAll(old(HeldBy(streams[i])), ops[..t], i)
    {
      assert ops[..t+1][..t] == ops[..t];
      PerformAt(pool, streams, ops[t].k, ops[t].op);
    }
    assert ops[..|ops|] == ops;
  }

  /** A stream opened on the pool joins with an empty body and owns nothing. */
  method Open(pool: Pool, streams: seq<Stream>) returns (s: Stream)
    requires Shared(pool, streams)
    ensures fresh(s) && Sound(s) && HeldBy(s) == Held(Empty(), 0)
    ensures Shared(pool, streams + [s])
  {
    s := new Stream(pool);
    ghost var all, owners := streams + [s], Owners(streams);
    assert forall i :: 0 <= i < |streams| ==> all[i] == streams[i];
    assert AllSound(pool, all);
    assert Owners(all) == owners + [{}];
    ExactGrows(pool.lent, owners);
  }

  /** Where every run starts: a pool that has lent nothing. */
  method Start() returns (pool: Pool)
    ensures fresh(pool) && Shared(pool, [])
  {
    pool := new Pool();
  }
}
