/** A stream body as its reader sees it: a byte FIFO fed by DATA frames and closed by END_STREAM
    or by a failure. */
module BodySpec {
  import opened Numbers
  import opened HttpFrames

  datatype Error = StreamReset | ConnClosed

  /** chunks are queued DATA payloads; buf is what is left of the chunk being read. */
  datatype Body = Body(chunks: seq<Bytes>, buf: Bytes, done: bool, err: Option<Error>)

  datatype Result = Got(bytes: Bytes) | Eof | Failed(err: Error) | Wait

  datatype Op = Push(chunk: Bytes) | Close | Fail(err: Error) | Read(n: nat)

  function Empty(): Body {
    Body([], [], false, None)
  }

  function Unread(b: Body): Bytes {
    b.buf + Flatten(b.chunks)
  }

  /** One Read into a buffer of n bytes. Wait is a park on the condition variable. */
  function ReadStep(b: Body, n: nat): (Body, Result) {
    if b.buf != [] then
      var k := Min(n, |b.buf|);
      (b.(buf := b.buf[k..]), Got(b.buf[..k]))
    else if b.chunks == [] then
      (b, if !b.done then Wait else if b.err.Some? then Failed(b.err.value) else Eof)
    else
      var c := b.chunks[0];
      var k := Min(n, |c|);
      (b.(chunks := b.chunks[1..], buf := c[k..]), Got(c[..k]))
  }

  function Apply(b: Body, op: Op): Body {
    match op
    case Push(c) => b.(chunks := b.chunks + [c])
    case Close => b.(done := true)
    case Fail(e) => b.(done := true, err := if b.err.Some? then b.err else Some(e))
    case Read(n) => ReadStep(b, n).0
  }

  /** A DATA frame reaching a registered stream: its data is pushed, if any, and END_STREAM closes. */
  function Arrive(b: Body, data: Bytes, end: bool): Body {
    var pushed := if data == [] then b else Apply(b, Push(data));
    if end then Apply(pushed, Close) else pushed
  }

  /** Bytes an operation hands to the reader. */
  function Output(b: Body, op: Op): Bytes {
    if op.Read? && ReadStep(b, op.n).1.Got? then ReadStep(b, op.n).1.bytes else []
  }

  function After(ops: seq<Op>): Body {
    if ops == [] then Empty() else Apply(After(ops[..|ops|-1]), ops[|ops|-1])
  }

  function Pushed(ops: seq<Op>): Bytes {
    if ops == [] then []
    else Pushed(ops[..|ops|-1]) + Input(ops[|ops|-1])
  }

  function Delivered(ops: seq<Op>): Bytes {
    if ops == [] then []
    else Delivered(ops[..|ops|-1]) + Output(After(ops[..|ops|-1]), ops[|ops|-1])
  }

  /** A read takes a prefix of what is unread, in order, and loses nothing. */
  lemma ReadTakesPrefix(b: Body, n: nat)
    ensures Output(b, Read(n)) + Unread(ReadStep(b, n).0) == Unread(b)
    ensures |Output(b, Read(n))| <= n
  {
    if b.buf == [] && b.chunks != [] {
      assert b.chunks == [b.chunks[0]] + b.chunks[1..];
      FlattenCons(b.chunks[0], b.chunks[1..]);
    }
  }

  function Input(op: Op): Bytes {
    if op.Push? then op.chunk else []
  }

  lemma OpConserves(b: Body, op: Op)
    ensures Output(b, op) + Unread(Apply(b, op)) == Unread(b) + Input(op)
  {
    match op {
      case Push(c) => FlattenSnoc(b.chunks, c);
      case Read(n) => ReadTakesPrefix(b, n);
      case Close =>
      case Fail(_) =>
    }
  }

  lemma ArriveUnread(b: Body, data: Bytes, end: bool)
    ensures Unread(Arrive(b, data, end)) == Unread(b) + data
  {
    OpConserves(b, Push(data));
  }

  /** Whatever the interleaving of pushes, reads, close and failures: the bytes delivered so far
      followed by the bytes unread are exactly the bytes pushed. */
  lemma {:induction false} Fifo(ops: seq<Op>)
    ensures Delivered(ops) + Unread(After(ops)) == Pushed(ops)
  {
    if ops != [] {
      var before, op := ops[..|ops|-1], ops[|ops|-1];
      var b := After(before);
      Fifo(before);
      OpConserves(b, op);
      Reassociate(Delivered(before), Output(b, op), Unread(Apply(b, op)), Unread(b), Input(op));
    }
  }

  lemma Reassociate(d: Bytes, o: Bytes, u': Bytes, u: Bytes, i: Bytes)
    requires o + u' == u + i
    ensures d + o + u' == d + u + i
  {
    assert d + o + u' == d + (o + u');
  }

  /** The first failure reported, if any. */
  function FirstFailure(ops: seq<Op>): Option<Error> {
    if ops == [] then None
    else
      var before := FirstFailure(ops[..|ops|-1]);
      if before.Some? then before
      else if ops[|ops|-1].Fail? then Some(ops[|ops|-1].err) else None
  }

  predicate Finished(ops: seq<Op>) {
    exists op :: op in ops && (op.Close? || op.Fail?)
  }

  lemma {:induction false} FlagsTrack(ops: seq<Op>)
    ensures After(ops).done <==> Finished(ops)
    ensures After(ops).err == FirstFailure(ops)
  {
    if ops != [] {
      var before, op := ops[..|ops|-1], ops[|ops|-1];
      FlagsTrack(before);
      assert ops == before + [op];
    }
  }

  /** The reader is told the end (or the first failure) only after everything pushed has been
      delivered, and waits only while the body is unfinished. */
  lemma DrainedBeforeEnd(ops: seq<Op>, n: nat)
    ensures var r := ReadStep(After(ops), n).1;
            && (r.Eof? ==> Delivered(ops) == Pushed(ops) && Finished(ops) && FirstFailure(ops) == None)
            && (r.Failed? ==> Delivered(ops) == Pushed(ops) && FirstFailure(ops) == Some(r.err))
            && (r.Wait? ==> Delivered(ops) == Pushed(ops) && !Finished(ops))
            && (r.Got? ==> Delivered(ops) + r.bytes <= Pushed(ops))
  {
    Fifo(ops);
    FlagsTrack(ops);
    ReadTakesPrefix(After(ops), n);
  }

  // ---- reads get on -----------------------------------------------------------------------

  /** The bytes a read takes from: what is left of the current chunk, or else the oldest chunk. */
  function Front(b: Body): Bytes {
    if b.buf != [] then b.buf else if b.chunks != [] then b.chunks[0] else []
  }

  /** A read that finds anything queued is given as much of the front as fits its buffer. Without
      anything it waits, ends or fails as the flags say. */
  lemma ReadGives(b: Body, n: nat)
    ensures var r := ReadStep(b, n).1;
            if b.buf != [] || b.chunks != [] then r == Got(Front(b)[..Min(n, |Front(b)|)])
            else r == if !b.done then Wait else if b.err.Some? then Failed(b.err.value) else Eof
  {
  }

  /** How many reads a body can take before it runs dry. */
  function Work(b: Body): nat {
    |Unread(b)| + |b.chunks|
  }

  lemma ReadWorks(b: Body, n: nat)
    requires n > 0
    ensures Work(ReadStep(b, n).0) < Work(b) || (b.buf == [] && b.chunks == [] && ReadStep(b, n).0 == b)
  {
    ReadTakesPrefix(b, n);
  }

  /** The bytes of reads of these sizes, one after the other, and the body they leave. */
  function ReadAll(b: Body, ns: seq<nat>): (Body, Bytes)
    decreases |ns|
  {
    if ns == [] then (b, [])
    else
      var (last, rest) := ReadAll(ReadStep(b, ns[0]).0, ns[1..]);
      (last, Output(b, Read(ns[0])) + rest)
  }

  lemma {:induction false} ReadsGiveAll(b: Body, ns: seq<nat>)
    requires forall i :: 0 <= i < |ns| ==> ns[i] > 0
    requires |ns| >= Work(b)
    ensures ReadAll(b, ns) == (b.(buf := [], chunks := []), Unread(b))
    decreases |ns|
  {
    if ns != [] {
      var b1 := ReadStep(b, ns[0]).0;
      ReadWorks(b, ns[0]);
      ReadTakesPrefix(b, ns[0]);
      ReadsGiveAll(b1, ns[1..]);
      assert b1.(buf := [], chunks := []) == b.(buf := [], chunks := []);
    }
  }

  /** In every run: Work more reads, of any positive sizes, deliver everything pushed that was not
      delivered yet, in order; the read after them waits, ends or fails. */
  lemma ReadsDeliverAll(ops: seq<Op>, ns: seq<nat>, n: nat)
    requires forall i :: 0 <= i < |ns| ==> ns[i] > 0
    requires |ns| >= Work(After(ops))
    ensures var (b, bytes) := ReadAll(After(ops), ns);
            && Delivered(ops) + bytes == Pushed(ops)
            && !ReadStep(b, n).1.Got?
  {
    Fifo(ops);
    ReadsGiveAll(After(ops), ns);
  }

  // ---- wake-ups -------------------------------------------------------------------------

  /** The queue together with its condition variable. Notifiers have released the lock and not
      signalled yet: PushData, CloseData and FailBody signal after unlocking. */
  datatype Cond = Cond(body: Body, parked: bool, notifiers: nat)

  datatype CondEvent =
    | Locked(op: Op)  // the critical section of PushData, CloseData or FailBody
    | Notify          // its Signal or Broadcast
    | Pass(n: nat)    // one pass of the reader's wait loop

  function CondStep(c: Cond, e: CondEvent): Cond {
    match e
    case Locked(op) => if op.Read? then c else c.(body := Apply(c.body, op), notifiers := c.notifiers + 1)
    case Notify => if c.notifiers == 0 then c else c.(parked := false, notifiers := c.notifiers - 1)
    case Pass(n) =>
      if c.parked then c
      else
        var (b, r) := ReadStep(c.body, n);
        c.(body := b, parked := r.Wait?)
  }

  function CondAfter(es: seq<CondEvent>): Cond {
    if es == [] then Cond(Empty(), false, 0) else CondStep(CondAfter(es[..|es|-1]), es[|es|-1])
  }

  /** A parked reader has an empty, unfinished body, unless a notifier is on its way: signalling
      outside the lock loses no wake-up. */
  lemma {:induction false} NoLostSignal(es: seq<CondEvent>)
    ensures var c := CondAfter(es);
            c.parked ==> c.notifiers > 0 || (Unread(c.body) == [] && !c.body.done)
  {
    if es != [] {
      NoLostSignal(es[..|es|-1]);
      ReadTakesPrefix(CondAfter(es[..|es|-1]).body, 0);
    }
  }
}
