/** The proxy opening streams toward a worker: identifier allocation, the peer's stream limit,
    refusal while draining, rollback, and the two nested registries. */
module OpenStream {

  import opened Numbers

  type uint32 = x: int | 0 <= x < TWO_32

  /** The framer writes no frame on a stream identifier of 2^31 or more. */
  const ID_LIMIT: int := 0x8000_0000

  /** How many identifiers are below that. */
  const MAX_STREAMS: nat := 0x4000_0000

  datatype Result = Opened(id: uint32) | RefusedDraining | RefusedSaturated | SendFailed

  /** conn and worker are the identifiers in the connection's and in the worker's registry; sent
      are the identifiers of the request HEADERS the framer wrote, in order; writerDead is whether the
      writer goroutine has ended, as it does at its first failed write. */
  datatype Tunnel = Tunnel(
    next: uint32,
    conn: set<uint32>,
    worker: set<uint32>,
    draining: bool,
    limit: uint32,
    sent: seq<uint32>,
    writerDead: bool,
    issued: nat)

  /** Open carries whether the transport would take the HEADERS frame. The worker's lock is held
      throughout openStream. A forwarder ends by removing its stream from the connection's registry and
      then from the worker's. */
  datatype Event =
    | Open(transportOk: bool)
    | WriterEnds
    | RemoveConn(id: uint32)
    | Deregister(id: uint32)
    | Drain
    | MaxStreams(limit: uint32)

  function Initial(): Tunnel {
    Tunnel(0, {}, {}, false, TWO_32 - 1, [], false, 0)
  }

  function NextId(next: uint32): uint32 {
    if next == 0 then 1 else if next + 2 < TWO_32 then next + 2 else next + 2 - TWO_32
  }

  /** The conversion uint32(n). */
  function Uint32(n: nat): uint32 {
    if n < TWO_32 then n else n % TWO_32
  }

  predicate Saturated(t: Tunnel) {
    Uint32(|t.worker|) >= t.limit
  }

  /** Whether the request HEADERS of stream id are written. */
  predicate Sends(t: Tunnel, id: uint32, transportOk: bool) {
    transportOk && !t.writerDead && id < ID_LIMIT
  }

  function OpenStep(t: Tunnel, transportOk: bool): (Tunnel, Result) {
    if t.draining then (t, RefusedDraining)
    else if Saturated(t) then (t, RefusedSaturated)
    else
      var id := NextId(t.next);
      var t1 := t.(next := id, issued := t.issued + 1);
      if Sends(t, id, transportOk) then
        (t1.(conn := t.conn + {id}, worker := t.worker + {id}, sent := t.sent + [id]), Opened(id))
      else
        (t1.(conn := t.conn + {id} - {id}, worker := t.worker + {id} - {id}, writerDead := true), SendFailed)
  }

  function Step(t: Tunnel, e: Event): Tunnel {
    match e
    case Open(ok) => OpenStep(t, ok).0
    case RemoveConn(id) => t.(conn := t.conn - {id})
    case Deregister(id) => if id in t.conn then t else t.(worker := t.worker - {id})
    case WriterEnds => t.(writerDead := true)
    case Drain => t.(draining := true)
    case MaxStreams(limit) => t.(limit := limit)
  }

  function After(es: seq<Event>): Tunnel {
    if es == [] then Initial() else Step(After(es[..|es|-1]), es[|es|-1])
  }

  // ---- identifiers --------------------------------------------------------------------------

  /** The k-th identifier, counting from 1: the odd numbers in order, modulo 2^32. */
  function KthId(k: nat): uint32 {
    if k == 0 then 0 else Uint32(2 * k - 1)
  }

  lemma {:induction false} NextIdIsKth(k: nat)
    ensures NextId(KthId(k)) == KthId(k + 1)
  {
    if k > 0 {
      var q := (2 * k - 1) / TWO_32;
      assert 2 * k - 1 == q * TWO_32 + KthId(k);
      if KthId(k) + 2 < TWO_32 {
        assert (2 * k + 1) == q * TWO_32 + (KthId(k) + 2);
      } else {
        assert (2 * k + 1) == (q + 1) * TWO_32 + (KthId(k) + 2 - TWO_32);
      }
    }
  }

  lemma {:induction false} IdsAreAllocatedInOrder(es: seq<Event>)
    ensures After(es).next == KthId(After(es).issued)
  {
    if es != [] {
      IdsAreAllocatedInOrder(es[..|es|-1]);
      StepAllocatesNext(After(es[..|es|-1]), es[|es|-1]);
    }
  }

  lemma StepAllocatesNext(t: Tunnel, e: Event)
    requires t.next == KthId(t.issued)
    ensures Step(t, e).next == KthId(Step(t, e).issued)
  {
    NextIdIsKth(t.issued);
  }

  /** An identifier is a legal stream identifier, odd and below 2^31, exactly for the first 2^30;
      and no identifier is given out twice before 2^31 of them. */
  lemma LegalIds(j: nat, k: nat)
    requires 1 <= j < k <= 0x8000_0000
    ensures KthId(k) == 2 * k - 1
    ensures KthId(k) < 0x8000_0000 <==> k <= 0x4000_0000
    ensures KthId(j) < KthId(k)
  {
  }

  /** Past that, identifiers come round again. */
  lemma IdsRepeat(k: nat)
    requires k >= 1
    ensures KthId(k + 0x8000_0000) == KthId(k)
  {
    assert 2 * (k + 0x8000_0000) - 1 == (2 * k - 1) + TWO_32;
  }

  // ---- registries ------------------------------------------------------------------------------

  /** sent are the first identifiers, as many as were sent: all of those issued, until the writer ends.
      Registered identifiers were issued, as long as none has come round again. */
  ghost predicate Regular(t: Tunnel) {
    && t.next == KthId(t.issued)
    && t.conn <= t.worker
    && |t.sent| <= MAX_STREAMS && (!t.writerDead ==> t.issued == |t.sent|)
    && (forall i :: 0 <= i < |t.sent| ==> t.sent[i] == 2 * i + 1)
    && (t.issued <= 0x8000_0000 ==> forall id :: id in t.worker ==> id <= t.next)
  }

  /** The next identifier is new until 2^31 have been issued, and legal until 2^30 have. */
  lemma FreshId(t: Tunnel)
    requires Regular(t)
    ensures NextId(t.next) == KthId(t.issued + 1)
    ensures t.issued < 0x8000_0000 ==> NextId(t.next) == 2 * t.issued + 1 && NextId(t.next) > t.next
    ensures t.issued <= MAX_STREAMS ==> (NextId(t.next) < ID_LIMIT <==> t.issued < MAX_STREAMS)
  {
    NextIdIsKth(t.issued);
    if 0 < t.issued < 0x8000_0000 {
      LegalIds(t.issued, t.issued + 1);
    }
  }

  lemma Smaller(a: set<uint32>, id: uint32)
    ensures |a - {id}| <= |a|
    ensures |a + {id} - {id}| <= |a|
    ensures |a + {id}| <= |a| + 1
  {
    if id in a {
      assert a + {id} == a && a - {id} <= a;
    } else {
      assert a - {id} == a && a + {id} - {id} == a;
    }
  }

  lemma StepKeepsRegular(t: Tunnel, e: Event)
    requires Regular(t)
    ensures Regular(Step(t, e))
  {
    FreshId(t);
  }

  lemma StepKeepsSmall(t: Tunnel, e: Event)
    requires |t.worker| <= |t.sent|
    ensures |Step(t, e).worker| <= |Step(t, e).sent|
  {
    Smaller(t.worker, NextId(t.next));
    if e.Deregister? {
      Smaller(t.worker, e.id);
    }
  }

  /** No more streams are registered than were ever sent, so the length fits in 32 bits. */
  lemma {:induction false} RegistryIsSmall(es: seq<Event>)
    ensures |After(es).worker| <= |After(es).sent|
  {
    if es != [] {
      RegistryIsSmall(es[..|es|-1]);
      StepKeepsSmall(After(es[..|es|-1]), es[|es|-1]);
    }
  }

  lemma {:induction false} RunsAreRegular(es: seq<Event>)
    ensures Regular(After(es))
  {
    if es != [] {
      RunsAreRegular(es[..|es|-1]);
      StepKeepsRegular(After(es[..|es|-1]), es[|es|-1]);
    }
  }

  /** In every run, of any length: the request HEADERS carry the identifiers 1, 3, 5 and so on, none
      skipped, so strictly ascending and all legal; and the connection's registry is within the
      worker's. */
  lemma HeadersAscend(es: seq<Event>)
    ensures var t := After(es);
            && (forall i :: 0 <= i < |t.sent| ==> t.sent[i] == 2 * i + 1 && t.sent[i] < ID_LIMIT)
            && (forall i, j :: 0 <= i < j < |t.sent| ==> t.sent[i] < t.sent[j])
            && t.conn <= t.worker
  {
    RunsAreRegular(es);
  }

  // ---- opening a stream ------------------------------------------------------------------------

  /** What an open comes to, in every reachable state, read off the registry, the limit and the writer: it
      is refused exactly while draining, or with as many streams registered as the limit allows;
      otherwise it succeeds exactly if the writer and the transport are alive and fewer than 2^30
      identifiers were issued. */
  lemma OpenSucceedsIff(es: seq<Event>, transportOk: bool)
    ensures var t := After(es);
            var r := OpenStep(t, transportOk).1;
            && (r == RefusedDraining <==> t.draining)
            && (r == RefusedSaturated <==> !t.draining && |t.worker| >= t.limit)
            && (r.Opened? <==>
                  !t.draining && |t.worker| < t.limit && transportOk && !t.writerDead && t.issued < MAX_STREAMS)
            && (r.Opened? ==> r.id == 2 * t.issued + 1)
  {
    RunsAreRegular(es);
    RegistryIsSmall(es);
    FreshId(After(es));
  }

  /** The last limit the peer set; none is 2^32 - 1. */
  function LastLimit(es: seq<Event>): uint32 {
    if es == [] then TWO_32 - 1
    else if es[|es|-1].MaxStreams? then es[|es|-1].limit else LastLimit(es[..|es|-1])
  }

  predicate ToldToDrain(es: seq<Event>) {
    es != [] && (ToldToDrain(es[..|es|-1]) || es[|es|-1] == Drain)
  }

  /** Stream id was opened and its forwarder has not taken it out of the connection's registry since. */
  predicate Registered(es: seq<Event>, id: uint32) {
    es != [] &&
    var before, e := es[..|es|-1], es[|es|-1];
    || (e.Open? && OpenStep(After(before), e.transportOk).1 == Opened(id))
    || (Registered(before, id) && e != RemoveConn(id))
  }

  lemma {:induction false} FlagsAreHistory(es: seq<Event>)
    ensures After(es).limit == LastLimit(es)
    ensures After(es).draining <==> ToldToDrain(es)
  {
    if es != [] {
      FlagsAreHistory(es[..|es|-1]);
      FlagsStep(After(es[..|es|-1]), es[|es|-1]);
    }
  }

  lemma FlagsStep(t: Tunnel, e: Event)
    ensures Step(t, e).limit == (if e.MaxStreams? then e.limit else t.limit)
    ensures Step(t, e).draining <==> t.draining || e == Drain
  {
  }

  lemma ConnStep(t: Tunnel, e: Event, id: uint32)
    requires Regular(t) && t.issued < 0x8000_0000
    ensures id in Step(t, e).conn <==>
            || (e.Open? && OpenStep(t, e.transportOk).1 == Opened(id))
            || (id in t.conn && e != RemoveConn(id))
  {
    FreshId(t);
  }

  /** Until identifiers run out the connection's registry is exactly the streams opened and not removed
      since. */
  lemma {:induction false} RegistryIsHistory(es: seq<Event>, id: uint32)
    requires After(es).issued < 0x8000_0000
    ensures id in After(es).conn <==> Registered(es, id)
  {
    if es != [] {
      var before := es[..|es|-1];
      IssuedGrows(After(before), es[|es|-1]);
      RegistryIsHistory(before, id);
      RunsAreRegular(before);
      ConnStep(After(before), es[|es|-1], id);
    }
  }

  lemma IssuedGrows(t: Tunnel, e: Event)
    ensures t.issued <= Step(t, e).issued
  {
  }

  /** No HEADERS are sent once the writer has ended. */
  lemma {:induction false} DeadWriterSendsNothing(es: seq<Event>, later: seq<Event>)
    requires After(es).writerDead
    ensures After(es + later).writerDead && After(es + later).sent == After(es).sent
  {
    if later == [] {
      assert es + later == es;
    } else {
      var before := es + later[..|later|-1];
      DeadWriterSendsNothing(es, later[..|later|-1]);
      assert (es + later)[..|es + later|-1] == before;
      DeadWriterStep(After(before), later[|later|-1]);
    }
  }

  lemma DeadWriterStep(t: Tunnel, e: Event)
    requires t.writerDead
    ensures Step(t, e).writerDead && Step(t, e).sent == t.sent
  {
  }

  /** A success adds one new identifier to both registries, within the peer's limit. */
  ghost predicate Clean(t: Tunnel, t': Tunnel, id: uint32) {
    && id !in t.worker && t'.worker == t.worker + {id} && t'.conn == t.conn + {id} && t'.sent == t.sent + [id]
    && (|t.worker| < TWO_32 ==> |t'.worker| <= t.limit)
  }

  /** And a failure, before or after the send, leaves both as they were. */
  ghost predicate AllOrNothing(t: Tunnel, transportOk: bool) {
    var (t', r) := OpenStep(t, transportOk);
    if r.Opened? then Clean(t, t', r.id) else t'.worker == t.worker && t'.conn == t.conn && t'.sent == t.sent
  }

  lemma AllOrNothingIfNew(t: Tunnel, transportOk: bool)
    requires t.conn <= t.worker
    ensures AllOrNothing(t, transportOk) <==> t.draining || Saturated(t) || NextId(t.next) !in t.worker
  {
    var id := NextId(t.next);
    if id !in t.worker {
      assert t.worker + {id} - {id} == t.worker;
      assert t.conn + {id} - {id} == t.conn;
    } else {
      assert id !in t.worker + {id} - {id};
    }
  }

  /** What one openStream does, in every reachable state: a success is always clean; and the call is all
      or nothing exactly if it refuses or the next identifier is not still registered, as it cannot be
      before 2^31 have been issued. */
  lemma OpenIsAllOrNothing(es: seq<Event>, transportOk: bool)
    ensures var t := After(es);
            var (t', r) := OpenStep(t, transportOk);
            && (r.Opened? ==> Clean(t, t', r.id))
            && (AllOrNothing(t, transportOk) <==> t.draining || Saturated(t) || NextId(t.next) !in t.worker)
            && (t.issued < 0x8000_0000 ==> AllOrNothing(t, transportOk))
  {
    var t := After(es);
    RunsAreRegular(es);
    FreshId(t);
    AllOrNothingIfNew(t, transportOk);
  }

  // ---- running out of identifiers --------------------------------------------------------------

  /** n streams were opened one at a time, as far as they could be. */
  ghost predicate Idle(t: Tunnel, n: nat) {
    && Regular(t) && t.issued == n && t.conn == {} && t.worker == {} && !t.draining && t.limit == TWO_32 - 1
    && |t.sent| == Min(n, MAX_STREAMS) && (t.writerDead <==> n > MAX_STREAMS)
  }

  lemma OneMoreStream(t: Tunnel, n: nat)
    requires Idle(t, n)
    ensures var id := NextId(t.next);
            Idle(Step(Step(Step(t, Open(true)), RemoveConn(id)), Deregister(id)), n + 1)
  {
    var id := NextId(t.next);
    FreshId(t);
    StepKeepsRegular(t, Open(true));
    StepKeepsRegular(Step(t, Open(true)), RemoveConn(id));
    StepKeepsRegular(Step(Step(t, Open(true)), RemoveConn(id)), Deregister(id));
  }

  lemma AfterSnoc(es: seq<Event>, e: Event)
    ensures After(es + [e]) == Step(After(es), e)
  {
    assert (es + [e])[..|es|] == es;
  }

  /** Every number of allocations is reached; on a transport that never fails the first 2^30 opens
      succeed, the next one is refused by the framer and ends the writer, and no later one succeeds. */
  lemma {:induction false} EveryCountIsReached(n: nat) returns (es: seq<Event>)
    ensures Idle(After(es), n)
  {
    if n == 0 {
      es := [];
    } else {
      var before := EveryCountIsReached(n - 1);
      var id := NextId(After(before).next);
      OneMoreStream(After(before), n - 1);
      AfterSnoc(before, Open(true));
      AfterSnoc(before + [Open(true)], RemoveConn(id));
      AfterSnoc(before + [Open(true)] + [RemoveConn(id)], Deregister(id));
      es := before + [Open(true)] + [RemoveConn(id)] + [Deregister(id)];
    }
  }

  /** The first stream is still open after n allocations, and the writer has ended since. */
  ghost predicate Holding(t: Tunnel, n: nat) {
    && t.issued == n && t.next == KthId(n) && t.conn == {1} && t.worker == {1} && !t.draining
    && t.limit == TWO_32 - 1 && (n > 1 ==> t.writerDead)
  }

  lemma OneMoreFails(t: Tunnel, n: nat)
    requires Holding(t, n) && 1 <= n < 0x8000_0000
    ensures Holding(Step(t, Open(false)), n + 1)
  {
    var id := NextId(t.next);
    NextIdIsKth(n);
    LegalIds(1, n + 1);
    assert {1} + {id} - {id} == {1};
  }

  lemma {:induction false} FirstStreamStays(n: nat) returns (es: seq<Event>)
    requires 1 <= n <= 0x8000_0000
    ensures Holding(After(es), n)
  {
    if n == 1 {
      es := [Open(true)];
      assert es[..0] == [];
    } else {
      var before := FirstStreamStays(n - 1);
      OneMoreFails(After(before), n - 1);
      AfterSnoc(before, Open(false));
      es := before + [Open(false)];
    }
  }

  /** A first stream that outlives 2^31 - 1 failed opens: the next open is given its identifier, fails
      like them, and its rollback drops the first stream from both registries. */
  lemma ReusedIdentifier(transportOk: bool) returns (es: seq<Event>)
    ensures var (t', r) := OpenStep(After(es), transportOk);
            1 in After(es).conn && r == SendFailed && 1 !in t'.conn && 1 !in t'.worker
    ensures !AllOrNothing(After(es), transportOk)
  {
    es := FirstStreamStays(0x8000_0000);
    NextIdIsKth(0x8000_0000);
    IdsRepeat(1);
    assert !Saturated(After(es));
  }

  // ---- the worker object ---------------------------------------------------------------------

  class Worker {
    var nextStreamID: uint32
    var connStreams: set<uint32>
    var streams: set<uint32>
    var draining: bool
    var peerMaxStreams: uint32
    var sent: seq<uint32>
    var writerDead: bool
    ghost var issued: nat

    ghost function View(): Tunnel
      reads this
    {
      Tunnel(nextStreamID, connStreams, streams, draining, peerMaxStreams, sent, writerDead, issued)
    }

    constructor ()
      ensures View() == Initial()
    {
      nextStreamID, connStreams, streams := 0, {}, {};
      draining, peerMaxStreams, sent, writerDead, issued := false, TWO_32 - 1, [], false, 0;
    }

    method NextStreamID() returns (id: uint32)
      modifies this`nextStreamID, this`issued
      ensures id == nextStreamID == NextId(old(nextStreamID)) && issued == old(issued) + 1
    {
      if nextStreamID == 0 {
        nextStreamID := 1;
      } else {
        nextStreamID := if nextStreamID + 2 < TWO_32 then nextStreamID + 2 else nextStreamID + 2 - TWO_32;
      }
      issued := issued + 1;
      id := nextStreamID;
    }

    /** SendRequestHeaders, through the writer goroutine and the framer. */
    method SendHeaders(id: uint32, transportOk: bool) returns (ok: bool)
      modifies this`sent, this`writerDead
      ensures ok <==> transportOk && !old(writerDead) && id < ID_LIMIT
      ensures if ok then sent == old(sent) + [id] && !writerDead else sent == old(sent) && writerDead
    {
      if writerDead {
        return false;
      }
      if id >= ID_LIMIT || !transportOk {
        writerDead := true;
        return false;
      }
      sent := sent + [id];
      return true;
    }

    method OpenStream(transportOk: bool) returns (r: Result)
      modifies this
      ensures (View(), r) == OpenStep(old(View()), transportOk)
    {
      if draining {
        return RefusedDraining;
      }
      if Uint32(|streams|) >= peerMaxStreams {
        return RefusedSaturated;
      }
      var id := NextStreamID();
      connStreams := connStreams + {id};
      streams := streams + {id};
      var ok := SendHeaders(id, transportOk);
      if !ok {
        streams := streams - {id};
        connStreams := connStreams - {id};
        return SendFailed;
      }
      return Opened(id);
    }

    /** How a forwarder ends. */
    method EndForward(id: uint32)
      modifies this`connStreams, this`streams
      ensures View() == Step(Step(old(View()), RemoveConn(id)), Deregister(id))
      ensures connStreams == old(connStreams) - {id} && streams == old(streams) - {id}
    {
      connStreams := connStreams - {id};
      streams := streams - {id};
    }
  }
}
