/** Both ends of one tunnel, each running the FlowControl code, joined by two FIFO byte-free
    frame channels (writer queue and wire together). The connection credit of each direction
    is conserved exactly; so is each stream's, for as long as both ends have it registered. */
module Conservation {
  import opened Numbers
  import opened FlowControl

  datatype Frame =
    | Headers(sid: StreamId)
    | Data(sid: StreamId, len: Size)
    | Update(sid: StreamId, inc: Size)
    | Rst(sid: StreamId)

  /** held are DATA chunks whose bytes Reserve has granted but SendData has not queued yet. */
  datatype End = End(credit: Credit, held: seq<Frame>)

  datatype Side = Proxy | Worker

  /** issued: identifiers the proxy has allocated; accepted: those the worker has registered,
      now or earlier. */
  datatype Net = Net(
    proxy: End,
    worker: End,
    toWorker: seq<Frame>,
    toProxy: seq<Frame>,
    issued: set<StreamId>,
    accepted: set<StreamId>)

  datatype Move =
    | OpenStream(sid: StreamId)                                        // proxy opens a stream, sends HEADERS
    | Ask(side: Side, thread: Thread, sid: StreamId, want: int32) // one Reserve pass
    | Emit(side: Side, k: nat)                                   // a granted chunk is queued
    | EmitEmpty(side: Side, sid: StreamId)                       // flush or END_STREAM
    | Deliver(side: Side)                                        // side handles the next frame
    | Close(side: Side, sid: StreamId)                           // RemoveStream

  function Start(): Net {
    var e := End(Initial(), []);
    Net(e, e, [], [], {}, {})
  }

  function AskStep(e: End, t: Thread, sid: StreamId, want: int32): End {
    var ev := Reserve(t, sid, want);
    End(Step(e.credit, ev), if Grant(e.credit, ev) > 0 then e.held + [Data(sid, Grant(e.credit, ev))] else e.held)
  }

  /** What a frame handler does: HandleInboundData, HandleWindowUpdate, or stream registration. */
  function Receive(side: Side, e: End, f: Frame): (End, seq<Frame>) {
    match f
    case Headers(sid) => if side.Worker? then (e.(credit := Step(e.credit, Open(sid))), []) else (e, [])
    case Data(sid, len) => (e, Replies(sid in e.credit.windows, sid, len))
    case Update(sid, inc) =>
      (e.(credit := Step(e.credit, if sid == 0 then ConnUpdate(inc) else StreamUpdate(sid, inc))), [])
    case Rst(_) => (e, [])
  }

  function Replies(registered: bool, sid: StreamId, len: Size): seq<Frame> {
    if len == 0 then []
    else [Update(0, len)] + [if registered then Update(sid, len) else Rst(sid)]
  }

  function Next(n: Net, m: Move): Net {
    match m
    case OpenStream(sid) =>
      if sid == 0 || sid in n.issued then n
      else n.(proxy := n.proxy.(credit := Step(n.proxy.credit, Open(sid))),
              toWorker := n.toWorker + [Headers(sid)], issued := n.issued + {sid})
    case Ask(Proxy, t, sid, want) => n.(proxy := AskStep(n.proxy, t, sid, want))
    case Ask(Worker, t, sid, want) => n.(worker := AskStep(n.worker, t, sid, want))
    case Emit(Proxy, k) =>
      if k >= |n.proxy.held| then n
      else n.(proxy := n.proxy.(held := n.proxy.held[..k] + n.proxy.held[k+1..]),
              toWorker := n.toWorker + [n.proxy.held[k]])
    case Emit(Worker, k) =>
      if k >= |n.worker.held| then n
      else n.(worker := n.worker.(held := n.worker.held[..k] + n.worker.held[k+1..]),
              toProxy := n.toProxy + [n.worker.held[k]])
    case EmitEmpty(Proxy, sid) =>
      if sid in n.proxy.credit.windows then n.(toWorker := n.toWorker + [Data(sid, 0)]) else n
    case EmitEmpty(Worker, sid) =>
      if sid in n.worker.credit.windows then n.(toProxy := n.toProxy + [Data(sid, 0)]) else n
    case Deliver(Worker) =>
      if n.toWorker == [] then n
      else
        var (e, replies) := Receive(Worker, n.worker, n.toWorker[0]);
        n.(worker := e, toWorker := n.toWorker[1..], toProxy := n.toProxy + replies,
           accepted := if n.toWorker[0].Headers? then n.accepted + {n.toWorker[0].sid} else n.accepted)
    case Deliver(Proxy) =>
      if n.toProxy == [] then n
      else
        var (e, replies) := Receive(Proxy, n.proxy, n.toProxy[0]);
        n.(proxy := e, toProxy := n.toProxy[1..], toWorker := n.toWorker + replies)
    case Close(Proxy, sid) => n.(proxy := n.proxy.(credit := Step(n.proxy.credit, Remove(sid))))
    case Close(Worker, sid) => n.(worker := n.worker.(credit := Step(n.worker.credit, Remove(sid))))
  }

  function Reach(moves: seq<Move>): Net {
    if moves == [] then Start() else Next(Reach(moves[..|moves|-1]), moves[|moves|-1])
  }

  // ---- sums over frames ---------------------------------------------------------

  datatype What = AllData | DataOn(s: StreamId) | CreditOn(s: StreamId) | HeadersOn(s: StreamId)

  function Weight(f: Frame, w: What): nat {
    match f
    case Data(sid, len) => if w == AllData || w == DataOn(sid) then len else 0
    case Update(sid, inc) => if w == CreditOn(sid) then inc else 0
    case Headers(sid) => if w == HeadersOn(sid) then 1 else 0
    case Rst(_) => 0
  }

  function Total(fs: seq<Frame>, w: What): nat {
    if fs == [] then 0 else Weight(fs[0], w) + Total(fs[1..], w)
  }

  lemma {:induction false} TotalAppend(a: seq<Frame>, b: seq<Frame>, w: What)
    ensures Total(a + b, w) == Total(a, w) + Total(b, w)
  {
    if a == [] {
      assert a + b == b;
    } else {
      assert (a + b)[1..] == a[1..] + b;
      TotalAppend(a[1..], b, w);
    }
  }

  lemma TotalSnoc(a: seq<Frame>, f: Frame, w: What)
    ensures Total(a + [f], w) == Total(a, w) + Weight(f, w)
  {
    TotalAppend(a, [f], w);
  }

  lemma TotalExtract(a: seq<Frame>, k: nat, w: What)
    requires k < |a|
    ensures Total(a, w) == Total(a[..k] + a[k+1..], w) + Weight(a[k], w)
  {
    assert a == a[..k] + ([a[k]] + a[k+1..]);
    TotalAppend(a[..k], [a[k]] + a[k+1..], w);
    TotalAppend([a[k]], a[k+1..], w);
    TotalAppend(a[..k], a[k+1..], w);
  }

  lemma {:induction false} TotalPositive(fs: seq<Frame>, w: What)
    ensures Total(fs, w) > 0 ==> exists f :: f in fs && Weight(f, w) > 0
  {
    if fs != [] && Weight(fs[0], w) == 0 {
      TotalPositive(fs[1..], w);
    }
  }

  // ---- connection credit --------------------------------------------------------

  /** Everything e's connection window has ever been, in one place: what is left, what is
      granted, what is on its way out, and what is on its way back. */
  function ConnTotal(e: End, outbound: seq<Frame>, inbound: seq<Frame>): int {
    e.credit.conn + Total(e.held, AllData) + Total(outbound, AllData) + Total(inbound, CreditOn(0))
  }

  ghost predicate ConnConserved(n: Net) {
    && ConnTotal(n.proxy, n.toWorker, n.toProxy) == DEFAULT_WINDOW
    && ConnTotal(n.worker, n.toProxy, n.toWorker) == DEFAULT_WINDOW
    && n.proxy.credit.conn >= 0 && n.worker.credit.conn >= 0
  }

  lemma AskKeepsConn(e: End, t: Thread, sid: StreamId, want: int32)
    requires e.credit.conn >= 0
    ensures var e' := AskStep(e, t, sid, want);
            && e'.credit.conn + Total(e'.held, AllData) == e.credit.conn + Total(e.held, AllData)
            && e'.credit.conn >= 0
  {
    var g := Grant(e.credit, Reserve(t, sid, want));
    if g > 0 {
      TotalSnoc(e.held, Data(sid, g), AllData);
    }
  }

  lemma RepliesTotal(registered: bool, sid: StreamId, len: Size, w: What)
    ensures Total(Replies(registered, sid, len), w) ==
              Weight(Update(0, len), w) + if registered then Weight(Update(sid, len), w) else 0
  {
    if len > 0 {
      TotalSnoc([Update(0, len)], if registered then Update(sid, len) else Rst(sid), w);
    }
  }

  /** Handling f moves as much from the inbound channel into my window, or into the credit I
      return, as f carried. */
  lemma ReceiveKeepsConn(side: Side, e: End, f: Frame)
    requires 0 !in e.credit.windows
    requires 0 <= e.credit.conn && e.credit.conn + Weight(f, CreditOn(0)) <= DEFAULT_WINDOW
    ensures var (e', replies) := Receive(side, e, f);
            && e'.credit.conn == e.credit.conn + Weight(f, CreditOn(0))
            && e'.held == e.held
            && Total(replies, AllData) == 0
            && Total(replies, CreditOn(0)) == Weight(f, AllData)
  {
    if f.Data? {
      RepliesTotal(f.sid in e.credit.windows, f.sid, f.len, AllData);
      RepliesTotal(f.sid in e.credit.windows, f.sid, f.len, CreditOn(0));
    }
  }

  lemma EmitKeepsConn(e: End, k: nat, outbound: seq<Frame>)
    requires k < |e.held|
    ensures Total(e.held[..k] + e.held[k+1..], AllData) + Total(outbound + [e.held[k]], AllData) ==
              Total(e.held, AllData) + Total(outbound, AllData)
    ensures Total(outbound + [e.held[k]], CreditOn(0)) == Total(outbound, CreditOn(0)) + Weight(e.held[k], CreditOn(0))
  {
    TotalExtract(e.held, k, AllData);
    TotalSnoc(outbound, e.held[k], AllData);
    TotalSnoc(outbound, e.held[k], CreditOn(0));
  }

  lemma DeliverKeepsConn(n: Net, side: Side)
    requires ConnConserved(n) && IdsOk(n)
    ensures ConnConserved(Next(n, Deliver(side)))
  {
    var inbound, e := if side.Worker? then n.toWorker else n.toProxy, if side.Worker? then n.worker else n.proxy;
    var outbound := if side.Worker? then n.toProxy else n.toWorker;
    if inbound != [] {
      ReceiveKeepsConn(side, e, inbound[0]);
      var replies := Receive(side, e, inbound[0]).1;
      TotalAppend(outbound, replies, AllData);
      TotalAppend(outbound, replies, CreditOn(0));
    }
  }

  lemma WeightlessKeepsConn(outbound: seq<Frame>, f: Frame)
    requires f.Headers? || (f.Data? && f.len == 0)
    ensures Total(outbound + [f], AllData) == Total(outbound, AllData)
    ensures Total(outbound + [f], CreditOn(0)) == Total(outbound, CreditOn(0))
  {
    TotalSnoc(outbound, f, AllData);
    TotalSnoc(outbound, f, CreditOn(0));
  }

  lemma EmitMoveKeepsConn(n: Net, side: Side, k: nat)
    requires ConnConserved(n) && IdsOk(n)
    ensures ConnConserved(Next(n, Emit(side, k)))
  {
    if side.Proxy? && k < |n.proxy.held| {
      assert n.proxy.held[k].Data?;
      EmitKeepsConn(n.proxy, k, n.toWorker);
    } else if side.Worker? && k < |n.worker.held| {
      assert n.worker.held[k].Data?;
      EmitKeepsConn(n.worker, k, n.toProxy);
    }
  }

  lemma MoveKeepsConn(n: Net, m: Move)
    requires ConnConserved(n) && IdsOk(n)
    ensures ConnConserved(Next(n, m))
  {
    match m {
      case OpenStream(sid) => WeightlessKeepsConn(n.toWorker, Headers(sid));
      case Ask(side, t, sid, want) =>
        AskKeepsConn(if side.Proxy? then n.proxy else n.worker, t, sid, want);
      case Emit(side, k) => EmitMoveKeepsConn(n, side, k);
      case EmitEmpty(side, sid) =>
        WeightlessKeepsConn(if side.Proxy? then n.toWorker else n.toProxy, Data(sid, 0));
      case Deliver(side) => DeliverKeepsConn(n, side);
      case Close(_, _) =>
    }
  }

  // ---- identifiers ----------------------------------------------------------------

  predicate KnownHeld(fs: seq<Frame>, ids: set<StreamId>) {
    forall f :: f in fs ==> f.Data? && f.sid in ids
  }

  predicate KnownToWorker(fs: seq<Frame>, issued: set<StreamId>, accepted: set<StreamId>) {
    forall f :: f in fs ==>
      match f
      case Headers(sid) => sid in issued
      case Data(sid, _) => sid in issued
      case Update(sid, _) => sid == 0 || sid in accepted
      case Rst(_) => true
  }

  predicate KnownToProxy(fs: seq<Frame>, accepted: set<StreamId>) {
    forall f :: f in fs ==>
      match f
      case Headers(_) => false
      case Data(sid, _) => sid in accepted
      case Update(sid, _) => sid == 0 || sid in accepted
      case Rst(_) => true
  }

  /** HEADERS go out before any DATA of the same stream. */
  ghost predicate HeadersFirst(fs: seq<Frame>) {
    forall i, j :: 0 <= i < j < |fs| && fs[i].Data? && fs[j].Headers? ==> fs[i].sid != fs[j].sid
  }

  /** The HEADERS frame that opens sid is still on its way to the worker. */
  predicate Pending(n: Net, sid: StreamId) {
    sid in n.issued && sid !in n.accepted
  }

  ghost predicate IdsOk(n: Net) {
    && 0 !in n.issued && n.accepted <= n.issued
    && n.proxy.credit.windows.Keys <= n.issued
    && n.worker.credit.windows.Keys <= n.accepted
    && n.proxy.credit.init == DEFAULT_WINDOW && n.worker.credit.init == DEFAULT_WINDOW
    && (forall sid :: Total(n.toWorker, HeadersOn(sid)) == if Pending(n, sid) then 1 else 0)
    && KnownHeld(n.proxy.held, n.issued)
    && KnownHeld(n.worker.held, n.accepted)
    && KnownToWorker(n.toWorker, n.issued, n.accepted)
    && KnownToProxy(n.toProxy, n.accepted)
    && HeadersFirst(n.toWorker)
  }

  lemma {:induction false} NoHeaders(fs: seq<Frame>, sid: StreamId)
    requires forall f :: f in fs ==> !f.Headers?
    ensures Total(fs, HeadersOn(sid)) == 0
  {
    if fs != [] {
      NoHeaders(fs[1..], sid);
    }
  }

  /** Appending frames without HEADERS, known to the worker, keeps everything about toWorker. */
  lemma AppendToWorker(n: Net, more: seq<Frame>)
    requires IdsOk(n)
    requires forall f :: f in more ==> !f.Headers?
    requires KnownToWorker(more, n.issued, n.accepted)
    ensures IdsOk(n.(toWorker := n.toWorker + more))
  {
    forall sid
      ensures Total(n.toWorker + more, HeadersOn(sid)) == Total(n.toWorker, HeadersOn(sid))
    {
      NoHeaders(more, sid);
      TotalAppend(n.toWorker, more, HeadersOn(sid));
    }
  }

  lemma OpenKeepsIds(n: Net, sid: StreamId)
    requires IdsOk(n)
    ensures IdsOk(Next(n, OpenStream(sid)))
  {
    if sid != 0 && sid !in n.issued {
      forall s
        ensures Total(n.toWorker + [Headers(sid)], HeadersOn(s)) ==
                Total(n.toWorker, HeadersOn(s)) + if s == sid then 1 else 0
      {
        TotalSnoc(n.toWorker, Headers(sid), HeadersOn(s));
      }
      assert forall i :: 0 <= i < |n.toWorker| && n.toWorker[i].Data? ==> n.toWorker[i] in n.toWorker;
    }
  }

  lemma DataArrivesAccepted(n: Net)
    requires IdsOk(n) && n.toWorker != [] && n.toWorker[0].Data?
    ensures n.toWorker[0].sid in n.accepted
  {
    var sid := n.toWorker[0].sid;
    assert n.toWorker[0] in n.toWorker;
    if sid !in n.accepted {
      assert Pending(n, sid);
      TotalPositive(n.toWorker, HeadersOn(sid));
      assert false;
    }
  }

  lemma LocalMoveKeepsIds(n: Net, m: Move)
    requires IdsOk(n) && (m.Ask? || m.Close?)
    ensures IdsOk(Next(n, m))
  {
  }

  lemma EmitKeepsIds(n: Net, m: Move)
    requires IdsOk(n) && (m.Emit? || m.EmitEmpty?)
    ensures IdsOk(Next(n, m))
  {
    match m {
      case Emit(Proxy, k) =>
        if k < |n.proxy.held| {
          assert n.proxy.held[k] in n.proxy.held;
          AppendToWorker(n, [n.proxy.held[k]]);
        }
      case Emit(Worker, k) =>
        if k < |n.worker.held| {
          assert n.worker.held[k] in n.worker.held;
        }
      case EmitEmpty(Proxy, sid) => if sid in n.proxy.credit.windows { AppendToWorker(n, [Data(sid, 0)]); }
      case EmitEmpty(Worker, sid) =>
    }
  }

  lemma DeliverToProxyKeepsIds(n: Net)
    requires IdsOk(n) && n.toProxy != []
    ensures IdsOk(Next(n, Deliver(Proxy)))
  {
    var f := n.toProxy[0];
    assert f in n.toProxy;
    var popped := n.(proxy := Receive(Proxy, n.proxy, f).0, toProxy := n.toProxy[1..]);
    assert forall g :: g in popped.toProxy ==> g in n.toProxy;
    assert popped.proxy.credit.windows.Keys == n.proxy.credit.windows.Keys;
    AppendToWorker(popped, Receive(Proxy, n.proxy, f).1);
  }

  lemma DeliverToWorkerKeepsIds(n: Net)
    requires IdsOk(n) && n.toWorker != []
    ensures IdsOk(Next(n, Deliver(Worker)))
  {
    var f, rest := n.toWorker[0], n.toWorker[1..];
    assert f in n.toWorker;
    assert HeadersFirst(rest);
    var n' := Next(n, Deliver(Worker));
    forall sid
      ensures Total(rest, HeadersOn(sid)) == if Pending(n', sid) then 1 else 0
    {
      assert Total(n.toWorker, HeadersOn(sid)) == Weight(f, HeadersOn(sid)) + Total(rest, HeadersOn(sid));
    }
    assert forall g :: g in rest ==> g in n.toWorker;
    assert KnownToWorker(rest, n'.issued, n'.accepted);
    assert KnownToProxy(n'.toProxy, n'.accepted);
  }

  // ---- stream credit ------------------------------------------------------------------

  function StreamTotal(e: End, outbound: seq<Frame>, inbound: seq<Frame>, sid: StreamId): int
    requires sid in e.credit.windows
  {
    e.credit.windows[sid] + Total(e.held, DataOn(sid)) + Total(outbound, DataOn(sid)) + Total(inbound, CreditOn(sid))
  }

  /** e's window for sid accounts for at most the initial window, and for all of it as long as
      the receiver has not dropped the stream. */
  ghost predicate Balanced(e: End, outbound: seq<Frame>, inbound: seq<Frame>, sid: StreamId, tight: bool) {
    sid in e.credit.windows ==>
      && 0 <= e.credit.windows[sid]
      && StreamTotal(e, outbound, inbound, sid) <= DEFAULT_WINDOW
      && (tight ==> StreamTotal(e, outbound, inbound, sid) == DEFAULT_WINDOW)
  }

  ghost predicate StreamConserved(n: Net, sid: StreamId) {
    && Balanced(n.proxy, n.toWorker, n.toProxy, sid, sid in n.worker.credit.windows || Pending(n, sid))
    && Balanced(n.worker, n.toProxy, n.toWorker, sid, sid in n.proxy.credit.windows)
  }

  lemma {:induction false} NothingOn(fs: seq<Frame>, w: What)
    requires forall f :: f in fs ==> Weight(f, w) == 0
    ensures Total(fs, w) == 0
  {
    TotalPositive(fs, w);
  }

  lemma OpenKeepsStream(n: Net, sid: StreamId, s: StreamId)
    requires IdsOk(n) && StreamConserved(n, s) && sid != 0 && sid !in n.issued
    ensures StreamConserved(Next(n, OpenStream(sid)), s)
  {
    TotalSnoc(n.toWorker, Headers(sid), DataOn(s));
    TotalSnoc(n.toWorker, Headers(sid), CreditOn(s));
    if s == sid {
      NothingOn(n.proxy.held, DataOn(s));
      NothingOn(n.toWorker, DataOn(s));
      NothingOn(n.toProxy, CreditOn(s));
    }
  }

  lemma AskKeepsStream(e: End, t: Thread, sid: StreamId, want: int32, s: StreamId)
    requires s in e.credit.windows && 0 <= e.credit.windows[s]
    ensures var e' := AskStep(e, t, sid, want);
            && s in e'.credit.windows && 0 <= e'.credit.windows[s]
            && e'.credit.windows[s] + Total(e'.held, DataOn(s)) == e.credit.windows[s] + Total(e.held, DataOn(s))
  {
    var g := Grant(e.credit, Reserve(t, sid, want));
    if g > 0 {
      TotalSnoc(e.held, Data(sid, g), DataOn(s));
    }
  }

  lemma EmitKeepsStream(e: End, k: nat, outbound: seq<Frame>, s: StreamId)
    requires k < |e.held| && e.held[k].Data?
    ensures Total(e.held[..k] + e.held[k+1..], DataOn(s)) + Total(outbound + [e.held[k]], DataOn(s)) ==
              Total(e.held, DataOn(s)) + Total(outbound, DataOn(s))
    ensures Total(outbound + [e.held[k]], CreditOn(s)) == Total(outbound, CreditOn(s))
  {
    TotalExtract(e.held, k, DataOn(s));
    TotalSnoc(outbound, e.held[k], DataOn(s));
    TotalSnoc(outbound, e.held[k], CreditOn(s));
  }

  /** The receiver's own window for s grows by the credit f carries; and it returns, as credit
      for s, exactly the DATA bytes f carries, if it has s registered. */
  lemma ReceiveKeepsStream(side: Side, e: End, f: Frame, s: StreamId)
    requires s != 0 && 0 !in e.credit.windows
    requires s in e.credit.windows ==>
               0 <= e.credit.windows[s] && e.credit.windows[s] + Weight(f, CreditOn(s)) <= DEFAULT_WINDOW
    ensures var (e', replies) := Receive(side, e, f);
            && e'.held == e.held
            && (s in e.credit.windows ==>
                  s in e'.credit.windows && e'.credit.windows[s] == e.credit.windows[s] + Weight(f, CreditOn(s)))
            && (s in e'.credit.windows && s !in e.credit.windows ==>
                  f == Headers(s) && side.Worker? && e'.credit.windows[s] == e.credit.init)
            && Total(replies, DataOn(s)) == 0
            && Total(replies, CreditOn(s)) == if s in e.credit.windows then Weight(f, DataOn(s)) else 0
  {
    if f.Data? {
      RepliesTotal(f.sid in e.credit.windows, f.sid, f.len, DataOn(s));
      RepliesTotal(f.sid in e.credit.windows, f.sid, f.len, CreditOn(s));
    }
  }

  lemma DeliverToProxyKeepsStream(n: Net, s: StreamId)
    requires IdsOk(n) && StreamConserved(n, s) && n.toProxy != [] && s != 0
    ensures StreamConserved(Next(n, Deliver(Proxy)), s)
  {
    var f := n.toProxy[0];
    assert f in n.toProxy;
    ReceiveKeepsStream(Proxy, n.proxy, f, s);
    var replies := Receive(Proxy, n.proxy, f).1;
    TotalAppend(n.toWorker, replies, DataOn(s));
    TotalAppend(n.toWorker, replies, CreditOn(s));
  }

  lemma DeliverToWorkerKeepsStream(n: Net, s: StreamId)
    requires IdsOk(n) && StreamConserved(n, s) && n.toWorker != [] && s != 0
    ensures StreamConserved(Next(n, Deliver(Worker)), s)
  {
    var f := n.toWorker[0];
    ReceiveKeepsStream(Worker, n.worker, f, s);
    var replies := Receive(Worker, n.worker, f).1;
    TotalAppend(n.toProxy, replies, DataOn(s));
    TotalAppend(n.toProxy, replies, CreditOn(s));
    if f.Data? {
      DataArrivesAccepted(n);
    }
    if f == Headers(s) && s !in n.worker.credit.windows {
      assert Pending(n, s);
      NothingOn(n.worker.held, DataOn(s));
      NothingOn(n.toProxy, DataOn(s));
      NothingOn(n.toWorker, CreditOn(s));
    }
  }

  lemma EmitMoveKeepsStream(n: Net, m: Move, s: StreamId)
    requires IdsOk(n) && StreamConserved(n, s) && (m.Emit? || m.EmitEmpty?)
    ensures StreamConserved(Next(n, m), s)
  {
    match m {
      case Emit(Proxy, k) =>
        if k < |n.proxy.held| {
          assert n.proxy.held[k] in n.proxy.held;
          EmitKeepsStream(n.proxy, k, n.toWorker, s);
        }
      case Emit(Worker, k) =>
        if k < |n.worker.held| {
          assert n.worker.held[k] in n.worker.held;
          EmitKeepsStream(n.worker, k, n.toProxy, s);
        }
      case EmitEmpty(side, sid) =>
        var outbound := if side.Proxy? then n.toWorker else n.toProxy;
        TotalSnoc(outbound, Data(sid, 0), DataOn(s));
        TotalSnoc(outbound, Data(sid, 0), CreditOn(s));
    }
  }

  lemma LocalMoveKeepsStream(n: Net, m: Move, s: StreamId)
    requires IdsOk(n) && StreamConserved(n, s) && (m.Ask? || m.Close?)
    ensures StreamConserved(Next(n, m), s)
  {
    match m {
      case Ask(Proxy, t, sid, want) =>
        if s in n.proxy.credit.windows { AskKeepsStream(n.proxy, t, sid, want, s); }
      case Ask(Worker, t, sid, want) =>
        if s in n.worker.credit.windows { AskKeepsStream(n.worker, t, sid, want, s); }
      case Close(_, _) =>
    }
  }

  ghost predicate Conserved(n: Net) {
    && IdsOk(n) && ConnConserved(n)
    && forall sid :: StreamConserved(n, sid)
  }

  lemma MoveKeepsIds(n: Net, m: Move)
    requires IdsOk(n)
    ensures IdsOk(Next(n, m))
  {
    match m {
      case OpenStream(sid) => OpenKeepsIds(n, sid);
      case Ask(_, _, _, _) => LocalMoveKeepsIds(n, m);
      case Close(_, _) => LocalMoveKeepsIds(n, m);
      case Emit(_, _) => EmitKeepsIds(n, m);
      case EmitEmpty(_, _) => EmitKeepsIds(n, m);
      case Deliver(Proxy) => if n.toProxy != [] { DeliverToProxyKeepsIds(n); }
      case Deliver(Worker) => if n.toWorker != [] { DeliverToWorkerKeepsIds(n); }
    }
  }

  lemma MoveKeepsStream(n: Net, m: Move, s: StreamId)
    requires IdsOk(n) && StreamConserved(n, s)
    ensures StreamConserved(Next(n, m), s)
  {
    match m {
      case OpenStream(sid) => if sid != 0 && sid !in n.issued { OpenKeepsStream(n, sid, s); }
      case Ask(_, _, _, _) => LocalMoveKeepsStream(n, m, s);
      case Close(_, _) => LocalMoveKeepsStream(n, m, s);
      case Emit(_, _) => EmitMoveKeepsStream(n, m, s);
      case EmitEmpty(_, _) => EmitMoveKeepsStream(n, m, s);
      case Deliver(Proxy) => if n.toProxy != [] && s != 0 { DeliverToProxyKeepsStream(n, s); }
      case Deliver(Worker) => if n.toWorker != [] && s != 0 { DeliverToWorkerKeepsStream(n, s); }
    }
  }

  /** In every reachable state of the two ends, connection credit is conserved exactly in both
      directions and every stream's credit as `StreamConserved` says. */
  lemma {:induction false} CreditIsConserved(moves: seq<Move>)
    ensures Conserved(Reach(moves))
  {
    if moves != [] {
      var n, m := Reach(moves[..|moves|-1]), moves[|moves|-1];
      CreditIsConserved(moves[..|moves|-1]);
      MoveKeepsIds(n, m);
      MoveKeepsConn(n, m);
      forall s ensures StreamConserved(Next(n, m), s) {
        MoveKeepsStream(n, m, s);
      }
    }
  }

  function EndOf(n: Net, side: Side): End {
    if side.Proxy? then n.proxy else n.worker
  }

  /** Every frame that carries, or is about to carry, some of side's credit. */
  function InTransit(n: Net, side: Side): seq<Frame> {
    EndOf(n, side).held + n.toWorker + n.toProxy
  }

  /** The end that receives what side sends has the stream registered, or is about to. */
  predicate Reaches(n: Net, side: Side, sid: StreamId) {
    if side.Proxy? then sid in n.worker.credit.windows || Pending(n, sid) else sid in n.proxy.credit.windows
  }

  /** Consequences in every reachable state, for both ends: windows stay within [0, 65535], so
      no addition ever overflows; an exhausted connection window has credit in granted
      chunks, DATA or WINDOW_UPDATE frames; and so has an exhausted stream window while the
      other end has the stream, or the HEADERS that open it are on their way. */
  lemma WindowsNeverOverflow(moves: seq<Move>, side: Side, sid: StreamId)
    ensures var n := Reach(moves);
            var e := EndOf(n, side).credit;
            && 0 <= e.conn <= DEFAULT_WINDOW
            && (sid in e.windows ==> 0 <= e.windows[sid] <= DEFAULT_WINDOW)
            && (e.conn == 0 ==>
                  exists f :: f in InTransit(n, side) && Weight(f, AllData) + Weight(f, CreditOn(0)) > 0)
            && (sid in e.windows && Reaches(n, side, sid) && e.windows[sid] == 0 ==>
                  exists f :: f in InTransit(n, side) && Weight(f, DataOn(sid)) + Weight(f, CreditOn(sid)) > 0)
  {
    CreditIsConserved(moves);
    var n := Reach(moves);
    assert StreamConserved(n, sid);
    var (outbound, inbound) := if side.Proxy? then (n.toWorker, n.toProxy) else (n.toProxy, n.toWorker);
    TotalPositive(EndOf(n, side).held, AllData);
    TotalPositive(outbound, AllData);
    TotalPositive(inbound, CreditOn(0));
    TotalPositive(EndOf(n, side).held, DataOn(sid));
    TotalPositive(outbound, DataOn(sid));
    TotalPositive(inbound, CreditOn(sid));
  }

  lemma ReachSnoc(moves: seq<Move>, m: Move)
    ensures Reach(moves + [m]) == Next(Reach(moves), m)
  {
    assert (moves + [m])[..|moves|] == moves;
  }

  /** A registered stream with its whole window free on an otherwise quiet tunnel, dropped by the worker. */
  lemma Dropped() returns (moves: seq<Move>)
    ensures var n := Reach(moves);
            && n.toWorker == [] && n.toProxy == [] && n.issued == {1} && n.accepted == {1}
            && n.proxy == End(Initial().(windows := map[1 := DEFAULT_WINDOW]), [])
            && n.worker == End(Initial(), [])
  {
    moves := [];
    ReachSnoc([], OpenStream(1));
    ReachSnoc([OpenStream(1)], Deliver(Worker));
    ReachSnoc([OpenStream(1), Deliver(Worker)], Close(Worker, 1));
    assert [] + [OpenStream(1)] == [OpenStream(1)];
    assert [OpenStream(1)] + [Deliver(Worker)] == [OpenStream(1), Deliver(Worker)];
    moves := [OpenStream(1), Deliver(Worker)] + [Close(Worker, 1)];
    var n1 := Reach([OpenStream(1)]);
    assert n1.toWorker == [Headers(1)] && n1.proxy.credit.windows == map[1 := DEFAULT_WINDOW];
    var n2 := Reach([OpenStream(1), Deliver(Worker)]);
    assert n2.toWorker == [] && n2.toProxy == [] && n2.worker.credit.windows == map[1 := DEFAULT_WINDOW];
    assert map[1 := DEFAULT_WINDOW] - {1} == map[];
  }

  /** The proxy spends the whole window on it, and the worker returns the connection's share alone. */
  lemma SpendsAll(n: Net)
    requires n.toWorker == [] && n.toProxy == []
    requires n.proxy == End(Initial().(windows := map[1 := DEFAULT_WINDOW]), []) && n.worker == End(Initial(), [])
    ensures var n1 := Next(Next(n, Ask(Proxy, 0, 1, DEFAULT_WINDOW)), Emit(Proxy, 0));
            && n1.toWorker == [Data(1, DEFAULT_WINDOW)] && n1.toProxy == [] && n1.proxy.held == []
            && n1.proxy.credit.windows == map[1 := 0] && n1.worker == n.worker
  {
    var e := Next(n, Ask(Proxy, 0, 1, DEFAULT_WINDOW)).proxy;
    assert Grant(n.proxy.credit, Reserve(0, 1, DEFAULT_WINDOW)) == DEFAULT_WINDOW;
    assert e.held == [Data(1, DEFAULT_WINDOW)];
    assert e.credit.windows == map[1 := 0];
    assert e.held[..0] + e.held[1..] == [];
  }

  lemma ReturnsNothing(n: Net)
    requires n.toWorker == [Data(1, DEFAULT_WINDOW)] && n.toProxy == [] && 1 !in n.worker.credit.windows
    ensures var n1 := Next(Next(Next(n, Deliver(Worker)), Deliver(Proxy)), Deliver(Proxy));
            && n1.toWorker == [] && n1.toProxy == [] && n1.proxy.held == n.proxy.held
            && n1.proxy.credit.windows == n.proxy.credit.windows
  {
    var n1 := Next(n, Deliver(Worker));
    assert n1.toProxy == [Update(0, DEFAULT_WINDOW), Rst(1)] && n1.toWorker == [];
    var n2 := Next(n1, Deliver(Proxy));
    assert n2.toProxy == [Rst(1)] && n2.proxy.credit.windows == n.proxy.credit.windows;
  }

  /** Without the other end the credit is gone: a run in which the proxy's window for a stream that the
      worker has dropped is exhausted and nothing at all is in transit. */
  lemma WindowOfADroppedStream() returns (moves: seq<Move>)
    ensures var n := Reach(moves);
            && 1 in n.proxy.credit.windows && n.proxy.credit.windows[1] == 0
            && !Reaches(n, Proxy, 1) && InTransit(n, Proxy) == []
  {
    var m0 := Dropped();
    SpendsAll(Reach(m0));
    var m2 := m0 + [Ask(Proxy, 0, 1, DEFAULT_WINDOW)] + [Emit(Proxy, 0)];
    ReachSnoc(m0, Ask(Proxy, 0, 1, DEFAULT_WINDOW));
    ReachSnoc(m0 + [Ask(Proxy, 0, 1, DEFAULT_WINDOW)], Emit(Proxy, 0));
    ReturnsNothing(Reach(m2));
    ReachSnoc(m2, Deliver(Worker));
    ReachSnoc(m2 + [Deliver(Worker)], Deliver(Proxy));
    ReachSnoc(m2 + [Deliver(Worker)] + [Deliver(Proxy)], Deliver(Proxy));
    moves := m2 + [Deliver(Worker)] + [Deliver(Proxy)] + [Deliver(Proxy)];
  }
}
