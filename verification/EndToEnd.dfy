/** One response from the handler's Write to the proxy's body reader: the response writer, the
    shared FIFO of frames (writer goroutine and wire) carrying other streams too, inbound
    dispatch, and the body queue. */
module EndToEnd {
  import opened HttpFrames
  import opened ResponseSpec
  import opened ResponseProof
  import BodySpec

  type StreamId = nat

  datatype Tagged = Tagged(sid: StreamId, frame: Frame)

  /** started is whether the handler has made a call; wire holds the frames sent and not yet dispatched;
      handled are this stream's frames the proxy has dispatched; accepted and got are the body bytes the
      handler was told went out, and the reader was given. */
  datatype Sys = Sys(
    writer: Writer,
    started: bool,
    finished: bool,
    wire: seq<Tagged>,
    handled: seq<Frame>,
    body: BodySpec.Body,
    accepted: Bytes,
    got: Bytes)

  datatype Event =
    | Handler(call: Call)
    | HandlerEnds(outcome: Outcome)
    | OtherStream(sid: StreamId, frame: Frame)
    | Dispatch
    | Read(n: nat)
    | Teardown

  function Start(isHead: bool, budget: nat): Sys {
    Sys(Fresh(isHead, budget), false, false, [], [], BodySpec.Empty(), [], [])
  }

  /** The body bytes a call reports as written on a response that carries a body. */
  function Accepted(w: Writer, c: Call): Bytes {
    if c.Write? && !DoCall(w, c).noBody then
      var n := DoWrite(w, c.chunks, c.unsent).1;
      var p := Flatten(c.chunks) + c.unsent;
      if n <= |p| then p[..n] else []
    else []
  }

  function Finish(w: Writer, o: Outcome): Writer {
    match o
    case Return(dataDone) => AfterReturn(w, dataDone)
    case Panic => AfterPanic(w)
    case BadPath => Reset(w, ProtocolError)
  }

  function Tag(sid: StreamId, fs: seq<Frame>): seq<Tagged> {
    seq(|fs|, i requires 0 <= i < |fs| => Tagged(sid, fs[i]))
  }

  /** Inbound dispatch of one of this stream's frames: HandleInboundData, deliverResponse and
      HandleRSTStream, as far as the body is concerned. */
  function Dispatched(b: BodySpec.Body, f: Frame): BodySpec.Body {
    match f
    case Headers(_, _, end) => if end then BodySpec.Apply(b, BodySpec.Close) else b
    case Data(p, end) => BodySpec.Arrive(b, p, end)
    case Rst(_) => BodySpec.Apply(b, BodySpec.Fail(BodySpec.StreamReset))
  }

  function Step(s: Sys, sid: StreamId, e: Event): Sys {
    match e
    case Handler(c) =>
      if s.finished then s
      else
        var w := DoCall(s.writer, c);
        s.(writer := w, started := true, wire := s.wire + NewFrames(sid, s.writer, w),
           accepted := s.accepted + Accepted(s.writer, c))
    case HandlerEnds(o) =>
      if s.finished || (o.BadPath? && s.started) then s  // the path is checked before the handler runs
      else
        var w := Finish(s.writer, o);
        s.(writer := w, wire := s.wire + NewFrames(sid, s.writer, w), finished := true)
    case OtherStream(other, f) => if other == sid then s else s.(wire := s.wire + [Tagged(other, f)])
    case Dispatch =>
      if s.wire == [] then s
      else if s.wire[0].sid != sid then s.(wire := s.wire[1..])
      else
        s.(wire := s.wire[1..], handled := s.handled + [s.wire[0].frame],
           body := Dispatched(s.body, s.wire[0].frame))
    case Read(n) =>
      s.(body := BodySpec.ReadStep(s.body, n).0, got := s.got + BodySpec.Output(s.body, BodySpec.Op.Read(n)))
    case Teardown => s.(body := BodySpec.Apply(s.body, BodySpec.Fail(BodySpec.ConnClosed)))
  }

  /** The frames w' has sent beyond those of w. */
  function NewFrames(sid: StreamId, w: Writer, w': Writer): seq<Tagged> {
    if |w.frames| <= |w'.frames| then Tag(sid, w'.frames[|w.frames|..]) else []
  }

  function Run(isHead: bool, budget: nat, sid: StreamId, es: seq<Event>): Sys {
    if es == [] then Start(isHead, budget)
    else Step(Run(isHead, budget, sid, es[..|es|-1]), sid, es[|es|-1])
  }

  /** This stream's frames on the wire, in order. */
  function Mine(wire: seq<Tagged>, sid: StreamId): seq<Frame> {
    if wire == [] then []
    else (if wire[0].sid == sid then [wire[0].frame] else []) + Mine(wire[1..], sid)
  }

  lemma {:induction false} MineAppend(a: seq<Tagged>, b: seq<Tagged>, sid: StreamId)
    ensures Mine(a + b, sid) == Mine(a, sid) + Mine(b, sid)
  {
    if a == [] {
      assert a + b == b;
    } else {
      assert (a + b)[1..] == a[1..] + b;
      MineAppend(a[1..], b, sid);
      Assoc(if a[0].sid == sid then [a[0].frame] else [], Mine(a[1..], sid), Mine(b, sid));
    }
  }

  lemma {:induction false} MineTagged(sid: StreamId, fs: seq<Frame>)
    ensures Mine(Tag(sid, fs), sid) == fs
  {
    if fs != [] {
      assert Tag(sid, fs)[1..] == Tag(sid, fs[1..]);
      MineTagged(sid, fs[1..]);
      assert [fs[0]] + fs[1..] == fs;
    }
  }

  // ---- what the writer contributes -------------------------------------------------------

  /** w' has sent everything w has, and no further payload. */
  ghost predicate Extends(w: Writer, w': Writer) {
    w.frames <= w'.frames && Payload(w'.frames) == Payload(w.frames)
  }

  lemma SendExtends(w: Writer, f: Frame)
    requires f.Data? ==> f.payload == []
    ensures Extends(w, Send(w, f).0)
  {
    Snoc(w.frames, f);
  }

  lemma SendFinalExtends(w: Writer, end: bool)
    ensures Extends(w, SendFinal(w, end).0)
  {
    if !w.wroteHeaders {
      var w1 := Prepare(w).(wroteHeaders := true);
      SendExtends(w1, Headers(w1.status, w1.header, end));
    }
  }

  lemma WriteHeaderExtends(w: Writer, code: int)
    ensures Extends(w, DoWriteHeader(w, code))
  {
    SendExtends(w, Headers(code, w.header.(length := Absent), false));
  }

  lemma FlushExtends(w: Writer)
    ensures Extends(w, DoFlush(w))
  {
    var w1 := Prepare(w);
    SendFinalExtends(w1, false);
    SendExtends(SendFinal(w1, false).0, Data([], false));
  }

  lemma WriteExtends(w: Writer, chunks: seq<Bytes>, unsent: Bytes)
    ensures w.frames <= DoWrite(w, chunks, unsent).0.frames
  {
    SendFinalExtends(Prepare(w), false);
  }

  /** Handler calls only add frames, and the payload grows by exactly what was accepted. */
  lemma CallExtends(w: Writer, c: Call)
    requires Tracks(w)
    ensures w.frames <= DoCall(w, c).frames
    ensures Payload(DoCall(w, c).frames) == Payload(w.frames) + Accepted(w, c)
  {
    match c {
      case SetHeader(_) =>
      case WriteHeader(code) => WriteHeaderExtends(w, code);
      case Write(chunks, unsent) =>
        WriteTracks(w, chunks, unsent);
        WriteExtends(w, chunks, unsent);
      case Flush => FlushExtends(w);
    }
  }

  lemma ResetExtends(w: Writer, code: Code)
    ensures Extends(w, Reset(w, code))
  {
    Snoc(w.frames, Rst(code));
  }

  lemma EndStreamExtends(w: Writer)
    ensures Extends(w, DoEndStream(w).0)
  {
    SendFinalExtends(Prepare(w), true);
    SendExtends(Prepare(w), Data([], true));
  }

  lemma ReturnExtends(w: Writer, dataDone: bool)
    ensures Extends(w, AfterReturn(w, dataDone))
  {
    EndStreamExtends(w);
    ResetExtends(w, InternalError);
    ResetExtends(DoEndStream(w).0, InternalError);
    ResetExtends(DoEndStream(w).0, NoError);
  }

  lemma FinishExtends(w: Writer, o: Outcome)
    ensures Extends(w, Finish(w, o))
  {
    match o {
      case Return(dataDone) => ReturnExtends(w, dataDone);
      case Panic =>
        ResetExtends(w, InternalError);
        SendFinalExtends(w.(status := 500, header := w.header.(length := Absent), declared := -1), true);
      case BadPath => ResetExtends(w, ProtocolError);
    }
  }

  // ---- sequences of frames ----------------------------------------------------------------

  lemma {:induction false} PayloadAppend(a: seq<Frame>, b: seq<Frame>)
    ensures Payload(a + b) == Payload(a) + Payload(b)
  {
    if b == [] {
      assert a + b == a;
    } else {
      PayloadAppend(a, b[..|b|-1]);
      assert (a + b)[..|a + b|-1] == a + b[..|b|-1];
      Assoc(Payload(a), Payload(b[..|b|-1]), if b[|b|-1].Data? then b[|b|-1].payload else []);
    }
  }

  lemma {:induction false} EndStaysSent(a: seq<Frame>, b: seq<Frame>)
    requires EndSent(a)
    ensures EndSent(a + b)
  {
    if b == [] {
      assert a + b == a;
    } else {
      EndStaysSent(a, b[..|b|-1]);
      assert (a + b)[..|a + b|-1] == a + b[..|b|-1];
    }
  }

  /** In a well-formed response nothing but a reset follows END_STREAM. */
  lemma {:induction false} NothingAfterEnd(a: seq<Frame>, b: seq<Frame>)
    requires PhaseOf(a + b) != Malformed && EndSent(a)
    ensures Payload(b) == []
    ensures PhaseOf(a + b) == Ended || PhaseOf(a + b) == Closed
  {
    if b == [] {
      assert a + b == a;
      PhaseFacts(a);
    } else {
      var b1, f := b[..|b|-1], b[|b|-1];
      assert b == b1 + [f];
      assert a + b == (a + b1) + [f];
      Snoc(a + b1, f);
      Snoc(b1, f);
      NothingAfterEnd(a, b1);
      assert f.Rst?;
    }
  }

  // ---- the invariant ------------------------------------------------------------------------

  ghost predicate Sender(s: Sys) {
    && (if s.finished then PhaseOf(s.writer.frames) != Malformed else Tracks(s.writer))
    && s.accepted == Payload(s.writer.frames)
  }

  ghost predicate Channel(s: Sys, sid: StreamId) {
    s.writer.frames == s.handled + Mine(s.wire, sid)
  }

  ghost predicate Receiver(s: Sys) {
    && s.got + BodySpec.Unread(s.body) == Payload(s.handled)
    && (s.body.done && s.body.err == None ==> EndSent(s.handled))
  }

  lemma ChannelGrows(handled: seq<Frame>, wire: seq<Tagged>, sid: StreamId, more: seq<Frame>)
    ensures handled + Mine(wire, sid) + more == handled + Mine(wire + Tag(sid, more), sid)
  {
    MineTagged(sid, more);
    MineAppend(wire, Tag(sid, more), sid);
    Assoc(handled, Mine(wire, sid), more);
  }

  lemma SendKeepsChannel(s: Sys, sid: StreamId, w: Writer)
    requires Channel(s, sid) && s.writer.frames <= w.frames
    ensures w.frames == s.handled + Mine(s.wire + NewFrames(sid, s.writer, w), sid)
  {
    var more := w.frames[|s.writer.frames|..];
    assert w.frames == s.writer.frames + more;
    ChannelGrows(s.handled, s.wire, sid, more);
  }

  lemma HandlerKeeps(s: Sys, sid: StreamId, c: Call)
    requires Sender(s) && Channel(s, sid) && !s.finished
    ensures Sender(Step(s, sid, Handler(c))) && Channel(Step(s, sid, Handler(c)), sid)
  {
    CallTracks(s.writer, c);
    CallExtends(s.writer, c);
    SendKeepsChannel(s, sid, DoCall(s.writer, c));
  }

  lemma HandlerEndKeeps(s: Sys, sid: StreamId, o: Outcome)
    requires Sender(s) && Channel(s, sid) && !s.finished
    ensures Sender(Step(s, sid, HandlerEnds(o))) && Channel(Step(s, sid, HandlerEnds(o)), sid)
  {
    FinishExtends(s.writer, o);
    SendKeepsChannel(s, sid, Finish(s.writer, o));
    match o {
      case Return(dataDone) => AfterReturnIsProper(s.writer, dataDone);
      case Panic => AfterPanicIsProper(s.writer);
      case BadPath =>
        TracksIsWellSized(s.writer);
        ErrorResetIsProper(s.writer, ProtocolError);
    }
  }

  lemma DispatchedUnread(b: BodySpec.Body, f: Frame)
    ensures BodySpec.Unread(Dispatched(b, f)) == BodySpec.Unread(b) + (if f.Data? then f.payload else [])
  {
    if f.Data? {
      BodySpec.ArriveUnread(b, f.payload, f.end);
    }
  }

  lemma DispatchKeepsChannel(s: Sys, sid: StreamId)
    requires Channel(s, sid) && s.wire != []
    ensures Channel(Step(s, sid, Dispatch), sid)
  {
    Assoc(s.handled, [s.wire[0].frame], Mine(s.wire[1..], sid));
  }

  lemma DispatchKeepsReceiver(s: Sys, sid: StreamId)
    requires Receiver(s) && s.wire != []
    ensures Receiver(Step(s, sid, Dispatch))
  {
    var f := s.wire[0].frame;
    if s.wire[0].sid == sid {
      DispatchedUnread(s.body, f);
      Snoc(s.handled, f);
      Assoc(s.got, BodySpec.Unread(s.body), if f.Data? then f.payload else []);
    }
  }

  lemma OtherKeeps(s: Sys, sid: StreamId, e: Event)
    requires Sender(s) && Channel(s, sid) && Receiver(s) && (e.OtherStream? || e.Read? || e.Teardown?)
    ensures var s' := Step(s, sid, e);
            Sender(s') && Channel(s', sid) && Receiver(s')
  {
    match e {
      case OtherStream(other, f) => MineAppend(s.wire, [Tagged(other, f)], sid);
      case Read(n) =>
        BodySpec.ReadTakesPrefix(s.body, n);
        Assoc(s.got, BodySpec.Output(s.body, BodySpec.Op.Read(n)), BodySpec.Unread(BodySpec.ReadStep(s.body, n).0));
      case Teardown =>
    }
  }

  lemma {:induction false} RunKeeps(isHead: bool, budget: nat, sid: StreamId, es: seq<Event>)
    ensures var s := Run(isHead, budget, sid, es);
            Sender(s) && Channel(s, sid) && Receiver(s)
  {
    if es == [] {
      CallsTrack(isHead, budget, []);
    } else {
      var s, e := Run(isHead, budget, sid, es[..|es|-1]), es[|es|-1];
      RunKeeps(isHead, budget, sid, es[..|es|-1]);
      match e {
        case Handler(c) => if !s.finished { HandlerKeeps(s, sid, c); }
        case HandlerEnds(o) => if !s.finished { HandlerEndKeeps(s, sid, o); }
        case Dispatch => if s.wire != [] { DispatchKeepsChannel(s, sid); DispatchKeepsReceiver(s, sid); }
        case OtherStream(_, _) => OtherKeeps(s, sid, e);
        case Read(_) => OtherKeeps(s, sid, e);
        case Teardown => OtherKeeps(s, sid, e);
      }
    }
  }

  /** In every run, what the reader has been given is a prefix of what the handler's writes
      accepted. When a read reports the end of the body, the handler has finished and the reader
      has everything; and so it has when a read reports a failure after END_STREAM arrived. */
  lemma BodyArrivesIntact(isHead: bool, budget: nat, sid: StreamId, es: seq<Event>, n: nat)
    ensures var s := Run(isHead, budget, sid, es);
            var r := BodySpec.ReadStep(s.body, n).1;
            && s.got <= s.accepted
            && (r.Got? ==> s.got + r.bytes <= s.accepted)
            && (r.Eof? ==> s.got == s.accepted && s.finished)
            && (r.Failed? && EndSent(s.handled) ==> s.got == s.accepted && s.finished)
  {
    RunKeeps(isHead, budget, sid, es);
    var s := Run(isHead, budget, sid, es);
    var coming := Mine(s.wire, sid);
    PayloadAppend(s.handled, coming);
    BodySpec.ReadTakesPrefix(s.body, n);
    if EndSent(s.handled) {
      EndMeansComplete(s, sid);
    }
  }

  /** The wire runs dry: a run can be continued by dispatching what is on it, and nothing else. */
  lemma {:induction false} WireRunsDry(isHead: bool, budget: nat, sid: StreamId, es: seq<Event>)
    returns (all: seq<Event>)
    ensures var s, s' := Run(isHead, budget, sid, es), Run(isHead, budget, sid, all);
            && all == es + seq(|s.wire|, _ => Dispatch)
            && s'.wire == [] && s'.writer == s.writer && s'.accepted == s.accepted && s'.got == s.got
    decreases |Run(isHead, budget, sid, es).wire|
  {
    var s := Run(isHead, budget, sid, es);
    if s.wire == [] {
      all := es;
      assert all == es + seq(0, _ => Dispatch);
    } else {
      var next := es + [Dispatch];
      RunSnoc(isHead, budget, sid, es, Dispatch);
      all := WireRunsDry(isHead, budget, sid, next);
      assert all == es + seq(|s.wire|, _ => Dispatch);
    }
  }

  /** Nothing is held back: once everything sent has been dispatched, as many reads as the body asks for,
      of any positive sizes, give the reader all that the handler's writes accepted. */
  lemma EverythingArrives(isHead: bool, budget: nat, sid: StreamId, es: seq<Event>, ns: seq<nat>)
    requires var s := Run(isHead, budget, sid, es);
             Mine(s.wire, sid) == [] && |ns| >= BodySpec.Work(s.body)
    requires forall i :: 0 <= i < |ns| ==> ns[i] > 0
    ensures var s := Run(isHead, budget, sid, es);
            s.got + BodySpec.ReadAll(s.body, ns).1 == s.accepted
  {
    var s := Run(isHead, budget, sid, es);
    RunKeeps(isHead, budget, sid, es);
    BodySpec.ReadsGiveAll(s.body, ns);
    assert s.handled + [] == s.handled;
  }

  lemma EndMeansComplete(s: Sys, sid: StreamId)
    requires Sender(s) && Channel(s, sid) && Receiver(s) && EndSent(s.handled)
    ensures s.finished && Payload(Mine(s.wire, sid)) == []
  {
    EndStaysSent(s.handled, Mine(s.wire, sid));
    NothingAfterEnd(s.handled, Mine(s.wire, sid));
  }

  // ---- when the reader is told the end -----------------------------------------------------------

  predicate HasReset(fs: seq<Frame>) {
    fs != [] && (HasReset(fs[..|fs|-1]) || fs[|fs|-1].Rst?)
  }

  /** The connection was torn down during the run. */
  predicate Torn(es: seq<Event>) {
    es != [] && (Torn(es[..|es|-1]) || es[|es|-1] == Teardown)
  }

  /** The body is finished by END_STREAM, a reset or teardown, and failed by the last two. */
  ghost predicate Flagged(body: BodySpec.Body, handled: seq<Frame>, torn: bool) {
    && (body.done <==> EndSent(handled) || HasReset(handled) || torn)
    && (body.err.Some? <==> HasReset(handled) || torn)
  }

  lemma DispatchKeepsFlags(body: BodySpec.Body, handled: seq<Frame>, f: Frame, torn: bool)
    requires Flagged(body, handled, torn)
    ensures Flagged(Dispatched(body, f), handled + [f], torn)
  {
    assert (handled + [f])[..|handled|] == handled;
  }

  lemma StepKeepsFlags(s: Sys, sid: StreamId, e: Event, torn: bool)
    requires Flagged(s.body, s.handled, torn)
    ensures Flagged(Step(s, sid, e).body, Step(s, sid, e).handled, torn || e == Teardown)
  {
    match e {
      case Handler(_) => assert Step(s, sid, e).body == s.body;
      case HandlerEnds(_) => assert Step(s, sid, e).body == s.body;
      case OtherStream(_, _) => assert Step(s, sid, e).body == s.body;
      case Dispatch => if s.wire != [] { DispatchKeepsFlags(s.body, s.handled, s.wire[0].frame, torn); }
      case Read(n) => assert BodySpec.ReadStep(s.body, n).0.done == s.body.done;
      case Teardown =>
    }
  }

  lemma {:induction false} RunKeepsFlags(isHead: bool, budget: nat, sid: StreamId, es: seq<Event>)
    ensures var s := Run(isHead, budget, sid, es);
            Flagged(s.body, s.handled, Torn(es))
  {
    if es != [] {
      var before, e := es[..|es|-1], es[|es|-1];
      RunKeepsFlags(isHead, budget, sid, before);
      StepKeepsFlags(Run(isHead, budget, sid, before), sid, e, Torn(before));
    }
  }

  /** A read reports the end exactly if nothing is left to read, END_STREAM was dispatched, and neither a
      reset of the stream nor the teardown of the connection came in. */
  lemma EofIff(isHead: bool, budget: nat, sid: StreamId, es: seq<Event>, n: nat)
    ensures var s := Run(isHead, budget, sid, es);
            BodySpec.ReadStep(s.body, n).1.Eof? <==>
              && s.body.buf == [] && s.body.chunks == []
              && EndSent(s.handled) && !HasReset(s.handled) && !Torn(es)
  {
    RunKeepsFlags(isHead, budget, sid, es);
  }

  /** So a complete response need not be read to an end: a handler that returns while the request body is
      still arriving completes the response and then resets the stream, and if both frames are
      dispatched before the next read, that read reports the reset. */
  lemma CompleteResponseCanReadAsReset(sid: StreamId, n: nat)
    ensures var s := Run(false, 2, sid, [HandlerEnds(Return(false)), Dispatch, Dispatch]);
            && s.handled == [Headers(200, Header(Absent, map[]), true), Rst(NoError)]
            && BodySpec.ReadStep(s.body, n).1 == BodySpec.Failed(BodySpec.StreamReset)
  {
    var end := HandlerEnds(Return(false));
    RunSnoc(false, 2, sid, [], end);
    RunSnoc(false, 2, sid, [end], Dispatch);
    RunSnoc(false, 2, sid, [end, Dispatch], Dispatch);
    assert [] + [end] == [end] && [end] + [Dispatch] == [end, Dispatch];
    assert [end, Dispatch] + [Dispatch] == [end, Dispatch, Dispatch];
    CompleteThenReset(sid);
    DispatchBoth(Step(Start(false, 2), sid, end), sid, Header(Absent, map[]));
  }

  lemma DispatchBoth(s: Sys, sid: StreamId, h: Header)
    requires s.wire == [Tagged(sid, Headers(200, h, true)), Tagged(sid, Rst(NoError))]
    requires s.handled == [] && s.body == BodySpec.Empty()
    ensures var s2 := Step(Step(s, sid, Dispatch), sid, Dispatch);
            && s2.handled == [Headers(200, h, true), Rst(NoError)]
            && s2.body == BodySpec.Body([], [], true, Some(BodySpec.StreamReset))
  {
    var s1 := Step(s, sid, Dispatch);
    assert s1.wire == [Tagged(sid, Rst(NoError))] && s1.handled == [Headers(200, h, true)];
  }

  lemma RunSnoc(isHead: bool, budget: nat, sid: StreamId, es: seq<Event>, e: Event)
    ensures Run(isHead, budget, sid, es + [e]) == Step(Run(isHead, budget, sid, es), sid, e)
  {
    assert (es + [e])[..|es|] == es;
  }

  lemma CompleteThenReset(sid: StreamId)
    ensures var s := Step(Start(false, 2), sid, HandlerEnds(Return(false)));
            && s.wire == [Tagged(sid, Headers(200, Header(Absent, map[]), true)), Tagged(sid, Rst(NoError))]
            && s.handled == [] && s.body == BodySpec.Empty()
  {
    assert Finish(Fresh(false, 2), Return(false)).frames
        == [Headers(200, Header(Absent, map[]), true), Rst(NoError)];
  }
}
