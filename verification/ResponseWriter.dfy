/** The response writer as an object whose fields each handler call updates, and serveStream
    driving it. Every method is proved to compute its ResponseSpec function, so the theorems
    of ResponseProof are about these methods. */
module ResponseWriter {
  import opened Numbers
  import opened ChunkLoop
  import opened HttpFrames
  import opened ResponseSpec
  import opened ResponseProof

  /** The connection's writer goroutine, as seen by one stream. */
  class Wire {
    var frames: seq<Frame>
    var budget: nat  // sends left before the goroutine dies

    constructor (budget: nat)
      ensures frames == [] && this.budget == budget
    {
      frames := [];
      this.budget := budget;
    }

    method Submit(f: Frame) returns (ok: bool)
      modifies this
      ensures ok <==> old(budget) > 0
      ensures ok ==> frames == old(frames) + [f] && budget == old(budget) - 1
      ensures !ok ==> frames == old(frames) && budget == 0
    {
      if budget == 0 {
        return false;
      }
      frames := frames + [f];
      budget := budget - 1;
      return true;
    }
  }

  /** What a handler does, with the environment it meets: the frame size and the credit each
      Reserve finds. Running out of credit entries means the connection was marked dead. */
  datatype Act =
    | SetHeader(header: Header)
    | WriteHeader(code: int)
    | Write(p: Bytes, maxFrame: int32, credits: seq<nat>)
    | Flush

  ghost predicate Matches(act: Act, c: Call) {
    match act
    case SetHeader(h) => c == Call.SetHeader(h)
    case WriteHeader(code) => c == Call.WriteHeader(code)
    case Write(p, _, _) => c.Write? && Flatten(c.chunks) + c.unsent == p
    case Flush => c == Call.Flush
  }

  lemma OneMoreChunk(before: seq<Frame>, p: Bytes, total: nat, sent: seq<Bytes>, chunk: Bytes)
    requires total + |chunk| <= |p| && chunk == p[total..total + |chunk|] && Flatten(sent) == p[..total]
    ensures Flatten(sent + [chunk]) == p[..total + |chunk|]
    ensures before + DataFrames(sent + [chunk]) == before + DataFrames(sent) + [Data(chunk, false)]
  {
    FlattenSnoc(sent, chunk);
    DataFramesSnoc(before, sent, chunk);
    assert p[..total] + chunk == p[..total + |chunk|];
  }

  class Response {
    const wire: Wire
    const isHead: bool
    var header: Header
    var status: int
    var prepared: bool
    var wroteHeaders: bool
    var noBody: bool
    var declaredCL: int
    var written: nat
    var clViolated: bool
    var err: Failure

    constructor (wire: Wire, isHead: bool)
      ensures this.wire == wire && this.isHead == isHead
      ensures View() == Fresh(isHead, wire.budget).(frames := wire.frames)
    {
      this.wire, this.isHead := wire, isHead;
      header, status, prepared, wroteHeaders, noBody := Header(Absent, map[]), 0, false, false, false;
      declaredCL, written, clViolated, err := 0, 0, false, Fine;
    }

    ghost function View(): Writer
      reads this, wire
    {
      Writer(isHead, header, status, prepared, wroteHeaders, noBody, declaredCL, written, clViolated, err,
             wire.frames, wire.budget)
    }

    method WriteHeader(statusCode: int)
      modifies this`status, this`err, wire
      ensures View() == DoWriteHeader(old(View()), statusCode)
    {
      if prepared || err != Fine {
        return;
      }
      if 100 <= statusCode <= 199 {
        if status == 0 {
          WriteInformational(statusCode);
        }
        return;
      }
      status := statusCode;
    }

    method WriteInformational(code: int)
      requires 100 <= code <= 199 && !prepared && err == Fine && status == 0
      modifies this`err, wire
      ensures View() == DoWriteHeader(old(View()), code)
    {
      if code == 101 {
        return;
      }
      var h := header;
      if h.length != Absent {
        h := h.(length := Absent);
      }
      var ok := wire.Submit(Headers(code, h, false));
      if !ok {
        err := Transport;
      }
    }

    method Prepare()
      modifies this
      ensures View() == ResponseSpec.Prepare(old(View()))
    {
      if prepared {
        return;
      }
      prepared := true;
      if status == 0 {
        status := 200;
      }
      noBody := isHead || !BodyAllowed(status);
      declaredCL := -1;
      match header.length {
        case Readable(v) => declaredCL := v;
        case Unreadable(_) => header := header.(length := Absent);
        case Absent =>
      }
    }

    method WriteHeaders(endStream: bool) returns (ok: bool)
      modifies this, wire
      ensures (View(), ok) == SendFinal(old(View()), endStream)
    {
      if wroteHeaders {
        return true;
      }
      Prepare();
      wroteHeaders := true;
      ok := wire.Submit(Headers(status, header, endStream));
      if !ok {
        err := Transport;
      }
    }

    method Flush()
      modifies this, wire
      ensures View() == DoFlush(old(View()))
    {
      if err != Fine {
        return;
      }
      Prepare();
      if noBody {
        return;
      }
      if !wroteHeaders {
        var sent := WriteHeaders(false);
        if !sent {
          return;
        }
      }
      var ok := wire.Submit(Data([], false));
      if !ok {
        err := Transport;
      }
    }

    /** One turn of the chunk loop: k turns came before it. It fails if the connection dies while it
        waits for credit, or the transport does not take the frame. */
    method SendChunk(rest: Bytes, limit: int32, credits: seq<nat>, k: nat, ghost size: nat) returns (ok: bool, got: nat)
      requires limit > 0 && rest != [] && |rest| <= size && (|rest| > MAX_INT32 <==> size > MAX_INT32)
      requires |rest| == LeftAt(size, limit, credits, k)
      modifies this`err, this`written, wire
      ensures got <= |rest| && (size > MAX_INT32 ==> |rest| - got > MAX_INT32)
      ensures ok ==> |rest| - got == LeftAt(size, limit, credits, k + 1)
      ensures ok ==> FitAt(rest[..got], k, size, limit, credits)
      ensures ok ==> wire.frames == old(wire.frames) + [Data(rest[..got], false)] && wire.budget == old(wire.budget) - 1
      ensures ok ==> written == old(written) + got && err == old(err)
      ensures !ok ==> wire.frames == old(wire.frames) && written == old(written) && err == Transport
      ensures !ok ==> wire.budget == old(wire.budget) && (wire.budget == 0 || k >= |credits|)
    {
      var want := Want(|rest|, limit);
      got := 0;
      if want > 0 && k >= |credits| {
        err := Transport;
        return false, got;
      }
      got := Piece(|rest|, limit, if k < |credits| then credits[k] else 0);
      if |rest| > MAX_INT32 {
        BigTurn(|rest|, limit, if k < |credits| then credits[k] else 0);
      }
      ok := wire.Submit(Data(rest[..got], false));
      if !ok {
        err := Transport;
        return;
      }
      written := written + got;
    }

    /** The chunk loop of Write: it sends chunks, in order, up to the end of the slice or to the first
        failure. */
    method WriteChunks(p: Bytes, limit: int32, credits: seq<nat>) returns (total: nat, ghost sent: seq<Bytes>)
      requires limit > 0 && err == Fine
      modifies this`err, this`written, wire
      ensures |sent| <= old(wire.budget)
      ensures Flatten(sent) <= p && total == |Flatten(sent)|
      ensures total == |p| || |sent| == old(wire.budget) || |sent| >= |credits|
      ensures View() == SendChunks(old(View()), sent, |p|)
      ensures Fit(sent, |p|, limit, credits)
      ensures |p| - total == LeftAt(|p|, limit, credits, |sent|) && (|p| > MAX_INT32 ==> |p| - total > MAX_INT32)
    {
      total, sent := 0, [];
      var rest, k := p, 0;
      while rest != []
        invariant total <= |p| && Flatten(sent) == p[..total] && rest == p[total..]
        invariant |rest| == LeftAt(|p|, limit, credits, k) && (|p| > MAX_INT32 ==> |rest| > MAX_INT32)
        invariant k == |sent| && Fit(sent, |p|, limit, credits)
        invariant err == Fine && written == old(written) + total
        invariant wire.frames == old(wire.frames) + DataFrames(sent)
        invariant old(wire.budget) == wire.budget + k
        decreases wire.budget
      {
        var ok, got := SendChunk(rest, limit, credits, k, |p|);
        if !ok {
          return;
        }
        OneMoreChunk(old(wire.frames), p, total, sent, rest[..got]);
        sent, k := sent + [rest[..got]], k + 1;
        rest := rest[got..];
        total := total + got;
      }
    }

    /** Accepts a slice of a body. The ghost results say how flow control cut it up. */
    method Write(p: Bytes, maxFrameSize: int32, credits: seq<nat>)
      returns (n: nat, ghost chunks: seq<Bytes>, ghost unsent: Bytes)
      modifies this, wire
      ensures p == Flatten(chunks) + unsent
      ensures (View(), n) == DoWrite(old(View()), chunks, unsent)
      ensures Fit(chunks, |p|, FrameLimit(maxFrameSize), credits)
      ensures |p| > MAX_INT32 && !noBody ==> err != Fine
    {
      chunks, unsent := [], p;
      assert p == Flatten(chunks) + unsent;
      if err != Fine {
        return 0, chunks, unsent;
      }
      Prepare();
      if noBody {
        return |p|, chunks, unsent;
      }
      if !wroteHeaders {
        var sent := WriteHeaders(false);
        if !sent {
          return 0, chunks, unsent;
        }
      }
      if |p| == 0 {
        return 0, chunks, unsent;
      }
      if declaredCL >= 0 && written + |p| > declaredCL {
        clViolated := true;
        err := TooLong;
        return 0, chunks, unsent;
      }
      var maxFrame := maxFrameSize;
      if maxFrame <= 0 {
        maxFrame := 16384;
      }
      n, chunks := WriteChunks(p, maxFrame, credits);
      unsent := p[n..];
    }

    method EndStream() returns (how: Closing)
      modifies this, wire
      ensures (View(), how) == DoEndStream(old(View()))
    {
      Prepare();
      if !noBody && declaredCL >= 0 && written < declaredCL {
        return Short;
      }
      var ok;
      if !wroteHeaders {
        ok := WriteHeaders(true);
      } else {
        ok := wire.Submit(Data([], true));
        if !ok {
          err := Transport;
        }
      }
      return if ok then Completed else Broken;
    }

    method ResetStream(code: Code)
      modifies wire
      ensures View() == Reset(old(View()), code)
    {
      var _ := wire.Submit(Rst(code));
    }

    method Perform(act: Act) returns (ghost c: Call)
      modifies this, wire
      ensures Matches(act, c)
      ensures View() == DoCall(old(View()), c)
    {
      match act {
        case SetHeader(h) =>
          c := Call.SetHeader(h);
          header := h;
        case WriteHeader(code) =>
          c := Call.WriteHeader(code);
          WriteHeader(code);
        case Write(p, maxFrame, credits) =>
          var n, chunks, unsent := Write(p, maxFrame, credits);
          c := Call.Write(chunks, unsent);
        case Flush =>
          c := Call.Flush;
          Flush();
      }
    }

    method Recover()
      modifies this, wire
      ensures View() == AfterPanic(old(View()))
    {
      if !wroteHeaders {
        status := 500;
        header := header.(length := Absent);
        declaredCL := -1;
        var _ := WriteHeaders(true);
      } else {
        ResetStream(InternalError);
      }
    }

    method CloseOut(dataDone: bool)
      modifies this, wire
      ensures View() == AfterReturn(old(View()), dataDone)
    {
      var completed := false;
      if clViolated {
        ResetStream(InternalError);
      } else if err == Fine {
        var how := EndStream();
        if how.Short? {
          ResetStream(InternalError);
        } else if how.Completed? {
          completed := true;
        }
      }
      if completed && !dataDone {
        ResetStream(NoError);
      }
    }
  }

  /** One stream from HEADERS to cleanup. The handler is the sequence of things it does and the
      way it ends. */
  method ServeStream(budget: nat, isHead: bool, acts: seq<Act>, outcome: Outcome)
    returns (frames: seq<Frame>, ghost calls: seq<Call>)
    ensures !outcome.BadPath? ==> |calls| == |acts| && forall i :: 0 <= i < |acts| ==> Matches(acts[i], calls[i])
    ensures frames == Serve(isHead, budget, calls, outcome).frames
    ensures PhaseOf(frames) != Malformed && WellSized(frames, isHead)
  {
    var wire := new Wire(budget);
    var rw := new Response(wire, isHead);
    calls := [];
    if !outcome.BadPath? {
      for i := 0 to |acts|
        invariant |calls| == i && forall k :: 0 <= k < i ==> Matches(acts[k], calls[k])
        invariant rw.View() == DoCalls(Fresh(isHead, budget), calls)
      {
        ghost var c := rw.Perform(acts[i]);
        assert (calls + [c])[..i] == calls;
        calls := calls + [c];
      }
      if outcome.Panic? {
        rw.Recover();
      } else {
        rw.CloseOut(outcome.dataDone);
      }
    } else {
      rw.ResetStream(ProtocolError);
    }
    frames := wire.frames;
    ResponseIsProper(isHead, budget, calls, outcome);
  }
}
