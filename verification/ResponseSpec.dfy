/** The worker's response writer as a value: what every handler call does to it, and what the
    per-stream goroutine does around the handler.

    The environment is explicit. `budget` is how many more frame sends succeed before the
    connection's writer goroutine dies. A Write carries the chunks that flow control cut its
    slice into; a part left unsent means the connection died while waiting for credit. */
module ResponseSpec {
  import opened HttpFrames

  datatype Failure = Fine | Transport | TooLong

  datatype Writer = Writer(
    isHead: bool,
    header: Header,
    status: int,
    prepared: bool,
    wroteHeaders: bool,
    noBody: bool,
    declared: int,
    written: nat,
    clViolated: bool,
    err: Failure,
    frames: seq<Frame>,
    budget: nat)

  function Fresh(isHead: bool, budget: nat): Writer {
    Writer(isHead, Header(Absent, map[]), 0, false, false, false, 0, 0, false, Fine, [], budget)
  }

  datatype Call =
    | SetHeader(header: Header)
    | WriteHeader(code: int)
    | Write(chunks: seq<Bytes>, unsent: Bytes)  // the slice is Flatten(chunks) + unsent
    | Flush

  // ---- operations -------------------------------------------------------------------

  function Send(w: Writer, f: Frame): (Writer, bool) {
    if w.budget == 0 then (w.(err := Transport), false)
    else (w.(frames := w.frames + [f], budget := w.budget - 1), true)
  }

  function Prepare(w: Writer): Writer {
    if w.prepared then w
    else
      var status := if w.status == 0 then 200 else w.status;
      w.(prepared := true,
         status := status,
         noBody := w.isHead || !BodyAllowed(status),
         declared := if w.header.length.Readable? then w.header.length.value else -1,
         header := if w.header.length.Unreadable? then w.header.(length := Absent) else w.header)
  }

  function SendFinal(w: Writer, end: bool): (Writer, bool) {
    if w.wroteHeaders then (w, true)
    else
      var w1 := Prepare(w).(wroteHeaders := true);
      Send(w1, Headers(w1.status, w1.header, end))
  }

  function DoWriteHeader(w: Writer, code: int): Writer {
    if w.prepared || w.err != Fine then w
    else if Informational(code) then
      if w.status != 0 || code == 101 then w
      else Send(w, Headers(code, w.header.(length := Absent), false)).0
    else w.(status := code)
  }

  function DoFlush(w: Writer): Writer {
    if w.err != Fine then w
    else
      var w1 := Prepare(w);
      if w1.noBody then w1
      else
        var (w2, ok) := SendFinal(w1, false);
        if ok then Send(w2, Data([], false)).0 else w2
  }

  function DataFrames(cs: seq<Bytes>): seq<Frame> {
    seq(|cs|, i requires 0 <= i < |cs| => Data(cs[i], false))
  }

  lemma DataFramesSnoc(fs: seq<Frame>, cs: seq<Bytes>, c: Bytes)
    ensures fs + DataFrames(cs + [c]) == fs + DataFrames(cs) + [Data(c, false)]
  {
    assert DataFrames(cs + [c]) == DataFrames(cs) + [Data(c, false)];
  }

  /** As many of the chunks as the transport takes. */
  function Sendable(w: Writer, chunks: seq<Bytes>): seq<Bytes> {
    if |chunks| <= w.budget then chunks else chunks[..w.budget]
  }

  /** The chunk loop of Write, having sent these chunks of a slice of size bytes. */
  function SendChunks(w: Writer, sent: seq<Bytes>, size: nat): Writer
    requires |sent| <= w.budget
  {
    w.(frames := w.frames + DataFrames(sent),
       written := w.written + |Flatten(sent)|,
       budget := w.budget - |sent|,
       err := if |Flatten(sent)| < size then Transport else w.err)
  }

  /** The rest of Write once final HEADERS are out. */
  function WriteBody(w: Writer, chunks: seq<Bytes>, unsent: Bytes): (Writer, nat) {
    var size := |Flatten(chunks) + unsent|;
    if size == 0 then (w, 0)
    else if w.declared >= 0 && w.written + size > w.declared then
      (w.(clViolated := true, err := TooLong), 0)
    else
      var sent := Sendable(w, chunks);
      (SendChunks(w, sent, size), |Flatten(sent)|)
  }

  function DoWrite(w: Writer, chunks: seq<Bytes>, unsent: Bytes): (Writer, nat) {
    if w.err != Fine then (w, 0)
    else
      var w1 := Prepare(w);
      if w1.noBody then (w1, |Flatten(chunks) + unsent|)
      else
        var (w2, ok) := SendFinal(w1, false);
        if ok then WriteBody(w2, chunks, unsent) else (w2, 0)
  }

  datatype Closing = Completed | Short | Broken

  function DoEndStream(w: Writer): (Writer, Closing) {
    var w1 := Prepare(w);
    if !w1.noBody && w1.declared >= 0 && w1.written < w1.declared then (w1, Short)
    else
      var (w2, ok) := if !w1.wroteHeaders then SendFinal(w1, true) else Send(w1, Data([], true));
      (w2, if ok then Completed else Broken)
  }

  /** RST_STREAM is queued without waiting for the writer. */
  function Reset(w: Writer, code: Code): Writer {
    if w.budget == 0 then w else w.(frames := w.frames + [Rst(code)], budget := w.budget - 1)
  }

  function DoCall(w: Writer, c: Call): Writer {
    match c
    case SetHeader(h) => w.(header := h)
    case WriteHeader(code) => DoWriteHeader(w, code)
    case Write(chunks, unsent) => DoWrite(w, chunks, unsent).0
    case Flush => DoFlush(w)
  }

  function DoCalls(w: Writer, calls: seq<Call>): Writer {
    if calls == [] then w else DoCall(DoCalls(w, calls[..|calls|-1]), calls[|calls|-1])
  }

  /** After the handler returns: END_STREAM, or a reset if the body does not match its declared
      length; then RST(NO_ERROR) if the peer is still sending a request body. */
  function AfterReturn(w: Writer, dataDone: bool): Writer {
    if w.clViolated then Reset(w, InternalError)
    else if w.err != Fine then w
    else
      var (w1, how) := DoEndStream(w);
      match how
      case Short => Reset(w1, InternalError)
      case Broken => w1
      case Completed => if dataDone then w1 else Reset(w1, NoError)
  }

  /** After the handler panics: an empty 500, or a reset if HEADERS are already out. */
  function AfterPanic(w: Writer): Writer {
    if w.wroteHeaders then Reset(w, InternalError)
    else SendFinal(w.(status := 500, header := w.header.(length := Absent), declared := -1), true).0
  }

  datatype Outcome = Return(dataDone: bool) | Panic | BadPath

  /** serveStream: everything one request does to its stream. */
  function Serve(isHead: bool, budget: nat, calls: seq<Call>, outcome: Outcome): Writer {
    var w := Fresh(isHead, budget);
    match outcome
    case BadPath => Reset(w, ProtocolError)
    case Return(dataDone) => AfterReturn(DoCalls(w, calls), dataDone)
    case Panic => AfterPanic(DoCalls(w, calls))
  }
}
