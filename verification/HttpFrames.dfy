/** Frames of one HTTP/2 stream, and the language of frame sequences that is a well-formed
    response. Everything here is a definition on the frames alone, independent of the
    writer that produces them. */
module HttpFrames {

  newtype byte = x: int | 0 <= x < 256
  type Bytes = seq<byte>

  datatype Option<+T> = None | Some(value: T)

  lemma Assoc<T>(a: seq<T>, b: seq<T>, c: seq<T>)
    ensures a + b + c == a + (b + c)
  {
  }

  /** The concatenation of byte sequences. */
  function Flatten(cs: seq<Bytes>): Bytes {
    if cs == [] then [] else Flatten(cs[..|cs|-1]) + cs[|cs|-1]
  }

  lemma FlattenSnoc(cs: seq<Bytes>, c: Bytes)
    ensures Flatten(cs + [c]) == Flatten(cs) + c
  {
    assert (cs + [c])[..|cs|] == cs;
  }

  lemma {:induction false} FlattenCons(c: Bytes, cs: seq<Bytes>)
    ensures Flatten([c] + cs) == c + Flatten(cs)
  {
    if cs == [] {
      assert [c] + cs == [c] && [c][..0] == [];
    } else {
      var n := |cs| - 1;
      FlattenCons(c, cs[..n]);
      assert ([c] + cs)[..n+1] == [c] + cs[..n];
    }
  }

  // ---- header maps ----------------------------------------------------------------

  /** What strconv.ParseUint makes of the first Content-Length value: a length below 2^63, or an
      error. */
  datatype Length = Absent | Readable(value: nat) | Unreadable(text: string)

  /** A header map: its Content-Length, and everything else. */
  datatype Header = Header(length: Length, fields: map<string, seq<string>>)

  // ---- frames -----------------------------------------------------------------------

  datatype Code = NoError | ProtocolError | InternalError | Cancel

  datatype Frame =
    | Headers(status: int, header: Header, end: bool)
    | Data(payload: Bytes, end: bool)
    | Rst(code: Code)

  predicate Informational(status: int) {
    100 <= status <= 199
  }

  /** 204 and 304 responses carry no body. */
  predicate BodyAllowed(status: int) {
    status != 204 && status != 304
  }

  /** Where a stream stands after the frames sent so far. */
  datatype Phase = Interim | Streaming | Ended | Closed | Malformed

  function Advance(ph: Phase, f: Frame): Phase {
    match (ph, f)
    case (Interim, Headers(status, h, end)) =>
      if Informational(status) then
        if !end && status != 101 && h.length == Absent then Interim else Malformed
      else if end then Ended else Streaming
    case (Streaming, Data(payload, end)) =>
      if !end then Streaming else if payload == [] then Ended else Malformed
    case (Interim, Rst(code)) => if code == NoError then Malformed else Closed
    case (Streaming, Rst(code)) => if code == NoError then Malformed else Closed
    case (Ended, Rst(code)) => if code == NoError then Closed else Malformed
    case _ => Malformed
  }

  function PhaseOf(fs: seq<Frame>): Phase {
    if fs == [] then Interim else Advance(PhaseOf(fs[..|fs|-1]), fs[|fs|-1])
  }

  datatype Final = Final(status: int, header: Header)

  /** What the first HEADERS frame with a final status says. */
  function FinalHeaders(fs: seq<Frame>): Option<Final> {
    if fs == [] then None
    else
      var before := FinalHeaders(fs[..|fs|-1]);
      if before.Some? then before else FinalOf(fs[|fs|-1])
  }

  function FinalOf(f: Frame): Option<Final> {
    if f.Headers? && !Informational(f.status) then Some(Final(f.status, f.header)) else None
  }

  function Payload(fs: seq<Frame>): Bytes {
    if fs == [] then []
    else Payload(fs[..|fs|-1]) + if fs[|fs|-1].Data? then fs[|fs|-1].payload else []
  }

  predicate EndSent(fs: seq<Frame>) {
    fs != [] && (EndSent(fs[..|fs|-1]) || (!fs[|fs|-1].Rst? && fs[|fs|-1].end))
  }

  predicate HasData(fs: seq<Frame>) {
    fs != [] && (HasData(fs[..|fs|-1]) || fs[|fs|-1].Data?)
  }

  /** One more frame. */
  lemma Snoc(fs: seq<Frame>, f: Frame)
    ensures PhaseOf(fs + [f]) == Advance(PhaseOf(fs), f)
    ensures FinalHeaders(fs + [f]) == if FinalHeaders(fs).Some? then FinalHeaders(fs) else FinalOf(f)
    ensures Payload(fs + [f]) == Payload(fs) + if f.Data? then f.payload else []
    ensures EndSent(fs + [f]) <==> EndSent(fs) || (!f.Rst? && f.end)
    ensures HasData(fs + [f]) <==> HasData(fs) || f.Data?
  {
    assert (fs + [f])[..|fs|] == fs;
  }

  /** Sizes as the peer sees them. A response to HEAD, or with status 204 or 304, has no DATA at
      all. Any other response with a declared length carries at most that many bytes, and
      exactly that many once END_STREAM is sent; and it never declares an unreadable length. */
  predicate WellSized(fs: seq<Frame>, isHead: bool) {
    match FinalHeaders(fs)
    case None => !HasData(fs)
    case Some(Final(status, h)) =>
      if isHead || !BodyAllowed(status) then !HasData(fs)
      else
        match h.length
        case Readable(v) => |Payload(fs)| <= v && (EndSent(fs) ==> |Payload(fs)| == v)
        case Absent => true
        case Unreadable(_) => false
  }

  // ---- the same language as a grammar ---------------------------------------------

  predicate IsInterim(f: Frame) {
    f.Headers? && Informational(f.status) && f.status != 101 && !f.end && f.header.length == Absent
  }

  predicate IsFinal(f: Frame, end: bool) {
    f.Headers? && !Informational(f.status) && f.end == end
  }

  predicate IsChunk(f: Frame) {
    f.Data? && !f.end
  }

  /** interim* */
  ghost predicate InterimWord(fs: seq<Frame>) {
    forall i :: 0 <= i < |fs| ==> IsInterim(fs[i])
  }

  /** DATA* */
  ghost predicate Chunks(fs: seq<Frame>) {
    forall i :: 0 <= i < |fs| ==> IsChunk(fs[i])
  }

  /** interim* final-HEADERS DATA* */
  ghost predicate StreamingWord(fs: seq<Frame>) {
    exists k :: 0 <= k < |fs| && InterimWord(fs[..k]) && IsFinal(fs[k], false) && Chunks(fs[k+1..])
  }

  /** interim* final-HEADERS(END_STREAM), or interim* final-HEADERS DATA* DATA(empty, END_STREAM) */
  ghost predicate EndedWord(fs: seq<Frame>) {
    && fs != []
    && var last := fs[|fs|-1];
       || (InterimWord(fs[..|fs|-1]) && IsFinal(last, true))
       || (StreamingWord(fs[..|fs|-1]) && last == Data([], true))
  }

  /** a complete response followed by RST(NO_ERROR), or an incomplete one by an error RST */
  ghost predicate ClosedWord(fs: seq<Frame>) {
    && fs != []
    && var before, last := fs[..|fs|-1], fs[|fs|-1];
       || (EndedWord(before) && last == Rst(NoError))
       || ((InterimWord(before) || StreamingWord(before)) && last.Rst? && last.code != NoError)
  }

  lemma ChunksSnoc(fs: seq<Frame>, f: Frame)
    ensures Chunks(fs + [f]) <==> Chunks(fs) && IsChunk(f)
  {
    var g := fs + [f];
    assert g[|fs|] == f;
    if Chunks(g) {
      forall i | 0 <= i < |fs| ensures IsChunk(fs[i]) { assert g[i] == fs[i]; }
    }
  }

  lemma StreamingWordSplit(fs: seq<Frame>, f: Frame)
    requires StreamingWord(fs + [f])
    ensures (InterimWord(fs) && IsFinal(f, false)) || (StreamingWord(fs) && IsChunk(f))
  {
    var g := fs + [f];
    var k :| 0 <= k < |g| && InterimWord(g[..k]) && IsFinal(g[k], false) && Chunks(g[k+1..]);
    if k == |fs| {
      assert g[..k] == fs;
    } else {
      assert g[..k] == fs[..k] && g[k] == fs[k] && g[k+1..] == fs[k+1..] + [f];
      ChunksSnoc(fs[k+1..], f);
    }
  }

  lemma StreamingWordSnoc(fs: seq<Frame>, f: Frame)
    ensures StreamingWord(fs + [f]) <==>
              (InterimWord(fs) && IsFinal(f, false)) || (StreamingWord(fs) && IsChunk(f))
  {
    var g := fs + [f];
    if StreamingWord(g) {
      StreamingWordSplit(fs, f);
    }
    if InterimWord(fs) && IsFinal(f, false) {
      assert g[..|fs|] == fs && g[|fs|] == f && g[|fs|+1..] == [];
    }
    if StreamingWord(fs) && IsChunk(f) {
      var k :| 0 <= k < |fs| && InterimWord(fs[..k]) && IsFinal(fs[k], false) && Chunks(fs[k+1..]);
      assert g[..k] == fs[..k] && g[k] == fs[k] && g[k+1..] == fs[k+1..] + [f];
    }
  }

  lemma InterimWordSnoc(fs: seq<Frame>, f: Frame)
    ensures InterimWord(fs + [f]) <==> InterimWord(fs) && IsInterim(f)
  {
    var g := fs + [f];
    assert g[|fs|] == f;
    if InterimWord(g) {
      forall i | 0 <= i < |fs| ensures IsInterim(fs[i]) { assert g[i] == fs[i]; }
    }
  }

  lemma {:induction false} InterimPhaseIsGrammar(fs: seq<Frame>)
    ensures PhaseOf(fs) == Interim <==> InterimWord(fs)
  {
    if fs != [] {
      var before, f := fs[..|fs|-1], fs[|fs|-1];
      InterimPhaseIsGrammar(before);
      assert fs == before + [f];
      InterimWordSnoc(before, f);
    }
  }

  lemma {:induction false} StreamingPhaseIsGrammar(fs: seq<Frame>)
    ensures PhaseOf(fs) == Streaming <==> StreamingWord(fs)
  {
    if fs != [] {
      var before, f := fs[..|fs|-1], fs[|fs|-1];
      InterimPhaseIsGrammar(before);
      StreamingPhaseIsGrammar(before);
      assert fs == before + [f];
      StreamingWordSnoc(before, f);
    }
  }

  lemma EndedPhaseIsGrammar(fs: seq<Frame>)
    ensures PhaseOf(fs) == Ended <==> EndedWord(fs)
  {
    if fs != [] {
      InterimPhaseIsGrammar(fs[..|fs|-1]);
      StreamingPhaseIsGrammar(fs[..|fs|-1]);
    }
  }

  /** The phases are exactly the words of the grammar, so no word belongs to two of them. */
  lemma PhaseIsGrammar(fs: seq<Frame>)
    ensures PhaseOf(fs) == Interim <==> InterimWord(fs)
    ensures PhaseOf(fs) == Streaming <==> StreamingWord(fs)
    ensures PhaseOf(fs) == Ended <==> EndedWord(fs)
    ensures PhaseOf(fs) == Closed <==> ClosedWord(fs)
  {
    InterimPhaseIsGrammar(fs);
    StreamingPhaseIsGrammar(fs);
    EndedPhaseIsGrammar(fs);
    if fs != [] {
      InterimPhaseIsGrammar(fs[..|fs|-1]);
      StreamingPhaseIsGrammar(fs[..|fs|-1]);
      EndedPhaseIsGrammar(fs[..|fs|-1]);
    }
  }
}
