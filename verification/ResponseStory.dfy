/** What a response looks like on the wire, told from the handler's calls alone: no writer state, no
    flags, no transport. On a transport that outlasts it, every response is exactly that. */
module ResponseStory {
  import opened HttpFrames
  import opened ResponseSpec
  import opened ResponseProof

  // ---- the story -------------------------------------------------------------------------------

  /** The last final status given before the first Write or Flush; 0 if none. */
  function Chosen(calls: seq<Call>): int {
    if calls == [] then 0
    else
      var before, c := calls[..|calls|-1], calls[|calls|-1];
      if c.WriteHeader? && !Informational(c.code) && !Resolved(before) then c.code else Chosen(before)
  }

  function FinalStatus(calls: seq<Call>): int {
    if Chosen(calls) == 0 then 200 else Chosen(calls)
  }

  /** A length that does not parse is taken out of the map when the response is resolved. */
  function Scrub(h: Header): Header {
    if h.length.Unreadable? then h.(length := Absent) else h
  }

  /** The header map as the calls leave it. */
  function MapAt(calls: seq<Call>): Header {
    if calls == [] then Header(Absent, map[])
    else
      var before, c := calls[..|calls|-1], calls[|calls|-1];
      if c.SetHeader? then c.header
      else if Resolves(c) && !Resolved(before) then Scrub(MapAt(before))
      else MapAt(before)
  }

  /** The header map at the first Write or Flush, or as it would be if one came now. */
  function MapSent(calls: seq<Call>): Header {
    if Resolved(calls) && Resolved(calls[..|calls|-1]) then MapSent(calls[..|calls|-1])
    else if Resolved(calls) then MapAt(calls)
    else Scrub(MapAt(calls))
  }

  predicate Bodyless(isHead: bool, calls: seq<Call>) {
    isHead || !BodyAllowed(FinalStatus(calls))
  }

  function Slice(c: Call): Bytes {
    if c.Write? then Flatten(c.chunks) else []
  }

  /** A Write went past the declared length. */
  predicate Overlong(isHead: bool, calls: seq<Call>)
    decreases |calls|, 0
  {
    calls != [] &&
    var before, c := calls[..|calls|-1], calls[|calls|-1];
    || Overlong(isHead, before)
    || (&& c.Write? && Slice(c) != [] && !Bodyless(isHead, calls) && MapSent(calls).length.Readable?
        && |Body(isHead, before)| + |Slice(c)| > MapSent(calls).length.value)
  }

  /** What the handler wrote, up to a Write that went too far. */
  function Body(isHead: bool, calls: seq<Call>): Bytes
    decreases |calls|, 1
  {
    if calls == [] then []
    else
      var before, c := calls[..|calls|-1], calls[|calls|-1];
      if Bodyless(isHead, calls) || Overlong(isHead, calls) then Body(isHead, before)
      else Body(isHead, before) + Slice(c)
  }

  /** The frames one call adds. */
  function Adds(isHead: bool, before: seq<Call>, c: Call): seq<Frame> {
    var calls := before + [c];
    match c
    case SetHeader(_) => []
    case WriteHeader(code) =>
      if Informational(code) && code != 101 && !Resolved(before) && Chosen(before) == 0
      then [Headers(code, MapAt(before).(length := Absent), false)]
      else []
    case Flush => if Bodyless(isHead, calls) then [] else Opening(before) + [Data([], false)]
    case Write(chunks, _) =>
      if Bodyless(isHead, calls) then []
      else Opening(before) + if Slice(c) == [] || Overlong(isHead, calls) then [] else DataFrames(chunks)
  }

  /** Final HEADERS, with the first Write or Flush. */
  function Opening(before: seq<Call>): seq<Frame> {
    if Resolved(before) then [] else [Headers(FinalStatus(before), MapSent(before), false)]
  }

  /** Everything the calls put on the wire. */
  function Wire(isHead: bool, calls: seq<Call>): seq<Frame> {
    if calls == [] then []
    else
      var before, c := calls[..|calls|-1], calls[|calls|-1];
      if Overlong(isHead, before) then Wire(isHead, before) else Wire(isHead, before) + Adds(isHead, before, c)
  }

  predicate HeadersOut(isHead: bool, calls: seq<Call>) {
    Resolved(calls) && !Bodyless(isHead, calls)
  }

  /** The body does not match its declared length. */
  predicate Mismatched(isHead: bool, calls: seq<Call>) {
    || Overlong(isHead, calls)
    || (&& !Bodyless(isHead, calls) && MapSent(calls).length.Readable?
        && |Body(isHead, calls)| < MapSent(calls).length.value)
  }

  /** The frame with END_STREAM. */
  function Ending(isHead: bool, calls: seq<Call>): Frame {
    if HeadersOut(isHead, calls) then Data([], true)
    else Headers(FinalStatus(calls), if Resolved(calls) then MapAt(calls) else Scrub(MapAt(calls)), true)
  }

  /** What ends the stream. */
  function Close(isHead: bool, calls: seq<Call>, outcome: Outcome): seq<Frame> {
    match outcome
    case BadPath => [Rst(ProtocolError)]
    case Panic =>
      if HeadersOut(isHead, calls) then [Rst(InternalError)]
      else [Headers(500, MapAt(calls).(length := Absent), true)]
    case Return(dataDone) =>
      if Mismatched(isHead, calls) then [Rst(InternalError)]
      else [Ending(isHead, calls)] + if dataDone then [] else [Rst(NoError)]
  }

  function Story(isHead: bool, calls: seq<Call>, outcome: Outcome): seq<Frame> {
    (if outcome.BadPath? then [] else Wire(isHead, calls)) + Close(isHead, calls, outcome)
  }

  // ---- the writer tells it ---------------------------------------------------------------------

  /** Flow control let every slice through. */
  predicate AllSent(calls: seq<Call>) {
    forall i :: 0 <= i < |calls| && calls[i].Write? ==> calls[i].unsent == []
  }

  function LengthOf(h: Header): int {
    if h.length.Readable? then h.length.value else -1
  }

  /** The writer's fields after these calls. */
  ghost predicate Tells(w: Writer, isHead: bool, calls: seq<Call>) {
    && w.isHead == isHead && w.frames == Wire(isHead, calls) && w.header == MapAt(calls)
    && w.status == (if Resolved(calls) then FinalStatus(calls) else Chosen(calls))
    && if Overlong(isHead, calls) then w.err == TooLong && w.clViolated && w.wroteHeaders && HeadersOut(isHead, calls)
       else
         && w.err == Fine && !w.clViolated && w.prepared == Resolved(calls)
         && w.wroteHeaders == HeadersOut(isHead, calls)
         && w.written == |Body(isHead, calls)|
         && (Resolved(calls) ==> w.noBody == Bodyless(isHead, calls) && w.declared == LengthOf(MapSent(calls)))
  }

  lemma SendFinalBudget(w: Writer, end: bool)
    ensures SendFinal(w, end).0.budget <= w.budget
  {
  }

  lemma WriteBudget(w: Writer, chunks: seq<Bytes>, unsent: Bytes)
    ensures DoWrite(w, chunks, unsent).0.budget <= w.budget
  {
    SendFinalBudget(Prepare(w), false);
  }

  lemma FlushBudget(w: Writer)
    ensures DoFlush(w).budget <= w.budget
  {
    SendFinalBudget(Prepare(w), false);
  }

  lemma BudgetShrinks(w: Writer, c: Call)
    ensures DoCall(w, c).budget <= w.budget
  {
    match c {
      case Write(chunks, unsent) => WriteBudget(w, chunks, unsent);
      case Flush => FlushBudget(w);
      case SetHeader(_) =>
      case WriteHeader(_) =>
    }
  }

  /** One more call, as the story sees it. */
  lemma Unfold(isHead: bool, before: seq<Call>, c: Call)
    ensures var calls := before + [c];
            && Resolved(calls) == (Resolved(before) || Resolves(c))
            && Chosen(calls) ==
                 (if c.WriteHeader? && !Informational(c.code) && !Resolved(before) then c.code else Chosen(before))
            && MapAt(calls) == (if c.SetHeader? then c.header
                                else if Resolves(c) && !Resolved(before) then Scrub(MapAt(before)) else MapAt(before))
            && (Resolved(before) ==> MapSent(calls) == MapSent(before))
            && (!Resolved(before) && Resolves(c) ==> MapSent(calls) == Scrub(MapAt(before)) == MapSent(before))
            && Wire(isHead, calls) ==
                 (if Overlong(isHead, before) then Wire(isHead, before)
                  else Wire(isHead, before) + Adds(isHead, before, c))
  {
    assert (before + [c])[..|before|] == before;
  }

  lemma UnfoldBody(isHead: bool, before: seq<Call>, c: Call)
    ensures var calls := before + [c];
            && (Overlong(isHead, calls) <==>
                  || Overlong(isHead, before)
                  || (&& c.Write? && Slice(c) != [] && !Bodyless(isHead, calls) && MapSent(calls).length.Readable?
                      && |Body(isHead, before)| + |Slice(c)| > MapSent(calls).length.value))
            && Body(isHead, calls) ==
                 (if Bodyless(isHead, calls) || Overlong(isHead, calls) then Body(isHead, before)
                  else Body(isHead, before) + Slice(c))
  {
    assert (before + [c])[..|before|] == before;
  }

  lemma SetHeaderTells(w: Writer, isHead: bool, before: seq<Call>, h: Header)
    requires Tells(w, isHead, before)
    ensures Tells(DoCall(w, SetHeader(h)), isHead, before + [SetHeader(h)])
  {
    Unfold(isHead, before, SetHeader(h));
    UnfoldBody(isHead, before, SetHeader(h));
    assert Wire(isHead, before) + [] == Wire(isHead, before);
    assert Body(isHead, before) + [] == Body(isHead, before);
  }

  /** A WriteHeader leaves the body, and everything once resolved, alone. */
  lemma WriteHeaderUnfolds(isHead: bool, before: seq<Call>, code: int)
    ensures var c := WriteHeader(code);
            var calls := before + [c];
            && Resolved(calls) == Resolved(before) && MapAt(calls) == MapAt(before)
            && Chosen(calls) == (if !Informational(code) && !Resolved(before) then code else Chosen(before))
            && (Resolved(before) ==> MapSent(calls) == MapSent(before))
            && Overlong(isHead, calls) == Overlong(isHead, before) && Body(isHead, calls) == Body(isHead, before)
            && Wire(isHead, calls) ==
                 (if Overlong(isHead, before) then Wire(isHead, before)
                  else Wire(isHead, before) + Adds(isHead, before, c))
  {
    Unfold(isHead, before, WriteHeader(code));
    UnfoldBody(isHead, before, WriteHeader(code));
    assert Body(isHead, before) + [] == Body(isHead, before);
  }

  /** Whether an interim response goes out. */
  predicate Announces(before: seq<Call>, code: int) {
    Informational(code) && code != 101 && !Resolved(before) && Chosen(before) == 0
  }

  lemma InterimTells(w: Writer, isHead: bool, before: seq<Call>, code: int)
    requires Tells(w, isHead, before) && !Overlong(isHead, before) && Announces(before, code)
    requires DoWriteHeader(w, code).budget > 0
    ensures Tells(DoWriteHeader(w, code), isHead, before + [WriteHeader(code)])
  {
    var f := Headers(code, MapAt(before).(length := Absent), false);
    WriteHeaderUnfolds(isHead, before, code);
    assert DoWriteHeader(w, code) == w.(frames := w.frames + [f], budget := w.budget - 1);
    assert Adds(isHead, before, WriteHeader(code)) == [f];
  }

  lemma IgnoredTells(w: Writer, isHead: bool, before: seq<Call>, code: int)
    requires Tells(w, isHead, before) && Informational(code)
    requires Overlong(isHead, before) || !Announces(before, code)
    ensures Tells(DoWriteHeader(w, code), isHead, before + [WriteHeader(code)])
  {
    WriteHeaderUnfolds(isHead, before, code);
    assert DoWriteHeader(w, code) == w;
    assert Wire(isHead, before) + [] == Wire(isHead, before);
  }

  lemma FinalTells(w: Writer, isHead: bool, before: seq<Call>, code: int)
    requires Tells(w, isHead, before) && !Informational(code)
    ensures Tells(DoWriteHeader(w, code), isHead, before + [WriteHeader(code)])
  {
    WriteHeaderUnfolds(isHead, before, code);
    assert Wire(isHead, before) + [] == Wire(isHead, before);
  }

  /** Resolving a response: the shape prepare settles on, and final HEADERS if it has a body. */
  lemma PrepareTells(w: Writer, isHead: bool, before: seq<Call>)
    requires Tells(w, isHead, before) && !Overlong(isHead, before)
    ensures var w1 := Prepare(w);
            && w1.prepared && w1.err == Fine && !w1.clViolated && w1.isHead == isHead
            && w1.status == FinalStatus(before) && w1.noBody == Bodyless(isHead, before)
            && w1.declared == LengthOf(MapSent(before))
            && w1.header == (if Resolved(before) then MapAt(before) else MapSent(before))
            && w1.frames == w.frames && w1.written == w.written && w1.wroteHeaders == w.wroteHeaders
            && w1.budget == w.budget
  {
  }

  lemma OpeningTells(w: Writer, isHead: bool, before: seq<Call>)
    requires Tells(w, isHead, before) && !Overlong(isHead, before) && !Bodyless(isHead, before)
    requires SendFinal(Prepare(w), false).0.budget > 0
    ensures var (w2, ok) := SendFinal(Prepare(w), false);
            && ok && w2 == Prepare(w).(wroteHeaders := true, frames := Wire(isHead, before) + Opening(before),
                                       budget := w2.budget)
  {
    PrepareTells(w, isHead, before);
    assert Wire(isHead, before) + [] == Wire(isHead, before);
  }

  lemma ResolvedFacts(isHead: bool, before: seq<Call>, c: Call)
    requires Resolves(c)
    ensures var calls := before + [c];
            && Resolved(calls) && Chosen(calls) == Chosen(before) && MapSent(calls) == MapSent(before)
            && Bodyless(isHead, calls) == Bodyless(isHead, before)
            && MapAt(calls) == (if Resolved(before) then MapAt(before) else MapSent(before))
  {
    Unfold(isHead, before, c);
  }

  lemma FlushTells(w: Writer, isHead: bool, before: seq<Call>)
    requires Tells(w, isHead, before) && DoFlush(w).budget > 0
    ensures Tells(DoFlush(w), isHead, before + [Flush])
  {
    var calls := before + [Flush];
    Unfold(isHead, before, Flush);
    UnfoldBody(isHead, before, Flush);
    ResolvedFacts(isHead, before, Flush);
    assert Body(isHead, before) + [] == Body(isHead, before);
    assert Wire(isHead, before) + [] == Wire(isHead, before);
    if !Overlong(isHead, before) {
      PrepareTells(w, isHead, before);
      if !Bodyless(isHead, before) {
        OpeningTells(w, isHead, before);
        Assoc(Wire(isHead, before), Opening(before), [Data([], false)]);
      }
    }
  }

  /** The rest of a Write, once final HEADERS are out. */
  lemma WriteBodySends(w: Writer, chunks: seq<Bytes>)
    requires w.err == Fine && WriteBody(w, chunks, []).0.budget > 0
    ensures var p := Flatten(chunks);
            WriteBody(w, chunks, []).0 ==
              if p == [] then w
              else if w.declared >= 0 && w.written + |p| > w.declared then w.(clViolated := true, err := TooLong)
              else w.(frames := w.frames + DataFrames(chunks), written := w.written + |p|,
                      budget := w.budget - |chunks|)
  {
    assert Flatten(chunks) + [] == Flatten(chunks);
  }

  lemma WriteBodyBudget(w: Writer, chunks: seq<Bytes>, unsent: Bytes)
    ensures WriteBody(w, chunks, unsent).0.budget <= w.budget
  {
  }

  /** A Write on a response that carries a body. */
  lemma BodyWriteTells(w: Writer, isHead: bool, before: seq<Call>, chunks: seq<Bytes>)
    requires Tells(w, isHead, before) && !Overlong(isHead, before) && !Bodyless(isHead, before)
    requires DoWrite(w, chunks, []).0.budget > 0
    ensures Tells(DoWrite(w, chunks, []).0, isHead, before + [Write(chunks, [])])
  {
    var c := Write(chunks, []);
    var calls := before + [c];
    var w2 := SendFinal(Prepare(w), false).0;
    PrepareTells(w, isHead, before);
    WriteBodyBudget(w2, chunks, []);
    OpeningTells(w, isHead, before);
    assert DoWrite(w, chunks, []).0 == WriteBody(w2, chunks, []).0;
    WriteBodySends(w2, chunks);
    ResolvedFacts(isHead, before, c);
    Unfold(isHead, before, c);
    UnfoldBody(isHead, before, c);
    assert w2.declared == LengthOf(MapSent(calls));
    WireOfWrite(isHead, before, chunks);
  }

  lemma WireOfWrite(isHead: bool, before: seq<Call>, chunks: seq<Bytes>)
    requires !Overlong(isHead, before) && !Bodyless(isHead, before)
    ensures var calls := before + [Write(chunks, [])];
            Wire(isHead, calls) == Wire(isHead, before) + Opening(before) +
              if Flatten(chunks) == [] || Overlong(isHead, calls) then [] else DataFrames(chunks)
  {
    var c := Write(chunks, []);
    Unfold(isHead, before, c);
    ResolvedFacts(isHead, before, c);
    Assoc(Wire(isHead, before), Opening(before),
          if Flatten(chunks) == [] || Overlong(isHead, before + [c]) then [] else DataFrames(chunks));
  }

  lemma WriteTells(w: Writer, isHead: bool, before: seq<Call>, chunks: seq<Bytes>)
    requires Tells(w, isHead, before) && DoWrite(w, chunks, []).0.budget > 0
    ensures Tells(DoWrite(w, chunks, []).0, isHead, before + [Write(chunks, [])])
  {
    if !Overlong(isHead, before) && !Bodyless(isHead, before) {
      BodyWriteTells(w, isHead, before, chunks);
    } else {
      var c := Write(chunks, []);
      Unfold(isHead, before, c);
      UnfoldBody(isHead, before, c);
      ResolvedFacts(isHead, before, c);
      assert Wire(isHead, before) + [] == Wire(isHead, before);
      if !Overlong(isHead, before) {
        PrepareTells(w, isHead, before);
        assert DoWrite(w, chunks, []).0 == Prepare(w);
      } else {
        assert DoWrite(w, chunks, []).0 == w;
      }
    }
  }

  lemma CallTells(w: Writer, isHead: bool, before: seq<Call>, c: Call)
    requires Tells(w, isHead, before) && DoCall(w, c).budget > 0 && (c.Write? ==> c.unsent == [])
    ensures Tells(DoCall(w, c), isHead, before + [c])
  {
    match c {
      case SetHeader(h) => SetHeaderTells(w, isHead, before, h);
      case WriteHeader(code) =>
        if !Informational(code) {
          FinalTells(w, isHead, before, code);
        } else if !Overlong(isHead, before) && Announces(before, code) {
          InterimTells(w, isHead, before, code);
        } else {
          IgnoredTells(w, isHead, before, code);
        }
      case Flush => FlushTells(w, isHead, before);
      case Write(chunks, _) => WriteTells(w, isHead, before, chunks);
    }
  }

  /** After any calls on a transport that outlasts them, the frames sent and the writer's fields are
      those of the story. */
  lemma {:induction false} CallsTell(isHead: bool, budget: nat, calls: seq<Call>)
    requires AllSent(calls) && DoCalls(Fresh(isHead, budget), calls).budget > 0
    ensures Tells(DoCalls(Fresh(isHead, budget), calls), isHead, calls)
  {
    if calls != [] {
      var before, c := calls[..|calls|-1], calls[|calls|-1];
      var w := DoCalls(Fresh(isHead, budget), before);
      BudgetShrinks(w, c);
      CallsTell(isHead, budget, before);
      assert calls == before + [c];
      CallTells(w, isHead, before, c);
    }
  }

  // ---- the whole response ------------------------------------------------------------------------

  lemma EndTells(w: Writer, isHead: bool, calls: seq<Call>)
    requires Tells(w, isHead, calls) && !Overlong(isHead, calls) && DoEndStream(w).0.budget > 0
    ensures DoEndStream(w).1 == if Mismatched(isHead, calls) then Short else Completed
    ensures DoEndStream(w).0.frames ==
            Wire(isHead, calls) + if Mismatched(isHead, calls) then [] else [Ending(isHead, calls)]
  {
    PrepareTells(w, isHead, calls);
    assert Wire(isHead, calls) + [] == Wire(isHead, calls);
  }

  lemma EndBudget(w: Writer)
    ensures DoEndStream(w).0.budget <= w.budget
  {
    SendFinalBudget(Prepare(w), true);
  }

  lemma ReturnTells(w: Writer, isHead: bool, calls: seq<Call>, dataDone: bool)
    requires Tells(w, isHead, calls) && AfterReturn(w, dataDone).budget > 0
    ensures AfterReturn(w, dataDone).frames == Story(isHead, calls, Return(dataDone))
  {
    if !Overlong(isHead, calls) {
      var w1 := DoEndStream(w).0;
      assert AfterReturn(w, dataDone).budget <= w1.budget;
      EndTells(w, isHead, calls);
      Assoc(Wire(isHead, calls), [Ending(isHead, calls)], if dataDone then [] else [Rst(NoError)]);
      assert w1.frames + [] == w1.frames;
    }
  }

  lemma PanicTells(w: Writer, isHead: bool, calls: seq<Call>)
    requires Tells(w, isHead, calls) && AfterPanic(w).budget > 0
    ensures AfterPanic(w).frames == Story(isHead, calls, Panic)
  {
    if !w.wroteHeaders {
      var w1 := w.(status := 500, header := w.header.(length := Absent), declared := -1);
      assert Prepare(w1).status == 500 && Prepare(w1).header == MapAt(calls).(length := Absent);
    }
  }

  lemma FinishBudget(w: Writer, outcome: Outcome)
    ensures outcome.Return? ==> AfterReturn(w, outcome.dataDone).budget <= w.budget
    ensures AfterPanic(w).budget <= w.budget
  {
    EndBudget(w);
    SendFinalBudget(w.(status := 500, header := w.header.(length := Absent), declared := -1), true);
  }

  /** Every response, on a transport that outlasts it and with credit for every slice, is exactly its
      story: whatever the calls and however the handler ends. */
  lemma ResponseIsItsStory(isHead: bool, budget: nat, calls: seq<Call>, outcome: Outcome)
    requires AllSent(calls) && Serve(isHead, budget, calls, outcome).budget > 0
    ensures Serve(isHead, budget, calls, outcome).frames == Story(isHead, calls, outcome)
  {
    var w := DoCalls(Fresh(isHead, budget), calls);
    FinishBudget(w, outcome);
    match outcome {
      case BadPath =>
      case Return(dataDone) =>
        CallsTell(isHead, budget, calls);
        ReturnTells(w, isHead, calls, dataDone);
      case Panic =>
        CallsTell(isHead, budget, calls);
        PanicTells(w, isHead, calls);
    }
  }

  // ---- what follows from it ------------------------------------------------------------------------

  lemma StreamingWriteFailsIff(w: Writer, chunks: seq<Bytes>, unsent: Bytes)
    requires Tracks(w) && Streams(w) && w.err == Fine && w.budget >= |chunks|
    ensures var p := Flatten(chunks) + unsent;
            var (w', n) := WriteBody(w, chunks, unsent);
            var h := FinalHeaders(w.frames).value.header;
            && (w'.err == TooLong <==> p != [] && h.length.Readable? && |Payload(w.frames)| + |p| > h.length.value)
            && (w'.err != TooLong && unsent == [] ==> w'.err == Fine && n == |p|)
  {
    assert Flatten(chunks) + [] == Flatten(chunks);
  }

  lemma WriteKeepsFinal(w: Writer, chunks: seq<Bytes>, unsent: Bytes)
    requires Tracks(w) && Streams(w)
    ensures FinalHeaders(WriteBody(w, chunks, unsent).0.frames) == FinalHeaders(w.frames)
  {
    AppendData(w.frames, Sendable(w, chunks));
  }

  /** On a response that carries a body, with the transport up to it, a Write is refused as too long
      exactly if its slice is not empty and takes the body past the length that the final HEADERS on the
      wire declare. Otherwise, given credit, all of it goes out. */
  lemma WriteIsRefusedIff(w: Writer, chunks: seq<Bytes>, unsent: Bytes)
    requires Tracks(w) && w.err == Fine && !Prepare(w).noBody && w.budget > |chunks|
    ensures var p := Flatten(chunks) + unsent;
            var (w', n) := DoWrite(w, chunks, unsent);
            && FinalHeaders(w'.frames).Some?
            && var h := FinalHeaders(w'.frames).value.header;
               && (w'.err == TooLong <==> p != [] && h.length.Readable? && |Payload(w.frames)| + |p| > h.length.value)
               && (w'.err != TooLong && unsent == [] ==> w'.err == Fine && n == |p|)
  {
    SendFinalTracks(w);
    var w2 := SendFinal(Prepare(w), false).0;
    assert DoWrite(w, chunks, unsent) == WriteBody(w2, chunks, unsent);
    StreamingWriteFailsIff(w2, chunks, unsent);
    WriteKeepsFinal(w2, chunks, unsent);
  }

  lemma WireFacts(w: Writer, isHead: bool, calls: seq<Call>)
    requires Tells(w, isHead, calls) && Tracks(w)
    ensures !EndSent(Wire(isHead, calls))
    ensures HeadersOut(isHead, calls) ==>
              FinalHeaders(Wire(isHead, calls)).Some? &&
              FinalHeaders(Wire(isHead, calls)).value.status == FinalStatus(calls)
    ensures !HeadersOut(isHead, calls) ==> FinalHeaders(Wire(isHead, calls)) == None
  {
  }

  /** A handler that returns completes its response, with the status it chose, exactly if the body matches
      the declared length or none was declared; otherwise the stream ends in an error reset. */
  lemma CompletesIff(isHead: bool, budget: nat, calls: seq<Call>, dataDone: bool)
    requires AllSent(calls) && Serve(isHead, budget, calls, Return(dataDone)).budget > 0
    ensures var fs := Serve(isHead, budget, calls, Return(dataDone)).frames;
            && (EndSent(fs) <==> !Mismatched(isHead, calls))
            && (Mismatched(isHead, calls) <==> fs != [] && fs[|fs|-1] == Rst(InternalError))
            && (!Mismatched(isHead, calls) ==>
                  FinalHeaders(fs).Some? && FinalHeaders(fs).value.status == FinalStatus(calls))
  {
    var w := DoCalls(Fresh(isHead, budget), calls);
    FinishBudget(w, Return(dataDone));
    CallsTell(isHead, budget, calls);
    CallsTrack(isHead, budget, calls);
    WireFacts(w, isHead, calls);
    ChosenIsFinal(calls);
    ResponseIsItsStory(isHead, budget, calls, Return(dataDone));
    StoryEnds(isHead, calls, dataDone);
  }

  lemma StoryEnds(isHead: bool, calls: seq<Call>, dataDone: bool)
    requires !EndSent(Wire(isHead, calls))
    requires if HeadersOut(isHead, calls)
             then FinalHeaders(Wire(isHead, calls)).Some? &&
                  FinalHeaders(Wire(isHead, calls)).value.status == FinalStatus(calls)
             else FinalHeaders(Wire(isHead, calls)) == None && !Informational(FinalStatus(calls))
    ensures var fs := Story(isHead, calls, Return(dataDone));
            && (EndSent(fs) <==> !Mismatched(isHead, calls))
            && (Mismatched(isHead, calls) <==> fs[|fs|-1] == Rst(InternalError))
            && (!Mismatched(isHead, calls) ==>
                  FinalHeaders(fs).Some? && FinalHeaders(fs).value.status == FinalStatus(calls))
  {
    var wire, f := Wire(isHead, calls), Ending(isHead, calls);
    Snoc(wire, Rst(InternalError));
    Snoc(wire, f);
    Snoc(wire + [f], Rst(NoError));
    Assoc(wire, [f], [Rst(NoError)]);
    assert [f] + [] == [f];
  }

  lemma {:induction false} ChosenIsFinal(calls: seq<Call>)
    ensures !Informational(FinalStatus(calls))
  {
    if calls != [] {
      ChosenIsFinal(calls[..|calls|-1]);
    }
  }
}
