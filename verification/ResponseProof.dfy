/** For every sequence of handler calls, the frames of a response are well formed and well
    sized. */
module ResponseProof {
  import opened HttpFrames
  import opened ResponseSpec

  /** While the handler runs, the writer's fields describe what has gone out. */
  ghost predicate Tracks(w: Writer) {
    && (w.clViolated <==> w.err == TooLong)
    && !Informational(w.status)
    && (!w.prepared ==> !w.wroteHeaders)
    && (w.prepared ==>
          w.status != 0 && w.noBody == (w.isHead || !BodyAllowed(w.status)) && (w.noBody || w.wroteHeaders))
    && |Payload(w.frames)| == w.written
    && !EndSent(w.frames)
    && (if w.wroteHeaders && !(w.err == Transport && PhaseOf(w.frames) == Interim) then Streams(w) else Waits(w))
  }

  /** Only interim responses are out. */
  ghost predicate Waits(w: Writer) {
    && PhaseOf(w.frames) == Interim
    && FinalHeaders(w.frames) == None
    && !HasData(w.frames) && w.written == 0
    && w.err != TooLong
  }

  /** Final HEADERS are out, and declare what the writer enforces. */
  ghost predicate Streams(w: Writer) {
    && PhaseOf(w.frames) == Streaming
    && !w.noBody
    && FinalHeaders(w.frames).Some?
    && var f := FinalHeaders(w.frames).value;
       && f.status == w.status
       && Agrees(f.header, w.declared)
       && (w.declared >= 0 ==> w.written <= w.declared)
  }

  lemma TracksIsWellSized(w: Writer)
    requires Tracks(w)
    ensures WellSized(w.frames, w.isHead)
  {
  }

  /** After prepare the header block agrees with the declared length. */
  lemma PrepareAgrees(w: Writer)
    requires !w.prepared
    ensures var w1 := Prepare(w);
            && Agrees(w1.header, w1.declared)
            && w1.prepared && w1.frames == w.frames
            && w1.noBody == (w.isHead || !BodyAllowed(w1.status))
  {
  }

  ghost predicate Agrees(h: Header, declared: int) {
    h.length == if declared >= 0 then Readable(declared) else Absent
  }

  lemma FinalOut(w: Writer)
    requires w.prepared && !w.wroteHeaders && !w.noBody && w.noBody == (w.isHead || !BodyAllowed(w.status))
    requires !Informational(w.status) && w.status != 0
    requires Waits(w) && Payload(w.frames) == [] && !EndSent(w.frames) && w.err == Fine && !w.clViolated
    requires Agrees(w.header, w.declared)
    ensures var r := SendFinal(w, false);
            && Tracks(r.0)
            && Payload(r.0.frames) == []
            && (if r.1 then Streams(r.0) && r.0.err == Fine else r.0.err == Transport)
  {
    Snoc(w.frames, Headers(w.status, w.header, false));
  }

  /** Prepare followed at once by final HEADERS without END_STREAM, as Write and Flush do. */
  lemma SendFinalTracks(w: Writer)
    requires Tracks(w) && w.err == Fine && !Prepare(w).noBody
    ensures var r := SendFinal(Prepare(w), false);
            && Tracks(r.0) && r.0.isHead == w.isHead
            && r.0.written == w.written
            && Payload(r.0.frames) == Payload(w.frames)
            && (if r.1 then Streams(r.0) && r.0.err == Fine else r.0.err == Transport)
  {
    if !w.wroteHeaders {
      PrepareAgrees(w);
      FinalOut(Prepare(w));
    }
  }

  lemma InterimTracks(w: Writer, code: int)
    requires Tracks(w) && !w.prepared && w.err == Fine && w.status == 0
    requires Informational(code) && code != 101
    ensures Tracks(Send(w, Headers(code, w.header.(length := Absent), false)).0)
  {
    Snoc(w.frames, Headers(code, w.header.(length := Absent), false));
  }

  lemma WriteHeaderTracks(w: Writer, code: int)
    requires Tracks(w)
    ensures Tracks(DoWriteHeader(w, code)) && DoWriteHeader(w, code).isHead == w.isHead
  {
    if !w.prepared && w.err == Fine {
      if Informational(code) {
        if w.status == 0 && code != 101 {
          InterimTracks(w, code);
        }
      }
    }
  }

  lemma SendDataTracks(w: Writer, p: Bytes)
    requires Tracks(w) && Streams(w) && w.err == Fine
    requires w.declared >= 0 ==> w.written + |p| <= w.declared
    ensures var r := Send(w, Data(p, false));
            var w' := if r.1 then r.0.(written := w.written + |p|) else r.0;
            && Tracks(w') && w'.isHead == w.isHead && w'.noBody == w.noBody && w'.declared == w.declared
            && (r.1 ==> Streams(w') && w'.err == Fine && Payload(w'.frames) == Payload(w.frames) + p)
            && (!r.1 ==> w'.err == Transport && Payload(w'.frames) == Payload(w.frames))
  {
    Snoc(w.frames, Data(p, false));
  }

  lemma SendEmptyTracks(w: Writer)
    requires Tracks(w) && Streams(w) && w.err == Fine
    ensures var w' := Send(w, Data([], false)).0;
            Tracks(w') && w'.isHead == w.isHead && Payload(w'.frames) == Payload(w.frames)
  {
    SendDataTracks(w, []);
    assert Payload(w.frames) + [] == Payload(w.frames);
  }

  lemma FlushTracks(w: Writer)
    requires Tracks(w)
    ensures Tracks(DoFlush(w))
    ensures Payload(DoFlush(w).frames) == Payload(w.frames) && DoFlush(w).isHead == w.isHead
  {
    if w.err == Fine && !Prepare(w).noBody {
      SendFinalTracks(w);
      var (w2, ok) := SendFinal(Prepare(w), false);
      if ok {
        SendEmptyTracks(w2);
      }
    }
  }

  lemma {:induction false} AppendData(fs: seq<Frame>, cs: seq<Bytes>)
    requires PhaseOf(fs) == Streaming && FinalHeaders(fs).Some?
    ensures var fs' := fs + DataFrames(cs);
            && PhaseOf(fs') == Streaming
            && FinalHeaders(fs') == FinalHeaders(fs)
            && EndSent(fs') == EndSent(fs)
            && Payload(fs') == Payload(fs) + Flatten(cs)
  {
    if cs == [] {
      assert fs + DataFrames(cs) == fs;
    } else {
      var before, c := cs[..|cs|-1], cs[|cs|-1];
      AppendData(fs, before);
      assert cs == before + [c];
      DataFramesSnoc(fs, before, c);
      Snoc(fs + DataFrames(before), Data(c, false));
    }
  }

  lemma ChunksTrack(w: Writer, sent: seq<Bytes>, size: nat)
    requires Tracks(w) && Streams(w) && w.err == Fine
    requires |sent| <= w.budget && |Flatten(sent)| <= size
    requires w.declared >= 0 ==> w.written + size <= w.declared
    ensures var w' := SendChunks(w, sent, size);
            && Tracks(w') && w'.isHead == w.isHead && !w'.noBody
            && Payload(w'.frames) == Payload(w.frames) + Flatten(sent)
  {
    AppendData(w.frames, sent);
  }

  lemma {:induction false} FlattenPrefix(cs: seq<Bytes>, k: nat)
    requires k <= |cs|
    ensures Flatten(cs[..k]) <= Flatten(cs)
  {
    if k == |cs| {
      assert cs[..k] == cs;
    } else {
      FlattenPrefix(cs[..|cs|-1], k);
      assert cs[..|cs|-1][..k] == cs[..k];
    }
  }

  lemma SendableIsPrefix(w: Writer, chunks: seq<Bytes>, unsent: Bytes)
    ensures var n := |Flatten(Sendable(w, chunks))|;
            n <= |Flatten(chunks) + unsent| && Flatten(Sendable(w, chunks)) == (Flatten(chunks) + unsent)[..n]
  {
    if |chunks| > w.budget {
      FlattenPrefix(chunks, w.budget);
    }
  }

  lemma WriteBodyTracks(w: Writer, chunks: seq<Bytes>, unsent: Bytes)
    requires Tracks(w) && Streams(w) && w.err == Fine
    ensures var p := Flatten(chunks) + unsent;
            var (w', n) := WriteBody(w, chunks, unsent);
            && Tracks(w') && w'.isHead == w.isHead && !w'.noBody
            && n <= |p|
            && Payload(w'.frames) == Payload(w.frames) + p[..n]
            && (w'.err == Fine ==> n == |p|)
  {
    var p := Flatten(chunks) + unsent;
    assert Payload(w.frames) + p[..0] == Payload(w.frames);
    if p != [] && !(w.declared >= 0 && w.written + |p| > w.declared) {
      SendableIsPrefix(w, chunks, unsent);
      ChunksTrack(w, Sendable(w, chunks), |p|);
    }
  }

  /** Write: for a body-bearing response, exactly the prefix of the slice that is reported
      accepted joins the body on the wire; all of it, unless the writer has failed. */
  lemma WriteTracks(w: Writer, chunks: seq<Bytes>, unsent: Bytes)
    requires Tracks(w)
    ensures var p := Flatten(chunks) + unsent;
            var (w', n) := DoWrite(w, chunks, unsent);
            && Tracks(w') && w'.isHead == w.isHead
            && n <= |p|
            && Payload(w'.frames) == Payload(w.frames) + (if w'.noBody then [] else p[..n])
            && (w'.err == Fine ==> n == |p|)
  {
    assert Payload(w.frames) + [] == Payload(w.frames);
    if w.err == Fine && !Prepare(w).noBody {
      SendFinalTracks(w);
      var (w2, ok) := SendFinal(Prepare(w), false);
      if ok {
        WriteBodyTracks(w2, chunks, unsent);
      }
    }
  }

  lemma CallTracks(w: Writer, c: Call)
    requires Tracks(w)
    ensures Tracks(DoCall(w, c)) && DoCall(w, c).isHead == w.isHead
  {
    match c {
      case SetHeader(_) =>
      case WriteHeader(code) => WriteHeaderTracks(w, code);
      case Write(chunks, unsent) => WriteTracks(w, chunks, unsent);
      case Flush => FlushTracks(w);
    }
  }

  lemma {:induction false} CallsTrack(isHead: bool, budget: nat, calls: seq<Call>)
    ensures var w := DoCalls(Fresh(isHead, budget), calls);
            Tracks(w) && w.isHead == isHead
  {
    if calls != [] {
      CallsTrack(isHead, budget, calls[..|calls|-1]);
      CallTracks(DoCalls(Fresh(isHead, budget), calls[..|calls|-1]), calls[|calls|-1]);
    }
  }

  // ---- the end of the stream ---------------------------------------------------------

  /** No frame send was refused. */
  predicate Alive(w: Writer) {
    w.err != Transport && w.budget > 0
  }

  /** What the peer may see of a response: a well-formed, well-sized sequence, complete if the
      transport survived. */
  ghost predicate Proper(w: Writer, isHead: bool) {
    && PhaseOf(w.frames) != Malformed
    && WellSized(w.frames, isHead)
    && (Alive(w) ==> PhaseOf(w.frames) == Ended || PhaseOf(w.frames) == Closed)
  }

  lemma ErrorResetIsProper(w: Writer, code: Code)
    requires code != NoError && WellSized(w.frames, w.isHead)
    requires PhaseOf(w.frames) == Interim || PhaseOf(w.frames) == Streaming
    ensures Proper(Reset(w, code), w.isHead)
  {
    Snoc(w.frames, Rst(code));
  }

  /** Resetting without an error, after END_STREAM. */
  lemma QuietResetIsProper(w: Writer)
    requires PhaseOf(w.frames) == Ended && WellSized(w.frames, w.isHead)
    ensures Proper(Reset(w, NoError), w.isHead)
  {
    Snoc(w.frames, Rst(NoError));
  }

  lemma OnlyHeadersAreSized(fs: seq<Frame>, status: int, h: Header, isHead: bool, declared: int)
    requires PhaseOf(fs) == Interim && FinalHeaders(fs) == None && !HasData(fs) && Payload(fs) == []
    requires !Informational(status)
    requires isHead || !BodyAllowed(status) || (Agrees(h, declared) && declared <= 0)
    ensures var fs' := fs + [Headers(status, h, true)];
            PhaseOf(fs') == Ended && WellSized(fs', isHead)
  {
    Snoc(fs, Headers(status, h, true));
  }

  /** Final HEADERS with END_STREAM on a response that has not started. */
  lemma OnlyHeadersIsProper(w: Writer)
    requires Waits(w) && !w.wroteHeaders && w.prepared && !Informational(w.status)
    requires w.isHead || !BodyAllowed(w.status) || (Agrees(w.header, w.declared) && w.declared <= 0)
    requires Payload(w.frames) == []
    ensures var (w', ok) := SendFinal(w, true);
            && Proper(w', w.isHead) && w'.isHead == w.isHead
            && (ok ==> PhaseOf(w'.frames) == Ended)
            && (!ok ==> w'.err == Transport)
  {
    if w.budget > 0 {
      OnlyHeadersAreSized(w.frames, w.status, w.header, w.isHead, w.declared);
      assert SendFinal(w, true).0.frames == w.frames + [Headers(w.status, w.header, true)];
    } else {
      assert SendFinal(w, true).0.frames == w.frames;
    }
  }

  lemma EmptyDataIsProper(w: Writer)
    requires Tracks(w) && Streams(w) && w.err == Fine
    requires w.declared >= 0 ==> w.written == w.declared
    ensures var (w', ok) := Send(w, Data([], true));
            && Proper(w', w.isHead) && w'.isHead == w.isHead
            && (ok ==> PhaseOf(w'.frames) == Ended)
            && (!ok ==> w'.err == Transport)
  {
    Snoc(w.frames, Data([], true));
  }

  lemma EndStreamIsProper(w: Writer)
    requires Tracks(w) && w.err == Fine
    ensures var (w', how) := DoEndStream(w);
            && w'.isHead == w.isHead
            && (how.Short? ==> w'.frames == w.frames)
            && (how.Broken? ==> Proper(w', w.isHead) && w'.err == Transport)
            && (how.Completed? ==> Proper(w', w.isHead) && PhaseOf(w'.frames) == Ended)
  {
    var w1 := Prepare(w);
    if !w.prepared {
      PrepareAgrees(w);
    }
    assert w1.frames == w.frames;
    if w1.noBody || w1.declared < 0 || w1.written >= w1.declared {
      if w1.wroteHeaders {
        EmptyDataIsProper(w1);
      } else {
        OnlyHeadersIsProper(w1);
      }
    }
  }

  lemma AfterReturnIsProper(w: Writer, dataDone: bool)
    requires Tracks(w)
    ensures Proper(AfterReturn(w, dataDone), w.isHead)
  {
    TracksIsWellSized(w);
    if w.clViolated {
      ErrorResetIsProper(w, InternalError);
    } else if w.err == Fine {
      EndStreamIsProper(w);
      var (w1, how) := DoEndStream(w);
      if how.Short? {
        ErrorResetIsProper(w1, InternalError);
      } else if how.Completed? {
        QuietResetIsProper(w1);
      }
    }
  }

  lemma AfterPanicIsProper(w: Writer)
    requires Tracks(w)
    ensures Proper(AfterPanic(w), w.isHead)
  {
    TracksIsWellSized(w);
    if w.wroteHeaders {
      ErrorResetIsProper(w, InternalError);
    } else {
      var w1 := w.(status := 500, header := w.header.(length := Absent), declared := -1);
      assert SendFinal(w1, true) == SendFinal(Prepare(w1), true);
      if !w.prepared {
        PrepareAgrees(w1);
      }
      OnlyHeadersIsProper(Prepare(w1));
    }
  }

  /** For every request, every sequence of handler calls, every way the handler ends, and every
      point at which the transport may die: the frames of the stream are a prefix of a
      well-formed response, and a complete one if the transport survives; and their sizes
      respect the declared length. */
  lemma ResponseIsProper(isHead: bool, budget: nat, calls: seq<Call>, outcome: Outcome)
    ensures Proper(Serve(isHead, budget, calls, outcome), isHead)
    ensures var w := Serve(isHead, budget, calls, outcome);
            Alive(w) ==> EndedWord(w.frames) || ClosedWord(w.frames)
  {
    PhaseIsGrammar(Serve(isHead, budget, calls, outcome).frames);
    CallsTrack(isHead, budget, calls);
    var w := DoCalls(Fresh(isHead, budget), calls);
    match outcome {
      case Return(dataDone) => AfterReturnIsProper(w, dataDone);
      case Panic => AfterPanicIsProper(w);
      case BadPath => ErrorResetIsProper(Fresh(isHead, budget), ProtocolError);
    }
  }

  // ---- at every moment -------------------------------------------------------------------

  lemma {:induction false} PhaseFacts(fs: seq<Frame>)
    ensures PhaseOf(fs) == Interim ==> !HasData(fs)
    ensures EndSent(fs) ==> PhaseOf(fs) in {Ended, Closed, Malformed}
  {
    if fs != [] {
      PhaseFacts(fs[..|fs|-1]);
    }
  }

  lemma OneFrameEarlier(fs: seq<Frame>, isHead: bool)
    requires fs != [] && PhaseOf(fs) != Malformed && WellSized(fs, isHead)
    ensures PhaseOf(fs[..|fs|-1]) != Malformed && WellSized(fs[..|fs|-1], isHead)
  {
    PhaseFacts(fs[..|fs|-1]);
  }

  /** What the peer has seen so far, whenever it looks, is as good as the whole. */
  lemma {:induction false} ProperAtEveryMoment(fs: seq<Frame>, isHead: bool, k: nat)
    requires k <= |fs| && PhaseOf(fs) != Malformed && WellSized(fs, isHead)
    ensures PhaseOf(fs[..k]) != Malformed && WellSized(fs[..k], isHead)
  {
    if k < |fs| {
      OneFrameEarlier(fs, isHead);
      ProperAtEveryMoment(fs[..|fs|-1], isHead, k);
      assert fs[..|fs|-1][..k] == fs[..k];
    } else {
      assert fs[..k] == fs;
    }
  }

  // ---- unreadable lengths on bodyless responses -------------------------------------------

  predicate Resolves(c: Call) {
    c.Write? || c.Flush?
  }

  /** Some Write or Flush is among the calls. */
  predicate Resolved(calls: seq<Call>) {
    calls != [] && (Resolved(calls[..|calls|-1]) || Resolves(calls[|calls|-1]))
  }

  /** The last header map the handler leaves has an unreadable length, set after a Write or Flush. */
  predicate SetsBadLengthLate(calls: seq<Call>) {
    calls != [] &&
    var before, c := calls[..|calls|-1], calls[|calls|-1];
    if c.SetHeader? then c.header.length.Unreadable? && Resolved(before) else SetsBadLengthLate(before)
  }

  /** A resolving call leaves the header map as prepare does. */
  lemma WriteResolves(w: Writer, chunks: seq<Bytes>, unsent: Bytes)
    requires DoWrite(w, chunks, unsent).0.err == Fine
    ensures w.err == Fine
    ensures var w' := DoWrite(w, chunks, unsent).0; w'.prepared && w'.header == Prepare(w).header
  {
    var w1 := Prepare(w);
    if w.err == Fine && !w1.noBody {
      assert SendFinal(w1, false).0.header == w1.header && SendFinal(w1, false).0.prepared;
    }
  }

  lemma FlushResolves(w: Writer)
    requires DoFlush(w).err == Fine
    ensures w.err == Fine
    ensures DoFlush(w).prepared && DoFlush(w).header == Prepare(w).header
  {
    var w1 := Prepare(w);
    if w.err == Fine && !w1.noBody {
      assert SendFinal(w1, false).0.header == w1.header && SendFinal(w1, false).0.prepared;
    }
  }

  /** What a call leaves of the header map and the prepared flag. */
  lemma CallMovesHeader(w: Writer, c: Call)
    requires DoCall(w, c).err == Fine
    ensures w.err == Fine
    ensures var w' := DoCall(w, c);
            && (Resolves(c) ==> w'.prepared && w'.header == Prepare(w).header)
            && (!Resolves(c) ==> w'.prepared == w.prepared && w'.header == if c.SetHeader? then c.header else w.header)
  {
    match c {
      case Write(chunks, unsent) => WriteResolves(w, chunks, unsent);
      case Flush => FlushResolves(w);
      case SetHeader(_) =>
      case WriteHeader(_) =>
    }
  }

  lemma {:induction false} CallsMoveHeader(isHead: bool, budget: nat, calls: seq<Call>)
    requires DoCalls(Fresh(isHead, budget), calls).err == Fine
    ensures var w := DoCalls(Fresh(isHead, budget), calls);
            && (w.prepared <==> Resolved(calls))
            && (w.prepared && w.header.length.Unreadable? <==> SetsBadLengthLate(calls))
  {
    if calls != [] {
      var before, c := calls[..|calls|-1], calls[|calls|-1];
      CallMovesHeader(DoCalls(Fresh(isHead, budget), before), c);
      CallsMoveHeader(isHead, budget, before);
    }
  }

  predicate ForwardsBadLength(fs: seq<Frame>) {
    FinalHeaders(fs).Some? && FinalHeaders(fs).value.header.length.Unreadable?
  }

  lemma TracksForwardsNone(w: Writer, f: Frame)
    requires Tracks(w) && (f.Headers? ==> !f.header.length.Unreadable?)
    ensures !ForwardsBadLength(w.frames) && !ForwardsBadLength(w.frames + [f])
  {
    Snoc(w.frames, f);
  }

  lemma ResetForwardsNone(w: Writer, code: Code)
    requires !ForwardsBadLength(w.frames)
    ensures !ForwardsBadLength(Reset(w, code).frames)
  {
    Snoc(w.frames, Rst(code));
  }

  lemma BodylessEnd(w: Writer)
    requires Tracks(w) && w.err == Fine && Prepare(w).noBody
    ensures !w.wroteHeaders
    ensures DoEndStream(w).0.frames ==
            if w.budget > 0 then w.frames + [Headers(Prepare(w).status, Prepare(w).header, true)] else w.frames
    ensures DoEndStream(w).1 == if w.budget > 0 then Completed else Broken
  {
  }

  lemma FinalAfter(w: Writer, fs: seq<Frame>, f: Frame, dataDone: bool)
    requires FinalHeaders(fs) == None && f.Headers? && !Informational(f.status) && w.frames == fs + [f]
    ensures FinalHeaders((if dataDone then w else Reset(w, NoError)).frames) == Some(Final(f.status, f.header))
  {
    Snoc(fs, f);
    Snoc(fs + [f], Rst(NoError));
  }

  lemma BodylessWaits(w: Writer)
    requires Tracks(w) && Prepare(w).noBody
    ensures !w.clViolated && FinalHeaders(w.frames) == None && !Informational(Prepare(w).status)
  {
  }

  /** What the return path of a bodyless response sends. */
  lemma BodylessReturn(w: Writer, dataDone: bool)
    requires Tracks(w) && Prepare(w).noBody
    ensures FinalHeaders(AfterReturn(w, dataDone).frames) ==
            if w.err == Fine && w.budget > 0 then Some(Final(Prepare(w).status, Prepare(w).header)) else None
  {
    BodylessWaits(w);
    if w.err == Fine {
      BodylessEnd(w);
      if w.budget > 0 {
        FinalAfter(DoEndStream(w).0, w.frames, Headers(Prepare(w).status, Prepare(w).header, true), dataDone);
      }
    }
  }

  lemma BodyEndForwardsNone(w: Writer)
    requires Tracks(w) && !Prepare(w).noBody && w.err == Fine
    ensures !ForwardsBadLength(DoEndStream(w).0.frames)
  {
    var w1 := Prepare(w);
    if !w.prepared {
      PrepareAgrees(w);
    }
    TracksForwardsNone(w, Data([], true));
    if !w1.wroteHeaders {
      TracksForwardsNone(w, Headers(w1.status, w1.header, true));
    }
  }

  lemma BodyReturnForwardsNone(w: Writer, dataDone: bool)
    requires Tracks(w) && !Prepare(w).noBody
    ensures !ForwardsBadLength(AfterReturn(w, dataDone).frames)
  {
    TracksForwardsNone(w, Rst(InternalError));
    if w.clViolated {
      ResetForwardsNone(w, InternalError);
    } else if w.err == Fine {
      BodyEndForwardsNone(w);
      ResetForwardsNone(DoEndStream(w).0, InternalError);
      ResetForwardsNone(DoEndStream(w).0, NoError);
    }
  }

  lemma PanicForwardsNone(w: Writer)
    requires Tracks(w)
    ensures !ForwardsBadLength(AfterPanic(w).frames)
  {
    TracksForwardsNone(w, Rst(InternalError));
    if w.wroteHeaders {
      ResetForwardsNone(w, InternalError);
    } else {
      var w1 := Prepare(w.(status := 500, header := w.header.(length := Absent), declared := -1));
      TracksForwardsNone(w, Headers(w1.status, w1.header, true));
    }
  }

  /** An unreadable length goes out exactly on a bodyless response whose handler returns, with the
      transport alive, and whose last header map has one that was set after a Write or Flush: the block
      goes out when the handler returns, but was scrubbed when the first Write or Flush resolved it. */
  lemma UnreadableLengthForwardedIff(isHead: bool, budget: nat, calls: seq<Call>, outcome: Outcome)
    ensures var w := DoCalls(Fresh(isHead, budget), calls);
            ForwardsBadLength(Serve(isHead, budget, calls, outcome).frames) <==>
              && outcome.Return?
              && SetsBadLengthLate(calls)
              && (isHead || !BodyAllowed(w.status))
              && w.err == Fine && w.budget > 0
  {
    var w := DoCalls(Fresh(isHead, budget), calls);
    CallsTrack(isHead, budget, calls);
    if w.err == Fine {
      CallsMoveHeader(isHead, budget, calls);
    }
    match outcome {
      case BadPath => ResetForwardsNone(Fresh(isHead, budget), ProtocolError);
      case Panic => PanicForwardsNone(w);
      case Return(dataDone) =>
        if Prepare(w).noBody {
          BodylessReturn(w, dataDone);
        } else {
          BodyReturnForwardsNone(w, dataDone);
        }
    }
  }

  /** The case happens: a HEAD handler flushes, then sets a malformed Content-Length. */
  lemma UnreadableLengthCanBeForwarded()
    ensures var bad := Header(Unreadable("x"), map[]);
            Serve(true, 2, [Flush, SetHeader(bad)], Return(true)).frames == [Headers(200, bad, true)]
  {
    var bad := Header(Unreadable("x"), map[]);
    var w0 := Fresh(true, 2);
    assert [Flush, SetHeader(bad)][..1] == [Flush];
    assert [Flush][..0] == [];
    var w1 := DoCalls(w0, [Flush]);
    assert w1.prepared && w1.noBody && w1.status == 200 && w1.frames == [];
    assert DoCalls(w0, [Flush, SetHeader(bad)]) == w1.(header := bad);
  }
}
