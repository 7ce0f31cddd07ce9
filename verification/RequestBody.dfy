/** The proxy's request-body loop: read a buffer, send it as DATA under flow control, and end the
    stream once the reader ends. */
module RequestBody {
  import opened Numbers
  import opened ChunkLoop
  import opened HttpFrames
  import opened ResponseSpec
  import opened ResponseWriter
  import BodySpec
  import EndToEnd

  datatype ReadError = NoErr | EndOfBody | OtherError

  /** What one turn of the outer loop meets: whether the worker had detached, what Read put in the
      buffer and reported, and the credit each Reserve finds. Running out of credit entries means the
      connection was marked dead. */
  datatype Turn = Turn(detached: bool, data: Bytes, err: ReadError, credits: seq<nat>)

  /** How the loop ended; Underway is a loop that has not ended after the given turns. */
  datatype Result = Finished | ReadFailed | Detached | ConnDead | SendFailed | Underway

  /** The bytes read in the first n turns. */
  function Input(turns: seq<Turn>, n: nat): Bytes
    requires n <= |turns|
  {
    if n == 0 then [] else Input(turns, n - 1) + turns[n-1].data
  }

  /** Non-empty pieces of at most limit bytes. */
  ghost predicate Pieces(chunks: seq<Bytes>, limit: nat) {
    forall i :: 0 <= i < |chunks| ==> 0 < |chunks[i]| <= limit
  }

  /** Each piece is as large as its credit allows, except that the last of a buffer sent whole may be
      smaller. */
  ghost predicate Granted(chunks: seq<Bytes>, credits: seq<nat>, whole: bool) {
    && |chunks| <= |credits|
    && forall i :: 0 <= i < |chunks| ==>
         if i < |chunks| - 1 || !whole then |chunks[i]| == credits[i] + 1 else |chunks[i]| <= credits[i] + 1
  }

  /** The inner loop: one filled buffer, sent in pieces as flow control allows. The buffer goes out whole
      unless the transport fails or the connection dies waiting for credit. */
  method SendBuffer(wire: Wire, data: Bytes, credits: seq<nat>) returns (r: Result, ghost chunks: seq<Bytes>)
    requires |data| <= MAX_INT32
    modifies wire
    ensures wire.frames == old(wire.frames) + DataFrames(chunks)
    ensures Pieces(chunks, |data|) && Granted(chunks, credits, r == Underway)
    ensures Flatten(chunks) <= data
    ensures r == Underway || r == ConnDead || r == SendFailed
    ensures r == Underway <==> Flatten(chunks) == data
    ensures r == ConnDead ==> |chunks| == |credits|
    ensures r == SendFailed ==> wire.budget == 0
  {
    chunks := [];
    var offset, i := 0, 0;
    while offset < |data|
      invariant offset <= |data| && Flatten(chunks) == data[..offset] && i == |chunks|
      invariant wire.frames == old(wire.frames) + DataFrames(chunks)
      invariant Pieces(chunks, |data|) && Granted(chunks, credits, offset == |data|)
      decreases |data| - offset
    {
      if i == |credits| {
        return ConnDead, chunks;
      }
      var want := Int32(|data| - offset);
      var got := Got(want, credits[i]);
      var chunk := data[offset..offset + got];
      var ok := wire.Submit(Data(chunk, false));
      if !ok {
        return SendFailed, chunks;
      }
      OneMoreChunk(old(wire.frames), data, offset, chunks, chunk);
      chunks, i, offset := chunks + [chunk], i + 1, offset + got;
    }
    r := Underway;
  }

  lemma {:induction false} FlattenAppend(a: seq<Bytes>, b: seq<Bytes>)
    ensures Flatten(a + b) == Flatten(a) + Flatten(b)
  {
    if b == [] {
      assert a + b == a;
    } else {
      FlattenAppend(a, b[..|b|-1]);
      assert (a + b)[..|a + b|-1] == a + b[..|b|-1];
      Assoc(Flatten(a), Flatten(b[..|b|-1]), b[|b|-1]);
    }
  }

  lemma DataFramesAppend(fs: seq<Frame>, a: seq<Bytes>, b: seq<Bytes>)
    ensures fs + DataFrames(a) + DataFrames(b) == fs + DataFrames(a + b)
  {
    assert DataFrames(a) + DataFrames(b) == DataFrames(a + b);
  }

  lemma OneMoreBuffer(before: seq<Frame>, chunks: seq<Bytes>, more: seq<Bytes>, data: Bytes)
    requires Flatten(more) <= data
    ensures before + DataFrames(chunks) + DataFrames(more) == before + DataFrames(chunks + more)
    ensures Flatten(chunks + more) <= Flatten(chunks) + data
    ensures Flatten(more) == data ==> Flatten(chunks + more) == Flatten(chunks) + data
  {
    FlattenAppend(chunks, more);
    DataFramesAppend(before, chunks, more);
    assert Flatten(chunks) + data == (Flatten(chunks) + Flatten(more)) + data[|Flatten(more)|..];
  }

  /** A read error that the loop passes over: none. */
  ghost predicate Quiet(turns: seq<Turn>, n: nat) {
    n <= |turns| && forall i :: 0 <= i < n ==> !turns[i].detached && turns[i].err == NoErr
  }

  /** The frame that closes the request, for each way the loop can end. */
  ghost predicate Closes(r: Result, tail: seq<Frame>, budget: nat) {
    match r
    case Finished => tail == [Data([], true)]
    case ReadFailed => tail == [Rst(Cancel)] || (tail == [] && budget == 0)
    case _ => tail == []
  }

  /** All credits of the last buffer were used up, to the last byte. */
  ghost predicate Starved(chunks: seq<Bytes>, credits: seq<nat>) {
    && |credits| <= |chunks|
    && forall i :: 0 <= i < |credits| ==> |chunks[|chunks| - |credits| + i]| == credits[i] + 1
  }

  /** What the loop has done after reading `used` buffers. */
  ghost predicate Explains(turns: seq<Turn>, r: Result, used: nat, chunks: seq<Bytes>, budget: nat) {
    && used <= |turns|
    && Flatten(chunks) <= Input(turns, used)
    && match r
       case Finished =>
         used > 0 && Quiet(turns, used - 1) && turns[used-1].err == EndOfBody && Flatten(chunks) == Input(turns, used)
       case ReadFailed =>
         used > 0 && Quiet(turns, used - 1) && turns[used-1].err == OtherError && Flatten(chunks) == Input(turns, used)
       case Detached =>
         Quiet(turns, used) && used < |turns| && turns[used].detached && Flatten(chunks) == Input(turns, used)
       case Underway => Quiet(turns, used) && used == |turns| && Flatten(chunks) == Input(turns, used)
       case ConnDead => used > 0 && Quiet(turns, used - 1) && Starved(chunks, turns[used-1].credits)
       case SendFailed => used > 0 && Quiet(turns, used - 1) && budget == 0
  }

  /** The end of the loop after a read that reported an error. */
  method CloseRequest(wire: Wire, err: ReadError) returns (r: Result, ghost tail: seq<Frame>)
    requires err != NoErr
    modifies wire
    ensures wire.frames == old(wire.frames) + tail
    ensures Closes(r, tail, wire.budget)
    ensures err == OtherError ==> r == ReadFailed
    ensures err == EndOfBody ==> r == Finished || (r == SendFailed && wire.budget == 0)
  {
    tail := [];
    if err == EndOfBody {
      var sent := wire.Submit(Data([], true));
      if !sent {
        return SendFailed, tail;
      }
      return Finished, [Data([], true)];
    }
    var queued := wire.Submit(Rst(Cancel));
    return ReadFailed, if queued then [Rst(Cancel)] else [];
  }

  /** Sends everything read, in order, in non-empty pieces within the frame size; then one empty
      END_STREAM frame at the end of the body, or one reset after a read error, or nothing if the worker
      detached or the connection died. */
  method StreamRequestBody(wire: Wire, maxFrameSize: int32, turns: seq<Turn>)
    returns (r: Result, used: nat, ghost chunks: seq<Bytes>, ghost tail: seq<Frame>)
    requires forall i :: 0 <= i < |turns| ==> |turns[i].data| <= FrameLimit(maxFrameSize)
    modifies wire
    ensures wire.frames == old(wire.frames) + DataFrames(chunks) + tail
    ensures Pieces(chunks, FrameLimit(maxFrameSize))
    ensures Explains(turns, r, used, chunks, wire.budget)
    ensures Closes(r, tail, wire.budget)
  {
    chunks, tail, used := [], [], 0;
    while used < |turns|
      invariant used <= |turns| && Quiet(turns, used) && tail == []
      invariant wire.frames == old(wire.frames) + DataFrames(chunks)
      invariant Pieces(chunks, FrameLimit(maxFrameSize))
      invariant Flatten(chunks) == Input(turns, used)
    {
      var turn := turns[used];
      if turn.detached {
        return Detached, used, chunks, tail;
      }
      ghost var more;
      r, more := SendBuffer(wire, turn.data, turn.credits);
      OneMoreBuffer(old(wire.frames), chunks, more, turn.data);
      chunks, used := chunks + more, used + 1;
      if r != Underway {
        return r, used, chunks, tail;
      }
      if turn.err != NoErr {
        r, tail := CloseRequest(wire, turn.err);
        return;
      }
    }
    r := Underway;
  }

  // ---- at the worker --------------------------------------------------------------------------

  /** The worker's side of the stream: the request's frames dispatched and still to come, the body
      queue, and what the handler has read. */
  datatype Inbound = Inbound(handled: seq<Frame>, coming: seq<Frame>, body: BodySpec.Body, got: Bytes)

  datatype Event = Dispatch | Read(n: nat) | Teardown

  function Step(i: Inbound, e: Event): Inbound {
    match e
    case Dispatch =>
      if i.coming == [] then i
      else
        i.(handled := i.handled + [i.coming[0]], coming := i.coming[1..],
           body := EndToEnd.Dispatched(i.body, i.coming[0]))
    case Read(n) =>
      i.(body := BodySpec.ReadStep(i.body, n).0, got := i.got + BodySpec.Output(i.body, BodySpec.Op.Read(n)))
    case Teardown => i.(body := BodySpec.Apply(i.body, BodySpec.Fail(BodySpec.ConnClosed)))
  }

  function After(frames: seq<Frame>, es: seq<Event>): Inbound {
    if es == [] then Inbound([], frames, BodySpec.Empty(), []) else Step(After(frames, es[..|es|-1]), es[|es|-1])
  }

  ghost predicate Received(i: Inbound) {
    && i.got + BodySpec.Unread(i.body) == Payload(i.handled)
    && (i.body.done && i.body.err == None ==> EndSent(i.handled))
  }

  lemma DispatchKeepsReceived(i: Inbound)
    requires Received(i) && i.coming != []
    ensures Received(Step(i, Dispatch))
    ensures Step(i, Dispatch).handled + Step(i, Dispatch).coming == i.handled + i.coming
  {
    var f := i.coming[0];
    EndToEnd.DispatchedUnread(i.body, f);
    Snoc(i.handled, f);
    Assoc(i.got, BodySpec.Unread(i.body), if f.Data? then f.payload else []);
  }

  lemma ReadKeepsReceived(i: Inbound, n: nat)
    requires Received(i)
    ensures Received(Step(i, Read(n)))
  {
    BodySpec.ReadTakesPrefix(i.body, n);
    Assoc(i.got, BodySpec.Output(i.body, BodySpec.Op.Read(n)), BodySpec.Unread(BodySpec.ReadStep(i.body, n).0));
  }

  lemma {:induction false} RunKeepsReceived(frames: seq<Frame>, es: seq<Event>)
    ensures Received(After(frames, es))
    ensures After(frames, es).handled + After(frames, es).coming == frames
  {
    if es != [] {
      var i, e := After(frames, es[..|es|-1]), es[|es|-1];
      RunKeepsReceived(frames, es[..|es|-1]);
      match e {
        case Dispatch => if i.coming != [] { DispatchKeepsReceived(i); }
        case Read(n) => ReadKeepsReceived(i, n);
        case Teardown =>
      }
    }
  }

  lemma {:induction false} DataCarriesChunks(chunks: seq<Bytes>)
    ensures Payload(DataFrames(chunks)) == Flatten(chunks) && !EndSent(DataFrames(chunks))
  {
    if chunks != [] {
      DataCarriesChunks(chunks[..|chunks|-1]);
      assert DataFrames(chunks)[..|chunks|-1] == DataFrames(chunks[..|chunks|-1]);
    }
  }

  lemma TailCarriesNothing(chunks: seq<Bytes>, r: Result, tail: seq<Frame>, budget: nat)
    requires Closes(r, tail, budget)
    ensures Payload(DataFrames(chunks) + tail) == Flatten(chunks)
    ensures EndSent(DataFrames(chunks) + tail) ==> r == Finished
  {
    DataCarriesChunks(chunks);
    if tail == [] {
      assert DataFrames(chunks) + tail == DataFrames(chunks);
    } else {
      assert tail == [tail[0]];
      Snoc(DataFrames(chunks), tail[0]);
    }
  }

  /** Once END_STREAM has been dispatched no payload is still to come. */
  lemma EndIsLast(chunks: seq<Bytes>, handled: seq<Frame>, coming: seq<Frame>)
    requires handled + coming == DataFrames(chunks) + [Data([], true)] && EndSent(handled)
    ensures coming == []
  {
    var k := |handled|;
    assert handled == (DataFrames(chunks) + [Data([], true)])[..k];
    assert forall i :: 0 <= i < k && i < |chunks| ==> handled[i] == Data(chunks[i], false);
    if k <= |chunks| {
      assert handled == DataFrames(chunks[..k]);
      DataCarriesChunks(chunks[..k]);
    }
  }

  lemma ReadsAreAPrefix(frames: seq<Frame>, es: seq<Event>, n: nat)
    ensures var i := After(frames, es);
            && i.got <= Payload(frames)
            && (BodySpec.ReadStep(i.body, n).1.Eof? ==> i.got == Payload(i.handled) && EndSent(i.handled))
            && (EndSent(i.handled) ==> EndSent(frames))
  {
    var i := After(frames, es);
    RunKeepsReceived(frames, es);
    EndToEnd.PayloadAppend(i.handled, i.coming);
    if EndSent(i.handled) {
      EndToEnd.EndStaysSent(i.handled, i.coming);
    }
  }

  /** The frames without resets that cancel the request. The forwarder sends those from other goroutines
      than the body loop, so they may stand anywhere among its frames. */
  function Plain(fs: seq<Frame>): seq<Frame> {
    if fs == [] then []
    else Plain(fs[..|fs|-1]) + if fs[|fs|-1] == Rst(Cancel) then [] else [fs[|fs|-1]]
  }

  lemma {:induction false} PlainCarriesAll(fs: seq<Frame>)
    ensures Payload(Plain(fs)) == Payload(fs) && (EndSent(Plain(fs)) <==> EndSent(fs))
  {
    if fs != [] {
      var before, f := fs[..|fs|-1], fs[|fs|-1];
      PlainCarriesAll(before);
      Snoc(Plain(before), f);
      assert Plain(before) + [] == Plain(before);
      assert Payload(before) + [] == Payload(before);
    }
  }

  lemma {:induction false} PlainAppend(a: seq<Frame>, b: seq<Frame>)
    ensures Plain(a + b) == Plain(a) + Plain(b)
  {
    if b == [] {
      assert a + b == a;
    } else {
      PlainAppend(a, b[..|b|-1]);
      assert (a + b)[..|a + b|-1] == a + b[..|b|-1];
      Assoc(Plain(a), Plain(b[..|b|-1]), if b[|b|-1] == Rst(Cancel) then [] else [b[|b|-1]]);
    }
  }

  lemma {:induction false} NothingCancelled(fs: seq<Frame>)
    requires forall i :: 0 <= i < |fs| ==> fs[i].Data?
    ensures Plain(fs) == fs
  {
    if fs != [] {
      NothingCancelled(fs[..|fs|-1]);
      assert fs == fs[..|fs|-1] + [fs[|fs|-1]];
    }
  }

  /** Once END_STREAM is among the frames handled, those to come carry nothing. */
  lemma NothingToCome(chunks: seq<Bytes>, handled: seq<Frame>, coming: seq<Frame>)
    requires Plain(handled + coming) == DataFrames(chunks) + [Data([], true)] && EndSent(handled)
    ensures Payload(coming) == []
  {
    PlainAppend(handled, coming);
    PlainCarriesAll(handled);
    EndIsLast(chunks, Plain(handled), Plain(coming));
    PlainCarriesAll(coming);
  }

  lemma HandledIsAll(chunks: seq<Bytes>, frames: seq<Frame>, es: seq<Event>)
    requires Plain(frames) == Plain(DataFrames(chunks) + [Data([], true)]) && EndSent(After(frames, es).handled)
    ensures Payload(After(frames, es).handled) == Payload(frames)
  {
    var i := After(frames, es);
    RunKeepsReceived(frames, es);
    NothingCancelled(DataFrames(chunks) + [Data([], true)]);
    NothingToCome(chunks, i.handled, i.coming);
    EndToEnd.PayloadAppend(i.handled, i.coming);
  }

  /** However dispatch, the handler's reads, teardown and cancelling resets interleave, the handler is
      given a prefix of what the proxy read, and is told the end only when it has all of it and the loop
      had finished. */
  lemma RequestArrivesIntact(
    turns: seq<Turn>, r: Result, used: nat, chunks: seq<Bytes>, tail: seq<Frame>, budget: nat,
    frames: seq<Frame>, es: seq<Event>, n: nat)
    requires Explains(turns, r, used, chunks, budget) && Closes(r, tail, budget)
    requires Plain(frames) == Plain(DataFrames(chunks) + tail)
    ensures var i := After(frames, es);
            && i.got <= Input(turns, used)
            && (BodySpec.ReadStep(i.body, n).1.Eof? ==> i.got == Input(turns, used) && r == Finished)
  {
    var i := After(frames, es);
    ReadsAreAPrefix(frames, es, n);
    TailCarriesNothing(chunks, r, tail, budget);
    PlainCarriesAll(frames);
    PlainCarriesAll(DataFrames(chunks) + tail);
    if EndSent(i.handled) {
      HandledIsAll(chunks, frames, es);
    }
  }

  /** Nothing is held back: once all frames are dispatched, enough reads give the handler everything the
      loop sent, which is everything read unless the connection died. */
  lemma RequestArrivesWhole(frames: seq<Frame>, chunks: seq<Bytes>, r: Result, tail: seq<Frame>, budget: nat,
                            es: seq<Event>, ns: seq<nat>)
    requires Closes(r, tail, budget) && Plain(frames) == Plain(DataFrames(chunks) + tail)
    requires After(frames, es).coming == [] && |ns| >= BodySpec.Work(After(frames, es).body)
    requires forall i :: 0 <= i < |ns| ==> ns[i] > 0
    ensures var i := After(frames, es);
            i.got + BodySpec.ReadAll(i.body, ns).1 == Flatten(chunks)
  {
    var i := After(frames, es);
    RunKeepsReceived(frames, es);
    BodySpec.ReadsGiveAll(i.body, ns);
    assert i.handled + [] == i.handled;
    PlainCarriesAll(frames);
    PlainCarriesAll(DataFrames(chunks) + tail);
    TailCarriesNothing(chunks, r, tail, budget);
  }
}
