/** Reassembly of header blocks split over HEADERS and CONTINUATION frames (section 6.10 of
    RFC 9113), as both frame loops do it. */
module Continuation {
  import opened HttpFrames

  /** The framer refuses payloads over 16384 bytes, and HEADERS on stream 0. */
  type Fragment = b: Bytes | |b| <= 16384
  type StreamId = n: nat | n > 0 witness 1

  const MAX_HEADER_LIST: int := 0x10_0000

  datatype Wire =
    | HeadersFrame(sid: StreamId, fragment: Fragment, endHeaders: bool, endStream: bool)
    | ContinuationFrame(sid: StreamId, fragment: Fragment, endHeaders: bool)
    | OtherFrame

  /** A complete block as handed to the HPACK decoder. */
  datatype Block = Block(sid: StreamId, bytes: Bytes, endStream: bool)

  datatype Error = Interleaved | TooLarge

  /** sid 0 means that no block is in progress. */
  datatype Acc = Acc(sid: nat, block: Bytes, ended: bool)

  datatype Out = Nothing | Complete(block: Block) | Fail(error: Error)

  const IDLE := Acc(0, [], false)

  /** uint32 addition of two lengths. */
  function Sum32(a: nat, b: nat): nat {
    (a % 0x1_0000_0000 + b % 0x1_0000_0000) % 0x1_0000_0000
  }

  function Step(a: Acc, f: Wire): (Acc, Out) {
    if a.sid != 0 then
      if !f.ContinuationFrame? || f.sid != a.sid then (a, Fail(Interleaved))
      else if Sum32(|a.block|, |f.fragment|) > MAX_HEADER_LIST then (a, Fail(TooLarge))
      else if !f.endHeaders then (a.(block := a.block + f.fragment), Nothing)
      else (IDLE, Complete(Block(a.sid, a.block + f.fragment, a.ended)))
    else
      match f
      case HeadersFrame(sid, fragment, endHeaders, endStream) =>
        if endHeaders then (a, Complete(Block(sid, fragment, endStream))) else (Acc(sid, fragment, endStream), Nothing)
      case _ => (a, Nothing)
  }

  datatype Outcome = Outcome(acc: Acc, blocks: seq<Block>, error: Option<Error>)

  /** The frame loop: stops at the first error. */
  function Run(a: Acc, fs: seq<Wire>): Outcome
    decreases |fs|
  {
    if fs == [] then Outcome(a, [], None)
    else
      var (a1, out) := Step(a, fs[0]);
      match out
      case Fail(e) => Outcome(a1, [], Some(e))
      case Nothing => Run(a1, fs[1..])
      case Complete(b) =>
        var rest := Run(a1, fs[1..]);
        rest.(blocks := [b] + rest.blocks)
  }

  ghost predicate Bounded(a: Acc) {
    |a.block| <= MAX_HEADER_LIST
  }

  /** The limit check never wraps, because the accumulator never exceeds the limit. */
  lemma StepBounded(a: Acc, f: Wire)
    requires Bounded(a)
    ensures Bounded(Step(a, f).0)
    ensures f.ContinuationFrame? ==> Sum32(|a.block|, |f.fragment|) == |a.block| + |f.fragment|
  {
  }

  lemma {:induction false} AccumulatorIsBounded(a: Acc, fs: seq<Wire>)
    requires Bounded(a)
    ensures Bounded(Run(a, fs).acc)
    decreases |fs|
  {
    if fs != [] {
      StepBounded(a, fs[0]);
      if !Step(a, fs[0]).1.Fail? {
        AccumulatorIsBounded(Step(a, fs[0]).0, fs[1..]);
      }
    }
  }

  // ---- what a peer may send ---------------------------------------------------------------

  /** A frame that starts no header block, or a header block cut into a HEADERS fragment and any
      number of CONTINUATION fragments. */
  datatype Item = Plain(frame: Wire) | Group(sid: StreamId, first: Fragment, more: seq<Fragment>, endStream: bool)

  function Continuations(sid: StreamId, more: seq<Fragment>): seq<Wire> {
    seq(|more|, i requires 0 <= i < |more| => ContinuationFrame(sid, more[i], i == |more| - 1))
  }

  function Frames(it: Item): seq<Wire> {
    match it
    case Plain(f) => [f]
    case Group(sid, first, more, endStream) =>
      [HeadersFrame(sid, first, more == [], endStream)] + Continuations(sid, more)
  }

  function Join(fs: seq<Fragment>): Bytes {
    if fs == [] then [] else fs[0] + Join(fs[1..])
  }

  function BlockOf(it: Item): seq<Block> {
    match it
    case Plain(_) => []
    case Group(sid, first, more, endStream) => [Block(sid, first + Join(more), endStream)]
  }

  predicate Fits(it: Item) {
    match it
    case Plain(f) => !f.HeadersFrame?
    case Group(_, first, more, _) => more != [] ==> |first + Join(more)| <= MAX_HEADER_LIST
  }

  function AllFrames(its: seq<Item>): seq<Wire> {
    if its == [] then [] else Frames(its[0]) + AllFrames(its[1..])
  }

  function AllBlocks(its: seq<Item>): seq<Block> {
    if its == [] then [] else BlockOf(its[0]) + AllBlocks(its[1..])
  }

  /** CONTINUATION frames complete the block they belong to, and the loop goes on after them. */
  lemma {:induction false} ContinuationsComplete(a: Acc, more: seq<Fragment>, rest: seq<Wire>)
    requires a.sid != 0 && more != [] && |a.block + Join(more)| <= MAX_HEADER_LIST
    ensures var after := Run(IDLE, rest);
            Run(a, Continuations(a.sid, more) + rest) ==
              after.(blocks := [Block(a.sid, a.block + Join(more), a.ended)] + after.blocks)
    decreases |more|
  {
    var fs := Continuations(a.sid, more) + rest;
    assert fs[0] == ContinuationFrame(a.sid, more[0], |more| == 1);
    assert fs[1..] == Continuations(a.sid, more[1..]) + rest;
    Assoc(a.block, more[0], Join(more[1..]));
    StepBounded(a, fs[0]);
    if |more| == 1 {
      assert more[1..] == [];
      assert fs[1..] == rest;
      assert a.block + more[0] + [] == a.block + more[0];
    } else {
      ContinuationsComplete(a.(block := a.block + more[0]), more[1..], rest);
    }
  }

  lemma GroupCompletes(it: Item, rest: seq<Wire>)
    requires it.Group? && Fits(it)
    ensures var after := Run(IDLE, rest);
            Run(IDLE, Frames(it) + rest) == after.(blocks := BlockOf(it) + after.blocks)
  {
    var fs := Frames(it) + rest;
    var head := HeadersFrame(it.sid, it.first, it.more == [], it.endStream);
    Assoc([head], Continuations(it.sid, it.more), rest);
    assert fs[0] == head && fs[1..] == Continuations(it.sid, it.more) + rest;
    if it.more == [] {
      assert fs[1..] == rest;
      assert it.first + [] == it.first;
    } else {
      ContinuationsComplete(Acc(it.sid, it.first, it.endStream), it.more, rest);
    }
  }

  lemma ItemCompletes(it: Item, rest: seq<Wire>)
    requires Fits(it)
    ensures var after := Run(IDLE, rest);
            Run(IDLE, Frames(it) + rest) == after.(blocks := BlockOf(it) + after.blocks)
  {
    if it.Group? {
      GroupCompletes(it, rest);
    } else {
      assert ([it.frame] + rest)[1..] == rest;
      assert [] + Run(IDLE, rest).blocks == Run(IDLE, rest).blocks;
    }
  }

  /** However a peer cuts its header blocks up, the decoder is handed exactly the original blocks, in
      order, with the stream and END_STREAM flag of their HEADERS frame. */
  lemma {:induction false} SplittingIsInvisible(its: seq<Item>)
    requires forall i :: 0 <= i < |its| ==> Fits(its[i])
    ensures Run(IDLE, AllFrames(its)) == Outcome(IDLE, AllBlocks(its), None)
  {
    if its != [] {
      ItemCompletes(its[0], AllFrames(its[1..]));
      SplittingIsInvisible(its[1..]);
    }
  }

  // ---- and nothing else is accepted ---------------------------------------------------------

  /** An open block is completed by CONTINUATION frames of its own stream, within the limit, or the
      loop ends with an error or with the block still open. */
  lemma {:induction false} OpenBlockIsCompleted(a: Acc, fs: seq<Wire>) returns (more: seq<Fragment>, rest: seq<Wire>)
    requires a.sid != 0 && Bounded(a)
    requires Run(a, fs).error == None && Run(a, fs).acc.sid == 0
    ensures more != [] && fs == Continuations(a.sid, more) + rest
    ensures |a.block + Join(more)| <= MAX_HEADER_LIST
    ensures |rest| < |fs|
    decreases |fs|
  {
    var f := fs[0];
    StepBounded(a, f);
    if f.endHeaders {
      more, rest := [f.fragment], fs[1..];
      assert more[1..] == [];
      assert fs == Continuations(a.sid, more) + rest;
    } else {
      var more', rest' := OpenBlockIsCompleted(a.(block := a.block + f.fragment), fs[1..]);
      more, rest := [f.fragment] + more', rest';
      assert more[1..] == more';
      Assoc(a.block, f.fragment, Join(more'));
      assert Continuations(a.sid, more) == [f] + Continuations(a.sid, more');
      assert fs == [f] + fs[1..];
    }
  }

  /** A run of the frame loop that reports no error and leaves no block open has seen nothing but
      whole items within the limit: every interleaved frame and every oversized block is an error. */
  lemma {:induction false} AcceptedRunsAreItems(fs: seq<Wire>) returns (its: seq<Item>)
    requires Run(IDLE, fs).error == None && Run(IDLE, fs).acc.sid == 0
    ensures forall i :: 0 <= i < |its| ==> Fits(its[i])
    ensures AllFrames(its) == fs
    ensures Run(IDLE, fs).blocks == AllBlocks(its)
    decreases |fs|
  {
    if fs == [] {
      its := [];
    } else {
      var it, rest := FirstItem(fs);
      ItemCompletes(it, rest);
      var more := AcceptedRunsAreItems(rest);
      its := [it] + more;
      assert its[1..] == more;
    }
  }

  lemma FirstItem(fs: seq<Wire>) returns (it: Item, rest: seq<Wire>)
    requires fs != [] && Run(IDLE, fs).error == None && Run(IDLE, fs).acc.sid == 0
    ensures Fits(it) && fs == Frames(it) + rest && |rest| < |fs|
  {
    var f := fs[0];
    if !f.HeadersFrame? {
      it, rest := Plain(f), fs[1..];
    } else if f.endHeaders {
      it, rest := Group(f.sid, f.fragment, [], f.endStream), fs[1..];
      assert Continuations(f.sid, []) == [];
    } else {
      var more, rest' := OpenBlockIsCompleted(Acc(f.sid, f.fragment, f.endStream), fs[1..]);
      it, rest := Group(f.sid, f.fragment, more, f.endStream), rest';
      Assoc([f], Continuations(f.sid, more), rest);
      assert fs == [f] + fs[1..];
    }
  }

  lemma {:induction false} RunSnoc(a: Acc, fs: seq<Wire>, f: Wire)
    requires Run(a, fs).error == None
    ensures var o := Run(a, fs);
            var (a1, out) := Step(o.acc, f);
            Run(a, fs + [f]) ==
              Outcome(a1, o.blocks + (if out.Complete? then [out.block] else []),
                      if out.Fail? then Some(out.error) else None)
    decreases |fs|
  {
    if fs == [] {
      assert ([] + [f])[0] == f && ([] + [f])[1..] == [];
    } else {
      assert (fs + [f])[0] == fs[0] && (fs + [f])[1..] == fs[1..] + [f];
      RunSnoc(Step(a, fs[0]).0, fs[1..], f);
    }
  }

  /** A run without error that ends with a block open has seen whole items and then all of one more but
      its end: with an empty closing CONTINUATION it would be whole items, whose last block is what has
      been accumulated. */
  lemma OpenRunsAreItemsCutShort(fs: seq<Wire>) returns (its: seq<Item>)
    requires Run(IDLE, fs).error == None && Run(IDLE, fs).acc.sid != 0
    ensures forall i :: 0 <= i < |its| ==> Fits(its[i])
    ensures var o := Run(IDLE, fs);
            && AllFrames(its) == fs + [ContinuationFrame(o.acc.sid, [], true)]
            && AllBlocks(its) == o.blocks + [Block(o.acc.sid, o.acc.block, o.acc.ended)]
  {
    var o := Run(IDLE, fs);
    var close := ContinuationFrame(o.acc.sid, [], true);
    AccumulatorIsBounded(IDLE, fs);
    StepBounded(o.acc, close);
    RunSnoc(IDLE, fs, close);
    assert o.acc.block + [] == o.acc.block;
    its := AcceptedRunsAreItems(fs + [close]);
  }

  /** Which frame ends the loop, and with which error, after a run without one: with no block open none
      does; with one open, anything but a CONTINUATION of its stream is interleaved, and such a
      CONTINUATION is too large exactly if it takes the block past the limit. */
  lemma ErrorsAre(fs: seq<Wire>, f: Wire)
    requires Run(IDLE, fs).error == None
    ensures var a := Run(IDLE, fs).acc;
            var own := f.ContinuationFrame? && f.sid == a.sid;
            Run(IDLE, fs + [f]).error ==
              if a.sid == 0 then None
              else if !own then Some(Interleaved)
              else if |a.block| + |f.fragment| > 0x10_0000 then Some(TooLarge) else None
  {
    AccumulatorIsBounded(IDLE, fs);
    StepBounded(Run(IDLE, fs).acc, f);
    RunSnoc(IDLE, fs, f);
  }

  // ---- the accumulator object -----------------------------------------------------------------

  class Accumulator {
    var contStreamID: nat
    var contStreamEnded: bool
    var contBlock: Bytes

    constructor ()
      ensures View() == IDLE
    {
      contStreamID, contStreamEnded, contBlock := 0, false, [];
    }

    ghost function View(): Acc
      reads this
    {
      Acc(contStreamID, contBlock, contStreamEnded)
    }

    method StartHeaders(f: Wire) returns (out: Out)
      requires f.HeadersFrame? && contStreamID == 0
      modifies this
      ensures (View(), out) == Step(old(View()), f)
    {
      if f.endHeaders {
        return Complete(Block(f.sid, f.fragment, f.endStream));
      }
      contStreamID := f.sid;
      contStreamEnded := f.endStream;
      contBlock := f.fragment;
      return Nothing;
    }

    method ConsumeContinuation(f: Wire) returns (out: Out)
      requires f.ContinuationFrame? && contStreamID == f.sid
      modifies this
      ensures (View(), out) == Step(old(View()), f)
    {
      if Sum32(|contBlock|, |f.fragment|) > MAX_HEADER_LIST {
        return Fail(TooLarge);
      }
      contBlock := contBlock + f.fragment;
      if !f.endHeaders {
        return Nothing;
      }
      out := Complete(Block(f.sid, contBlock, contStreamEnded));
      contStreamID := 0;
      contStreamEnded := false;
      contBlock := [];
    }

    /** The part of the frame loops that concerns header blocks. */
    method Handle(f: Wire) returns (out: Out)
      modifies this
      ensures (View(), out) == Step(old(View()), f)
    {
      if contStreamID != 0 {
        if !f.ContinuationFrame? || f.sid != contStreamID {
          return Fail(Interleaved);
        }
        out := ConsumeContinuation(f);
      } else if f.HeadersFrame? {
        out := StartHeaders(f);
      } else {
        out := Nothing;
      }
    }

    /** The frame loop. */
    method Serve(fs: seq<Wire>) returns (blocks: seq<Block>, error: Option<Error>)
      modifies this
      ensures Outcome(View(), blocks, error) == Run(old(View()), fs)
    {
      blocks := [];
      for i := 0 to |fs|
        invariant var rest := Run(View(), fs[i..]);
                  Run(old(View()), fs) == rest.(blocks := blocks + rest.blocks)
      {
        ghost var rest := Run(View(), fs[i..]);
        assert fs[i..][1..] == fs[i+1..];
        var out := Handle(fs[i]);
        match out {
          case Fail(e) => return blocks, Some(e);
          case Complete(b) =>
            Assoc(blocks, [b], Run(View(), fs[i+1..]).blocks);
            blocks := blocks + [b];
          case Nothing =>
        }
      }
      error := None;
    }
  }
}
