/** The send-credit objects as the source keeps them: windows are caller-owned cells updated
    in place, found through the connection's stream registry. Every method is proved to be
    one step of FlowControl, so the ledger and wake-up theorems are about these objects. */
module SendCredit {
  import opened Numbers
  import opened FlowControl

  class Stream {
    const id: StreamId
    var sendWindow: int32

    constructor (id: StreamId, initialWindow: int32)
      ensures this.id == id && sendWindow == initialWindow
    {
      this.id := id;
      sendWindow := initialWindow;
    }
  }

  datatype Outcome = Got(bytes: int32) | ConnDead | Waiting

  class Credits {
    var connSendWindow: int32
    var peerInitWindow: Size
    var dead: bool
    var hasCond: bool
    var parked: map<Thread, StreamId>

    constructor ()
      ensures connSendWindow == DEFAULT_WINDOW && peerInitWindow == DEFAULT_WINDOW
      ensures !dead && !hasCond && parked == map[]
    {
      connSendWindow, peerInitWindow := DEFAULT_WINDOW, DEFAULT_WINDOW;
      dead, hasCond, parked := false, false, map[];
    }

    /** One pass of the Reserve loop by goroutine t. Waiting is cond.Wait: the goroutine makes
        another pass once a broadcast has woken it. */
    method Reserve(t: Thread, s: Stream, want: int32) returns (o: Outcome)
      requires t !in parked
      modifies this`hasCond, this`connSendWindow, this`parked, s`sendWindow
      ensures want <= 0 ==> o == Got(0) && unchanged(this) && unchanged(s)
      ensures want > 0 ==> hasCond
      ensures want > 0 && dead ==> o == ConnDead
      ensures want > 0 && !dead ==>
                var got := Avail(old(s.sendWindow), old(connSendWindow), want);
                o == if got > 0 then Got(got) else Waiting
      ensures var got := if o.Got? then o.bytes else 0;
              && connSendWindow == old(connSendWindow) - got
              && s.sendWindow == old(s.sendWindow) - got
      ensures parked == if o == Waiting then old(parked)[t := s.id] else old(parked)
    {
      if want <= 0 {
        return Got(0);
      }
      hasCond := true;
      if dead {
        return ConnDead;
      }
      var avail := Min(s.sendWindow, connSendWindow);
      if avail > 0 {
        if want < avail {
          avail := want;
        }
        connSendWindow := connSendWindow - avail;
        s.sendWindow := s.sendWindow - avail;
        return Got(avail);
      }
      parked := parked[t := s.id];
      return Waiting;
    }

    method Wake()
      modifies this`parked
      ensures parked == if hasCond then map[] else old(parked)
    {
      if hasCond {
        parked := map[];
      }
    }

    method AddConn(delta: Size)
      modifies this`connSendWindow, this`parked
      ensures connSendWindow == Add32(old(connSendWindow), delta)
      ensures parked == if hasCond then map[] else old(parked)
    {
      connSendWindow := Add32(connSendWindow, delta);
      Wake();
    }

    method AddStream(s: Stream, delta: Size)
      modifies s`sendWindow, this`parked
      ensures s.sendWindow == Add32(old(s.sendWindow), delta)
      ensures parked == if hasCond then map[] else old(parked)
    {
      s.sendWindow := Add32(s.sendWindow, delta);
      Wake();
    }

    method ApplyInitialWindowDelta(newSize: Size, streams: seq<Stream>)
      requires forall i, j :: 0 <= i < j < |streams| ==> streams[i] != streams[j]
      modifies this`peerInitWindow, this`parked, streams
      ensures peerInitWindow == newSize
      ensures forall s :: s in streams ==>
                s.sendWindow == Add32(old(s.sendWindow), newSize - old(peerInitWindow))
      ensures parked == if hasCond && newSize != old(peerInitWindow) then map[] else old(parked)
    {
      var delta := newSize - peerInitWindow;
      peerInitWindow := newSize;
      if delta != 0 {
        for i := 0 to |streams|
          modifies streams
          invariant forall k :: 0 <= k < i ==> streams[k].sendWindow == Add32(old(streams[k].sendWindow), delta)
          invariant forall k :: i <= k < |streams| ==> streams[k].sendWindow == old(streams[k].sendWindow)
        {
          streams[i].sendWindow := Add32(streams[i].sendWindow, delta);
        }
        Wake();
      }
    }

    method MarkDead()
      modifies this`dead, this`parked
      ensures dead
      ensures parked == if hasCond then map[] else old(parked)
    {
      dead := true;
      Wake();
    }
  }

  // ---- SETTINGS ---------------------------------------------------------------

  datatype Setting =
    | MaxFrameSize(val: nat)
    | InitialWindowSize(val: nat)
    | HeaderTableSize(val: nat)
    | MaxConcurrentStreams(val: nat)
    | EnablePush(val: nat)
    | Unknown(val: nat)

  predicate Legal(s: Setting) {
    match s
    case MaxFrameSize(v) => 16384 <= v <= 16777215
    case InitialWindowSize(v) => v <= MAX_INT32
    case EnablePush(v) => v <= 1
    case _ => true
  }

  /** Everything a SETTINGS frame can change; tableSizes are the HPACK table sizes handed to
      the writer, in order. */
  datatype Peer = Peer(credit: Credit, maxFrameSize: nat, maxStreams: nat, tableSizes: seq<nat>)

  function ApplyOne(p: Peer, s: Setting): Peer
    requires Legal(s)
  {
    match s
    case MaxFrameSize(v) => p.(maxFrameSize := v)
    case InitialWindowSize(v) => p.(credit := Step(p.credit, InitialWindow(v)))
    case HeaderTableSize(v) => p.(tableSizes := p.tableSizes + [v])
    case MaxConcurrentStreams(v) => p.(maxStreams := v)
    case _ => p
  }

  /** Settings take effect in order up to the first illegal one, which fails the frame and
      leaves the earlier ones applied. */
  function ApplyAll(p: Peer, ss: seq<Setting>): (Peer, bool)
    decreases |ss|
  {
    if ss == [] then (p, true)
    else if !Legal(ss[0]) then (p, false)
    else ApplyAll(ApplyOne(p, ss[0]), ss[1..])
  }

  /** The flow-control events a SETTINGS frame amounts to. */
  function WindowEvents(ss: seq<Setting>): seq<Event> {
    if ss == [] || !Legal(ss[0]) then []
    else (if ss[0].InitialWindowSize? then [InitialWindow(ss[0].val)] else []) + WindowEvents(ss[1..])
  }

  /** A SETTINGS frame moves the windows like a run of InitialWindow events, so the ledger
      covers it; and no frame, legal or not, takes the DATA frame limit out of range. */
  lemma {:induction false} SettingsAreARun(p: Peer, ss: seq<Setting>, run: seq<Event>)
    requires p.credit == After(run)
    requires 16384 <= p.maxFrameSize <= 16777215
    ensures ApplyAll(p, ss).0.credit == After(run + WindowEvents(ss))
    ensures ApplyAll(p, ss).1 <==> forall i :: 0 <= i < |ss| ==> Legal(ss[i])
    ensures 16384 <= ApplyAll(p, ss).0.maxFrameSize <= 16777215
    decreases |ss|
  {
    if ss == [] || !Legal(ss[0]) {
      assert run + WindowEvents(ss) == run;
    } else {
      var es := if ss[0].InitialWindowSize? then [InitialWindow(ss[0].val)] else [];
      if es == [] {
        assert run + es == run;
      } else {
        assert (run + es)[..|run|] == run;
      }
      SettingsAreARun(ApplyOne(p, ss[0]), ss[1..], run + es);
      assert run + es + WindowEvents(ss[1..]) == run + WindowEvents(ss);
    }
  }

  /** The ranges of section 6.5.2 of RFC 9113, value by value. */
  lemma LegalRanges(v: nat)
    ensures Legal(MaxFrameSize(v)) <==> 0x4000 <= v < 0x100_0000
    ensures Legal(InitialWindowSize(v)) <==> v < 0x8000_0000
    ensures Legal(EnablePush(v)) <==> v == 0 || v == 1
    ensures Legal(HeaderTableSize(v)) && Legal(MaxConcurrentStreams(v)) && Legal(Unknown(v))
  {
  }

  /** The settings before the first illegal one. */
  function Accepted(ss: seq<Setting>): seq<Setting> {
    if ss == [] || !Legal(ss[0]) then [] else [ss[0]] + Accepted(ss[1..])
  }

  /** The last value given for each setting, or else the old one. */
  function LastFrameSize(ss: seq<Setting>, before: nat): nat {
    if ss == [] then before
    else if ss[|ss|-1].MaxFrameSize? then ss[|ss|-1].val else LastFrameSize(ss[..|ss|-1], before)
  }

  function LastMaxStreams(ss: seq<Setting>, before: nat): nat {
    if ss == [] then before
    else if ss[|ss|-1].MaxConcurrentStreams? then ss[|ss|-1].val else LastMaxStreams(ss[..|ss|-1], before)
  }

  function TableSizes(ss: seq<Setting>): seq<nat> {
    if ss == [] then []
    else TableSizes(ss[..|ss|-1]) + if ss[|ss|-1].HeaderTableSize? then [ss[|ss|-1].val] else []
  }

  predicate AllLegal(ss: seq<Setting>) {
    forall i :: 0 <= i < |ss| ==> Legal(ss[i])
  }

  lemma {:induction false} AcceptedApply(p: Peer, ss: seq<Setting>)
    ensures AllLegal(Accepted(ss)) && ApplyAll(p, ss).0 == ApplyAll(p, Accepted(ss)).0
    decreases |ss|
  {
    if ss != [] && Legal(ss[0]) {
      AcceptedApply(ApplyOne(p, ss[0]), ss[1..]);
      assert Accepted(ss)[1..] == Accepted(ss[1..]);
    }
  }

  lemma {:induction false} ApplySnoc(p: Peer, ss: seq<Setting>, s: Setting)
    requires AllLegal(ss) && Legal(s)
    ensures ApplyAll(p, ss + [s]).0 == ApplyOne(ApplyAll(p, ss).0, s)
    decreases |ss|
  {
    if ss == [] {
      assert ([] + [s])[1..] == [];
    } else {
      assert (ss + [s])[0] == ss[0] && (ss + [s])[1..] == ss[1..] + [s];
      ApplySnoc(ApplyOne(p, ss[0]), ss[1..], s);
    }
  }

  lemma {:induction false} LegalSettingsTakeEffect(p: Peer, ss: seq<Setting>)
    requires AllLegal(ss)
    ensures var p' := ApplyAll(p, ss).0;
            && p'.maxStreams == LastMaxStreams(ss, p.maxStreams)
            && p'.maxFrameSize == LastFrameSize(ss, p.maxFrameSize)
            && p'.tableSizes == p.tableSizes + TableSizes(ss)
  {
    if ss != [] {
      var init, s := ss[..|ss|-1], ss[|ss|-1];
      LegalSettingsTakeEffect(p, init);
      assert ss == init + [s];
      ApplySnoc(p, init, s);
    }
  }

  /** What a SETTINGS frame, legal or not, leaves besides the windows: the last stream limit and frame size
      before its first illegal setting, or the old ones, and every table size before it, in order. */
  lemma SettingsTakeEffect(p: Peer, ss: seq<Setting>)
    ensures var p', pre := ApplyAll(p, ss).0, Accepted(ss);
            && p'.maxStreams == LastMaxStreams(pre, p.maxStreams)
            && p'.maxFrameSize == LastFrameSize(pre, p.maxFrameSize)
            && p'.tableSizes == p.tableSizes + TableSizes(pre)
  {
    AcceptedApply(p, ss);
    LegalSettingsTakeEffect(p, Accepted(ss));
  }

  /** The frame reader's branch on a zero delta changes nothing: shifting by zero is the identity. */
  lemma InitialWindowStep(c: Credit, size: Size)
    ensures Step(c, InitialWindow(size)) ==
              Credit(c.conn, size, Shift(c.windows, size - c.init), c.dead, c.hasCond,
                     if c.hasCond && size != c.init then map[] else c.parked)
  {
    if size == c.init {
      assert Shift(c.windows, 0) == c.windows;
    }
  }

  class Conn {
    const send: Credits
    var streams: map<StreamId, Stream>
    var maxFrameSize: nat
    var peerMaxStreams: nat
    var tableSizes: seq<nat>  // HPACK table sizes handed to the writer, in order

    /** A registered stream is found under its own identifier, so no two entries share a window. */
    ghost predicate Valid()
      reads this, streams.Values
    {
      && 0 !in streams
      && (forall id :: id in streams ==> streams[id].id == id)
      && 16384 <= maxFrameSize <= 16777215
    }

    ghost function View(): Credit
      reads this, send, streams.Values
    {
      Credit(send.connSendWindow, send.peerInitWindow,
             map id | id in streams :: streams[id].sendWindow,
             send.dead, send.hasCond, send.parked)
    }

    constructor ()
      ensures Valid() && fresh(send)
      ensures State() == Peer(Initial(), 16384, TWO_32 - 1, [])
    {
      send := new Credits();
      streams := map[];
      maxFrameSize := 16384;
      peerMaxStreams := TWO_32 - 1;
      tableSizes := [];
    }

    /** Acquire a stream with the peer's current initial window and register it. The worker's
        frame reader does both between two frames. */
    method OpenStream(id: StreamId) returns (s: Stream)
      requires Valid() && id != 0 && id !in streams
      modifies this`streams
      ensures Valid() && fresh(s) && streams == old(streams)[id := s]
      ensures View() == Step(old(View()), Open(id))
    {
      s := new Stream(id, send.peerInitWindow);
      streams := streams[id := s];
      assert View().windows == Step(old(View()), Open(id)).windows;
    }

    method RemoveStream(id: StreamId)
      requires Valid() && id !in send.parked.Values
      modifies this`streams
      ensures Valid() && streams == old(streams) - {id}
      ensures View() == Step(old(View()), Remove(id))
    {
      streams := streams - {id};
      assert View().windows == Step(old(View()), Remove(id)).windows;
    }

    method Reserve(t: Thread, id: StreamId, want: int32) returns (o: Outcome)
      requires Valid() && id in streams && t !in send.parked
      modifies send, streams.Values
      ensures Valid()
      ensures View() == Step(old(View()), FlowControl.Event.Reserve(t, id, want))
      ensures o.Got? ==> o.bytes == Grant(old(View()), FlowControl.Event.Reserve(t, id, want))
      ensures o.ConnDead? ==> send.dead
    {
      o := send.Reserve(t, streams[id], want);
      assert View().windows == Step(old(View()), FlowControl.Event.Reserve(t, id, want)).windows;
    }

    /** Connection teardown. */
    method MarkDead()
      requires Valid()
      modifies send
      ensures Valid()
      ensures View() == Step(old(View()), FlowControl.Event.MarkDead)
    {
      send.MarkDead();
    }

    method HandleWindowUpdate(id: StreamId, inc: Size)
      requires Valid()
      modifies send, streams.Values
      ensures Valid()
      ensures View() == Step(old(View()), if id == 0 then ConnUpdate(inc) else StreamUpdate(id, inc))
    {
      if id == 0 {
        send.AddConn(inc);
        assert View().windows == old(View()).windows;
        return;
      }
      if id in streams {
        send.AddStream(streams[id], inc);
        assert View().windows == Step(old(View()), StreamUpdate(id, inc)).windows;
      }
    }

    /** The registered streams in some order, each once. */
    method ActiveStreams() returns (out: seq<Stream>)
      requires Valid()
      ensures forall s :: s in out ==> s in streams.Values
      ensures forall id :: id in streams ==> streams[id] in out
      ensures forall i, j :: 0 <= i < j < |out| ==> out[i] != out[j]
    {
      out := [];
      var left := streams.Keys;
      while left != {}
        invariant left <= streams.Keys
        invariant forall s :: s in out ==> s.id in streams && s.id !in left && streams[s.id] == s
        invariant forall id :: id in streams && id !in left ==> streams[id] in out
        invariant forall i, j :: 0 <= i < j < |out| ==> out[i] != out[j]
        decreases |left|
      {
        var id :| id in left;
        assert streams[id] !in out;
        out := out + [streams[id]];
        left := left - {id};
      }
    }

    method ApplyInitialWindow(size: Size)
      requires Valid()
      modifies send, streams.Values
      ensures Valid()
      ensures View() == Step(old(View()), InitialWindow(size))
    {
      var windows := ActiveStreams();
      send.ApplyInitialWindowDelta(size, windows);
      assert View().windows == Shift(old(View()).windows, size - old(send.peerInitWindow));
      InitialWindowStep(old(View()), size);
    }

    ghost function State(): Peer
      reads this, send, streams.Values
    {
      Peer(View(), maxFrameSize, peerMaxStreams, tableSizes)
    }

    method ApplyPeerSetting(s: Setting) returns (ok: bool)
      requires Valid()
      modifies this`maxFrameSize, this`peerMaxStreams, this`tableSizes, send, streams.Values
      ensures Valid()
      ensures ok <==> Legal(s)
      ensures State() == if ok then ApplyOne(old(State()), s) else old(State())
    {
      match s {
        case MaxFrameSize(v) =>
          if v < 16384 || v > 16777215 {
            return false;
          }
          maxFrameSize := v;
        case InitialWindowSize(v) =>
          if v > MAX_INT32 {
            return false;
          }
          ApplyInitialWindow(v);
        case HeaderTableSize(v) =>
          tableSizes := tableSizes + [v];
        case MaxConcurrentStreams(v) =>
          peerMaxStreams := v;
        case EnablePush(v) =>
          if v > 1 {
            return false;
          }
        case Unknown(_) =>
      }
      return true;
    }

    method ApplyPeerSettings(ss: seq<Setting>) returns (ok: bool)
      requires Valid()
      modifies this`maxFrameSize, this`peerMaxStreams, this`tableSizes, send, streams.Values
      ensures Valid()
      ensures (State(), ok) == ApplyAll(old(State()), ss)
    {
      for i := 0 to |ss|
        invariant Valid()
        invariant ApplyAll(old(State()), ss) == ApplyAll(State(), ss[i..])
      {
        var legal := ApplyPeerSetting(ss[i]);
        if !legal {
          return false;
        }
        assert ss[i..][1..] == ss[i+1..];
      }
      return true;
    }
  }
}
