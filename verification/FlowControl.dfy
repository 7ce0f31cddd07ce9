/** Send-side flow control: one connection window, one window per stream, the condition
    variable that blocked writers park on, and the peer settings that move the windows.

    `Step` is the behaviour of one critical section under SendCredit.mu. The ledger and
    wake-up theorems hold after every sequence of such sections, in any interleaving of
    writers with the frame reader. */
module FlowControl {
  import opened Numbers

  /** 31-bit quantities: initial window sizes and WINDOW_UPDATE increments. */
  type Size = x: int | 0 <= x <= MAX_INT32

  const DEFAULT_WINDOW: Size := 65535

  /** Stream identifiers; 0 names the connection. */
  type StreamId = nat
  type Thread = nat

  /** windows holds the send window of every registered stream; parked holds the writers
      asleep in cond.Wait, with the stream each of them writes on; hasCond says whether the
      lazily created condition variable exists yet. */
  datatype Credit = Credit(
    conn: int32,
    init: Size,
    windows: map<StreamId, int32>,
    dead: bool,
    hasCond: bool,
    parked: map<Thread, StreamId>)

  datatype Event =
    | Open(sid: StreamId)
    | Remove(sid: StreamId)
    | Reserve(thread: Thread, sid: StreamId, want: int32)
    | ConnUpdate(inc: Size)
    | StreamUpdate(sid: StreamId, inc: Size)
    | InitialWindow(size: Size)
    | MarkDead

  function Initial(): Credit {
    Credit(DEFAULT_WINDOW, DEFAULT_WINDOW, map[], false, false, map[])
  }

  /** What a writer asking for want bytes is given now: 0 means it must wait. Both windows
      have to be positive; the grant is as large as the request and both windows allow. */
  function Avail(window: int32, conn: int32, want: int32): (got: int32)
    requires want > 0
    ensures got > 0 <==> window > 0 && conn > 0
    ensures 0 <= got <= want
    ensures got > 0 ==> got <= window && got <= conn && (got == want || got == window || got == conn)
  {
    var avail := Min(window, conn);
    if avail <= 0 then 0 else if want < avail then want else avail
  }

  function Broadcast(c: Credit): Credit {
    if c.hasCond then c.(parked := map[]) else c
  }

  function Shift(ws: map<StreamId, int32>, delta: int32): map<StreamId, int32> {
    map sid | sid in ws :: Add32(ws[sid], delta)
  }

  /** A stream is deregistered by the goroutine that writes on it, so never while a writer
      is parked on it. */
  predicate CanRemove(c: Credit, sid: StreamId) {
    sid in c.windows && sid !in c.parked.Values
  }

  predicate CanReserve(c: Credit, e: Event) {
    e.Reserve? && e.want > 0 && e.thread !in c.parked && e.sid in c.windows
  }

  function Grant(c: Credit, e: Event): int32 {
    if CanReserve(c, e) && !c.dead then Avail(c.windows[e.sid], c.conn, e.want) else 0
  }

  function Step(c: Credit, e: Event): Credit {
    match e
    case Open(sid) =>
      if sid == 0 || sid in c.windows then c else c.(windows := c.windows[sid := c.init])
    case Remove(sid) =>
      if CanRemove(c, sid) then c.(windows := c.windows - {sid}) else c
    case Reserve(t, sid, want) =>
      if !CanReserve(c, e) then c
      else if c.dead then c.(hasCond := true)
      else
        var g := Grant(c, e);
        if g > 0 then
          c.(hasCond := true, conn := c.conn - g, windows := c.windows[sid := c.windows[sid] - g])
        else
          c.(hasCond := true, parked := c.parked[t := sid])
    case ConnUpdate(inc) => Broadcast(c.(conn := Add32(c.conn, inc)))
    case StreamUpdate(sid, inc) =>
      if sid in c.windows then Broadcast(c.(windows := c.windows[sid := Add32(c.windows[sid], inc)]))
      else c
    case InitialWindow(size) =>
      var c' := c.(init := size, windows := Shift(c.windows, size - c.init));
      if size == c.init then c else Broadcast(c')
    case MarkDead => Broadcast(c.(dead := true))
  }

  /** The state after a whole run. */
  function After(run: seq<Event>): Credit {
    if run == [] then Initial() else Step(After(run[..|run|-1]), run[|run|-1])
  }

  // ---- the ledger, read off the run alone -------------------------------------

  /** Bytes granted on sid since it was last opened. */
  function Granted(run: seq<Event>, sid: StreamId): int {
    if run == [] then 0
    else
      var before, e := run[..|run|-1], run[|run|-1];
      if e == Open(sid) && sid !in After(before).windows then 0
      else Granted(before, sid) + if e.Reserve? && e.sid == sid then Grant(After(before), e) else 0
  }

  /** WINDOW_UPDATE increments received for sid since it was last opened. */
  function Increments(run: seq<Event>, sid: StreamId): int {
    if run == [] then 0
    else
      var before, e := run[..|run|-1], run[|run|-1];
      if e == Open(sid) && sid !in After(before).windows then 0
      else Increments(before, sid) + if e.StreamUpdate? && e.sid == sid then e.inc else 0
  }

  function GrantedOnConn(run: seq<Event>): int {
    if run == [] then 0
    else GrantedOnConn(run[..|run|-1]) + Grant(After(run[..|run|-1]), run[|run|-1])
  }

  function ConnIncrements(run: seq<Event>): int {
    if run == [] then 0
    else ConnIncrements(run[..|run|-1]) + if run[|run|-1].ConnUpdate? then run[|run|-1].inc else 0
  }

  /** The peer's most recent INITIAL_WINDOW_SIZE. */
  function CurrentInitial(run: seq<Event>): Size {
    if run == [] then DEFAULT_WINDOW
    else if run[|run|-1].InitialWindow? then run[|run|-1].size
    else CurrentInitial(run[..|run|-1])
  }

  /** Every live stream's window is the ledger balance reduced to 32 bits, whatever the peer
      sends; so it is the exact balance as long as (and only if) the balance fits in int32. */
  lemma {:induction false} StreamLedger(run: seq<Event>, sid: StreamId)
    requires sid in After(run).windows
    ensures After(run).windows[sid] == Wrap32(Balance(run, sid))
    ensures After(run).windows[sid] == Balance(run, sid) <==> FitsInt32(Balance(run, sid))
  {
    var before, e := run[..|run|-1], run[|run|-1];
    var c := After(before);
    BalanceMoves(run, sid);
    if sid in c.windows {
      StreamLedger(before, sid);
      LedgerEntry(c, e, sid, Balance(before, sid));
      assert Step(c, e).windows[sid] == Wrap32(Balance(before, sid) + Entry(c, e, sid));
    } else {
      assert Step(c, e).windows[sid] == c.init;
    }
  }

  function Balance(run: seq<Event>, sid: StreamId): int {
    CurrentInitial(run) + Increments(run, sid) - Granted(run, sid)
  }

  lemma BalanceMoves(run: seq<Event>, sid: StreamId)
    requires run != [] && sid in After(run).windows
    ensures var before, e := run[..|run|-1], run[|run|-1];
            Balance(run, sid) ==
              if sid in After(before).windows then Balance(before, sid) + Entry(After(before), e, sid)
              else After(before).init
  {
    CurrentInitialIsTracked(run[..|run|-1]);
  }

  /** How much one event moves the ledger balance of sid. */
  function Entry(c: Credit, e: Event, sid: StreamId): int32 {
    match e
    case Reserve(_, s, _) => if s == sid then -Grant(c, e) else 0
    case StreamUpdate(s, inc) => if s == sid then inc else 0
    case InitialWindow(size) => size - c.init
    case _ => 0
  }

  lemma LedgerEntry(c: Credit, e: Event, sid: StreamId, balance: int)
    requires sid in c.windows && c.windows[sid] == Wrap32(balance)
    requires sid in Step(c, e).windows
    ensures Step(c, e).windows[sid] == Wrap32(balance + Entry(c, e, sid))
  {
    Add32Wraps(balance, Entry(c, e, sid));
  }

  lemma {:induction false} CurrentInitialIsTracked(run: seq<Event>)
    ensures After(run).init == CurrentInitial(run)
  {
    if run != [] {
      CurrentInitialIsTracked(run[..|run|-1]);
    }
  }

  /** The connection window is 65535 plus connection increments minus the grants of all
      streams together, with the same 32-bit reading. */
  lemma {:induction false} ConnLedger(run: seq<Event>)
    ensures var balance := DEFAULT_WINDOW + ConnIncrements(run) - GrantedOnConn(run);
            && After(run).conn == Wrap32(balance)
            && (After(run).conn == balance <==> FitsInt32(balance))
  {
    if run != [] {
      var before, e := run[..|run|-1], run[|run|-1];
      ConnLedger(before);
      ConnEntry(After(before), e, DEFAULT_WINDOW + ConnIncrements(before) - GrantedOnConn(before));
    }
  }

  lemma ConnEntry(c: Credit, e: Event, balance: int)
    requires c.conn == Wrap32(balance)
    ensures Step(c, e).conn == Wrap32(balance + (if e.ConnUpdate? then e.inc else 0) - Grant(c, e))
  {
    Add32Wraps(balance, (if e.ConnUpdate? then e.inc else 0) - Grant(c, e));
  }

  /** Event e, in state c, takes away window or carries a sum past the int32 range. */
  predicate Depresses(c: Credit, e: Event, sid: StreamId) {
    sid in c.windows &&
    match e
    case InitialWindow(size) => size < c.init || c.windows[sid] + size - c.init > MAX_INT32
    case StreamUpdate(s, inc) => s == sid && c.windows[sid] + inc > MAX_INT32
    case _ => false
  }

  /** A stream window is negative only if, somewhere in the run, the peer lowered its initial
      window size or overflowed the window: sending never takes a window below zero. */
  lemma {:induction false} NegativeWindowHasCause(run: seq<Event>, sid: StreamId)
    requires sid in After(run).windows && After(run).windows[sid] < 0
    ensures exists k :: 0 <= k < |run| && Depresses(After(run[..k]), run[k], sid)
  {
    var n := |run| - 1;
    var c := After(run[..n]);
    if sid in c.windows && c.windows[sid] < 0 {
      NegativeWindowHasCause(run[..n], sid);
      var k :| 0 <= k < n && Depresses(After(run[..n][..k]), run[..n][k], sid);
      assert run[..n][..k] == run[..k];
    } else {
      assert Depresses(c, run[n], sid);
    }
  }

  // ---- flags and registry, read off the run -----------------------------------

  predicate Killed(run: seq<Event>) {
    run != [] && (Killed(run[..|run|-1]) || run[|run|-1] == MarkDead)
  }

  /** Stream sid was opened and not removed since; a removal does nothing while a writer is parked on the
      stream. */
  predicate Live(run: seq<Event>, sid: StreamId) {
    run != [] &&
    var before, e := run[..|run|-1], run[|run|-1];
    || (e == Open(sid) && sid != 0)
    || (Live(before, sid) && !(e == Remove(sid) && CanRemove(After(before), sid)))
  }

  lemma StateStep(c: Credit, e: Event, sid: StreamId)
    ensures Step(c, e).dead <==> c.dead || e == MarkDead
    ensures sid in Step(c, e).windows <==>
            || (e == Open(sid) && sid != 0)
            || (sid in c.windows && !(e == Remove(sid) && CanRemove(c, sid)))
  {
  }

  /** The connection is dead exactly once marked so, and windows are kept for exactly the streams opened and
      not removed since. */
  lemma {:induction false} StateIsHistory(run: seq<Event>, sid: StreamId)
    ensures After(run).dead <==> Killed(run)
    ensures sid in After(run).windows <==> Live(run, sid)
  {
    if run != [] {
      StateIsHistory(run[..|run|-1], sid);
      StateStep(After(run[..|run|-1]), run[|run|-1], sid);
    }
  }

  // ---- no lost wake-ups -------------------------------------------------------

  ghost predicate Asleep(c: Credit, t: Thread)
    requires t in c.parked
  {
    && c.hasCond && !c.dead
    && c.parked[t] in c.windows
    && (c.conn <= 0 || c.windows[c.parked[t]] <= 0)
  }

  /** And nothing else wakes it: a parked writer is woken only by new credit for the connection or for a
      registered stream, by a changed initial window, or by the connection's death. */
  lemma WakingHasCause(c: Credit, e: Event, t: Thread)
    requires t in c.parked && t !in Step(c, e).parked
    ensures || e.ConnUpdate? || e == MarkDead
            || (e.StreamUpdate? && e.sid in c.windows)
            || (e.InitialWindow? && e.size != c.init)
  {
  }

  /** After every run, a writer still parked has no usable credit and the connection is not
      dead: every change that could let it go on has woken it, although the condition
      variable is created lazily and a change without one broadcasts nothing. */
  lemma {:induction false} NoLostWakeup(run: seq<Event>)
    ensures forall t :: t in After(run).parked ==> Asleep(After(run), t)
  {
    if run != [] {
      var before, e := run[..|run|-1], run[|run|-1];
      NoLostWakeup(before);
      var c := After(before);
      forall t | t in Step(c, e).parked
        ensures Asleep(Step(c, e), t)
      {
        if t in c.parked {
          assert Asleep(c, t);
          assert c.parked[t] in c.parked.Values;
        }
      }
    }
  }
}
