/** The read-idle watchdog: a PING on the first idle tick, a dead connection on a later tick once the
    PING's deadline has passed, and acknowledgements matched by payload. Times are read by the caller
    and passed in; durations are the PING interval and timeout. */
module Watchdog {

  type Octet = b: int | 0 <= b < 256

  const TWO_64: nat := 0x1_0000_0000_0000_0000

  // ---- payloads ----------------------------------------------------------------------------------

  /** The low k bytes of n, most significant first. */
  function BigEndian(n: nat, k: nat): seq<Octet> {
    if k == 0 then [] else BigEndian(n / 256, k - 1) + [n % 256]
  }

  function Value(bytes: seq<Octet>): nat {
    if bytes == [] then 0 else 256 * Value(bytes[..|bytes|-1]) + bytes[|bytes|-1]
  }

  function Pow256(k: nat): nat {
    if k == 0 then 1 else 256 * Pow256(k - 1)
  }

  lemma {:induction false} BigEndianRoundTrips(n: nat, k: nat)
    requires n < Pow256(k)
    ensures |BigEndian(n, k)| == k && Value(BigEndian(n, k)) == n
  {
    if k > 0 {
      BigEndianRoundTrips(n / 256, k - 1);
      assert BigEndian(n, k)[..k-1] == BigEndian(n / 256, k - 1);
    }
  }

  function Payload(counter: nat): seq<Octet> {
    BigEndian(counter, 8)
  }

  /** Distinct 64-bit counters give distinct eight-byte payloads. */
  lemma PayloadIsInjective(a: nat, b: nat)
    requires a < TWO_64 && b < TWO_64
    ensures |Payload(a)| == 8
    ensures Payload(a) == Payload(b) <==> a == b
  {
    assert Pow256(4) == 0x1_0000_0000;
    assert Pow256(8) == TWO_64;
    BigEndianRoundTrips(a, 8);
    BigEndianRoundTrips(b, 8);
  }

  // ---- the state machine -------------------------------------------------------------------------

  /** sent are the payloads of every PING emitted so far. */
  datatype Watch = Watch(
    pending: bool, deadline: int, counter: nat, data: seq<Octet>, sent: seq<seq<Octet>>, dead: bool)

  datatype Event =
    | Tick(now: int)             // the idle deadline fired
    | Frame                      // any frame other than a PING acknowledgement
    | PingAck(data: seq<Octet>)

  const START := Watch(false, 0, 0, [], [], false)

  function Increment64(n: nat): nat {
    if n == TWO_64 - 1 then 0 else n + 1
  }

  function Step(w: Watch, e: Event, timeout: nat): Watch {
    if w.dead then w
    else
      match e
      case Tick(now) =>
        if w.pending then (if now > w.deadline then w.(dead := true) else w)
        else
          var counter := Increment64(w.counter);
          Watch(true, now + timeout, counter, Payload(counter), w.sent + [Payload(counter)], false)
      case Frame => w
      case PingAck(data) => if w.pending && w.data == data then w.(pending := false) else w
  }

  function Run(es: seq<Event>, timeout: nat): Watch {
    if es == [] then START else Step(Run(es[..|es|-1], timeout), es[|es|-1], timeout)
  }

  /** The watchdog's fields, updated by the frame reader. */
  class Pinger {
    const timeout: nat
    var pingPending: bool
    var pingDeadline: int
    var pingCounter: nat
    var pingData: seq<Octet>
    ghost var sent: seq<seq<Octet>>
    ghost var dead: bool

    ghost function View(): Watch
      reads this
    {
      Watch(pingPending, pingDeadline, pingCounter, pingData, sent, dead)
    }

    constructor (timeout: nat)
      ensures this.timeout == timeout && View() == START
    {
      this.timeout := timeout;
      pingPending, pingDeadline, pingCounter, pingData := false, 0, 0, [];
      sent, dead := [], false;
    }

    /** ok is false for ErrPingTimeout; ping is the payload handed to the writer, if any. */
    method SendOrCheckPing(now: int) returns (ok: bool, ping: seq<seq<Octet>>)
      requires !dead
      modifies this
      ensures View() == Step(old(View()), Tick(now), timeout)
      ensures ok == !dead
      ensures sent == old(sent) + ping
    {
      ping := [];
      if pingPending {
        if now > pingDeadline {
          dead := true;
          return false, ping;
        }
        return true, ping;
      }
      pingCounter := Increment64(pingCounter);
      var payload := Payload(pingCounter);
      pingPending := true;
      pingData := payload;
      pingDeadline := now + timeout;
      ping := [payload];
      sent := sent + ping;
      return true, ping;
    }

    method HandlePingAck(data: seq<Octet>)
      requires !dead
      modifies this
      ensures View() == Step(old(View()), PingAck(data), timeout)
    {
      if pingPending && pingData == data {
        pingPending := false;
      }
    }
  }

  // ---- acknowledgements --------------------------------------------------------------------------

  /** The i-th PING carries i+1 modulo 2^64, and the one outstanding, if any, is the last sent. */
  ghost predicate Numbered(w: Watch) {
    && w.counter == |w.sent| % TWO_64
    && (forall i :: 0 <= i < |w.sent| ==> w.sent[i] == Payload((i + 1) % TWO_64))
    && (w.pending ==> |w.sent| > 0 && w.data == w.sent[|w.sent|-1])
  }

  lemma IncrementCounts(n: nat)
    ensures Increment64(n % TWO_64) == (n + 1) % TWO_64
  {
  }

  lemma {:induction false} PingsAreNumbered(es: seq<Event>, timeout: nat)
    ensures Numbered(Run(es, timeout))
  {
    if es != [] {
      var w := Run(es[..|es|-1], timeout);
      PingsAreNumbered(es[..|es|-1], timeout);
      IncrementCounts(|w.sent|);
    }
  }

  lemma SameResidue(i: nat, n: nat)
    requires i < n
    ensures i % TWO_64 == n % TWO_64 <==> (n - i) % TWO_64 == 0
  {
    var q := (n - i) / TWO_64;
    assert n - i == q * TWO_64 + (n - i) % TWO_64;
  }

  lemma SamePayload(w: Watch, i: nat)
    requires Numbered(w) && w.pending && i < |w.sent| - 1
    ensures w.sent[i] == w.data <==> (|w.sent| - 1 - i) % TWO_64 == 0
  {
    var a, b := (i + 1) % TWO_64, |w.sent| % TWO_64;
    assert w.data == Payload(b);
    PayloadIsInjective(a, b);
    SameResidue(i + 1, |w.sent|);
  }

  /** An acknowledgement of an earlier PING clears a later one exactly when the 64-bit counter has
      wrapped a whole number of times between them. */
  lemma StaleAckClearsIff(es: seq<Event>, timeout: nat, i: nat)
    requires var w := Run(es, timeout); !w.dead && w.pending && i < |w.sent| - 1
    ensures var w := Run(es, timeout);
            Step(w, PingAck(w.sent[i]), timeout) != w <==> (|w.sent| - 1 - i) % TWO_64 == 0
  {
    PingsAreNumbered(es, timeout);
    SamePayload(Run(es, timeout), i);
  }

  /** Before the counter wraps, a stale acknowledgement changes nothing. */
  lemma StaleAckIsIgnored(es: seq<Event>, timeout: nat, i: nat)
    requires var w := Run(es, timeout); !w.dead && w.pending && i < |w.sent| - 1 && |w.sent| <= TWO_64
    ensures var w := Run(es, timeout); Step(w, PingAck(w.sent[i]), timeout) == w
  {
    StaleAckClearsIff(es, timeout, i);
  }

  lemma RunSnoc(es: seq<Event>, e: Event, timeout: nat)
    ensures Run(es + [e], timeout) == Step(Run(es, timeout), e, timeout)
  {
    assert (es + [e])[..|es|] == es;
  }

  /** Every number of PINGs is reached, with the last one outstanding. */
  lemma {:induction false} EveryCountIsReached(n: nat, timeout: nat) returns (es: seq<Event>)
    requires n > 0
    ensures var w := Run(es, timeout); !w.dead && w.pending && |w.sent| == n
  {
    es := [];
    if n > 1 {
      var before := EveryCountIsReached(n - 1, timeout);
      var ack := PingAck(Run(before, timeout).data);
      RunSnoc(before, ack, timeout);
      es := before + [ack];
    }
    RunSnoc(es, Tick(0), timeout);
    es := es + [Tick(0)];
  }

  /** So the counter can wrap, and a stale acknowledgement does clear a later PING: the first payload
      clears PING number 2^64 + 1. */
  lemma StaleAckCanClear(timeout: nat) returns (es: seq<Event>)
    ensures var w := Run(es, timeout);
            && !w.dead && w.pending && |w.sent| == TWO_64 + 1
            && Step(w, PingAck(w.sent[0]), timeout) != w
  {
    es := EveryCountIsReached(TWO_64 + 1, timeout);
    StaleAckClearsIff(es, timeout, 0);
  }

  // ---- who is declared dead ----------------------------------------------------------------------

  /** Event i of the run emitted a PING. */
  predicate SentAt(es: seq<Event>, timeout: nat, i: nat) {
    i < |es| && es[i].Tick? && !Run(es[..i], timeout).pending && !Run(es[..i], timeout).dead
  }

  /** Event i emitted a PING and no later event acknowledged its payload. */
  ghost predicate Unanswered(es: seq<Event>, timeout: nat, i: nat) {
    && SentAt(es, timeout, i)
    && forall j :: i < j < |es| ==> es[j] != PingAck(Run(es[..i+1], timeout).data)
  }

  lemma Prefixes(es: seq<Event>, i: nat)
    requires i < |es|
    ensures es[..|es|-1][..i] == es[..i]
  {
  }

  /** Unanswered survives a further event unless that event is the matching acknowledgement. */
  lemma UnansweredStep(es: seq<Event>, timeout: nat, i: nat)
    requires i < |es| - 1
    ensures Unanswered(es, timeout, i) <==>
            Unanswered(es[..|es|-1], timeout, i) && es[|es|-1] != PingAck(Run(es[..i+1], timeout).data)
  {
    var before := es[..|es|-1];
    Prefixes(es, i);
    if i + 1 < |es| - 1 {
      Prefixes(es, i + 1);
    }
    assert before[..i+1] == es[..i+1];
    if Unanswered(before, timeout, i) && es[|es|-1] != PingAck(Run(es[..i+1], timeout).data) {
      assert forall j :: i < j < |before| ==> es[j] == before[j];
    }
  }

  /** The PING of event i is the one awaited, due its send time plus the timeout. */
  predicate Awaited(es: seq<Event>, timeout: nat, i: nat)
    requires SentAt(es, timeout, i)
  {
    var w := Run(es, timeout);
    w.pending && w.deadline == es[i].now + timeout && w.data == Run(es[..i+1], timeout).data
  }

  /** A PING is outstanding exactly when some PING is unanswered (as long as the connection
      has not been declared dead), and it is then the only one. */
  ghost predicate Outstanding(es: seq<Event>, timeout: nat) {
    && (Run(es, timeout).pending && !Run(es, timeout).dead ==> exists i: nat :: Unanswered(es, timeout, i))
    && (forall i: nat :: Unanswered(es, timeout, i) ==> Awaited(es, timeout, i))
    && (forall i: nat, j: nat :: Unanswered(es, timeout, i) && Unanswered(es, timeout, j) ==> i == j)
  }

  lemma UnansweredIsAwaited(es: seq<Event>, timeout: nat, i: nat)
    requires es != [] && Outstanding(es[..|es|-1], timeout) && Unanswered(es, timeout, i)
    ensures Awaited(es, timeout, i)
  {
    if i < |es| - 1 {
      UnansweredStep(es, timeout, i);
      assert Awaited(es[..|es|-1], timeout, i);
      assert es[..|es|-1][..i+1] == es[..i+1];
    } else {
      assert es[..i+1] == es;
    }
  }

  /** While a PING stays outstanding, the one awaited stays unanswered. */
  lemma StaysUnanswered(es: seq<Event>, timeout: nat, i: nat)
    requires es != [] && Unanswered(es[..|es|-1], timeout, i) && Awaited(es[..|es|-1], timeout, i)
    requires Run(es, timeout).pending && !Run(es, timeout).dead
    ensures Unanswered(es, timeout, i)
  {
    var before := es[..|es|-1];
    assert before[..i+1] == es[..i+1];
    assert es[|es|-1] != PingAck(Run(before, timeout).data);
    UnansweredStep(es, timeout, i);
  }

  lemma PendingIsUnanswered(es: seq<Event>, timeout: nat)
    requires es != [] && Outstanding(es[..|es|-1], timeout)
    requires Run(es, timeout).pending && !Run(es, timeout).dead
    ensures exists i: nat :: Unanswered(es, timeout, i)
  {
    var before := es[..|es|-1];
    if Run(before, timeout).pending {
      assert !Run(before, timeout).dead;
      var i: nat :| Unanswered(before, timeout, i);
      StaysUnanswered(es, timeout, i);
    } else {
      assert Unanswered(es, timeout, |es| - 1);
    }
  }

  lemma UnansweredIsUnique(es: seq<Event>, timeout: nat, i: nat, j: nat)
    requires es != [] && Outstanding(es[..|es|-1], timeout)
    requires Unanswered(es, timeout, i) && Unanswered(es, timeout, j)
    ensures i == j
  {
    if i < |es| - 1 {
      UnansweredStep(es, timeout, i);
      assert Awaited(es[..|es|-1], timeout, i);
    }
    if j < |es| - 1 {
      UnansweredStep(es, timeout, j);
      assert Awaited(es[..|es|-1], timeout, j);
    }
  }

  lemma {:induction false} AtMostOneOutstanding(es: seq<Event>, timeout: nat)
    ensures Outstanding(es, timeout)
  {
    if es != [] {
      AtMostOneOutstanding(es[..|es|-1], timeout);
      if Run(es, timeout).pending && !Run(es, timeout).dead {
        PendingIsUnanswered(es, timeout);
      }
      forall i: nat | Unanswered(es, timeout, i)
        ensures Awaited(es, timeout, i)
      {
        UnansweredIsAwaited(es, timeout, i);
      }
      forall i: nat, j: nat | Unanswered(es, timeout, i) && Unanswered(es, timeout, j)
        ensures i == j
      {
        UnansweredIsUnique(es, timeout, i, j);
      }
    }
  }

  /** A tick declares the connection dead exactly when some PING was sent more than the timeout ago
      and its acknowledgement has not been handled since. */
  lemma DeadIffUnanswered(es: seq<Event>, timeout: nat, now: int)
    requires !Run(es, timeout).dead
    ensures Step(Run(es, timeout), Tick(now), timeout).dead <==>
            exists i: nat :: Unanswered(es, timeout, i) && now > es[i].now + timeout
  {
    AtMostOneOutstanding(es, timeout);
    assert forall i: nat :: Unanswered(es, timeout, i) ==> Awaited(es, timeout, i);
  }

  // ---- total silence -----------------------------------------------------------------------------

  /** The idle ticks of a silent connection whose last frame was handled at t. */
  function Silence(t: int, interval: nat, k: nat): seq<Event> {
    if k == 0 then [] else Silence(t, interval, k - 1) + [Tick(t + k * interval)]
  }

  function RunFrom(w: Watch, es: seq<Event>, timeout: nat): Watch {
    if es == [] then w else Step(RunFrom(w, es[..|es|-1], timeout), es[|es|-1], timeout)
  }

  function AfterSilence(w: Watch, t: int, interval: nat, k: nat, timeout: nat): Watch {
    RunFrom(w, Silence(t, interval, k), timeout)
  }

  lemma SilenceSnoc(w: Watch, t: int, interval: nat, k: nat, timeout: nat)
    requires k > 0
    ensures AfterSilence(w, t, interval, k, timeout)
         == Step(AfterSilence(w, t, interval, k - 1, timeout), Tick(t + k * interval), timeout)
  {
    assert Silence(t, interval, k)[..|Silence(t, interval, k)|-1] == Silence(t, interval, k - 1);
  }

  lemma Monotone(a: int, b: int, m: nat)
    requires a <= b
    ensures a * m <= b * m
  {
  }

  /** m intervals outlast the timeout exactly when m exceeds the quotient. */
  lemma Outlasts(m: nat, interval: nat, timeout: nat)
    requires interval > 0
    ensures m * interval > timeout <==> m > timeout / interval
  {
    var q := timeout / interval;
    assert timeout == q * interval + timeout % interval;
    if m > q {
      Monotone(q + 1, m, interval);
    } else {
      Monotone(m, q, interval);
    }
  }

  /** With a PING already outstanding, a silent connection is dead at tick k exactly when that tick
      falls after the deadline. */
  lemma {:induction false} SilenceAfterPing(w: Watch, t: int, interval: nat, k: nat, timeout: nat)
    requires !w.dead && w.pending && interval > 0
    ensures AfterSilence(w, t, interval, k, timeout) == w.(dead := k > 0 && t + k * interval > w.deadline)
  {
    if k > 0 {
      SilenceSnoc(w, t, interval, k, timeout);
      SilenceAfterPing(w, t, interval, k - 1, timeout);
      Monotone(k - 1, k, interval);
    }
  }

  /** With none outstanding, the first tick sends the PING and tick k finds the connection dead exactly
      from k = floor(timeout / interval) + 2 on. */
  lemma {:induction false} SilenceIsDetected(w: Watch, t: int, interval: nat, k: nat, timeout: nat)
    requires !w.dead && !w.pending && interval > 0 && k > 0
    ensures var w' := AfterSilence(w, t, interval, k, timeout);
            && w'.pending && w'.deadline == t + interval + timeout
            && (w'.dead <==> k >= timeout / interval + 2)
  {
    SilenceSnoc(w, t, interval, k, timeout);
    if k > 1 {
      SilenceIsDetected(w, t, interval, k - 1, timeout);
      Outlasts(k - 1, interval, timeout);
    }
  }

  /** Whatever the state after the last frame, total silence from time t on is declared dead no later
      than t + (floor(timeout / interval) + 2) * interval. */
  lemma SilenceIsBounded(es: seq<Event>, t: int, interval: nat, timeout: nat)
    requires interval > 0 && !Run(es, timeout).dead
    requires forall i :: 0 <= i < |es| && es[i].Tick? ==> es[i].now <= t
    ensures AfterSilence(Run(es, timeout), t, interval, timeout / interval + 2, timeout).dead
  {
    var w, k := Run(es, timeout), timeout / interval + 2;
    if w.pending {
      AtMostOneOutstanding(es, timeout);
      var i: nat :| Unanswered(es, timeout, i);
      assert Awaited(es, timeout, i);
      SilenceAfterPing(w, t, interval, k, timeout);
      Outlasts(k, interval, timeout);
    } else {
      SilenceIsDetected(w, t, interval, k, timeout);
    }
  }
}
