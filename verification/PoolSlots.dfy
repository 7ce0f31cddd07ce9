/** The worker's connection pool: slot goroutines that dial, serve and redial, reapers that wait out
    a draining connection after its slot has moved on, the two wait groups, the set of live
    connections, and Shutdown. */
module PoolSlots {

  type SlotId = nat
  type ConnId = nat

  datatype Slot =
    | Top                     // about to check for shutdown
    | Dialing
    | Handshake(conn: ConnId) // registered; waiting for the peer's SETTINGS
    | Serving(conn: ConnId)
    | Backoff                 // waiting for the redial timer or shutdown
    | Leaving                 // returned from the loop; the deferred Done has not run
    | Exited

  datatype Reaper = Waiting | Deregistered

  /** maintainers and ready are the wait-group counters; released are the slots whose once has fired. */
  datatype Pool = Pool(
    slots: map<SlotId, Slot>,
    reapers: map<ConnId, Reaper>,
    conns: set<ConnId>,
    maintainers: int,
    ready: int,
    released: set<SlotId>,
    shutdown: bool,
    known: set<ConnId>)

  datatype Event =
    | Check(s: SlotId)
    | DialFails(s: SlotId)
    | DialConnects(s: SlotId, c: ConnId)
    | HandshakeFails(s: SlotId)
    | PeerReady(s: SlotId)
    | ServeEnds(s: SlotId)
    | DrainStarts(s: SlotId)
    | TimerFires(s: SlotId)
    | SeesShutdown(s: SlotId)
    | SlotDone(s: SlotId)
    | ReaperDeregisters(c: ConnId)
    | ReaperDone(c: ConnId)
    | BeginShutdown

  /** One goroutine per slot, counted in both wait groups before any of them runs. */
  function Start(ids: set<SlotId>): Pool {
    Pool(map s | s in ids :: Top, map[], {}, |ids|, |ids|, {}, false, {})
  }

  /** once.Do(ready.Done) */
  function Release(p: Pool, s: SlotId): Pool {
    if s in p.released then p else p.(released := p.released + {s}, ready := p.ready - 1)
  }

  function Move(p: Pool, s: SlotId, pc: Slot): Pool {
    p.(slots := p.slots[s := pc])
  }

  predicate At(p: Pool, s: SlotId, pc: Slot) {
    s in p.slots && p.slots[s] == pc
  }

  function Step(p: Pool, e: Event): Pool {
    match e
    case Check(s) =>
      if !At(p, s, Top) then p
      else if p.shutdown then Move(Release(p, s), s, Leaving) else Move(p, s, Dialing)
    case DialFails(s) => if At(p, s, Dialing) then Move(p, s, Backoff) else p
    case DialConnects(s, c) =>
      if At(p, s, Dialing) && c !in p.known
      then Move(p, s, Handshake(c)).(conns := p.conns + {c}, known := p.known + {c})
      else p
    case HandshakeFails(s) =>
      if s in p.slots && p.slots[s].Handshake?
      then Move(p, s, Backoff).(conns := p.conns - {p.slots[s].conn})
      else p
    case PeerReady(s) =>
      if s in p.slots && p.slots[s].Handshake? then Move(Release(p, s), s, Serving(p.slots[s].conn)) else p
    case ServeEnds(s) =>
      if s in p.slots && p.slots[s].Serving?
      then Move(p, s, Backoff).(conns := p.conns - {p.slots[s].conn})
      else p
    case DrainStarts(s) =>
      if s in p.slots && p.slots[s].Serving?
      then Move(p, s, Backoff).(reapers := p.reapers[p.slots[s].conn := Waiting], maintainers := p.maintainers + 1)
      else p
    case TimerFires(s) => if At(p, s, Backoff) then Move(p, s, Top) else p
    case SeesShutdown(s) => if At(p, s, Backoff) && p.shutdown then Move(Release(p, s), s, Leaving) else p
    case SlotDone(s) =>
      if At(p, s, Leaving) then Move(p, s, Exited).(maintainers := p.maintainers - 1) else p
    case ReaperDeregisters(c) =>
      if c in p.reapers && p.reapers[c] == Waiting
      then p.(reapers := p.reapers[c := Deregistered], conns := p.conns - {c})
      else p
    case ReaperDone(c) =>
      if c in p.reapers && p.reapers[c] == Deregistered
      then p.(reapers := p.reapers - {c}, maintainers := p.maintainers - 1)
      else p
    case BeginShutdown => p.(shutdown := true)
  }

  function After(ids: set<SlotId>, es: seq<Event>): Pool {
    if es == [] then Start(ids) else Step(After(ids, es[..|es|-1]), es[|es|-1])
  }

  // ---- counters ----------------------------------------------------------------------------------

  function Live(p: Pool): set<SlotId> {
    set s | s in p.slots && p.slots[s] != Exited
  }

  predicate Holds(slots: map<SlotId, Slot>, s: SlotId, c: ConnId) {
    s in slots && (slots[s] == Handshake(c) || slots[s] == Serving(c))
  }

  predicate Reaping(reapers: map<ConnId, Reaper>, c: ConnId) {
    c in reapers && reapers[c] == Waiting
  }

  /** The maintainer count is the number of live slot goroutines plus live reapers. */
  ghost predicate Counted(p: Pool) {
    p.maintainers == |Live(p)| + |p.reapers|
  }

  /** Ready credit is owed by exactly the slots that have not released theirs; a slot that has left
      its loop has. */
  ghost predicate Credited(p: Pool) {
    && p.released <= p.slots.Keys
    && p.ready == |p.slots.Keys| - |p.released|
    && (forall s :: s in p.slots && (p.slots[s] == Leaving || p.slots[s] == Exited) ==> s in p.released)
  }

  /** A registered connection belongs to exactly one slot or one reaper. */
  ghost predicate OwnedBy(
    conns: set<ConnId>, slots: map<SlotId, Slot>, reapers: map<ConnId, Reaper>, known: set<ConnId>)
  {
    && conns <= known && reapers.Keys <= known
    && (forall c :: c in conns ==> Reaping(reapers, c) || exists s :: Holds(slots, s, c))
    && (forall s, c :: Holds(slots, s, c) ==> c in conns && c !in reapers)
    && (forall s, s', c :: Holds(slots, s, c) && Holds(slots, s', c) ==> s == s')
    && (forall c :: Reaping(reapers, c) ==> c in conns)
  }

  ghost predicate Owned(p: Pool) {
    OwnedBy(p.conns, p.slots, p.reapers, p.known)
  }

  lemma MoveKeepsLive(p: Pool, s: SlotId, pc: Slot)
    requires s in p.slots && p.slots[s] != Exited && pc != Exited
    ensures Live(Move(p, s, pc)) == Live(p)
  {
  }

  /** Only the deferred Done of a slot takes it out of the live set. */
  lemma LiveSlots(p: Pool, e: Event)
    ensures Live(Step(p, e)) == if e.SlotDone? && At(p, e.s, Leaving) then Live(p) - {e.s} else Live(p)
  {
    match e
    case Check(s) => if At(p, s, Top) { MoveKeepsLive(p, s, Leaving); MoveKeepsLive(p, s, Dialing); }
    case DialFails(s) => if At(p, s, Dialing) { MoveKeepsLive(p, s, Backoff); }
    case DialConnects(s, c) => if At(p, s, Dialing) { MoveKeepsLive(p, s, Handshake(c)); }
    case HandshakeFails(s) => if s in p.slots && p.slots[s].Handshake? { MoveKeepsLive(p, s, Backoff); }
    case PeerReady(s) =>
      if s in p.slots && p.slots[s].Handshake? { MoveKeepsLive(p, s, Serving(p.slots[s].conn)); }
    case ServeEnds(s) => if s in p.slots && p.slots[s].Serving? { MoveKeepsLive(p, s, Backoff); }
    case DrainStarts(s) => if s in p.slots && p.slots[s].Serving? { MoveKeepsLive(p, s, Backoff); }
    case TimerFires(s) => if At(p, s, Backoff) { MoveKeepsLive(p, s, Top); }
    case SeesShutdown(s) => if At(p, s, Backoff) { MoveKeepsLive(p, s, Leaving); }
    case SlotDone(s) =>
    case ReaperDeregisters(_) =>
    case ReaperDone(_) =>
    case BeginShutdown =>
  }

  lemma ReapersKept(p: Pool, e: Event)
    requires Owned(p)
    ensures |Step(p, e).reapers| - |p.reapers| ==
            if e.DrainStarts? && e.s in p.slots && p.slots[e.s].Serving? then 1
            else if e.ReaperDone? && e.c in p.reapers && p.reapers[e.c] == Deregistered then -1
            else 0
  {
    if e.DrainStarts? && e.s in p.slots && p.slots[e.s].Serving? {
      var c := p.slots[e.s].conn;
      assert Holds(p.slots, e.s, c);
      assert Step(p, e).reapers == p.reapers[c := Waiting];
      CountOf(p.reapers, c, Waiting);
    } else if e.ReaperDone? && e.c in p.reapers && p.reapers[e.c] == Deregistered {
      assert Step(p, e).reapers == p.reapers - {e.c};
      CountOf(p.reapers, e.c, Waiting);
    } else {
      OtherReapers(p, e);
    }
  }

  lemma OtherReapers(p: Pool, e: Event)
    requires !(e.DrainStarts? && e.s in p.slots && p.slots[e.s].Serving?)
    requires !(e.ReaperDone? && e.c in p.reapers && p.reapers[e.c] == Deregistered)
    ensures |Step(p, e).reapers| == |p.reapers|
  {
    if e.ReaperDeregisters? {
      CountOf(p.reapers, e.c, Deregistered);
    }
  }

  lemma CountOf(m: map<ConnId, Reaper>, c: ConnId, r: Reaper)
    ensures |m[c := r]| == if c in m then |m| else |m| + 1
    ensures |m - {c}| == if c in m then |m| - 1 else |m|
  {
    assert m[c := r].Keys == m.Keys + {c};
    assert (m - {c}).Keys == m.Keys - {c};
    if c in m {
      assert m.Keys + {c} == m.Keys;
    } else {
      assert m.Keys - {c} == m.Keys;
    }
  }

  lemma StepKeepsCounted(p: Pool, e: Event)
    requires Counted(p) && Owned(p)
    ensures Counted(Step(p, e))
  {
    LiveSlots(p, e);
    ReapersKept(p, e);
    assert e.SlotDone? && At(p, e.s, Leaving) ==> e.s in Live(p);
  }

  lemma StepKeepsSlots(p: Pool, e: Event)
    ensures Step(p, e).slots.Keys == p.slots.Keys
  {
  }

  lemma ReleaseKeepsCredited(p: Pool, s: SlotId, pc: Slot)
    requires Credited(p) && s in p.slots
    ensures Credited(Move(Release(p, s), s, pc))
  {
    assert Move(Release(p, s), s, pc).slots.Keys == p.slots.Keys;
  }

  lemma MoveKeepsCredited(p: Pool, s: SlotId, pc: Slot)
    requires Credited(p) && s in p.slots && (s in p.released || (pc != Leaving && pc != Exited))
    ensures Credited(Move(p, s, pc))
  {
    assert Move(p, s, pc).slots.Keys == p.slots.Keys;
  }

  lemma StepKeepsCredited(p: Pool, e: Event)
    requires Credited(p)
    ensures Credited(Step(p, e))
  {
    match e
    case Check(s) =>
      if At(p, s, Top) { ReleaseKeepsCredited(p, s, Leaving); MoveKeepsCredited(p, s, Dialing); }
    case DialFails(s) => if At(p, s, Dialing) { MoveKeepsCredited(p, s, Backoff); }
    case DialConnects(s, c) => if At(p, s, Dialing) { MoveKeepsCredited(p, s, Handshake(c)); }
    case HandshakeFails(s) => if s in p.slots && p.slots[s].Handshake? { MoveKeepsCredited(p, s, Backoff); }
    case PeerReady(s) =>
      if s in p.slots && p.slots[s].Handshake? { ReleaseKeepsCredited(p, s, Serving(p.slots[s].conn)); }
    case ServeEnds(s) => if s in p.slots && p.slots[s].Serving? { MoveKeepsCredited(p, s, Backoff); }
    case DrainStarts(s) => if s in p.slots && p.slots[s].Serving? { MoveKeepsCredited(p, s, Backoff); }
    case TimerFires(s) => if At(p, s, Backoff) { MoveKeepsCredited(p, s, Top); }
    case SeesShutdown(s) => if At(p, s, Backoff) { ReleaseKeepsCredited(p, s, Leaving); }
    case SlotDone(s) => if At(p, s, Leaving) { MoveKeepsCredited(p, s, Exited); }
    case ReaperDeregisters(_) =>
    case ReaperDone(_) =>
    case BeginShutdown =>
  }

  /** A move between states that hold no connection changes no owner. */
  lemma IdleMoveKeepsOwned(p: Pool, s: SlotId, pc: Slot)
    requires Owned(p) && s in p.slots
    requires !p.slots[s].Handshake? && !p.slots[s].Serving? && !pc.Handshake? && !pc.Serving?
    ensures Owned(Move(p, s, pc))
  {
    var p' := Move(p, s, pc);
    assert forall s', c :: Holds(p'.slots, s', c) <==> Holds(p.slots, s', c);
    assert forall c :: Reaping(p'.reapers, c) <==> Reaping(p.reapers, c);
  }

  lemma ConnectKeepsOwned(p: Pool, s: SlotId, c: ConnId)
    requires Owned(p) && At(p, s, Dialing) && c !in p.known
    ensures Owned(Step(p, DialConnects(s, c)))
  {
    var p' := Step(p, DialConnects(s, c));
    assert Holds(p'.slots, s, c);
    assert forall s', c' :: Holds(p'.slots, s', c') <==> Holds(p.slots, s', c') || (s' == s && c' == c);
    assert forall c :: Reaping(p'.reapers, c) <==> Reaping(p.reapers, c);
  }

  lemma ReadyKeepsOwned(p: Pool, s: SlotId)
    requires Owned(p) && s in p.slots && p.slots[s].Handshake?
    ensures Owned(Step(p, PeerReady(s)))
  {
    var p' := Step(p, PeerReady(s));
    assert forall s', c' :: Holds(p'.slots, s', c') <==> Holds(p.slots, s', c');
    assert forall c :: Reaping(p'.reapers, c) <==> Reaping(p.reapers, c);
  }

  lemma DropKeepsOwned(p: Pool, s: SlotId, c: ConnId)
    requires Owned(p) && Holds(p.slots, s, c)
    ensures Owned(Move(p, s, Backoff).(conns := p.conns - {c}))
  {
    var p' := Move(p, s, Backoff).(conns := p.conns - {c});
    assert forall s', c' :: Holds(p'.slots, s', c') <==> Holds(p.slots, s', c') && s' != s;
    assert forall c :: Reaping(p'.reapers, c) <==> Reaping(p.reapers, c);
  }

  lemma HandOverKeepsOwned(p: Pool, s: SlotId)
    requires Owned(p) && s in p.slots && p.slots[s].Serving?
    ensures Owned(Step(p, DrainStarts(s)))
  {
    var c := p.slots[s].conn;
    var p' := Step(p, DrainStarts(s));
    assert Holds(p.slots, s, c);
    assert forall s', c' :: Holds(p'.slots, s', c') <==> Holds(p.slots, s', c') && s' != s;
    assert forall c' :: Reaping(p'.reapers, c') <==> Reaping(p.reapers, c') || c' == c;
  }

  lemma ReapKeepsOwned(p: Pool, c: ConnId)
    requires Owned(p)
    ensures Owned(Step(p, ReaperDeregisters(c))) && Owned(Step(p, ReaperDone(c)))
  {
    var p', p'' := Step(p, ReaperDeregisters(c)), Step(p, ReaperDone(c));
    assert forall s', c' :: Holds(p'.slots, s', c') <==> Holds(p.slots, s', c');
    assert forall s', c' :: Holds(p''.slots, s', c') <==> Holds(p.slots, s', c');
    assert forall c' :: Reaping(p''.reapers, c') <==> Reaping(p.reapers, c');
    assert Reaping(p.reapers, c) ==> forall c' :: Reaping(p'.reapers, c') <==> Reaping(p.reapers, c') && c' != c;
  }

  lemma StepKeepsOwned(p: Pool, e: Event)
    requires Owned(p)
    ensures Owned(Step(p, e))
  {
    match e
    case Check(s) => if At(p, s, Top) { IdleMoveKeepsOwned(p, s, Leaving); IdleMoveKeepsOwned(p, s, Dialing); }
    case DialFails(s) => if At(p, s, Dialing) { IdleMoveKeepsOwned(p, s, Backoff); }
    case DialConnects(s, c) => if At(p, s, Dialing) && c !in p.known { ConnectKeepsOwned(p, s, c); }
    case HandshakeFails(s) =>
      if s in p.slots && p.slots[s].Handshake? { DropKeepsOwned(p, s, p.slots[s].conn); }
    case PeerReady(s) => if s in p.slots && p.slots[s].Handshake? { ReadyKeepsOwned(p, s); }
    case ServeEnds(s) => if s in p.slots && p.slots[s].Serving? { DropKeepsOwned(p, s, p.slots[s].conn); }
    case DrainStarts(s) => if s in p.slots && p.slots[s].Serving? { HandOverKeepsOwned(p, s); }
    case TimerFires(s) => if At(p, s, Backoff) { IdleMoveKeepsOwned(p, s, Top); }
    case SeesShutdown(s) => if At(p, s, Backoff) { IdleMoveKeepsOwned(p, s, Leaving); }
    case SlotDone(s) => if At(p, s, Leaving) { IdleMoveKeepsOwned(p, s, Exited); }
    case ReaperDeregisters(c) => ReapKeepsOwned(p, c);
    case ReaperDone(c) => ReapKeepsOwned(p, c);
    case BeginShutdown =>
  }

  // ---- whole runs --------------------------------------------------------------------------------

  /** In every run: the maintainer count is the number of live slots and reapers, the ready count is
      the number of slots still owing their credit, and every registered connection has one owner. */
  lemma {:induction false} RunsAreSound(ids: set<SlotId>, es: seq<Event>)
    ensures Counted(After(ids, es)) && Credited(After(ids, es)) && Owned(After(ids, es))
    ensures After(ids, es).slots.Keys == ids
  {
    if es == [] {
      var p := Start(ids);
      assert p.slots.Keys == ids;
      assert Live(p) == ids;
    } else {
      var p, e := After(ids, es[..|es|-1]), es[|es|-1];
      RunsAreSound(ids, es[..|es|-1]);
      StepKeepsCounted(p, e);
      StepKeepsCredited(p, e);
      StepKeepsOwned(p, e);
      StepKeepsSlots(p, e);
    }
  }

  /** Neither wait group ever goes below zero, and a reaper is only ever added while the maintainer
      count is positive, so Add never races a Wait that could already have returned. */
  lemma WaitGroupsAreUsedSafely(ids: set<SlotId>, es: seq<Event>, s: SlotId)
    ensures After(ids, es).maintainers >= 0 && After(ids, es).ready >= 0
    ensures Step(After(ids, es), DrainStarts(s)) != After(ids, es) ==> After(ids, es).maintainers > 0
  {
    var p := After(ids, es);
    RunsAreSound(ids, es);
    Within(p.released, p.slots.Keys);
    assert s in p.slots && p.slots[s].Serving? ==> s in Live(p);
  }

  lemma Within(a: set<SlotId>, b: set<SlotId>)
    requires a <= b
    ensures |a| <= |b|
    ensures |a| == |b| ==> a == b
  {
    assert b == a + (b - a);
  }

  /** What Shutdown's caller learns from a nil result: when the maintainer count is zero every slot
      has exited, no reaper is left, no connection is registered, and Ready has been fully released. */
  lemma ZeroMeansGone(ids: set<SlotId>, es: seq<Event>)
    requires After(ids, es).maintainers == 0
    ensures forall s :: s in ids ==> At(After(ids, es), s, Exited)
    ensures After(ids, es).reapers == map[]
    ensures After(ids, es).conns == {}
    ensures After(ids, es).released == ids && After(ids, es).ready == 0
  {
    var p := After(ids, es);
    RunsAreSound(ids, es);
    assert Live(p) == {} && p.reapers == map[];
    forall s | s in ids
      ensures At(p, s, Exited)
    {
      assert s !in Live(p);
    }
    assert forall s, c :: !Holds(p.slots, s, c);
    assert p.released == ids;
  }

  /** With every slot exited and no reaper, no event touches the maintainer count. */
  lemma GoneStaysGone(p: Pool, e: Event)
    requires p.maintainers == 0 && p.reapers == map[]
    requires forall s :: s in p.slots ==> At(p, s, Exited)
    ensures Step(p, e).maintainers == 0
  {
  }

  /** Once zero, always zero: a later Shutdown call returns nil as well. */
  lemma {:induction false} ZeroIsStable(ids: set<SlotId>, es: seq<Event>, later: seq<Event>)
    requires After(ids, es).maintainers == 0
    ensures After(ids, es + later).maintainers == 0
  {
    if later == [] {
      assert es + later == es;
    } else {
      var before := es + later[..|later|-1];
      assert (es + later)[..|es + later|-1] == before;
      ZeroIsStable(ids, es, later[..|later|-1]);
      ZeroMeansGone(ids, before);
      RunsAreSound(ids, before);
      GoneStaysGone(After(ids, before), later[|later|-1]);
    }
  }

  /** Slot s completed a handshake somewhere in the run. */
  ghost predicate Greeted(ids: set<SlotId>, es: seq<Event>, s: SlotId) {
    exists i :: 0 <= i < |es| && GreetedAt(ids, es, s, i)
  }

  ghost predicate GreetedAt(ids: set<SlotId>, es: seq<Event>, s: SlotId, i: nat)
    requires i < |es|
  {
    es[i] == PeerReady(s) && Step(After(ids, es[..i]), es[i]) != After(ids, es[..i])
  }

  /** The startup gate is honest: until a shutdown, a slot's ready credit is released only by a
      handshake of that slot, so Ready completing means every slot has been connected once. */
  lemma {:induction false} ReadyMeansConnected(ids: set<SlotId>, es: seq<Event>, s: SlotId)
    requires s in After(ids, es).released && !After(ids, es).shutdown
    ensures Greeted(ids, es, s)
  {
    if es != [] {
      var n := |es| - 1;
      var before := es[..n];
      var p := After(ids, before);
      if s in p.released {
        ReadyMeansConnected(ids, before, s);
        var i :| 0 <= i < n && GreetedAt(ids, before, s, i);
        assert before[..i] == es[..i];
        assert GreetedAt(ids, es, s, i);
      } else {
        assert GreetedAt(ids, es, s, n);
      }
    }
  }

  lemma ReleasedGrows(p: Pool, e: Event)
    ensures p.released <= Step(p, e).released
  {
  }

  lemma HandshakeReleases(p: Pool, s: SlotId)
    requires Step(p, PeerReady(s)) != p
    ensures s in Step(p, PeerReady(s)).released
  {
  }

  lemma {:induction false} ReleasedStays(ids: set<SlotId>, es: seq<Event>, s: SlotId, i: nat)
    requires i < |es| && GreetedAt(ids, es, s, i)
    ensures s in After(ids, es).released
  {
    var n := |es| - 1;
    var p := After(ids, es[..n]);
    if i < n {
      assert es[..n][..i] == es[..i];
      ReleasedStays(ids, es[..n], s, i);
      ReleasedGrows(p, es[n]);
    } else {
      HandshakeReleases(p, s);
    }
  }

  /** Before a shutdown a slot has released its ready credit exactly if it completed a handshake. */
  lemma ReleasedIffConnected(ids: set<SlotId>, es: seq<Event>, s: SlotId)
    requires !After(ids, es).shutdown
    ensures s in After(ids, es).released <==> Greeted(ids, es, s)
  {
    if s in After(ids, es).released {
      ReadyMeansConnected(ids, es, s);
    }
    if Greeted(ids, es, s) {
      var i :| 0 <= i < |es| && GreetedAt(ids, es, s, i);
      ReleasedStays(ids, es, s, i);
    }
  }

  lemma ReadyGate(ids: set<SlotId>, es: seq<Event>)
    requires After(ids, es).ready == 0 && !After(ids, es).shutdown
    ensures forall s :: s in ids ==> Greeted(ids, es, s)
  {
    RunsAreSound(ids, es);
    Within(After(ids, es).released, ids);
    forall s | s in ids
      ensures Greeted(ids, es, s)
    {
      ReadyMeansConnected(ids, es, s);
    }
  }

  // ---- the life of a slot ------------------------------------------------------------------------

  predicate ShutdownBegun(es: seq<Event>) {
    es != [] && (ShutdownBegun(es[..|es|-1]) || es[|es|-1] == BeginShutdown)
  }

  lemma {:induction false} ShutdownIsHistory(ids: set<SlotId>, es: seq<Event>)
    ensures After(ids, es).shutdown <==> ShutdownBegun(es)
  {
    if es != [] {
      ShutdownIsHistory(ids, es[..|es|-1]);
    }
  }

  /** How a slot may go on: it dials, serves and redials until a shutdown, and only then leaves. */
  predicate Edge(a: Slot, b: Slot, shutdown: bool) {
    match a
    case Top => b == if shutdown then Leaving else Dialing
    case Dialing => b == Backoff || b.Handshake?
    case Handshake(c) => b == Backoff || b == Serving(c)
    case Serving(_) => b == Backoff
    case Backoff => b == Top || (shutdown && b == Leaving)
    case Leaving => b == Exited
    case Exited => false
  }

  /** A slot only ever moves along an edge. */
  lemma SlotsFollowEdges(p: Pool, e: Event, s: SlotId)
    requires s in p.slots
    ensures || At(Step(p, e), s, p.slots[s])
            || (s in Step(p, e).slots && Edge(p.slots[s], Step(p, e).slots[s], p.shutdown))
  {
  }

  /** And every edge can be taken, onto a connection not seen before; a handshake releases the slot's
      credit, and a drain keeps the connection registered with a reaper. */
  lemma EdgesAreTaken(p: Pool, s: SlotId, b: Slot) returns (e: Event)
    requires s in p.slots && Edge(p.slots[s], b, p.shutdown) && (b.Handshake? ==> b.conn !in p.known)
    ensures At(Step(p, e), s, b)
    ensures b.Handshake? ==> b.conn in Step(p, e).conns
    ensures b.Serving? || b == Leaving ==> s in Step(p, e).released
  {
    match p.slots[s] {
      case Top => e := Check(s);
      case Dialing => e := if b.Handshake? then DialConnects(s, b.conn) else DialFails(s);
      case Handshake(_) => e := if b == Backoff then HandshakeFails(s) else PeerReady(s);
      case Serving(_) => e := ServeEnds(s);
      case Backoff => e := if b == Top then TimerFires(s) else SeesShutdown(s);
      case Leaving => e := SlotDone(s);
    }
  }

  /** A slot whose connection drains is free to redial at once, and the connection stays registered until
      its reaper is done with it. */
  lemma DrainHandsOver(p: Pool, s: SlotId, c: ConnId)
    requires At(p, s, Serving(c)) && c in p.conns
    ensures var p' := Step(p, DrainStarts(s));
            && At(p', s, Backoff) && c in p'.conns && Reaping(p'.reapers, c)
            && c !in Step(p', ReaperDeregisters(c)).conns
  {
  }

  lemma {:induction false} SlotsStayUntilShutdown(ids: set<SlotId>, es: seq<Event>, s: SlotId)
    requires s in ids && !After(ids, es).shutdown
    ensures s in After(ids, es).slots && After(ids, es).slots[s] != Leaving && After(ids, es).slots[s] != Exited
  {
    if es != [] {
      var p := After(ids, es[..|es|-1]);
      SlotsStayUntilShutdown(ids, es[..|es|-1], s);
      SlotsFollowEdges(p, es[|es|-1], s);
    }
  }

  // ---- winding down ------------------------------------------------------------------------------

  /** How many steps a slot has left once shutdown has begun. */
  function Rank(slot: Slot): nat {
    match slot
    case Exited => 0
    case Leaving => 1
    case Top => 2
    case Backoff => 3
    case Serving(_) => 4
    case Handshake(_) => 5
    case Dialing => 6
  }

  function Continue(p: Pool, es: seq<Event>): Pool
    decreases es
  {
    if es == [] then p else Continue(Step(p, es[0]), es[1..])
  }

  /** How often slot s changes state along a run. */
  function Moves(p: Pool, es: seq<Event>, s: SlotId): nat
    decreases es
  {
    if es == [] then 0
    else (if s in p.slots && At(Step(p, es[0]), s, p.slots[s]) then 0 else 1)
         + Moves(Step(p, es[0]), es[1..], s)
  }

  lemma ShutdownStep(p: Pool, e: Event, s: SlotId)
    requires p.shutdown && s in p.slots
    ensures Step(p, e).shutdown && s in Step(p, e).slots
    ensures Step(p, e).slots[s] != p.slots[s] ==> Rank(Step(p, e).slots[s]) < Rank(p.slots[s])
  {
  }

  /** After shutdown has begun no slot dials again: whatever else happens, slot s changes state at
      most Rank (so at most six) more times, each bringing it nearer its exit. */
  lemma {:induction false} ShutdownWindsDown(p: Pool, es: seq<Event>, s: SlotId)
    requires p.shutdown && s in p.slots
    ensures s in Continue(p, es).slots
    ensures Moves(p, es, s) + Rank(Continue(p, es).slots[s]) <= Rank(p.slots[s])
    decreases es
  {
    if es != [] {
      ShutdownStep(p, es[0], s);
      ShutdownWindsDown(Step(p, es[0]), es[1..], s);
    }
  }
}
