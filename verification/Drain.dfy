/** Graceful drain at the granularity of its locks: RemoveStream counts under the lock, then loads
    the draining flag, then finishes the drain; BeginDrain stores the flag, then counts, then
    finishes. Any number of goroutines interleave. */
module Drain {

  type StreamId = nat
  type Thread = nat

  /** Where a goroutine is inside RemoveStream or BeginDrain. */
  datatype Pc =
    | SawEmpty   // RemoveStream unlocked with no streams left; the flag is not loaded yet
    | FlagSet    // BeginDrain stored the flag; streams are not counted yet
    | Finishing  // about to close drainDone

  /** emptied records whether the registry has been empty at some moment of the drain; hazard
      records whether, when the drain began, streams were registered while some RemoveStream
      still had to load the flag. */
  datatype Conn = Conn(
    streams: set<StreamId>,
    draining: bool,
    done: bool,
    threads: map<Thread, Pc>,
    emptied: bool,
    hazard: bool)

  datatype Event =
    | Add(sid: StreamId)
    | Remove(thread: Thread, sid: StreamId)
    | LoadFlag(thread: Thread)
    | SetFlag(thread: Thread)
    | Count(thread: Thread)
    | Finish(thread: Thread)

  function Initial(): Conn {
    Conn({}, false, false, map[], false, false)
  }

  predicate At(c: Conn, t: Thread, pc: Pc) {
    t in c.threads && c.threads[t] == pc
  }

  predicate Somebody(c: Conn, pc: Pc) {
    exists t :: t in c.threads && c.threads[t] == pc
  }

  predicate Hazardous(c: Conn) {
    c.streams != {} && Somebody(c, SawEmpty)
  }

  function Observe(c: Conn): Conn {
    c.(emptied := c.emptied || (c.draining && c.streams == {}))
  }

  function Step(c: Conn, e: Event): Conn {
    Observe(
      match e
      case Add(sid) => c.(streams := c.streams + {sid})
      case Remove(t, sid) =>
        if t in c.threads then c
        else
          var streams := c.streams - {sid};
          c.(streams := streams, threads := if streams == {} then c.threads[t := SawEmpty] else c.threads)
      case LoadFlag(t) =>
        if !At(c, t, SawEmpty) then c
        else c.(threads := if c.draining then c.threads[t := Finishing] else c.threads - {t})
      case SetFlag(t) =>
        if t in c.threads then c
        else c.(draining := true, threads := c.threads[t := FlagSet],
                hazard := c.hazard || (!c.draining && Hazardous(c)))
      case Count(t) =>
        if !At(c, t, FlagSet) then c
        else c.(threads := if c.streams == {} then c.threads[t := Finishing] else c.threads - {t})
      case Finish(t) =>
        if !At(c, t, Finishing) then c else c.(done := true, threads := c.threads - {t}))
  }

  function Steps(c: Conn, es: seq<Event>): Conn {
    if es == [] then c else Step(Steps(c, es[..|es|-1]), es[|es|-1])
  }

  function After(es: seq<Event>): Conn {
    Steps(Initial(), es)
  }

  lemma StepsSnoc(c: Conn, es: seq<Event>, e: Event)
    ensures Steps(c, es + [e]) == Step(Steps(c, es), e)
  {
    assert (es + [e])[..|es|] == es;
  }

  // ---- the registry ------------------------------------------------------------------------

  /** Stream sid was added, and no RemoveStream for it has taken the lock since. */
  predicate Registered(es: seq<Event>, sid: StreamId) {
    es != [] &&
    var before, e := es[..|es|-1], es[|es|-1];
    if e == Add(sid) then true
    else Registered(before, sid) && !(e.Remove? && e.sid == sid && e.thread !in After(before).threads)
  }

  /** A goroutine not already inside a call has begun the drain. */
  predicate Begun(es: seq<Event>) {
    es != [] &&
    var before, e := es[..|es|-1], es[|es|-1];
    Begun(before) || (e.SetFlag? && e.thread !in After(before).threads)
  }

  lemma StateStep(c: Conn, e: Event, sid: StreamId)
    ensures sid in Step(c, e).streams <==>
            e == Add(sid) || (sid in c.streams && !(e.Remove? && e.sid == sid && e.thread !in c.threads))
    ensures Step(c, e).draining <==> c.draining || (e.SetFlag? && e.thread !in c.threads)
  {
  }

  /** After any run the registry is exactly the streams added and not removed since, and the drain is on
      exactly once it was begun. */
  lemma {:induction false} StateIsHistory(es: seq<Event>, sid: StreamId)
    ensures sid in After(es).streams <==> Registered(es, sid)
    ensures After(es).draining <==> Begun(es)
  {
    if es != [] {
      StateIsHistory(es[..|es|-1], sid);
      StateStep(After(es[..|es|-1]), es[|es|-1], sid);
    }
  }

  // ---- completion is never missed ----------------------------------------------------------

  ghost predicate Attended(c: Conn) {
    c.draining && c.streams == {} ==> c.done || exists t :: t in c.threads
  }

  lemma StepKeepsAttended(c: Conn, e: Event)
    requires Attended(c)
    ensures Attended(Step(c, e))
  {
    var c' := Step(c, e);
    if !e.Add? && e.thread in c'.threads {
      assert Attended(c');
    } else if c.draining && c.streams == {} && !c.done {
      var t :| t in c.threads;
      assert t in c'.threads || c'.done;
    }
  }

  lemma {:induction false} EmptyDrainIsAttended(es: seq<Event>)
    ensures Attended(After(es))
  {
    if es != [] {
      EmptyDrainIsAttended(es[..|es|-1]);
      StepKeepsAttended(After(es[..|es|-1]), es[|es|-1]);
    }
  }

  /** In every interleaving: once the drain has begun, all calls have returned and no stream is
      registered, the drain is reported complete. */
  lemma DrainCompletionIsNeverMissed(es: seq<Event>)
    requires var c := After(es);
             c.draining && c.streams == {} && c.threads == map[]
    ensures After(es).done
  {
    EmptyDrainIsAttended(es);
  }

  // ---- completion is reported early only after a hazardous start ------------------------------

  /** Without a hazardous start, nobody is about to report completion before the registry has been
      empty during the drain. */
  ghost predicate Honest(c: Conn) {
    && (!c.draining ==>
          !c.done && !Somebody(c, Finishing) && !Somebody(c, FlagSet) && !c.hazard && !c.emptied)
    && (c.draining && !c.emptied ==> c.streams != {})
    && (c.draining && !c.emptied && !c.hazard ==>
          !c.done && !Somebody(c, Finishing) && !Somebody(c, SawEmpty))
  }

  /** Only the goroutine that moves can get to a new place. */
  lemma OnlyMoverMoves(c: Conn, e: Event, pc: Pc)
    ensures Somebody(Step(c, e), pc) ==> Somebody(c, pc) || (!e.Add? && At(Step(c, e), e.thread, pc))
  {
    var c' := Step(c, e);
    if Somebody(c', pc) {
      var t :| t in c'.threads && c'.threads[t] == pc;
      assert (t in c.threads && c.threads[t] == pc) || (!e.Add? && t == e.thread);
    }
  }

  lemma StepKeepsHonest(c: Conn, e: Event)
    requires Honest(c)
    ensures Honest(Step(c, e))
  {
    OnlyMoverMoves(c, e, Finishing);
    OnlyMoverMoves(c, e, SawEmpty);
    OnlyMoverMoves(c, e, FlagSet);
  }

  lemma {:induction false} RunsAreHonest(es: seq<Event>)
    ensures Honest(After(es))
  {
    if es != [] {
      RunsAreHonest(es[..|es|-1]);
      StepKeepsHonest(After(es[..|es|-1]), es[|es|-1]);
    }
  }

  /** A completion report is premature if streams have been registered throughout the drain. */
  predicate Premature(c: Conn) {
    c.done && !c.emptied
  }

  /** Exactly when early completion is possible: a drain that begins in a reachable state can be
      reported complete too early, in some continuation, if and only if it begins with streams
      registered while a RemoveStream that saw the registry empty has not loaded the flag. */
  lemma PrematureIff(es: seq<Event>, d: Thread)
    requires !After(es).draining && d !in After(es).threads
    ensures (exists more :: Premature(Steps(After(es + [SetFlag(d)]), more))) <==> Hazardous(After(es))
  {
    var c := After(es);
    var c1 := After(es + [SetFlag(d)]);
    StepsSnoc(Initial(), es, SetFlag(d));
    assert c1 == Step(c, SetFlag(d));
    RunsAreHonest(es);
    if Hazardous(c) {
      var t :| t in c.threads && c.threads[t] == SawEmpty;
      StepsSnoc(c1, [], LoadFlag(t));
      StepsSnoc(c1, [LoadFlag(t)], Finish(t));
      assert Premature(Steps(c1, [LoadFlag(t)] + [Finish(t)]));
    } else {
      StepKeepsHonest(c, SetFlag(d));
      forall more ensures !Premature(Steps(c1, more)) {
        SafeStartStaysSafe(c1, more);
      }
    }
  }

  lemma {:induction false} SafeStartStaysSafe(c: Conn, more: seq<Event>)
    requires Honest(c) && c.draining && !c.hazard
    ensures var c' := Steps(c, more);
            Honest(c') && c'.draining && !c'.hazard && !Premature(c')
  {
    if more != [] {
      SafeStartStaysSafe(c, more[..|more|-1]);
      StepKeepsHonest(Steps(c, more[..|more|-1]), more[|more|-1]);
    }
  }

  /** If no drain begins while a RemoveStream has yet to load the flag, as when RemoveStream is one
      step, completion is only ever reported after the registry was empty during the drain. */
  lemma {:induction false} PromptRemovalIsNeverPremature(es: seq<Event>)
    requires forall k :: 0 <= k < |es| && es[k].SetFlag? ==> !Somebody(After(es[..k]), SawEmpty)
    ensures !After(es).hazard && !Premature(After(es))
  {
    RunsAreHonest(es);
    if es != [] {
      var n := |es| - 1;
      forall k | 0 <= k < n && es[..n][k].SetFlag?
        ensures !Somebody(After(es[..n][..k]), SawEmpty)
      {
        assert es[..n][..k] == es[..k];
      }
      PromptRemovalIsNeverPremature(es[..n]);
    }
  }

  /** The hazard is real: the last handler removes its stream, the frame reader registers a new one
      and then handles GOAWAY, and only then does the handler's goroutine load the flag. */
  lemma PrematureCompletionHappens()
    ensures var c := After([Add(1), Remove(0, 1), Add(3), SetFlag(9), LoadFlag(0), Finish(0)]);
            c.done && !c.emptied && c.streams == {3}
  {
    var run := [Add(1), Remove(0, 1), Add(3), SetFlag(9), LoadFlag(0), Finish(0)];
    assert run[..1] == [] + [Add(1)] && run[..2] == run[..1] + [Remove(0, 1)] && run[..3] == run[..2] + [Add(3)];
    assert run[..4] == run[..3] + [SetFlag(9)] && run[..5] == run[..4] + [LoadFlag(0)] && run == run[..5] + [Finish(0)];
    StepsSnoc(Initial(), [], Add(1));
    assert After(run[..1]) == Conn({1}, false, false, map[], false, false);
    StepsSnoc(Initial(), run[..1], Remove(0, 1));
    assert {1} - {1} == {};
    assert After(run[..2]) == Conn({}, false, false, map[0 := SawEmpty], false, false);
    StepsSnoc(Initial(), run[..2], Add(3));
    StepsSnoc(Initial(), run[..3], SetFlag(9));
    StepsSnoc(Initial(), run[..4], LoadFlag(0));
    StepsSnoc(Initial(), run[..5], Finish(0));
  }

  // ---- the registry object ----------------------------------------------------------------------

  /** The connection's registry and drain flags. Each method runs its sections back to back, which
      is one of the interleavings above. */
  class Registry {
    var streams: set<StreamId>
    var draining: bool
    var drainDone: bool
    ghost var emptied: bool
    ghost var hazard: bool

    ghost function View(): Conn
      reads this
    {
      Conn(streams, draining, drainDone, map[], emptied, hazard)
    }

    constructor ()
      ensures View() == Initial()
    {
      streams, draining, drainDone, emptied, hazard := {}, false, false, false, false;
    }

    method AddStream(id: StreamId)
      modifies this`streams, this`emptied
      ensures View() == Step(old(View()), Add(id))
      ensures streams == old(streams) + {id}
    {
      streams := streams + {id};
      emptied := emptied || (draining && streams == {});
    }

    method FinishDrain()
      modifies this`drainDone
      ensures drainDone
    {
      if !drainDone {
        drainDone := true;
      }
    }

    method RemoveStream(id: StreamId)
      modifies this`streams, this`drainDone, this`emptied
      ensures View() == Step(Step(Step(old(View()), Remove(0, id)), LoadFlag(0)), Finish(0))
      ensures streams == old(streams) - {id} && (drainDone <==> old(drainDone) || (draining && streams == {}))
    {
      streams := streams - {id};
      var n := |streams|;
      emptied := emptied || (draining && streams == {});
      if n == 0 && draining {
        FinishDrain();
      }
      assert map[0 := SawEmpty] - {0} == map[];
      assert map[0 := Finishing] - {0} == map[];
    }

    method BeginDrain()
      modifies this
      ensures View() == Step(Step(Step(old(View()), SetFlag(0)), Count(0)), Finish(0))
      ensures draining && streams == old(streams) && (drainDone <==> old(drainDone) || streams == {})
    {
      draining := true;
      var n := |streams|;
      emptied := emptied || streams == {};
      if n == 0 {
        FinishDrain();
      }
      assert map[0 := FlagSet] - {0} == map[];
      assert map[0 := Finishing] - {0} == map[];
    }
  }
}
