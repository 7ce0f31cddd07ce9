/** The single writer goroutine of a connection, its bounded queue, and the goroutines that submit
    frames to it, synchronously or not. Every blocking point of the code is a separate step, and
    every submission has a completion channel of its own. */
module WriterQueue {

  type Id = nat

  const CAPACITY := 256

  datatype Result = Written | Failed | Unknown

  datatype Submitter =
    | Sending            // in the first select of submit or submitAsync
    | Waiting            // in the second select of submit
    | Returned(result: Result)

  datatype Writer =
    | Running
    | Holding(id: Id)               // took an intent off the queue
    | Wrote(id: Id, ok: bool)       // the framer has returned; the submitter is not told yet
    | Dying                         // left the loop; writeDeadCh is still open
    | Draining                      // writeDeadCh is closed
    | Gone

  /** taken, enqueued and onWire are histories: intents taken off the queue, put on it, and written
      by the framer, in order. */
  datatype Conn = Conn(
    queue: seq<Id>,
    writer: Writer,
    dead: bool,
    shutdown: bool,
    subs: map<Id, Submitter>,
    async: set<Id>,
    replies: map<Id, Result>,
    taken: seq<Id>,
    enqueued: seq<Id>,
    onWire: seq<Id>)

  datatype Event =
    | Submit(id: Id, isAsync: bool)
    | Enqueue(id: Id)
    | GiveUp(id: Id)      // writeDeadCh chosen in the first select
    | Receive(id: Id)     // the completion channel delivers
    | ReturnDead(id: Id)  // writeDeadCh chosen in the second select, nothing delivered
    | Take
    | FramerReturns(ok: bool)
    | Notify
    | CloseShutdown
    | Stop
    | CloseDead
    | DrainOne
    | DrainEnd

  function Initial(): Conn {
    Conn([], Running, false, false, map[], {}, map[], [], [], [])
  }

  predicate Is(c: Conn, id: Id, s: Submitter) {
    id in c.subs && c.subs[id] == s
  }

  predicate Enabled(c: Conn, e: Event) {
    match e
    case Submit(id, _) => id !in c.subs
    case Enqueue(id) => Is(c, id, Sending) && |c.queue| < CAPACITY
    case GiveUp(id) => Is(c, id, Sending) && c.dead
    case Receive(id) => Is(c, id, Waiting) && id in c.replies
    case ReturnDead(id) => Is(c, id, Waiting) && id !in c.replies && c.dead
    case Take => c.writer == Running && c.queue != []
    case FramerReturns(_) => c.writer.Holding?
    case Notify => c.writer.Wrote?
    case CloseShutdown => true
    case Stop => c.writer == Running && c.shutdown
    case CloseDead => c.writer == Dying
    case DrainOne => c.writer == Draining && c.queue != []
    case DrainEnd => c.writer == Draining && c.queue == []
  }

  /** Sends on a completion channel; fire-and-forget intents have none. */
  function Tell(c: Conn, id: Id, r: Result): map<Id, Result> {
    if id in c.async then c.replies else c.replies[id := r]
  }

  function Step(c: Conn, e: Event): Conn {
    if !Enabled(c, e) then c
    else
      match e
      case Submit(id, isAsync) =>
        c.(subs := c.subs[id := Sending], async := if isAsync then c.async + {id} else c.async)
      case Enqueue(id) =>
        c.(queue := c.queue + [id], enqueued := c.enqueued + [id],
           subs := c.subs[id := if id in c.async then Returned(Unknown) else Waiting])
      case GiveUp(id) => c.(subs := c.subs[id := Returned(if id in c.async then Unknown else Failed)])
      case Receive(id) => c.(subs := c.subs[id := Returned(c.replies[id])])
      case ReturnDead(id) => c.(subs := c.subs[id := Returned(Failed)])
      case Take => c.(writer := Holding(c.queue[0]), queue := c.queue[1..], taken := c.taken + [c.queue[0]])
      case FramerReturns(ok) =>
        c.(writer := Wrote(c.writer.id, ok), onWire := if ok then c.onWire + [c.writer.id] else c.onWire)
      case Notify =>
        c.(writer := if c.writer.ok then Running else Dying,
           replies := Tell(c, c.writer.id, if c.writer.ok then Written else Failed))
      case CloseShutdown => c.(shutdown := true)
      case Stop => c.(writer := Dying)
      case CloseDead => c.(writer := Draining, dead := true)
      case DrainOne =>
        c.(queue := c.queue[1..], taken := c.taken + [c.queue[0]], replies := Tell(c, c.queue[0], Failed))
      case DrainEnd => c.(writer := Gone)
  }

  function After(es: seq<Event>): Conn {
    if es == [] then Initial() else Step(After(es[..|es|-1]), es[|es|-1])
  }

  // ---- order -----------------------------------------------------------------------------------

  ghost predicate Distinct(s: seq<Id>) {
    forall i, j :: 0 <= i < j < |s| ==> s[i] != s[j]
  }

  ghost predicate Ordered(c: Conn) {
    && c.enqueued == c.taken + c.queue
    && Distinct(c.enqueued)
    && (forall id :: id in c.enqueued ==> id in c.subs && c.subs[id] != Sending)
    && match c.writer
       case Running => c.taken == c.onWire
       case Holding(id) => c.taken == c.onWire + [id]
       case Wrote(id, ok) => if ok then c.taken == c.onWire && id in c.onWire else c.taken == c.onWire + [id]
       case _ => c.onWire <= c.taken
  }

  lemma StepKeepsOrdered(c: Conn, e: Event)
    requires Ordered(c)
    ensures Ordered(Step(c, e))
  {
    if Enabled(c, e) {
      match e {
        case Enqueue(id) => assert c.enqueued + [id] == c.taken + (c.queue + [id]);
        case Take => assert c.taken + [c.queue[0]] + c.queue[1..] == c.taken + c.queue;
        case DrainOne => assert c.taken + [c.queue[0]] + c.queue[1..] == c.taken + c.queue;
        case _ =>
      }
    }
  }

  lemma {:induction false} RunsAreOrdered(es: seq<Event>)
    ensures Ordered(After(es))
  {
    if es != [] {
      RunsAreOrdered(es[..|es|-1]);
      StepKeepsOrdered(After(es[..|es|-1]), es[|es|-1]);
    }
  }

  /** Frames reach the framer in exactly the order they were enqueued, none skipped and none twice. */
  lemma WrittenInEnqueueOrder(es: seq<Event>)
    ensures var c := After(es);
            c.onWire <= c.enqueued && Distinct(c.onWire)
  {
    RunsAreOrdered(es);
  }

  // ---- what a submitter is told -------------------------------------------------------------------

  predicate Held(c: Conn, id: Id) {
    (c.writer.Holding? || c.writer.Wrote?) && c.writer.id == id
  }

  /** What is known of one intent. */
  ghost predicate Fate(c: Conn, id: Id) {
    && (id in c.replies ==>
          && id in c.taken && !Held(c, id) && id !in c.async
          && (c.replies[id] == Written || c.replies[id] == Failed)
          && (c.replies[id] == Written <==> id in c.onWire))
    && (Is(c, id, Waiting) ==> id !in c.async && (id in c.queue || Held(c, id) || id in c.replies))
    && (Is(c, id, Returned(Written)) ==> id in c.onWire)
    && (Is(c, id, Returned(Failed)) ==> id !in c.onWire && (c.dead || (id !in c.queue && !Held(c, id))))
  }

  ghost predicate Alive(c: Conn) {
    c.dead <==> c.writer == Draining || c.writer == Gone
  }

  /** Consequences of every intent being enqueued once. */
  lemma Apart(c: Conn, id: Id)
    requires Ordered(c)
    ensures !(id in c.taken && id in c.queue)
    ensures id in c.onWire ==> id in c.taken
    ensures c.queue != [] ==> c.queue[0] !in c.queue[1..]
    ensures c.writer.Holding? && c.writer.id == id ==> id !in c.onWire
    ensures c.writer.Wrote? && !c.writer.ok && c.writer.id == id ==> id !in c.onWire
  {
    forall i, j | 0 <= i < |c.taken| && 0 <= j < |c.queue| ensures c.taken[i] != c.queue[j] {
      assert c.enqueued[i] == c.taken[i] && c.enqueued[|c.taken| + j] == c.queue[j];
    }
    forall j | 1 <= j < |c.queue| ensures c.queue[j] != c.queue[0] {
      assert c.enqueued[|c.taken|] == c.queue[0] && c.enqueued[|c.taken| + j] == c.queue[j];
    }
    if c.writer.Holding? || (c.writer.Wrote? && !c.writer.ok) {
      forall i | 0 <= i < |c.onWire| ensures c.onWire[i] != c.writer.id {
        assert c.enqueued[i] == c.onWire[i] && c.enqueued[|c.onWire|] == c.writer.id;
      }
    }
  }

  lemma SubmitterStepKeepsFate(c: Conn, e: Event, id: Id)
    requires e.Submit? || e.Enqueue? || e.GiveUp? || e.Receive? || e.ReturnDead?
    requires Ordered(c) && Alive(c) && Fate(c, id) && Fate(c, e.id)
    ensures Fate(Step(c, e), id)
  {
    Apart(c, id);
    RepliesAreKnown(c, id);
  }

  lemma RepliesAreKnown(c: Conn, id: Id)
    requires Ordered(c) && Fate(c, id)
    ensures id in c.replies || id in c.onWire || id in c.queue || Held(c, id) ==> id in c.subs && c.subs[id] != Sending
  {
    Apart(c, id);
    if id in c.taken || id in c.queue {
      assert id in c.enqueued;
    }
  }

  lemma WriterStepKeepsFate(c: Conn, e: Event, id: Id)
    requires Ordered(c) && Alive(c) && Fate(c, id)
    requires !(e.Submit? || e.Enqueue? || e.GiveUp? || e.Receive? || e.ReturnDead?)
    ensures Fate(Step(c, e), id)
  {
    Apart(c, id);
  }

  lemma StepKeepsAlive(c: Conn, e: Event)
    requires Alive(c)
    ensures Alive(Step(c, e))
  {
  }

  lemma {:induction false} RunsKeepFate(es: seq<Event>)
    ensures var c := After(es);
            Alive(c) && forall id :: Fate(c, id)
  {
    if es != [] {
      var c, e := After(es[..|es|-1]), es[|es|-1];
      RunsKeepFate(es[..|es|-1]);
      RunsAreOrdered(es[..|es|-1]);
      StepKeepsAlive(c, e);
      forall id ensures Fate(Step(c, e), id) {
        if e.Submit? || e.Enqueue? || e.GiveUp? || e.Receive? || e.ReturnDead? {
          SubmitterStepKeepsFate(c, e, id);
        } else {
          WriterStepKeepsFate(c, e, id);
        }
      }
    }
  }

  /** A synchronous submitter is told success exactly if the framer had written its frame: success
      means it is already on the wire, and failure means it is not and never will be. */
  lemma SubmitTellsTheTruth(es: seq<Event>, id: Id, later: seq<Event>)
    requires id in After(es).subs
    ensures Is(After(es), id, Returned(Written)) ==> id in After(es).onWire
    ensures Is(After(es), id, Returned(Failed)) ==> id !in After(es + later).onWire
  {
    RunsKeepFate(es);
    assert Fate(After(es), id);
    if Is(After(es), id, Returned(Failed)) {
      FailureIsFinal(es, id, later);
      RunsKeepFate(es + later);
      assert Fate(After(es + later), id);
    }
  }

  /** How intent id was submitted: its first Submit event counts. */
  predicate AskedAsync(es: seq<Event>, id: Id) {
    es != [] &&
    var before, e := es[..|es|-1], es[|es|-1];
    AskedAsync(before, id) || (id !in After(before).subs && e == Submit(id, true))
  }

  lemma KindStep(c: Conn, e: Event, id: Id)
    requires Fate(c, id)
    requires id in c.async ==> id in c.subs
    requires id in c.subs && id !in c.async ==> c.subs[id] != Returned(Unknown)
    requires id in c.async ==> c.subs[id] == Sending || c.subs[id] == Returned(Unknown)
    ensures var c' := Step(c, e);
            && (id in c'.async <==> id in c.async || (id !in c.subs && e == Submit(id, true)))
            && (id in c'.async ==> id in c'.subs)
            && (id in c'.subs && id !in c'.async ==> c'.subs[id] != Returned(Unknown))
            && (id in c'.async ==> c'.subs[id] == Sending || c'.subs[id] == Returned(Unknown))
  {
  }

  lemma {:induction false} KindsAreKept(es: seq<Event>, id: Id)
    ensures var c := After(es);
            && (id in c.async <==> AskedAsync(es, id))
            && (id in c.async ==> id in c.subs)
            && (id in c.subs && id !in c.async ==> c.subs[id] != Returned(Unknown))
            && (id in c.async ==> c.subs[id] == Sending || c.subs[id] == Returned(Unknown))
  {
    if es != [] {
      var before := es[..|es|-1];
      KindsAreKept(before, id);
      RunsKeepFate(before);
      KindStep(After(before), es[|es|-1], id);
    }
  }

  /** A synchronous submitter that has returned was told whether its frame was written, exactly; a
      fire-and-forget one is told nothing and never waits. */
  lemma SyncIsAnswered(es: seq<Event>, id: Id)
    requires id in After(es).subs
    ensures var c := After(es);
            if AskedAsync(es, id) then c.subs[id] == Sending || c.subs[id] == Returned(Unknown)
            else c.subs[id].Returned? ==> c.subs[id] == Returned(if id in c.onWire then Written else Failed)
  {
    KindsAreKept(es, id);
    RunsKeepFate(es);
    if !AskedAsync(es, id) {
      AnswerIsTrue(After(es), id);
    }
  }

  lemma AnswerIsTrue(c: Conn, id: Id)
    requires Fate(c, id) && id in c.subs && c.subs[id] != Returned(Unknown)
    ensures c.subs[id].Returned? ==> c.subs[id] == Returned(if id in c.onWire then Written else Failed)
  {
    match c.subs[id] {
      case Returned(Written) =>
      case Returned(Failed) =>
      case Returned(Unknown) =>
      case Sending =>
      case Waiting =>
    }
  }

  lemma {:induction false} FailureIsFinal(es: seq<Event>, id: Id, later: seq<Event>)
    requires Is(After(es), id, Returned(Failed))
    ensures Is(After(es + later), id, Returned(Failed))
  {
    if later == [] {
      assert es + later == es;
    } else {
      var before, e := es + later[..|later|-1], later[|later|-1];
      FailureIsFinal(es, id, later[..|later|-1]);
      assert (es + later)[..|es + later|-1] == before;
      ReturnedStays(After(before), e, id);
    }
  }

  lemma ReturnedStays(c: Conn, e: Event, id: Id)
    requires Is(c, id, Returned(Failed))
    ensures Is(Step(c, e), id, Returned(Failed))
  {
  }

  predicate AskedToStop(es: seq<Event>) {
    es != [] && (AskedToStop(es[..|es|-1]) || es[|es|-1] == CloseShutdown)
  }

  lemma {:induction false} ShutdownIsHistory(es: seq<Event>)
    ensures After(es).shutdown <==> AskedToStop(es)
  {
    if es != [] {
      ShutdownIsHistory(es[..|es|-1]);
      ShutdownStep(After(es[..|es|-1]), es[|es|-1]);
    }
  }

  lemma ShutdownStep(c: Conn, e: Event)
    ensures Step(c, e).shutdown <==> c.shutdown || e == CloseShutdown
  {
  }

  /** A writer with no write in hand can stop exactly if it was asked to, and is then dead within one step. */
  lemma StopsIffAsked(es: seq<Event>)
    requires After(es).writer == Running
    ensures var c := After(es);
            && (Step(c, Stop).writer == Dying <==> AskedToStop(es))
            && (AskedToStop(es) ==> Step(Step(c, Stop), CloseDead).dead)
  {
    ShutdownIsHistory(es);
  }

  predicate WriterCanMove(c: Conn) {
    Enabled(c, Take) || Enabled(c, FramerReturns(true)) || Enabled(c, Notify) || Enabled(c, CloseDead)
  }

  /** Nobody is stuck. After the writer's death every submitter can return at once, whether its
      intent was queued before the final drain, after it, or never. Before, a waiting submitter
      has its answer or its intent is with a writer that can move; and one that finds the queue
      full faces a writer that can move. */
  lemma NobodyIsStuck(es: seq<Event>, id: Id)
    ensures var c := After(es);
            && (c.dead && Is(c, id, Sending) ==> Enabled(c, GiveUp(id)))
            && (c.dead && Is(c, id, Waiting) ==> Enabled(c, Receive(id)) || Enabled(c, ReturnDead(id)))
            && (!c.dead && Is(c, id, Waiting) ==>
                  Enabled(c, Receive(id)) || ((id in c.queue || Held(c, id)) && WriterCanMove(c)))
            && (!c.dead && Is(c, id, Sending) ==> Enabled(c, Enqueue(id)) || WriterCanMove(c))
  {
    RunsKeepFate(es);
    assert Fate(After(es), id);
  }
}
