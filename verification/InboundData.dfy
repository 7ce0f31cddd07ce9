/** DATA frames from any peer, padded or not: credit is returned for the whole payload length, padding
    included, while the body receives the data alone. */
module InboundData {
  import opened HttpFrames
  import opened BodySpec
  import FlowControl
  import Conservation
  import BodyQueue

  type StreamId = FlowControl.StreamId

  /** bodies are those of the registered streams; sent are the frames queued in reply. */
  datatype Conn = Conn(bodies: map<StreamId, Body>, sent: seq<Conservation.Frame>)

  datatype Event =
    | Register(sid: StreamId)
    | Remove(sid: StreamId)
    | Arrives(sid: StreamId, data: Bytes, flowLen: FlowControl.Size, end: bool)

  function Step(c: Conn, e: Event): Conn {
    match e
    case Register(sid) => if sid == 0 then c else c.(bodies := c.bodies[sid := Empty()])
    case Remove(sid) => c.(bodies := c.bodies - {sid})
    case Arrives(sid, data, flowLen, end) =>
      Conn(
        if sid in c.bodies then c.bodies[sid := Arrive(c.bodies[sid], data, end)] else c.bodies,
        c.sent + Conservation.Replies(sid in c.bodies, sid, flowLen))
  }

  function After(es: seq<Event>): Conn {
    if es == [] then Conn(map[], []) else Step(After(es[..|es|-1]), es[|es|-1])
  }

  // ---- what arrived, read off the run -------------------------------------------------------------

  function PayloadBytes(es: seq<Event>): nat {
    if es == [] then 0
    else PayloadBytes(es[..|es|-1]) + if es[|es|-1].Arrives? then es[|es|-1].flowLen else 0
  }

  /** Payload bytes that arrived for sid while it was registered. */
  function PayloadBytesOn(es: seq<Event>, sid: StreamId): nat {
    if es == [] then 0
    else
      var before, e := es[..|es|-1], es[|es|-1];
      PayloadBytesOn(before, sid) + if e.Arrives? && e.sid == sid && sid in After(before).bodies then e.flowLen else 0
  }

  /** The data that arrived for sid since it was last registered. */
  function DataOn(es: seq<Event>, sid: StreamId): Bytes {
    if es == [] then []
    else
      var before, e := es[..|es|-1], es[|es|-1];
      if e == Register(sid) then [] else DataOn(before, sid) + if e.Arrives? && e.sid == sid then e.data else []
  }

  lemma {:induction false} OnlyStreams(es: seq<Event>)
    ensures 0 !in After(es).bodies
  {
    if es != [] {
      OnlyStreams(es[..|es|-1]);
    }
  }

  /** Whatever the peer sends: WINDOW_UPDATEs on the connection return exactly the payload bytes that
      arrived, and those on a stream exactly what arrived for it while it was registered. */
  lemma {:induction false} CreditCoversPadding(es: seq<Event>, sid: StreamId)
    requires sid != 0
    ensures Conservation.Total(After(es).sent, Conservation.CreditOn(0)) == PayloadBytes(es)
    ensures Conservation.Total(After(es).sent, Conservation.CreditOn(sid)) == PayloadBytesOn(es, sid)
  {
    if es != [] {
      var before, e := es[..|es|-1], es[|es|-1];
      var c := After(before);
      CreditCoversPadding(before, sid);
      OnlyStreams(before);
      if e.Arrives? {
        var replies := Conservation.Replies(e.sid in c.bodies, e.sid, e.flowLen);
        Conservation.TotalAppend(c.sent, replies, Conservation.CreditOn(0));
        Conservation.TotalAppend(c.sent, replies, Conservation.CreditOn(sid));
        Conservation.RepliesTotal(e.sid in c.bodies, e.sid, e.flowLen, Conservation.CreditOn(0));
        Conservation.RepliesTotal(e.sid in c.bodies, e.sid, e.flowLen, Conservation.CreditOn(sid));
      }
    }
  }

  /** DATA for a stream that is not registered is answered with a reset, if it carries any payload; DATA for
      one that is never is. */
  lemma ResetIffUnregistered(es: seq<Event>, e: Event)
    requires e.Arrives?
    ensures var c := After(es);
            Conservation.Rst(e.sid) in Step(c, e).sent[|c.sent|..] <==> e.sid !in c.bodies && e.flowLen > 0
  {
    var c := After(es);
    assert Step(c, e).sent[|c.sent|..] == Conservation.Replies(e.sid in c.bodies, e.sid, e.flowLen);
    assert Conservation.Replies(false, e.sid, 1)[1] == Conservation.Rst(e.sid);
    if e.sid !in c.bodies && e.flowLen > 0 {
      assert Conservation.Replies(false, e.sid, e.flowLen)[1] == Conservation.Rst(e.sid);
    }
  }

  /** END_STREAM arrived for sid since it was last registered. */
  predicate EndedOn(es: seq<Event>, sid: StreamId) {
    es != [] &&
    var before, e := es[..|es|-1], es[|es|-1];
    e != Register(sid) && (EndedOn(before, sid) || (e.Arrives? && e.sid == sid && e.end))
  }

  /** A registered stream's body is finished exactly by END_STREAM. */
  lemma {:induction false} BodyEndsIff(es: seq<Event>, sid: StreamId)
    requires sid in After(es).bodies
    ensures After(es).bodies[sid].done <==> EndedOn(es, sid)
  {
    OnlyStreams(es);
    if es[|es|-1] != Register(sid) {
      BodyEndsIff(es[..|es|-1], sid);
    }
  }

  /** The body of a registered stream holds the data and nothing of the padding. */
  lemma {:induction false} BodyGetsTheData(es: seq<Event>, sid: StreamId)
    requires sid in After(es).bodies
    ensures Unread(After(es).bodies[sid]) == DataOn(es, sid)
  {
    var before, e := es[..|es|-1], es[|es|-1];
    OnlyStreams(es);
    if e != Register(sid) {
      BodyGetsTheData(before, sid);
      assert DataOn(before, sid) + [] == DataOn(before, sid);
      if e.Arrives? && e.sid == sid {
        ArriveUnread(After(before).bodies[sid], e.data, e.end);
      }
    }
  }

  /** HandleInboundData on the stream the registry holds for sid, if any. */
  method HandleInboundData(s: BodyQueue.Stream?, sid: StreamId, data: Bytes, flowLen: FlowControl.Size, end: bool)
    returns (replies: seq<Conservation.Frame>)
    requires s != null ==> s.Valid()
    modifies if s == null then {} else {s, s.pool} + s.pool.free
    ensures replies == Conservation.Replies(s != null, sid, flowLen)
    ensures s != null ==> s.Valid() && s.View() == Arrive(old(s.View()), data, end)
  {
    replies := [];
    if flowLen > 0 {
      replies := replies + [Conservation.Update(0, flowLen)];
      if s != null {
        replies := replies + [Conservation.Update(sid, flowLen)];
      }
    }
    if s == null {
      if flowLen > 0 {
        replies := replies + [Conservation.Rst(sid)];
      }
      return;
    }
    s.Inbound(data, end);
  }
}
