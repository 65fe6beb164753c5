/** `TxHandler`: queues the effects and events of executed transactions and broadcasts
 *  each one to every connected client over a local socket, as the `bincode` encoding of
 *  the effects and the `serde_json` encoding of the events, each after its length as a
 *  4-byte big-endian number. */
module TxBroadcast {
  import opened Basics
  import opened Wire
  import opened Connections

  /** Stand-ins for `TransactionEffects` and `SuiEvent`: the model only passes them to
   *  the serializers. */
  datatype TransactionEffects = TransactionEffects(contents: seq<Byte>)
  datatype SuiEvent = SuiEvent(contents: seq<Byte>)

  /** `BroadcastMessage`: the effects of one transaction and the events it emitted. */
  datatype BroadcastMessage = BroadcastMessage(effects: TransactionEffects, events: seq<SuiEvent>)

  /** `bincode::serialize` on the effects and `serde_json::to_vec` on the event list;
   *  `None` is their `Err`. */
  type Bincode = TransactionEffects -> Option<seq<Byte>>
  type SerdeJson = seq<SuiEvent> -> Option<seq<Byte>>

  /** The error `queue_for_broadcast` returns once the broadcast task is gone. */
  const STOPPED: string := "Broadcast task has stopped"

  /** The two serialized sections a client reads for one transaction. */
  datatype TxRecord = TxRecord(effects: seq<Byte>, events: seq<Byte>)

  /** The bytes one pass writes to each client: each section after its length as a
   *  big-endian `u32` (so modulo 2^32), effects first. */
  function TxFrame(r: TxRecord): (f: seq<Byte>)
    ensures |f| == 8 + |r.effects| + |r.events|
    ensures BeValue(f[..4]) == AsU32(|r.effects|)
    ensures f[4..4 + |r.effects|] == r.effects
    ensures BeValue(f[4 + |r.effects|..8 + |r.effects|]) == AsU32(|r.events|)
    ensures f[8 + |r.effects|..] == r.events
  {
    var e := BeU32(|r.effects|) + r.effects;
    var f := e + BeU32(|r.events|) + r.events;
    assert f[..4] == BeU32(|r.effects|);
    assert f[4..4 + |r.effects|] == r.effects;
    assert f[4 + |r.effects|..8 + |r.effects|] == BeU32(|r.events|);
    f
  }

  /** A client reading one transaction from the front of `stream`: both sections and
   *  the bytes after them, or `None` when the stream holds no complete frame. */
  function ReadTxFrame(stream: seq<Byte>): (r: Option<(TxRecord, seq<Byte>)>)
    ensures r.Some? ==> 8 + |r.value.0.effects| + |r.value.0.events| + |r.value.1| == |stream|
  {
    if |stream| < 4 then None
    else
      var n := BeValue(stream[..4]);
      if |stream| < 8 + n then None
      else
        var m := BeValue(stream[4 + n..8 + n]);
        if |stream| < 8 + n + m then None
        else Some((TxRecord(stream[4..4 + n], stream[8 + n..8 + n + m]), stream[8 + n + m..]))
  }

  /** A client reads back exactly both sections of a frame whose sections are each
   *  shorter than 2^32 bytes, whatever follows it. */
  lemma TxFrameRoundTrip(r: TxRecord, rest: seq<Byte>)
    requires |r.effects| < U32_LIMIT && |r.events| < U32_LIMIT
    ensures ReadTxFrame(TxFrame(r) + rest) == Some((r, rest))
  {
    var f := TxFrame(r);
    var s := f + rest;
    var n := |r.effects|;
    var m := |r.events|;
    assert s[..4] == f[..4];
    assert s[4..4 + n] == r.effects;
    assert s[4 + n..8 + n] == f[4 + n..8 + n];
    assert s[8 + n..8 + n + m] == r.events;
    assert s[8 + n + m..] == rest;
  }

  /** Whatever a client reads as a frame was written as one. */
  lemma ReadTxFrameSound(stream: seq<Byte>)
    requires ReadTxFrame(stream).Some?
    ensures var (r, rest) := ReadTxFrame(stream).value;
      && |r.effects| < U32_LIMIT && |r.events| < U32_LIMIT
      && stream == TxFrame(r) + rest
  {
    var (r, rest) := ReadTxFrame(stream).value;
    var n := |r.effects|;
    var m := |r.events|;
    Pow256Four();
    BeBytesOfValue(stream[..4]);
    BeBytesOfValue(stream[4 + n..8 + n]);
    assert BeU32(n) == stream[..4];
    assert BeU32(m) == stream[4 + n..8 + n];
    assert stream == stream[..4] + stream[4..4 + n] + stream[4 + n..8 + n] + stream[8 + n..8 + n + m] + rest;
  }

  /** The `as u32` casts lose the length of a section of 2^32 bytes or more: a client
   *  cannot read such a frame back. */
  lemma OversizedSectionMisframed(r: TxRecord, rest: seq<Byte>)
    requires |r.effects| >= U32_LIMIT || |r.events| >= U32_LIMIT
    ensures ReadTxFrame(TxFrame(r) + rest) != Some((r, rest))
  {
    var f := TxFrame(r);
    var s := f + rest;
    var n := |r.effects|;
    assert s[..4] == f[..4];
    if n < U32_LIMIT {
      assert s[4 + n..8 + n] == f[4 + n..8 + n];
    }
  }

  /** A client reading transactions until its stream is used up. */
  function ReadTxFrames(stream: seq<Byte>): Option<seq<TxRecord>>
    decreases |stream|
  {
    if stream == [] then Some([])
    else
      match ReadTxFrame(stream)
      case None => None
      case Some((r, rest)) =>
        match ReadTxFrames(rest)
        case None => None
        case Some(rs) => Some([r] + rs)
  }

  /** Reading a frame does not look past its end. */
  lemma ReadTxFrameExtends(a: seq<Byte>, b: seq<Byte>)
    requires ReadTxFrame(a).Some?
    ensures ReadTxFrame(a + b) == Some((ReadTxFrame(a).value.0, ReadTxFrame(a).value.1 + b))
  {
    var n := BeValue(a[..4]);
    var m := BeValue(a[4 + n..8 + n]);
    assert (a + b)[..4] == a[..4];
    assert (a + b)[4 + n..8 + n] == a[4 + n..8 + n];
    assert (a + b)[4..4 + n] == a[4..4 + n];
    assert (a + b)[8 + n..8 + n + m] == a[8 + n..8 + n + m];
    assert (a + b)[8 + n + m..] == a[8 + n + m..] + b;
  }

  /** Two streams that each read as whole frames read, one after the other, as all of
   *  their transactions in order. */
  lemma {:induction false} ReadTxFramesAppend(a: seq<Byte>, b: seq<Byte>)
    requires ReadTxFrames(a).Some? && ReadTxFrames(b).Some?
    ensures ReadTxFrames(a + b) == Some(ReadTxFrames(a).value + ReadTxFrames(b).value)
    decreases |a|
  {
    if a == [] {
      assert a + b == b;
      assert ReadTxFrames(a).value == [];
      assert ReadTxFrames(a).value + ReadTxFrames(b).value == ReadTxFrames(b).value;
    } else {
      var (r, rest) := ReadTxFrame(a).value;
      ReadTxFrameExtends(a, b);
      ReadTxFramesAppend(rest, b);
      assert ReadTxFrames(a).value == [r] + ReadTxFrames(rest).value;
      AppendAssoc([r], ReadTxFrames(rest).value, ReadTxFrames(b).value);
    }
  }

  /** The bytes a client that misses no write receives for these transactions, in order. */
  function TxFrameStream(records: seq<TxRecord>): seq<Byte>
  {
    if records == [] then [] else TxFrame(records[0]) + TxFrameStream(records[1..])
  }

  /** A client reads back every transaction, in order, from the frames of transactions
   *  whose sections are shorter than 2^32 bytes. */
  lemma {:induction false} ReadTxFramesOfStream(records: seq<TxRecord>)
    requires forall r :: r in records ==> |r.effects| < U32_LIMIT && |r.events| < U32_LIMIT
    ensures ReadTxFrames(TxFrameStream(records)) == Some(records)
  {
    if records != [] {
      var rest := TxFrameStream(records[1..]);
      TxFrameRoundTrip(records[0], rest);
      ReadTxFramesOfStream(records[1..]);
      assert records == [records[0]] + records[1..];
    }
  }

  /** The sections a pass sends for one message, effects serialized first: `None` when
   *  either serializer fails, and both outputs when both succeed. */
  function Serialize(message: BroadcastMessage, bincode: Bincode, serdeJson: SerdeJson): (r: Option<TxRecord>)
    ensures bincode(message.effects).None? ==> r.None?
    ensures serdeJson(message.events).None? ==> r.None?
    ensures r.Some? ==> Some(r.value.effects) == bincode(message.effects)
    ensures r.Some? ==> Some(r.value.events) == serdeJson(message.events)
    ensures bincode(message.effects).Some? && serdeJson(message.events).Some?
            ==> r == Some(TxRecord(bincode(message.effects).value, serdeJson(message.events).value))
  {
    match bincode(message.effects)
    case None => None
    case Some(e) =>
      match serdeJson(message.events)
      case None => None
      case Some(v) => Some(TxRecord(e, v))
  }

  /** What a pass sends for one message: nothing when a serializer fails, else its frame. */
  function FrameOf(message: BroadcastMessage, bincode: Bincode, serdeJson: SerdeJson): Option<seq<Byte>>
  {
    match Serialize(message, bincode, serdeJson)
    case None => None
    case Some(r) => Some(TxFrame(r))
  }

  function PassFrames(messages: seq<BroadcastMessage>, bincode: Bincode, serdeJson: SerdeJson): seq<Option<seq<Byte>>>
  {
    if messages == [] then []
    else [FrameOf(messages[0], bincode, serdeJson)] + PassFrames(messages[1..], bincode, serdeJson)
  }

  /** The sections of the messages both serializers encode, in queue order. */
  function Records(messages: seq<BroadcastMessage>, bincode: Bincode, serdeJson: SerdeJson): seq<TxRecord>
  {
    if messages == [] then []
    else
      (match Serialize(messages[0], bincode, serdeJson) case None => [] case Some(r) => [r])
      + Records(messages[1..], bincode, serdeJson)
  }

  lemma {:induction false} SentFramesAreStream(messages: seq<BroadcastMessage>, bincode: Bincode, serdeJson: SerdeJson)
    ensures Flatten(Present(PassFrames(messages, bincode, serdeJson)))
         == TxFrameStream(Records(messages, bincode, serdeJson))
  {
    if messages != [] {
      SentFramesAreStream(messages[1..], bincode, serdeJson);
      var frames := PassFrames(messages, bincode, serdeJson);
      assert frames[1..] == PassFrames(messages[1..], bincode, serdeJson);
      match Serialize(messages[0], bincode, serdeJson)
      case None =>
        assert Present(frames) == Present(frames[1..]);
        assert Records(messages, bincode, serdeJson) == Records(messages[1..], bincode, serdeJson);
      case Some(r) =>
        assert Present(frames) == [TxFrame(r)] + Present(frames[1..]);
        assert Records(messages, bincode, serdeJson) == [r] + Records(messages[1..], bincode, serdeJson);
    }
  }

  /** End to end: a client still connected once the queue is drained, whose earlier
   *  bytes read as whole frames, can read both sections of every transaction of the
   *  queue that both serializers encode after them, in queue order. */
  lemma ConnectedClientReadsEveryTransaction(st: Sockets, messages: seq<BroadcastMessage>,
                                             bincode: Bincode, serdeJson: SerdeJson,
                                             budgets: nat -> ConnId -> nat, c: ConnId, earlier: seq<TxRecord>)
    requires WellFormed(st) && c in st.conns
    requires c in Drain(st, PassFrames(messages, bincode, serdeJson), budgets, 0).conns
    requires ReadTxFrames(st.received[c]) == Some(earlier)
    requires forall r :: r in Records(messages, bincode, serdeJson) ==> |r.effects| < U32_LIMIT && |r.events| < U32_LIMIT
    ensures ReadTxFrames(Drain(st, PassFrames(messages, bincode, serdeJson), budgets, 0).received[c])
         == Some(earlier + Records(messages, bincode, serdeJson))
  {
    var records := Records(messages, bincode, serdeJson);
    DrainDeliversInOrder(st, PassFrames(messages, bincode, serdeJson), budgets, 0, c);
    SentFramesAreStream(messages, bincode, serdeJson);
    ReadTxFramesOfStream(records);
    ReadTxFramesAppend(st.received[c], TxFrameStream(records));
  }

  /** The handler: the shared connection list and the sending half of the unbounded
   *  channel to the broadcast task. */
  class TxHandler {
    /** `conns`, shared with the accept task and the broadcast task. */
    const conns: ConnectionList
    /** Messages sent on the channel that the broadcast task has not received yet. */
    var queue: seq<BroadcastMessage>
    /** The broadcast task has stopped: its receiver is gone. */
    var closed: bool

    ghost predicate Valid()
      reads this, conns
    {
      && conns.Valid()
      && (closed ==> queue == [])
    }

    /** `new(path)` without the socket setup: no client, an empty channel, a running task. */
    constructor ()
      ensures Valid() && fresh(conns)
      ensures conns.conns == [] && conns.received == map[]
      ensures queue == [] && !closed
    {
      conns := new ConnectionList();
      queue := [];
      closed := false;
    }

    /** `queue_for_broadcast`: appends one message, or fails once the task has stopped. */
    method QueueForBroadcast(effects: TransactionEffects, events: seq<SuiEvent>) returns (r: Outcome)
      requires Valid()
      modifies this`queue
      ensures Valid()
      ensures r == if closed then Err(STOPPED) else Ok
      ensures queue == if closed then old(queue) else old(queue) + [BroadcastMessage(effects, events)]
    {
      if closed {
        return Err(STOPPED);
      }
      queue := queue + [BroadcastMessage(effects, events)];
      r := Ok;
    }

    /** `send_tx_effects_and_events`: queues a copy of the effects with the events and
     *  hands back the queueing outcome. */
    method SendTxEffectsAndEvents(effects: TransactionEffects, events: seq<SuiEvent>) returns (r: Outcome)
      requires Valid()
      modifies this`queue
      ensures Valid()
      ensures r == if closed then Err(STOPPED) else Ok
      ensures queue == if closed then old(queue) else old(queue) + [BroadcastMessage(effects, events)]
    {
      r := QueueForBroadcast(effects, events);
    }

    /** The broadcast task ends and drops its receiver, with whatever it still held. */
    method BroadcastTaskStopped()
      requires Valid()
      modifies this`queue, this`closed
      ensures Valid()
      ensures closed && queue == []
    {
      closed := true;
      queue := [];
    }

    /** One turn of `accept_connections_loop`: a stream that `accept` returns is pushed
     *  at the end of the list; on an accept error the loop just goes round again. */
    method Accept(accepted: bool) returns (c: Option<ConnId>)
      requires Valid()
      modifies conns
      ensures Valid()
      ensures accepted ==> c.Some? && c.value !in old(conns.received)
      ensures accepted ==> conns.conns == old(conns.conns) + [c.value]
      ensures accepted ==> conns.received == old(conns.received)[c.value := []]
      ensures !accepted ==> c == None && conns.State() == old(conns.State())
    {
      if !accepted {
        return None;
      }
      var id := conns.Push();
      c := Some(id);
    }

    /** `send_to_connection`: the effects length, the effects, the events length and the
     *  events, each with `write_all`; the first error ends the attempt. */
    static method SendToConnection(connections: ConnectionList, c: ConnId,
                                   effectsLen: seq<Byte>, effects: seq<Byte>,
                                   eventsLen: seq<Byte>, events: seq<Byte>, room: nat) returns (ok: bool)
      requires c in connections.received
      modifies connections`received
      ensures ok <==> |effectsLen| + |effects| + |eventsLen| + |events| <= room
      ensures connections.received
           == old(connections.received)[c := old(connections.received)[c]
                                             + Sent(room, effectsLen + effects + eventsLen + events)]
    {
      ghost var start := connections.received[c];
      ghost var whole := effectsLen + effects + eventsLen + events;
      var left;
      ok, left := connections.WriteAll(c, effectsLen, room);
      if !ok {
        assert [] + effectsLen == effectsLen;
        SentStops(room, [], effectsLen, whole);
        assert [] + Sent(room, effectsLen) == Sent(room, effectsLen);
        return;
      }
      ghost var done := effectsLen;
      ok, left := connections.WriteAll(c, effects, left);
      if !ok {
        SentStops(room, done, effects, whole);
        AppendAssoc(start, done, Sent(room - |done|, effects));
        return;
      }
      AppendAssoc(start, done, effects);
      done := done + effects;
      ok, left := connections.WriteAll(c, eventsLen, left);
      if !ok {
        SentStops(room, done, eventsLen, whole);
        AppendAssoc(start, done, Sent(room - |done|, eventsLen));
        return;
      }
      AppendAssoc(start, done, eventsLen);
      done := done + eventsLen;
      ok, left := connections.WriteAll(c, events, left);
      if !ok {
        SentStops(room, done, events, whole);
        AppendAssoc(start, done, Sent(room - |done|, events));
        return;
      }
      AppendAssoc(start, done, events);
    }

    /** The pop loop of `send_to_all_connections`: every stream is popped off the back
     *  of the list and written the four pieces; the ones whose writes all returned Ok
     *  are pushed onto `active`, which is returned. */
    static method WriteEachPopped(connections: ConnectionList, effectsLen: seq<Byte>, effects: seq<Byte>,
                                  eventsLen: seq<Byte>, events: seq<Byte>, ghost frame: seq<Byte>,
                                  budget: ConnId -> nat) returns (active: seq<ConnId>)
      requires WellFormed(connections.State())
      requires frame == effectsLen + effects + eventsLen + events
      modifies connections`conns, connections`received
      ensures connections.conns == []
      ensures active == Survivors(old(connections.conns), budget, |frame|)
      ensures connections.received == Deliver(old(connections.received), old(connections.conns), budget, frame)
    {
      ghost var initial := connections.conns;
      ghost var before := connections.received;
      active := [];
      while connections.conns != []
        invariant connections.conns == initial[..|connections.conns|]
        invariant active == Survivors(initial[|connections.conns|..], budget, |frame|)
        invariant connections.received == Deliver(before, initial[|connections.conns|..], budget, frame)
        decreases |connections.conns|
      {
        var k := |connections.conns| - 1;
        var conn := connections.conns[k];
        assert conn == initial[k] && conn in connections.received;
        connections.conns := connections.conns[..k];
        var result := SendToConnection(connections, conn, effectsLen, effects, eventsLen, events, budget(conn));
        if result {
          active := active + [conn];
        }
        assert active == Survivors(initial[k..], budget, |frame|) by {
          PopSurvivors(initial, k, budget, |frame|);
        }
        assert connections.received == Deliver(before, initial[k..], budget, frame) by {
          PopDeliver(initial, k, before, budget, frame);
        }
      }
      assert initial[0..] == initial;
    }

    /** `send_to_all_connections`: one broadcast pass for `message`. The effects are
     *  serialized first; if either serializer fails nothing is written. */
    static method SendToAllConnections(message: BroadcastMessage, connections: ConnectionList,
                                       bincode: Bincode, serdeJson: SerdeJson, budget: ConnId -> nat)
      requires connections.Valid()
      modifies connections`conns, connections`received
      ensures connections.Valid()
      ensures connections.State() == Pass(old(connections.State()), FrameOf(message, bincode, serdeJson), budget)
    {
      var effectsBytes := bincode(message.effects);
      if effectsBytes.None? {
        return;
      }
      var eventsBytes := serdeJson(message.events);
      if eventsBytes.None? {
        return;
      }
      var effects := effectsBytes.value;
      var events := eventsBytes.value;
      var effectsLen := BeU32(|effects|);
      var eventsLen := BeU32(|events|);
      ghost var frame := effectsLen + effects + eventsLen + events;
      var active := WriteEachPopped(connections, effectsLen, effects, eventsLen, events, frame, budget);
      connections.conns := active;
      PassKeepsNames(old(connections.State()), frame, budget, connections.nextId);
      assert FrameOf(message, bincode, serdeJson) == Some(frame);
    }

    /** One turn of `broadcast_loop`: the oldest queued message gets one full pass. */
    method BroadcastOne(bincode: Bincode, serdeJson: SerdeJson, budget: ConnId -> nat) returns (sent: bool)
      requires Valid()
      modifies this`queue, conns
      ensures Valid() && conns.nextId == old(conns.nextId)
      ensures sent <==> old(queue) != []
      ensures sent ==> queue == old(queue)[1..]
      ensures sent ==> conns.State() == Pass(old(conns.State()), FrameOf(old(queue)[0], bincode, serdeJson), budget)
      ensures !sent ==> queue == old(queue) && conns.State() == old(conns.State())
    {
      if queue == [] {
        return false;
      }
      var message := queue[0];
      queue := queue[1..];
      SendToAllConnections(message, conns, bincode, serdeJson, budget);
      sent := true;
    }

    /** `broadcast_loop` until the channel is empty: every queued message, oldest first,
     *  gets its own pass; pass `k` is answered by `budgets(k)`. */
    method BroadcastLoop(bincode: Bincode, serdeJson: SerdeJson, budgets: nat -> ConnId -> nat)
      requires Valid()
      modifies this`queue, conns
      ensures Valid() && queue == []
      ensures conns.State() == Drain(old(conns.State()), PassFrames(old(queue), bincode, serdeJson), budgets, 0)
    {
      var k := 0;
      while queue != []
        invariant Valid()
        invariant Drain(conns.State(), PassFrames(queue, bincode, serdeJson), budgets, k)
               == Drain(old(conns.State()), PassFrames(old(queue), bincode, serdeJson), budgets, 0)
        decreases |queue|
      {
        var _ := BroadcastOne(bincode, serdeJson, budgets(k));
        k := k + 1;
      }
    }

    /** `connection_count`: the list's length, or 0 when the lock is held elsewhere. */
    method ConnectionCount(locked: bool) returns (n: nat)
      ensures locked ==> n == 0
      ensures !locked ==> n == |conns.conns|
    {
      n := if locked then 0 else |conns.conns|;
    }
  }
}
