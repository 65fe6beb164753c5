/** `CacheUpdateHandler`: queues lists of updated objects and broadcasts each list to
 *  every connected client over a Unix socket, as a 4-byte little-endian length followed
 *  by the `bcs` encoding of the list. */
module CacheUpdate {
  import opened Basics
  import opened Wire
  import opened Connections

  /** Stand-ins for `ObjectID` and `Object`: the model only passes them to `bcs`. */
  type ObjectId = seq<Byte>
  datatype Object = Object(contents: seq<Byte>)

  /** `CacheBroadcastMessage`: one batch of written objects. */
  datatype CacheBroadcastMessage = CacheBroadcastMessage(objects: seq<(ObjectId, Object)>)

  /** `bcs::to_bytes` on the object list; `None` is its `Err`. */
  type Bcs = seq<(ObjectId, Object)> -> Option<seq<Byte>>

  /** The error `queue_for_broadcast` returns once the broadcast task is gone. */
  const STOPPED: string := "Broadcast task has stopped"

  /** The bytes one pass writes to each client: the payload length as a little-endian
   *  `u32` (so modulo 2^32), then the payload. */
  function CacheFrame(payload: seq<Byte>): (f: seq<Byte>)
    ensures |f| == 4 + |payload|
    ensures LeValue(f[..4]) == AsU32(|payload|)
    ensures f[4..] == payload
  {
    LeU32(|payload|) + payload
  }

  /** A client reading one frame from the front of `stream`: the payload and the bytes
   *  after it, or `None` when the stream holds no complete frame. */
  function ReadFrame(stream: seq<Byte>): (r: Option<(seq<Byte>, seq<Byte>)>)
    ensures r.Some? ==> 4 + |r.value.0| + |r.value.1| == |stream|
  {
    if |stream| < 4 then None
    else
      var n := LeValue(stream[..4]);
      if |stream| < 4 + n then None else Some((stream[4..4 + n], stream[4 + n..]))
  }

  /** A client reads back exactly the payload from a frame whose payload is shorter than
   *  2^32 bytes, whatever follows it. */
  lemma CacheFrameRoundTrip(payload: seq<Byte>, rest: seq<Byte>)
    requires |payload| < U32_LIMIT
    ensures ReadFrame(CacheFrame(payload) + rest) == Some((payload, rest))
  {
    var s := CacheFrame(payload) + rest;
    assert s[..4] == CacheFrame(payload)[..4];
    assert s[4..4 + |payload|] == payload;
    assert s[4 + |payload|..] == rest;
  }

  /** Whatever a client reads as a frame was written as one. */
  lemma ReadFrameSound(stream: seq<Byte>)
    requires ReadFrame(stream).Some?
    ensures |ReadFrame(stream).value.0| < U32_LIMIT
    ensures stream == CacheFrame(ReadFrame(stream).value.0) + ReadFrame(stream).value.1
  {
    var (p, rest) := ReadFrame(stream).value;
    Pow256Four();
    LeBytesOfValue(stream[..4]);
    assert LeU32(|p|) == stream[..4];
    assert stream == stream[..4] + stream[4..4 + |p|] + stream[4 + |p|..];
  }

  /** The `as u32` cast loses the length of a payload of 2^32 bytes or more: a client
   *  cannot read such a frame back. */
  lemma OversizedPayloadMisframed(payload: seq<Byte>, rest: seq<Byte>)
    requires |payload| >= U32_LIMIT
    ensures ReadFrame(CacheFrame(payload) + rest) != Some((payload, rest))
  {
    var s := CacheFrame(payload) + rest;
    assert s[..4] == CacheFrame(payload)[..4];
  }

  /** A client reading frames until its stream is used up. */
  function ReadFrames(stream: seq<Byte>): Option<seq<seq<Byte>>>
    decreases |stream|
  {
    if stream == [] then Some([])
    else
      match ReadFrame(stream)
      case None => None
      case Some((p, rest)) =>
        match ReadFrames(rest)
        case None => None
        case Some(ps) => Some([p] + ps)
  }

  /** Reading a frame does not look past its end. */
  lemma ReadFrameExtends(a: seq<Byte>, b: seq<Byte>)
    requires ReadFrame(a).Some?
    ensures ReadFrame(a + b) == Some((ReadFrame(a).value.0, ReadFrame(a).value.1 + b))
  {
    var n := LeValue(a[..4]);
    assert (a + b)[..4] == a[..4];
    assert (a + b)[4..4 + n] == a[4..4 + n];
    assert (a + b)[4 + n..] == a[4 + n..] + b;
  }

  /** Two streams that each read as whole frames read, one after the other, as all of
   *  their frames in order. */
  lemma {:induction false} ReadFramesAppend(a: seq<Byte>, b: seq<Byte>)
    requires ReadFrames(a).Some? && ReadFrames(b).Some?
    ensures ReadFrames(a + b) == Some(ReadFrames(a).value + ReadFrames(b).value)
    decreases |a|
  {
    if a == [] {
      assert a + b == b;
      assert ReadFrames(a).value == [];
      assert ReadFrames(a).value + ReadFrames(b).value == ReadFrames(b).value;
    } else {
      var (p, rest) := ReadFrame(a).value;
      ReadFrameExtends(a, b);
      ReadFramesAppend(rest, b);
      assert ReadFrames(a).value == [p] + ReadFrames(rest).value;
      AppendAssoc([p], ReadFrames(rest).value, ReadFrames(b).value);
    }
  }

  /** The bytes a client that misses no write receives for these payloads, in order. */
  function FrameStream(payloads: seq<seq<Byte>>): seq<Byte>
  {
    if payloads == [] then [] else CacheFrame(payloads[0]) + FrameStream(payloads[1..])
  }

  /** A client reads back every payload, in order, from the frames of payloads shorter
   *  than 2^32 bytes. */
  lemma {:induction false} ReadFramesOfStream(payloads: seq<seq<Byte>>)
    requires forall p :: p in payloads ==> |p| < U32_LIMIT
    ensures ReadFrames(FrameStream(payloads)) == Some(payloads)
  {
    if payloads != [] {
      var rest := FrameStream(payloads[1..]);
      CacheFrameRoundTrip(payloads[0], rest);
      ReadFramesOfStream(payloads[1..]);
      assert payloads == [payloads[0]] + payloads[1..];
    }
  }

  /** What a pass sends for one message: nothing when `bcs` fails, else its frame. */
  function FrameOf(message: CacheBroadcastMessage, bcs: Bcs): Option<seq<Byte>>
  {
    match bcs(message.objects)
    case None => None
    case Some(payload) => Some(CacheFrame(payload))
  }

  function PassFrames(messages: seq<CacheBroadcastMessage>, bcs: Bcs): seq<Option<seq<Byte>>>
  {
    if messages == [] then [] else [FrameOf(messages[0], bcs)] + PassFrames(messages[1..], bcs)
  }

  /** The payloads of the messages `bcs` encodes, in queue order. */
  function Payloads(messages: seq<CacheBroadcastMessage>, bcs: Bcs): seq<seq<Byte>>
  {
    if messages == [] then []
    else
      (match bcs(messages[0].objects) case None => [] case Some(p) => [p]) + Payloads(messages[1..], bcs)
  }

  lemma {:induction false} SentFramesAreStream(messages: seq<CacheBroadcastMessage>, bcs: Bcs)
    ensures Flatten(Present(PassFrames(messages, bcs))) == FrameStream(Payloads(messages, bcs))
  {
    if messages != [] {
      SentFramesAreStream(messages[1..], bcs);
      var frames := PassFrames(messages, bcs);
      assert frames[1..] == PassFrames(messages[1..], bcs);
      match bcs(messages[0].objects)
      case None =>
        assert Present(frames) == Present(frames[1..]);
        assert Payloads(messages, bcs) == Payloads(messages[1..], bcs);
      case Some(p) =>
        assert Present(frames) == [CacheFrame(p)] + Present(frames[1..]);
        assert Payloads(messages, bcs) == [p] + Payloads(messages[1..], bcs);
    }
  }

  /** End to end: a client still connected once the queue is drained, whose earlier
   *  bytes read as whole frames, can read every encoded message of the queue after
   *  them, in queue order. */
  lemma ConnectedClientReadsEveryMessage(st: Sockets, messages: seq<CacheBroadcastMessage>, bcs: Bcs,
                                         budgets: nat -> ConnId -> nat, c: ConnId, earlier: seq<seq<Byte>>)
    requires WellFormed(st) && c in st.conns
    requires c in Drain(st, PassFrames(messages, bcs), budgets, 0).conns
    requires ReadFrames(st.received[c]) == Some(earlier)
    requires forall p :: p in Payloads(messages, bcs) ==> |p| < U32_LIMIT
    ensures ReadFrames(Drain(st, PassFrames(messages, bcs), budgets, 0).received[c])
         == Some(earlier + Payloads(messages, bcs))
  {
    DrainDeliversInOrder(st, PassFrames(messages, bcs), budgets, 0, c);
    SentFramesAreStream(messages, bcs);
    ReadFramesOfStream(Payloads(messages, bcs));
    ReadFramesAppend(st.received[c], FrameStream(Payloads(messages, bcs)));
  }

  /** The handler: the shared connection list and the sending half of the unbounded
   *  channel to the broadcast task. */
  class CacheUpdateHandler {
    /** `connections`, shared with the accept task and the broadcast task. */
    const connections: ConnectionList
    /** Messages sent on the channel that the broadcast task has not received yet. */
    var queue: seq<CacheBroadcastMessage>
    /** The broadcast task has stopped: its receiver is gone. */
    var closed: bool

    ghost predicate Valid()
      reads this, connections
    {
      && connections.Valid()
      && (closed ==> queue == [])
    }

    /** `new()` without the socket setup: no client, an empty channel, a running task. */
    constructor ()
      ensures Valid() && fresh(connections)
      ensures connections.conns == [] && connections.received == map[]
      ensures queue == [] && !closed
    {
      connections := new ConnectionList();
      queue := [];
      closed := false;
    }

    /** `queue_for_broadcast`: appends one message, or fails once the task has stopped. */
    method QueueForBroadcast(objects: seq<(ObjectId, Object)>) returns (r: Outcome)
      requires Valid()
      modifies this`queue
      ensures Valid()
      ensures r == if closed then Err(STOPPED) else Ok
      ensures queue == if closed then old(queue) else old(queue) + [CacheBroadcastMessage(objects)]
    {
      if closed {
        return Err(STOPPED);
      }
      queue := queue + [CacheBroadcastMessage(objects)];
      r := Ok;
    }

    /** `notify_written`: queues the objects and ignores a failure. */
    method NotifyWritten(objects: seq<(ObjectId, Object)>)
      requires Valid()
      modifies this`queue
      ensures Valid()
      ensures queue == if closed then old(queue) else old(queue) + [CacheBroadcastMessage(objects)]
    {
      var _ := QueueForBroadcast(objects);
    }

    /** The broadcast task ends and drops its receiver, with whatever it still held. */
    method BroadcastTaskStopped()
      requires Valid()
      modifies this`queue, this`closed
      ensures Valid()
      ensures closed && queue == []
    {
      closed := true;
      queue := [];
    }

    /** One turn of `accept_connections_loop`: a stream that `accept` returns is pushed
     *  at the end of the list; an accept error is only logged. */
    method Accept(accepted: bool) returns (c: Option<ConnId>)
      requires Valid()
      modifies connections
      ensures Valid()
      ensures accepted ==> c.Some? && c.value !in old(connections.received)
      ensures accepted ==> connections.conns == old(connections.conns) + [c.value]
      ensures accepted ==> connections.received == old(connections.received)[c.value := []]
      ensures !accepted ==> c == None && connections.State() == old(connections.State())
    {
      if !accepted {
        return None;
      }
      var id := connections.Push();
      c := Some(id);
    }

    /** `send_to_connection`: the length bytes, then the payload, each with `write_all`;
     *  the first error ends the attempt. */
    static method SendToConnection(connections: ConnectionList, c: ConnId, lenBytes: seq<Byte>,
                                   serialized: seq<Byte>, room: nat) returns (ok: bool)
      requires c in connections.received
      modifies connections`received
      ensures ok <==> |lenBytes| + |serialized| <= room
      ensures connections.received
           == old(connections.received)[c := old(connections.received)[c] + Sent(room, lenBytes + serialized)]
    {
      SentConcat(room, lenBytes, serialized);
      var left;
      ok, left := connections.WriteAll(c, lenBytes, room);
      if !ok {
        return;
      }
      ok, left := connections.WriteAll(c, serialized, left);
      AppendAssoc(old(connections.received)[c], lenBytes, Sent(room - |lenBytes|, serialized));
    }

    /** The pop loop of `send_to_all_connections`: every stream is popped off the back
     *  of the list and written `lenBytes` then `serialized`; the ones whose writes all
     *  returned Ok are pushed onto `active`, which is returned. */
    static method WriteEachPopped(connections: ConnectionList, lenBytes: seq<Byte>, serialized: seq<Byte>,
                                  budget: ConnId -> nat) returns (active: seq<ConnId>)
      requires WellFormed(connections.State())
      modifies connections`conns, connections`received
      ensures connections.conns == []
      ensures active == Survivors(old(connections.conns), budget, |lenBytes + serialized|)
      ensures connections.received
           == Deliver(old(connections.received), old(connections.conns), budget, lenBytes + serialized)
    {
      ghost var frame := lenBytes + serialized;
      ghost var initial := connections.conns;
      ghost var before := connections.received;
      active := [];
      while connections.conns != []
        invariant connections.conns == initial[..|connections.conns|]
        invariant active == Survivors(initial[|connections.conns|..], budget, |frame|)
        invariant connections.received == Deliver(before, initial[|connections.conns|..], budget, frame)
        decreases |connections.conns|
      {
        var k := |connections.conns| - 1;
        var conn := connections.conns[k];
        assert conn == initial[k] && conn in connections.received;
        connections.conns := connections.conns[..k];
        var result := SendToConnection(connections, conn, lenBytes, serialized, budget(conn));
        if result {
          active := active + [conn];
        }
        assert active == Survivors(initial[k..], budget, |frame|) by {
          PopSurvivors(initial, k, budget, |frame|);
        }
        assert connections.received == Deliver(before, initial[k..], budget, frame) by {
          PopDeliver(initial, k, before, budget, frame);
        }
      }
      assert initial[0..] == initial;
    }

    /** `send_to_all_connections`: one broadcast pass for `message`. */
    static method SendToAllConnections(message: CacheBroadcastMessage, connections: ConnectionList,
                                       bcs: Bcs, budget: ConnId -> nat)
      requires connections.Valid()
      modifies connections`conns, connections`received
      ensures connections.Valid()
      ensures connections.State() == Pass(old(connections.State()), FrameOf(message, bcs), budget)
    {
      var serialized := bcs(message.objects);
      if serialized.None? {
        return;
      }
      var payload := serialized.value;
      var lenBytes := LeU32(|payload|);
      var activeConns := WriteEachPopped(connections, lenBytes, payload, budget);
      connections.conns := activeConns;
      PassKeepsNames(old(connections.State()), lenBytes + payload, budget, connections.nextId);
      assert FrameOf(message, bcs) == Some(lenBytes + payload);
    }

    /** One turn of `broadcast_loop`: the oldest queued message gets one full pass. */
    method BroadcastOne(bcs: Bcs, budget: ConnId -> nat) returns (sent: bool)
      requires Valid()
      modifies this`queue, connections
      ensures Valid() && connections.nextId == old(connections.nextId)
      ensures sent <==> old(queue) != []
      ensures sent ==> queue == old(queue)[1..]
      ensures sent ==> connections.State() == Pass(old(connections.State()), FrameOf(old(queue)[0], bcs), budget)
      ensures !sent ==> queue == old(queue) && connections.State() == old(connections.State())
    {
      if queue == [] {
        return false;
      }
      var message := queue[0];
      queue := queue[1..];
      SendToAllConnections(message, connections, bcs, budget);
      sent := true;
    }

    /** `broadcast_loop` until the channel is empty: every queued message, oldest first,
     *  gets its own pass; pass `k` is answered by `budgets(k)`. */
    method BroadcastLoop(bcs: Bcs, budgets: nat -> ConnId -> nat)
      requires Valid()
      modifies this`queue, connections
      ensures Valid() && queue == []
      ensures connections.State() == Drain(old(connections.State()), PassFrames(old(queue), bcs), budgets, 0)
    {
      var k := 0;
      while queue != []
        invariant Valid()
        invariant Drain(connections.State(), PassFrames(queue, bcs), budgets, k)
               == Drain(old(connections.State()), PassFrames(old(queue), bcs), budgets, 0)
        decreases |queue|
      {
        var _ := BroadcastOne(bcs, budgets(k));
        k := k + 1;
      }
    }

    /** `connection_count`: the list's length, or 0 when the lock is held elsewhere. */
    method ConnectionCount(locked: bool) returns (n: nat)
      ensures locked ==> n == 0
      ensures !locked ==> n == |connections.conns|
    {
      n := if locked then 0 else |connections.conns|;
    }
  }
}
