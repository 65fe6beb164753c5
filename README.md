# Cache-update and transaction broadcasters, modelled in Dafny

This project models two sibling broadcasters from `sui-core`. Each one pushes data to
clients connected on a local socket.

- `CacheUpdateHandler` (`cache_update_handler.rs`) receives lists of written objects.
  For each list it sends one frame: the `bcs` payload after its length, written as a
  4-byte little-endian `u32`.
- `TxHandler` (`tx_handler.rs`) receives transaction effects and their events. For each
  transaction it sends one frame in four parts:
  - the effects length, as a big-endian `u32`;
  - the `bincode` effects;
  - the events length, as a big-endian `u32`;
  - the `serde_json` events.

The two handlers share one design. A caller puts a message on an unbounded channel.
A broadcast task takes messages off in FIFO order and makes one pass per message:
1. It serializes the message. If that fails, the message is skipped.
2. It pops every stream off the back of the shared connection list.
3. It writes the frame to each stream with `write_all`, stopping at the first error.
4. It puts back only the streams whose writes all succeeded. Because they were popped
   from the back, they come back in reverse order.

An accept task appends every newly accepted stream to the end of the list.

The files:

- `basics.dfy`: `Option`, `Outcome` (the `anyhow::Result<()>` of the queueing calls),
  and sequence helpers (`Reverse`, `Flatten`, `Distinct`).
- `wire.dfy` holds the byte-level pieces:
  - the truncating `as u32` cast;
  - `to_le_bytes` and `to_be_bytes` with their inverses;
  - `Sent`, which gives what a peer receives from one `write_all`.
- `connections.dfy` holds the shared connection list (`Arc<Mutex<Vec<Stream>>>`):
  - a class `ConnectionList`, whose `Push` and `WriteAll` change it in place;
  - a value-level specification of one pass (`Survivors`, `Deliver`, `Pass`) and of a
    sequence of passes (`Drain`).
- `cache_update.dfy` and `tx_broadcast.dfy` hold the two handlers:
  - the frame each one writes;
  - a client-side reader of that frame, used to state the round-trip properties;
  - the handler class, with its queue and its broadcast methods.

How the environment is modelled:

- The serializers are function-valued parameters that return `None` where the library
  returns `Err`.
- Whether a write succeeds comes from an oracle, `budget: ConnId -> nat`. It gives the
  number of bytes a stream still takes, during this pass, before a `write_all` on it
  fails. Only writes that eventually return are covered; see "Blocking writes" under
  "Left out".
- The peers' transcripts are kept as ghost state. This lets the proofs say what each
  client actually received.

## Model

| member | source | states |
|---|---|---|
| Wire.AsU32 | crates/sui-core/src/cache_update_handler.rs:179 | `len as u32` is the length modulo 2^32: unchanged below 2^32, and different from the length at 2^32 or more |
| Wire.LeU32 | crates/sui-core/src/cache_update_handler.rs:179-180 | `to_le_bytes` of the cast length is 4 bytes whose little-endian value is the length mod 2^32, and exactly the length when it fits |
| Wire.BeU32 | crates/sui-core/src/tx_handler.rs:158-159 | `to_be_bytes` of a cast length is 4 bytes whose big-endian value is the length mod 2^32, and exactly the length when it fits |
| Wire.LeValueOfBytes | crates/sui-core/src/cache_update_handler.rs:180 | decoding the little-endian bytes of a value that fits gives the value back |
| Wire.LeBytesOfValue | crates/sui-core/src/cache_update_handler.rs:180 | every little-endian byte string is the encoding of its decoded value |
| Wire.BeValueOfBytes | crates/sui-core/src/tx_handler.rs:158-159 | decoding the big-endian bytes of a value that fits gives the value back |
| Wire.BeBytesOfValue | crates/sui-core/src/tx_handler.rs:158-159 | every big-endian byte string is the encoding of its decoded value |
| Wire.Sent | crates/sui-core/src/cache_update_handler.rs:202-203 | a peer receives a prefix of the buffer, and all of it exactly when the call succeeds |
| Wire.SentConcat | crates/sui-core/src/cache_update_handler.rs:202-203 | two `write_all`s chained with `?` deliver what one `write_all` of the concatenation would |
| Wire.SentStops | crates/sui-core/src/tx_handler.rs:190-193 | when a later `write_all` of a chain fails, the peer has the earlier pieces and a prefix of the failing one, the same as a single write of the whole frame |
| Connections.Survivors | crates/sui-core/src/cache_update_handler.rs:182-193 | the list assigned back holds only streams from the old list, is no longer than it, and keeps them distinct |
| Connections.SurvivorsAreReversedKeepers | crates/sui-core/src/cache_update_handler.rs:183-193 | the rebuilt list is the in-order list of the successful streams, reversed |
| Connections.SurvivorsExactly | crates/sui-core/src/cache_update_handler.rs:186-193 | a stream is kept exactly when its writes all succeed; the count never grows, and stays the same only when every write succeeds |
| Connections.TwoFullPassesRestoreOrder | crates/sui-core/src/cache_update_handler.rs:183-193 | when every write succeeds, each pass reverses the list, so two passes restore the original order |
| Connections.KeepersMembership | crates/sui-core/src/tx_handler.rs:174-176 | the streams whose four writes all succeed are exactly the ones with room for the whole frame |
| Connections.KeepersLength | crates/sui-core/src/tx_handler.rs:161-179 | the successful streams number as many as the list exactly when every stream has room for the frame |
| Connections.Pass | crates/sui-core/src/cache_update_handler.rs:169-194 | with no frame (a serializer failed) nothing changes; a pass never grows the list, never adds a stream, leaves unlisted transcripts alone and keeps the list well formed |
| Connections.PassSplitsClients | crates/sui-core/src/cache_update_handler.rs:186-205 | a listed stream stays listed exactly when its peer received the whole frame; a dropped stream's peer received a strict prefix of it |
| Connections.Drain | crates/sui-core/src/cache_update_handler.rs:163-165 | one pass per queued message, in queue order; transcripts keep their keys and the list only shrinks |
| Connections.DrainDeliversInOrder | crates/sui-core/src/cache_update_handler.rs:163-165 | a stream still listed after the queue is drained received every frame sent, in FIFO order, after its earlier bytes |
| Connections.ConnectionList.Push | crates/sui-core/src/cache_update_handler.rs:148-149 | a new stream goes at the end of the list with an empty transcript; existing entries are unchanged |
| Connections.ConnectionList.WriteAll | crates/sui-core/src/cache_update_handler.rs:202 | `write_all` succeeds exactly when the buffer fits the stream's remaining room, and appends what was sent to that stream's transcript only |
| CacheUpdate.CacheFrame | crates/sui-core/src/cache_update_handler.rs:179-180 | the frame is 4 + payload-length bytes: a little-endian prefix worth the length mod 2^32, then the payload |
| CacheUpdate.CacheFrameRoundTrip | crates/sui-core/src/cache_update_handler.rs:130-132 | a client reads back exactly the payload, and whatever follows, from a frame whose payload is under 2^32 bytes |
| CacheUpdate.ReadFrameSound | crates/sui-core/src/cache_update_handler.rs:130-132 | anything a client reads as a frame is the frame of what it read |
| CacheUpdate.OversizedPayloadMisframed | crates/sui-core/src/cache_update_handler.rs:179 | the `as u32` truncation makes a payload of 2^32 bytes or more unreadable as sent |
| CacheUpdate.ReadFramesAppend | crates/sui-core/src/cache_update_handler.rs:163-165 | streams of whole frames read, one after another, as their frames in order |
| CacheUpdate.ReadFramesOfStream | crates/sui-core/src/cache_update_handler.rs:163-165 | back-to-back frames of payloads under 2^32 bytes read back as those payloads in order |
| CacheUpdate.SentFramesAreStream | crates/sui-core/src/cache_update_handler.rs:174-177 | the frames of a queue are the frames of exactly the payloads `bcs` encodes; a message it fails on sends nothing |
| CacheUpdate.ConnectedClientReadsEveryMessage | crates/sui-core/src/cache_update_handler.rs:159-193 | a client still connected after the queue drains reads every encoded message, in queue order, after what it read before |
| CacheUpdate.CacheUpdateHandler.constructor | crates/sui-core/src/cache_update_handler.rs:88-113 | no clients, an empty channel and a running broadcast task |
| CacheUpdate.CacheUpdateHandler.QueueForBroadcast | crates/sui-core/src/cache_update_handler.rs:117-126 | appends exactly one message, or returns "Broadcast task has stopped" and appends nothing once the receiver is gone |
| CacheUpdate.CacheUpdateHandler.NotifyWritten | crates/sui-core/src/cache_update_handler.rs:134-136 | queues like `queue_for_broadcast` and discards its error |
| CacheUpdate.CacheUpdateHandler.BroadcastTaskStopped | crates/sui-core/src/cache_update_handler.rs:122-123 | the receiver is dropped: the handler is marked stopped and undelivered messages are discarded, so every later `queue_for_broadcast` fails |
| CacheUpdate.CacheUpdateHandler.Accept | crates/sui-core/src/cache_update_handler.rs:144-155 | an accepted stream is appended with a fresh name; an accept error changes nothing |
| CacheUpdate.CacheUpdateHandler.SendToConnection | crates/sui-core/src/cache_update_handler.rs:197-205 | succeeds exactly when the whole frame fits; the peer receives what a single write of the frame would deliver |
| CacheUpdate.CacheUpdateHandler.WriteEachPopped | crates/sui-core/src/cache_update_handler.rs:182-191 | the pop loop empties the list, returns the survivors in pop order and writes the frame to every popped stream |
| CacheUpdate.CacheUpdateHandler.SendToAllConnections | crates/sui-core/src/cache_update_handler.rs:169-194 | one pass equals the specification `Pass`, and the list stays valid |
| CacheUpdate.CacheUpdateHandler.BroadcastOne | crates/sui-core/src/cache_update_handler.rs:163-165 | the oldest queued message is removed and gets one full pass; an empty queue changes nothing |
| CacheUpdate.CacheUpdateHandler.BroadcastLoop | crates/sui-core/src/cache_update_handler.rs:159-166 | draining the queue equals `Drain` over the queued messages in FIFO order |
| CacheUpdate.CacheUpdateHandler.ConnectionCount | crates/sui-core/src/cache_update_handler.rs:208-211 | the list's length when the lock is free, 0 when it is held |
| TxBroadcast.TxFrame | crates/sui-core/src/tx_handler.rs:158-159 | the frame is 8 + effects-length + events-length bytes: a big-endian length mod 2^32, the effects, a big-endian length mod 2^32, the events |
| TxBroadcast.TxFrameRoundTrip | crates/sui-core/src/tx_handler.rs:99-103 | a client reads back both sections, and whatever follows, from a frame whose sections are under 2^32 bytes |
| TxBroadcast.ReadTxFrameSound | crates/sui-core/src/tx_handler.rs:99-103 | anything a client reads as a frame is the frame of the sections it read |
| TxBroadcast.OversizedSectionMisframed | crates/sui-core/src/tx_handler.rs:158-159 | a section of 2^32 bytes or more makes the frame unreadable as sent |
| TxBroadcast.ReadTxFramesAppend | crates/sui-core/src/tx_handler.rs:137-139 | streams of whole frames read, one after another, as their transactions in order |
| TxBroadcast.ReadTxFramesOfStream | crates/sui-core/src/tx_handler.rs:137-139 | back-to-back frames of sections under 2^32 bytes read back as those transactions in order |
| TxBroadcast.Serialize | crates/sui-core/src/tx_handler.rs:148-156 | a message is sent exactly when both `bincode` and `serde_json` succeed, and then with exactly their outputs |
| TxBroadcast.SentFramesAreStream | crates/sui-core/src/tx_handler.rs:148-156 | the frames of a queue are the frames of exactly the messages both serializers encode |
| TxBroadcast.ConnectedClientReadsEveryTransaction | crates/sui-core/src/tx_handler.rs:133-179 | a client still connected after the queue drains reads every encoded transaction, in queue order, after what it read before |
| TxBroadcast.TxHandler.constructor | crates/sui-core/src/tx_handler.rs:54-76 | no clients, an empty channel and a running broadcast task |
| TxBroadcast.TxHandler.QueueForBroadcast | crates/sui-core/src/tx_handler.rs:80-94 | appends exactly one message, or returns "Broadcast task has stopped" and appends nothing once the receiver is gone |
| TxBroadcast.TxHandler.SendTxEffectsAndEvents | crates/sui-core/src/tx_handler.rs:107-113 | behaves exactly like `queue_for_broadcast` and hands back its outcome |
| TxBroadcast.TxHandler.BroadcastTaskStopped | crates/sui-core/src/tx_handler.rs:90-91 | the receiver is dropped: the handler is marked stopped and undelivered messages are discarded, so every later `queue_for_broadcast` fails |
| TxBroadcast.TxHandler.Accept | crates/sui-core/src/tx_handler.rs:120-128 | an accepted stream is appended with a fresh name; an accept error (`continue`) changes nothing |
| TxBroadcast.TxHandler.SendToConnection | crates/sui-core/src/tx_handler.rs:183-195 | succeeds exactly when all four pieces fit; the peer receives what a single write of the frame would deliver, so a failure stops the remaining writes |
| TxBroadcast.TxHandler.WriteEachPopped | crates/sui-core/src/tx_handler.rs:161-177 | the pop loop empties the list, returns the survivors in pop order and writes the frame to every popped stream |
| TxBroadcast.TxHandler.SendToAllConnections | crates/sui-core/src/tx_handler.rs:143-180 | one pass equals the specification `Pass` for the four-part frame (nothing when either serializer fails), and the list stays valid |
| TxBroadcast.TxHandler.BroadcastOne | crates/sui-core/src/tx_handler.rs:137-139 | the oldest queued message is removed and gets one full pass; an empty queue changes nothing |
| TxBroadcast.TxHandler.BroadcastLoop | crates/sui-core/src/tx_handler.rs:133-140 | draining the queue equals `Drain` over the queued messages in FIFO order |
| TxBroadcast.TxHandler.ConnectionCount | crates/sui-core/src/tx_handler.rs:198-201 | the list's length when the lock is free, 0 when it is held |

## Left out

- Socket and filesystem setup, and `Default`. Some of these steps panic:
  - `CacheUpdateHandler::new` panics when the socket is already in use
    (cache_update_handler.rs:69-71) and when binding fails (cache_update_handler.rs:82-84);
  - `TxHandler::new` panics, through its two `expect`s, on an invalid socket name and
    when binding fails (tx_handler.rs:49-53).

  The others only log their errors or ignore them:
  - a failure to create the socket directory is logged (cache_update_handler.rs:63-65);
  - a failure to remove a stale socket file is logged as a warning
    (cache_update_handler.rs:76-78) or ignored (tx_handler.rs:47).

  The stale-socket probe (cache_update_handler.rs:40-56) only returns whether something
  is listening. The constructors start from the state these steps leave behind when
  they do not panic.
- Dropping a handler. Both `Drop` impls remove the socket file and only log or ignore a
  failure (cache_update_handler.rs:224-231; tx_handler.rs:41). Two effects of a drop are
  not modelled:
  - `CacheUpdateHandler`'s `Drop` clears `running` (cache_update_handler.rs:222), so its
    accept loop stops at its next check;
  - dropping either handler drops the channel's sender, so `broadcast_loop` sends
    everything still queued and then ends.
- Concurrency: task spawning, the mutex, and the `running` flag. Each accept and each
  broadcast pass is modelled as one atomic step. The accept loop and the broadcast loop
  are not interleaved, and contention for the lock appears only as the `locked` argument
  of `ConnectionCount`.
- Logging (`info!`, `warn!`, `error!`). It has no effect on behaviour.
- The internals of `bcs`, `bincode` and `serde_json`. They are parameters, and the
  object, effects and event types are opaque stand-ins.
- The byte transport. A stream is only a name plus the bytes its peer has received. The
  `budget` oracle describes only writes that eventually return, successfully or with an
  error.
- Blocking writes. In the code, a peer that stops reading does not make `write_all` fail
  (cache_update_handler.rs:202-203; tx_handler.rs:190-193), and no timeout is set. The
  pass then waits forever while it holds the connection lock
  (cache_update_handler.rs:182-193; tx_handler.rs:161-179). Meanwhile every accept waits
  for that lock (cache_update_handler.rs:148; tx_handler.rs:128), and `connection_count`
  returns 0 (cache_update_handler.rs:210; tx_handler.rs:200). The model has no time and
  treats each pass as atomic, so it does not capture this stall.
- CacheUpdate.CacheUpdateHandler.BroadcastLoop: returns once the channel is empty instead
  of waiting for the next message. The waiting is concurrency.
- TxBroadcast.TxHandler.BroadcastLoop: returns once the channel is empty instead of
  waiting for the next message, for the same reason.
- TxBroadcast.Serialize: the events are serialized only after the effects succeed, but
  the serializers are pure here, so that order has no observable effect.
- Neither source file contains health-check code, so none is modelled.
