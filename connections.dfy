/** The connection list both broadcasters share between their accept task and their
 *  broadcast task (`Arc<Mutex<Vec<Stream>>>`), and the pure specification of one
 *  broadcast pass over it: every listed stream is written the frame, and the list is
 *  rebuilt from the streams whose writes all returned Ok.
 *
 *  Each stream is named by a `ConnId`. The outcome of the writes comes from an oracle
 *  `budget`: `budget(c)` is the number of bytes stream `c` takes during the pass before
 *  a write on it fails. */
module Connections {
  import opened Basics
  import opened Wire

  type ConnId = nat

  /** The connection list together with every byte each stream's peer has received. */
  datatype Sockets = Sockets(conns: seq<ConnId>, received: map<ConnId, seq<Byte>>)

  /** No stream is listed twice, and every listed stream has a transcript. */
  predicate WellFormed(st: Sockets)
  {
    && Distinct(st.conns)
    && forall c :: c in st.conns ==> c in st.received
  }

  /** The list a pass assigns back. The pass pops streams from the back of the list and
   *  pushes the ones it keeps onto a fresh list, so the last stream comes first. */
  function Survivors(conns: seq<ConnId>, budget: ConnId -> nat, need: nat): (r: seq<ConnId>)
    ensures |r| <= |conns|
    ensures forall c :: c in r ==> c in conns
    ensures Distinct(conns) ==> Distinct(r)
  {
    if conns == [] then []
    else
      var init, c := conns[..|conns| - 1], conns[|conns| - 1];
      var rest := Survivors(init, budget, need);
      assert Distinct(conns) ==> Distinct(init) && c !in rest;
      (if need <= budget(c) then [c] else []) + rest
  }

  /** The streams that take `need` bytes, in list order: the reference Survivors is
   *  checked against. */
  function Keepers(conns: seq<ConnId>, budget: ConnId -> nat, need: nat): (r: seq<ConnId>)
    ensures |r| <= |conns|
  {
    if conns == [] then []
    else (if need <= budget(conns[0]) then [conns[0]] else []) + Keepers(conns[1..], budget, need)
  }

  lemma {:induction false} KeepersAppend(a: seq<ConnId>, b: seq<ConnId>, budget: ConnId -> nat, need: nat)
    ensures Keepers(a + b, budget, need) == Keepers(a, budget, need) + Keepers(b, budget, need)
  {
    if a == [] {
      assert a + b == b;
    } else {
      var head := if need <= budget(a[0]) then [a[0]] else [];
      assert (a + b)[0] == a[0] && (a + b)[1..] == a[1..] + b;
      assert Keepers(a + b, budget, need) == head + Keepers(a[1..] + b, budget, need);
      KeepersAppend(a[1..], b, budget, need);
      assert Keepers(a, budget, need) == head + Keepers(a[1..], budget, need);
    }
  }

  /** A stream is kept exactly when it was listed and took the whole frame. */
  lemma {:induction false} KeepersMembership(conns: seq<ConnId>, budget: ConnId -> nat, need: nat, c: ConnId)
    ensures c in Keepers(conns, budget, need) <==> c in conns && need <= budget(c)
  {
    if conns != [] {
      KeepersMembership(conns[1..], budget, need, c);
      assert conns == [conns[0]] + conns[1..];
    }
  }

  /** Keepers drops no stream that takes the frame and keeps no other one: its length
   *  is the list's exactly when every stream takes the frame. */
  lemma {:induction false} KeepersLength(conns: seq<ConnId>, budget: ConnId -> nat, need: nat)
    ensures |Keepers(conns, budget, need)| == |conns| <==> forall c :: c in conns ==> need <= budget(c)
  {
    if conns != [] {
      KeepersLength(conns[1..], budget, need);
      assert conns == [conns[0]] + conns[1..];
    }
  }

  lemma {:induction false} KeepersDistinct(conns: seq<ConnId>, budget: ConnId -> nat, need: nat)
    requires Distinct(conns)
    ensures Distinct(Keepers(conns, budget, need))
  {
    if conns != [] {
      var rest := Keepers(conns[1..], budget, need);
      assert Distinct(conns[1..]);
      KeepersDistinct(conns[1..], budget, need);
      KeepersMembership(conns[1..], budget, need, conns[0]);
      assert conns[0] !in conns[1..];
    }
  }

  /** The list a pass leaves is the kept streams in reverse of their prior order. */
  lemma {:induction false} SurvivorsAreReversedKeepers(conns: seq<ConnId>, budget: ConnId -> nat, need: nat)
    ensures Survivors(conns, budget, need) == Reverse(Keepers(conns, budget, need))
  {
    if conns != [] {
      var init, c := conns[..|conns| - 1], conns[|conns| - 1];
      var kept := if need <= budget(c) then [c] else [];
      assert Survivors(conns, budget, need) == kept + Survivors(init, budget, need);
      assert Keepers(conns, budget, need) == Keepers(init, budget, need) + kept by {
        assert conns == init + [c];
        KeepersAppend(init, [c], budget, need);
        assert Keepers([c], budget, need) == kept + Keepers([], budget, need);
      }
      SurvivorsAreReversedKeepers(init, budget, need);
      ReverseAppend(Keepers(init, budget, need), kept);
      assert Reverse(kept) == kept;
    }
  }

  /** After a pass the list holds exactly the listed streams that took the whole frame,
   *  each once, and it is never longer than before. */
  lemma SurvivorsExactly(conns: seq<ConnId>, budget: ConnId -> nat, need: nat)
    requires Distinct(conns)
    ensures forall c :: c in Survivors(conns, budget, need) <==> c in conns && need <= budget(c)
    ensures Distinct(Survivors(conns, budget, need))
    ensures |Survivors(conns, budget, need)| <= |conns|
    ensures |Survivors(conns, budget, need)| == |conns| <==> forall c :: c in conns ==> need <= budget(c)
  {
    SurvivorsAreReversedKeepers(conns, budget, need);
    KeepersDistinct(conns, budget, need);
    ReverseDistinct(Keepers(conns, budget, need));
    KeepersLength(conns, budget, need);
    forall c ensures c in Survivors(conns, budget, need) <==> c in conns && need <= budget(c) {
      ReverseMembership(Keepers(conns, budget, need), c);
      KeepersMembership(conns, budget, need, c);
    }
  }

  /** Two passes in which every stream takes the frame give back the original order. */
  lemma TwoFullPassesRestoreOrder(conns: seq<ConnId>, budget: ConnId -> nat, need: nat)
    requires forall c :: c in conns ==> need <= budget(c)
    ensures Survivors(Survivors(conns, budget, need), budget, need) == conns
  {
    var once := Survivors(conns, budget, need);
    SurvivorsAreReversedKeepers(conns, budget, need);
    KeepersLength(conns, budget, need);
    KeepersExact(conns, budget, need);
    assert once == Reverse(conns);
    SurvivorsAreReversedKeepers(once, budget, need);
    forall c | c in once ensures need <= budget(c) {
      ReverseMembership(conns, c);
    }
    KeepersExact(once, budget, need);
    ReverseReverse(conns);
  }

  lemma {:induction false} KeepersExact(conns: seq<ConnId>, budget: ConnId -> nat, need: nat)
    requires forall c :: c in conns ==> need <= budget(c)
    ensures Keepers(conns, budget, need) == conns
  {
    if conns != [] {
      KeepersExact(conns[1..], budget, need);
      assert conns == [conns[0]] + conns[1..];
    }
  }

  /** The pop order, one step at a time: taking the stream in front of `s` last. */
  lemma SurvivorsPrepend(c: ConnId, s: seq<ConnId>, budget: ConnId -> nat, need: nat)
    ensures Survivors([c] + s, budget, need) == Survivors(s, budget, need) + (if need <= budget(c) then [c] else [])
  {
    var kept := if need <= budget(c) then [c] else [];
    SurvivorsAreReversedKeepers([c] + s, budget, need);
    SurvivorsAreReversedKeepers(s, budget, need);
    assert ([c] + s)[1..] == s;
    assert Keepers([c] + s, budget, need) == kept + Keepers(s, budget, need);
    ReverseAppend(kept, Keepers(s, budget, need));
    assert Reverse(kept) == kept;
  }

  /** Every byte each listed stream's peer has received after the frame is written to
   *  every listed stream once. */
  function Deliver(received: map<ConnId, seq<Byte>>, conns: seq<ConnId>, budget: ConnId -> nat, frame: seq<Byte>): (r: map<ConnId, seq<Byte>>)
    ensures r.Keys == received.Keys
  {
    map c | c in received :: if c in conns then received[c] + Sent(budget(c), frame) else received[c]
  }

  lemma DeliverPrepend(received: map<ConnId, seq<Byte>>, c: ConnId, s: seq<ConnId>, budget: ConnId -> nat, frame: seq<Byte>)
    requires c in received && c !in s
    ensures Deliver(received, [c] + s, budget, frame)
         == Deliver(received, s, budget, frame)[c := received[c] + Sent(budget(c), frame)]
  {
  }

  /** One step of the pop loop on the list: popping `conns[k]` after `conns[k + 1..]`. */
  lemma PopSurvivors(conns: seq<ConnId>, k: nat, budget: ConnId -> nat, need: nat)
    requires k < |conns|
    ensures Survivors(conns[k..], budget, need)
         == Survivors(conns[k + 1..], budget, need) + (if need <= budget(conns[k]) then [conns[k]] else [])
  {
    assert conns[k..] == [conns[k]] + conns[k + 1..];
    SurvivorsPrepend(conns[k], conns[k + 1..], budget, need);
  }

  /** One step of the pop loop on the transcripts: writing to `conns[k]` after `conns[k + 1..]`. */
  lemma PopDeliver(conns: seq<ConnId>, k: nat, received: map<ConnId, seq<Byte>>, budget: ConnId -> nat, frame: seq<Byte>)
    requires Distinct(conns) && k < |conns| && conns[k] in received
    ensures Deliver(received, conns[k..], budget, frame)
         == var done := Deliver(received, conns[k + 1..], budget, frame);
            done[conns[k] := done[conns[k]] + Sent(budget(conns[k]), frame)]
  {
    assert conns[k..] == [conns[k]] + conns[k + 1..];
    assert conns[k] !in conns[k + 1..];
    DeliverPrepend(received, conns[k], conns[k + 1..], budget, frame);
  }

  /** One broadcast pass on a value of the state: no frame (the serializer failed)
   *  changes nothing; otherwise every listed stream is written the frame and the list
   *  becomes the survivors. */
  function Pass(st: Sockets, frame: Option<seq<Byte>>, budget: ConnId -> nat): (r: Sockets)
    ensures frame.None? ==> r == st
    ensures r.received.Keys == st.received.Keys
    ensures forall c :: c in st.received && c !in st.conns ==> r.received[c] == st.received[c]
    ensures |r.conns| <= |st.conns|
    ensures forall c :: c in r.conns ==> c in st.conns
    ensures WellFormed(st) ==> WellFormed(r)
  {
    match frame
    case None => st
    case Some(f) => Sockets(Survivors(st.conns, budget, |f|), Deliver(st.received, st.conns, budget, f))
  }

  /** A pass that writes frame `f` keeps the connection list's invariant, with the
   *  same bound on stream names. */
  lemma PassKeepsNames(st: Sockets, f: seq<Byte>, budget: ConnId -> nat, nextId: ConnId)
    requires WellFormed(st) && forall c :: c in st.received ==> c < nextId
    ensures var after := Sockets(Survivors(st.conns, budget, |f|), Deliver(st.received, st.conns, budget, f));
      && after == Pass(st, Some(f), budget)
      && WellFormed(after)
      && forall c :: c in after.received ==> c < nextId
  {
  }

  /** The heart of the pass: a listed stream stays listed exactly when its peer got the
   *  whole frame; a stream that is dropped got a strict prefix of it (possibly none). */
  lemma PassSplitsClients(st: Sockets, f: seq<Byte>, budget: ConnId -> nat, c: ConnId)
    requires WellFormed(st) && c in st.conns
    ensures var after := Pass(st, Some(f), budget);
      && c in after.received
      && st.received[c] <= after.received[c]
      && (c in after.conns <==> after.received[c] == st.received[c] + f)
      && (c !in after.conns ==> after.received[c][|st.received[c]|..] < f)
  {
    var after := Pass(st, Some(f), budget);
    SurvivorsExactly(st.conns, budget, |f|);
    var got := Sent(budget(c), f);
    assert after.received[c] == st.received[c] + got;
    assert after.received[c][|st.received[c]|..] == got;
  }

  /** The broadcast task's work on a queue of frames, one pass per message in queue
   *  order; pass `k` is answered by `budgets(k)`. */
  function Drain(st: Sockets, frames: seq<Option<seq<Byte>>>, budgets: nat -> ConnId -> nat, k: nat): (r: Sockets)
    ensures r.received.Keys == st.received.Keys
    ensures |r.conns| <= |st.conns|
    ensures forall c :: c in r.conns ==> c in st.conns
    ensures WellFormed(st) ==> WellFormed(r)
    decreases |frames|
  {
    if frames == [] then st else Drain(Pass(st, frames[0], budgets(k)), frames[1..], budgets, k + 1)
  }

  /** The frames that are actually sent, in order. */
  function Present(frames: seq<Option<seq<Byte>>>): seq<seq<Byte>>
  {
    if frames == [] then []
    else (if frames[0].Some? then [frames[0].value] else []) + Present(frames[1..])
  }

  /** A stream still listed after the queue is drained was listed all along and has
   *  received every frame that was sent, whole and in queue order. */
  lemma {:induction false} DrainDeliversInOrder(st: Sockets, frames: seq<Option<seq<Byte>>>, budgets: nat -> ConnId -> nat, k: nat, c: ConnId)
    requires WellFormed(st)
    requires c in Drain(st, frames, budgets, k).conns
    ensures c in st.conns
    ensures Drain(st, frames, budgets, k).received[c] == st.received[c] + Flatten(Present(frames))
    decreases |frames|
  {
    if frames == [] {
      assert Flatten(Present(frames)) == [];
      assert Drain(st, frames, budgets, k) == st;
    } else {
      var next := Pass(st, frames[0], budgets(k));
      var last := Drain(next, frames[1..], budgets, k + 1);
      assert Drain(st, frames, budgets, k) == last;
      DrainDeliversInOrder(next, frames[1..], budgets, k + 1, c);
      var rest := Flatten(Present(frames[1..]));
      assert last.received[c] == next.received[c] + rest;
      if frames[0].Some? {
        var f := frames[0].value;
        PassSplitsClients(st, f, budgets(k), c);
        assert next.received[c] == st.received[c] + f;
        assert Present(frames) == [f] + Present(frames[1..]);
        assert Flatten(Present(frames)) == f + rest;
        assert last.received[c] == (st.received[c] + f) + rest;
        AppendAssoc(st.received[c], f, rest);
      } else {
        assert next == st;
        assert Present(frames) == Present(frames[1..]);
      }
    }
  }

  /** `Arc<Mutex<Vec<Stream>>>`: the list of connected streams, shared by the accept
   *  task and the broadcast task. The peers' transcripts are kept beside it. */
  class ConnectionList {
    /** The streams, in the order they are stored in the vector. */
    var conns: seq<ConnId>
    /** The next stream accepted gets this name; names are never reused. */
    var nextId: ConnId
    /** Every byte written to each stream accepted so far. */
    ghost var received: map<ConnId, seq<Byte>>

    ghost function State(): Sockets
      reads this
    {
      Sockets(conns, received)
    }

    ghost predicate Valid()
      reads this
    {
      && WellFormed(State())
      && forall c :: c in received ==> c < nextId
    }

    /** `Arc::new(Mutex::new(Vec::new()))`. */
    constructor ()
      ensures Valid()
      ensures conns == [] && received == map[]
    {
      conns := [];
      nextId := 0;
      received := map[];
    }

    /** `connections.push(stream)` for a newly accepted stream. */
    method Push() returns (c: ConnId)
      requires Valid()
      modifies this
      ensures Valid()
      ensures c !in old(received)
      ensures conns == old(conns) + [c]
      ensures received == old(received)[c := []]
    {
      c := nextId;
      assert c !in conns;
      conns := conns + [c];
      received := received[c := []];
      nextId := nextId + 1;
    }

    /** `stream.write_all(buf)` on stream `c`, which takes `room` more bytes before a
     *  write on it fails; `left` is what it still takes afterwards. */
    method WriteAll(c: ConnId, buf: seq<Byte>, room: nat) returns (ok: bool, left: nat)
      requires c in received
      modifies this`received
      ensures ok <==> |buf| <= room
      ensures ok ==> left == room - |buf|
      ensures received == old(received)[c := old(received)[c] + Sent(room, buf)]
    {
      ok := |buf| <= room;
      left := if ok then room - |buf| else 0;
      received := received[c := received[c] + Sent(room, buf)];
    }
  }
}
