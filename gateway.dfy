/**
 * The gateway's mutable state and the operations that change it: the client registry, the
 * bounded update queue with its drop-oldest enqueue, the two id counters, the per-session read
 * loop, the broadcasting `SendMessage`, and `Close`. Everything runs sequentially here; the
 * outcome of each socket write is an input.
 */
module Gateway {
  import opened Base
  import opened Types
  import opened Inbound
  import opened Outbound
  import UpdateQueue
  import Util

  /** An accepted websocket session: whether its transport is still open, and the replies written to it so far. */
  class Conn {
    var open: bool
    var received: seq<OutboundPayload>

    constructor ()
      ensures open && received == []
    {
      open := true;
      received := [];
    }
  }

  datatype SendError = NilParams

  predicate Distinct<T(==)>(s: seq<T>) {
    forall i, j | 0 <= i < j < |s| :: s[i] != s[j]
  }

  /** One more frame of a read loop: the queue after the longer run is the queue after the shorter one plus that frame's update. */
  lemma RunEnqueueStep(q: seq<Update>, ds: seq<Decoded>, clock: seq<Int64>, c: Counters, i: nat)
    requires |q| <= UpdateQueue.Capacity && |clock| == |ds| && i < |ds|
    ensures var prev := Run(ds[..i], clock[..i], c);
      var o := Step(ds[i], clock[i], prev.counters);
      var next := Run(ds[..i + 1], clock[..i + 1], c);
      && next.counters == o.counters
      && UpdateQueue.EnqueueAll(q, next.updates) ==
           if o.update.Some? then UpdateQueue.Enqueue(UpdateQueue.EnqueueAll(q, prev.updates), o.update.value)
           else UpdateQueue.EnqueueAll(q, prev.updates)
  {
    RunAppend(ds, clock, c, i);
    var prev := Run(ds[..i], clock[..i], c);
    var o := Step(ds[i], clock[i], prev.counters);
    if o.update.Some? {
      UpdateQueue.EnqueueAllAppend(q, prev.updates, o.update.value);
    } else {
      assert prev.updates + [] == prev.updates;
    }
  }

  class Bot {
    /** The registry of connected sessions. */
    var clients: set<Conn>
    /** The update channel's buffer, oldest first, and whether the channel has been closed. */
    var updates: seq<Update>
    var updatesClosed: bool
    var nextUpdID: Int64
    var nextMsgID: Int64
    /** Every id drawn so far from each counter, in the order drawn. */
    ghost var updIDsIssued: seq<Int64>
    ghost var msgIDsIssued: seq<Int64>

    /** The queue is within capacity, and the k-th id drawn from a counter is the counter's value after k increments. */
    ghost predicate Valid()
      reads this
    {
      && |updates| <= UpdateQueue.Capacity
      && nextUpdID == CounterAfter(|updIDsIssued|)
      && (forall k | 0 <= k < |updIDsIssued| :: updIDsIssued[k] == CounterAfter(k + 1))
      && nextMsgID == CounterAfter(|msgIDsIssued|)
      && (forall k | 0 <= k < |msgIDsIssued| :: msgIDsIssued[k] == CounterAfter(k + 1))
    }

    function CounterState(): Counters
      reads this
    {
      Counters(nextUpdID, nextMsgID)
    }

    /** `NewBot`: an empty registry and queue and both counters at 0. The token is ignored. */
    constructor (token: string)
      ensures Valid() && clients == {} && updates == [] && !updatesClosed
      ensures nextUpdID == 0 && nextMsgID == 0 && updIDsIssued == [] && msgIDsIssued == []
    {
      clients := {};
      updates := [];
      updatesClosed := false;
      nextUpdID := 0;
      nextMsgID := 0;
      updIDsIssued := [];
      msgIDsIssued := [];
    }

    /**
     * Every update id issued is distinct from every other, and they increase until the counter
     * wraps; message ids, drawn by both the read loop and `SendMessage`, are pairwise distinct
     * for the first 2^64 draws.
     */
    lemma IssuedIDsDistinct()
      requires Valid()
      ensures |updIDsIssued| <= MaxInt64 ==>
                forall i, j | 0 <= i < j < |updIDsIssued| :: updIDsIssued[i] < updIDsIssued[j]
      ensures |msgIDsIssued| < TwoTo64 ==>
                forall i, j | 0 <= i < j < |msgIDsIssued| :: msgIDsIssued[i] != msgIDsIssued[j]
    {
      forall i, j | 0 <= i < j < |updIDsIssued| && |updIDsIssued| <= MaxInt64
        ensures updIDsIssued[i] < updIDsIssued[j]
      {
        CounterAfterIncreasing(i + 1, j + 1);
      }
      forall i, j | 0 <= i < j < |msgIDsIssued| && |msgIDsIssued| < TwoTo64
        ensures msgIDsIssued[i] != msgIDsIssued[j]
      {
        CounterAfterInjective(i + 1, j + 1);
      }
    }

    /** `addClient`: the handle joins the registry. */
    method AddClient(conn: Conn)
      requires Valid()
      modifies this`clients
      ensures Valid()
      ensures clients == old(clients) + {conn}
    {
      clients := clients + {conn};
    }

    /** `removeClient`: the handle leaves the registry (if it was there) and its transport is closed. */
    method RemoveClient(conn: Conn)
      requires Valid()
      modifies this`clients, conn`open
      ensures Valid()
      ensures clients == old(clients) - {conn}
      ensures !conn.open
    {
      clients := clients - {conn};
      conn.open := false;
    }

    /**
     * `drainOneUpdate`: a non-blocking receive. It takes the oldest update if there is one; on an
     * empty queue it fails and changes nothing, unless the channel is closed, where the receive succeeds.
     */
    method DrainOneUpdate() returns (ok: bool)
      requires Valid()
      modifies this`updates
      ensures Valid()
      ensures ok <==> old(updates) != [] || updatesClosed
      ensures updates == if old(updates) != [] then old(updates)[1..] else old(updates)
    {
      if updates != [] {
        updates := updates[1..];
        ok := true;
      } else {
        ok := updatesClosed;
      }
    }

    /** The non-blocking send of an update: when the queue is full the oldest update is drained first. */
    method Push(u: Update)
      requires Valid() && !updatesClosed
      modifies this`updates
      ensures Valid()
      ensures updates == UpdateQueue.Enqueue(old(updates), u)
    {
      if |updates| < UpdateQueue.Capacity {
        updates := updates + [u];
      } else {
        var drained := DrainOneUpdate();
        updates := updates + [u];
      }
    }

    /** `atomic.AddInt64(&b.nextUpdID, 1)`. */
    method NextUpdateID() returns (id: Int64)
      requires Valid()
      modifies this`nextUpdID, this`updIDsIssued
      ensures Valid()
      ensures id == AddOne(old(nextUpdID)) && nextUpdID == id
      ensures updIDsIssued == old(updIDsIssued) + [id]
    {
      nextUpdID := AddOne(nextUpdID);
      id := nextUpdID;
      updIDsIssued := updIDsIssued + [id];
    }

    /** `atomic.AddInt64(&b.nextMsgID, 1)`. */
    method NextMessageID() returns (id: Int64)
      requires Valid()
      modifies this`nextMsgID, this`msgIDsIssued
      ensures Valid()
      ensures id == AddOne(old(nextMsgID)) && nextMsgID == id
      ensures msgIDsIssued == old(msgIDsIssued) + [id]
    {
      nextMsgID := AddOne(nextMsgID);
      id := nextMsgID;
      msgIDsIssued := msgIDsIssued + [id];
    }

    /**
     * The body of the read loop for one frame read at clock reading `now`: the new counters and
     * queue are those of `Step`, and the ids it drew are recorded as issued.
     */
    method HandleFrame(d: Decoded, now: Int64)
      requires Valid() && (!updatesClosed || Classify(d) == IgnoredFrame)
      modifies this`updates, this`nextUpdID, this`nextMsgID, this`updIDsIssued, this`msgIDsIssued
      ensures Valid()
      ensures var r := Step(d, now, old(CounterState()));
        && CounterState() == r.counters
        && updates == (if r.update.Some? then UpdateQueue.Enqueue(old(updates), r.update.value) else old(updates))
        && updIDsIssued == old(updIDsIssued) + (if r.update.Some? then [nextUpdID] else [])
        && msgIDsIssued == old(msgIDsIssued) + (if nextMsgID != old(nextMsgID) then [nextMsgID] else [])
    {
      match d {
        case Malformed =>
        case Parsed(f) =>
          if f.callbackData != "" {
            var updID := NextUpdateID();
            Push(CallbackUpdate(f, updID, now));
          } else if f.text != "" {
            var msgID := Util.ParseToInt64(f.messageID);
            if msgID == 0 {
              msgID := NextMessageID();
            }
            var updID := NextUpdateID();
            Push(TextUpdate(f, updID, msgID));
          }
      }
    }

    /**
     * The frame loop of `readLoop`: the frames one session reads until its socket fails, with
     * the clock reading at each. The queue ends as if every update of `Run` had been enqueued
     * in frame order, and the counters end as `Run` leaves them.
     */
    method HandleFrames(frames: seq<Decoded>, clock: seq<Int64>)
      requires Valid() && |clock| == |frames|
      requires !updatesClosed || forall i | 0 <= i < |frames| :: Classify(frames[i]) == IgnoredFrame
      modifies this`updates, this`nextUpdID, this`nextMsgID, this`updIDsIssued, this`msgIDsIssued
      ensures Valid()
      ensures var r := Run(frames, clock, old(CounterState()));
        && updates == UpdateQueue.EnqueueAll(old(updates), r.updates)
        && CounterState() == r.counters
    {
      var i := 0;
      while i < |frames|
        invariant 0 <= i <= |frames|
        invariant Valid()
        invariant var r := Run(frames[..i], clock[..i], old(CounterState()));
          && updates == UpdateQueue.EnqueueAll(old(updates), r.updates)
          && CounterState() == r.counters
      {
        RunEnqueueStep(old(updates), frames, clock, old(CounterState()), i);
        assert !updatesClosed || Classify(frames[i]) == IgnoredFrame;
        HandleFrame(frames[i], clock[i]);
        i := i + 1;
      }
      assert frames[..i] == frames && clock[..i] == clock;
    }

    /**
     * `readLoop` on one session: its frames are handled in order, and the session is then
     * removed from the registry and closed. A loop still reading after `Close` has closed the
     * channel can only have met frames that yield no update, so it leaves queue and counters alone.
     */
    method ReadLoop(conn: Conn, frames: seq<Decoded>, clock: seq<Int64>)
      requires Valid() && |clock| == |frames|
      requires !updatesClosed || forall i | 0 <= i < |frames| :: Classify(frames[i]) == IgnoredFrame
      modifies this`updates, this`nextUpdID, this`nextMsgID, this`updIDsIssued, this`msgIDsIssued
      modifies this`clients, conn`open
      ensures Valid()
      ensures var r := Run(frames, clock, old(CounterState()));
        && updates == UpdateQueue.EnqueueAll(old(updates), r.updates)
        && CounterState() == r.counters
      ensures old(updatesClosed) ==> updates == old(updates) && CounterState() == old(CounterState())
      ensures clients == old(clients) - {conn} && !conn.open
    {
      HandleFrames(frames, clock);
      if updatesClosed {
        RunOfIgnoredFrames(frames, clock, old(CounterState()));
      }
      RemoveClient(conn);
    }

    /** The registry snapshot: every registered session exactly once, in some order. */
    method Snapshot() returns (conns: seq<Conn>)
      ensures Distinct(conns)
      ensures forall c :: c in conns <==> c in clients
    {
      conns := [];
      var rest := clients;
      while rest != {}
        invariant rest <= clients
        invariant forall c :: c in conns <==> c in clients && c !in rest
        invariant Distinct(conns)
        decreases rest
      {
        var c :| c in rest;
        conns := conns + [c];
        rest := rest - {c};
      }
    }

    /**
     * The write loop of `SendMessage`: each snapshot session is written to; one whose write
     * fails (it is in `writeFails`) is removed from the registry and closed, every other one receives `out`.
     */
    method Broadcast(conns: seq<Conn>, out: OutboundPayload, writeFails: set<Conn>)
      requires Valid() && Distinct(conns)
      modifies this`clients, conns
      ensures Valid()
      ensures forall c :: c in clients <==> c in old(clients) && !(c in conns && c in writeFails)
      ensures forall c | c in conns ::
                if c in writeFails then !c.open && c.received == old(c.received)
                else c.open == old(c.open) && c.received == old(c.received) + [out]
    {
      var i := 0;
      while i < |conns|
        invariant 0 <= i <= |conns|
        invariant Valid()
        invariant forall c :: c in clients <==> c in old(clients) && !(c in conns[..i] && c in writeFails)
        invariant forall k | 0 <= k < i ::
                    if conns[k] in writeFails then !conns[k].open && conns[k].received == old(conns[k].received)
                    else conns[k].open == old(conns[k].open) && conns[k].received == old(conns[k].received) + [out]
        invariant forall k | i <= k < |conns| ::
                    conns[k].open == old(conns[k].open) && conns[k].received == old(conns[k].received)
      {
        var c := conns[i];
        if c in writeFails {
          RemoveClient(c);
        } else {
          c.received := c.received + [out];
        }
        assert conns[..i + 1] == conns[..i] + [c];
        i := i + 1;
      }
      assert conns[..i] == conns;
    }

    /**
     * `SendMessage`. Nil parameters are an error with no effect. Otherwise a message id is drawn
     * from the counter the read loop shares, the message is returned without error whatever the
     * writes do, every registered session is written the reply, and each one whose write failed
     * is removed and closed.
     */
    method SendMessage(params: Option<SendMessageParams>, writeFails: set<Conn>) returns (r: Result<Message, SendError>)
      requires Valid()
      modifies this`nextMsgID, this`msgIDsIssued, this`clients, clients
      ensures Valid()
      ensures params.None? ==>
                && r == Err(NilParams)
                && nextMsgID == old(nextMsgID) && msgIDsIssued == old(msgIDsIssued)
                && clients == old(clients)
                && forall c | c in old(clients) :: c.open == old(c.open) && c.received == old(c.received)
      ensures params.Some? ==>
                var id := AddOne(old(nextMsgID));
                && r == Ok(SentMessage(params.value, id))
                && nextMsgID == id && msgIDsIssued == old(msgIDsIssued) + [id]
                && clients == old(clients) - writeFails
                && forall c | c in old(clients) ::
                     if c in writeFails then !c.open && c.received == old(c.received)
                     else c.open == old(c.open) && c.received == old(c.received) + [Payload(params.value, id)]
    {
      if params.None? {
        return Err(NilParams);
      }
      var p := params.value;
      var msgID := NextMessageID();
      var message := SentMessage(p, msgID);
      var out := Payload(p, msgID);
      var conns := Snapshot();
      if |conns| == 0 {
        return Ok(message);
      }
      Broadcast(conns, out, writeFails);
      return Ok(message);
    }

    /** `AnswerCallbackQuery`: acknowledged and not forwarded anywhere; it always succeeds and changes nothing. */
    method AnswerCallbackQuery(callbackID: string, text: string) returns (err: Option<string>)
      ensures err == None
    {
      err := None;
    }

    /**
     * `Close`: every registered session is closed, the registry is emptied and the update
     * channel is closed; updates still buffered stay readable. Closing twice panics in Go, hence the precondition.
     */
    method Close()
      requires Valid() && !updatesClosed
      modifies this`clients, this`updatesClosed, clients
      ensures Valid()
      ensures clients == {} && updatesClosed
      ensures forall c | c in old(clients) :: !c.open && c.received == old(c.received)
    {
      var rest := clients;
      while rest != {}
        invariant rest <= clients && clients == old(clients)
        invariant forall c | c in old(clients) && c !in rest :: !c.open
        invariant forall c | c in old(clients) :: c.received == old(c.received)
        decreases rest
      {
        var c :| c in rest;
        c.open := false;
        rest := rest - {c};
      }
      clients := {};
      updatesClosed := true;
    }
  }
}
