/** The camera session object: its fields are updated in place, one method per critical section, and
    every method does exactly the step of FramePipeline that carries its name. What those steps keep,
    in any interleaving, is proved there; the requires clauses here are that module's guards. */
module CameraSessions {
  import opened Optional
  import opened FramePipeline

  class CameraSession {
    const limit: nat
    const tolerance: nat
    var requests: map<Ticket, Request>
    var pending: seq<Ticket>
    var scheduled: map<nat, Ticket>
    var hand: Hand
    var jobs: seq<Delivery>
    var encoding: Option<Delivery>
    var depth: nat
    var stopping: bool
    var armed: set<Ticket>
    var log: seq<Settlement>
    var nextTicket: nat
    ghost var accepted: seq<Delivery>
    ghost var encoded: seq<Delivery>
    ghost var abandoned: nat

    ghost function View(): Session
      reads this
    {
      Session(limit, tolerance, requests, pending, scheduled, hand, jobs, encoding, depth, stopping,
              armed, accepted, log, encoded, abandoned)
    }

    constructor (limit: nat, tolerance: nat)
      ensures View() == Init(limit, tolerance) && nextTicket == |accepted|
    {
      this.limit, this.tolerance := limit, tolerance;
      requests, pending, scheduled := map[], [], map[];
      hand, jobs, encoding, depth, stopping, armed, log := Idle, [], None, 0, false, {}, [];
      nextTicket, accepted, encoded, abandoned := 0, [], [], 0;
    }

    /** Joins the request that a weak pointer of the schedule still reaches. */
    method JoinShared(existing: Ticket, d: Delivery)
      requires nextTicket == |accepted|
      modifies this
      ensures View() == Join(old(View()), existing, d) && nextTicket == |accepted|
    {
      if existing in requests {
        var shared := requests[existing];
        requests := requests[existing := shared.(aliases := shared.aliases + [d])];
        if shared.armed {
          armed := armed + {d.ticket};
        }
      }
      depth, nextTicket, accepted := depth + 1, nextTicket + 1, accepted + [d];
    }

    /** Stores a request for its device time; an expired entry for that time is erased first. */
    method Schedule(d: Delivery)
      modifies this`scheduled
      ensures scheduled == old(scheduled)[d.expected := d.ticket]
    {
      scheduled := scheduled - {d.expected};
      scheduled := scheduled[d.expected := d.ticket];
      assert scheduled == old(scheduled)[d.expected := d.ticket];
    }

    /** One caller more in the pipeline. */
    method CountCaller(d: Delivery)
      requires nextTicket == |accepted|
      modifies this`depth, this`nextTicket, this`accepted
      ensures depth == old(depth) + 1 && accepted == old(accepted) + [d] && nextTicket == |accepted|
    {
      depth, nextTicket, accepted := depth + 1, nextTicket + 1, accepted + [d];
    }

    method Push(d: Delivery, metering: bool)
      requires nextTicket == |accepted|
      modifies this`requests, this`pending, this`scheduled, this`depth, this`nextTicket, this`accepted
      ensures View() == Enqueue(old(View()), d, metering) && nextTicket == |accepted|
    {
      requests := requests[d.ticket := FramePipeline.Request(d, metering, [], false)];
      pending := pending + [d.ticket];
      if d.expected != 0 && !metering {
        Schedule(d);
      }
      CountCaller(d);
    }

    /** Under the request lock. `taken` is false when the caller gets no completion back. */
    method RequestFrame(ready: bool, expected: nat, metering: bool, chunks: bool) returns (taken: bool)
      requires nextTicket == |accepted|
      modifies this
      ensures View() == Submit(old(View()), ready, expected, metering, chunks)
      ensures nextTicket == |accepted| == |old(accepted)| + OneIf(taken)
      ensures taken <==> ready && old(depth) < limit
    {
      if !ready || depth >= limit {
        return false;
      }
      var d := Delivery(nextTicket, expected, chunks);
      taken := true;
      if expected != 0 && !metering && expected in scheduled {
        var existing := scheduled[expected];
        if existing in requests || (!hand.Idle? && hand.id == existing) {
          JoinShared(existing, d);
          return;
        }
      }
      Push(d, metering);
    }

    /** The worker takes the oldest request. */
    method PopRequest()
      requires hand.Idle? && pending != []
      modifies this
      ensures View() == Popped(old(View()))
    {
      hand, pending := Open(pending[0]), pending[1..];
    }

    /** Marks every completion of the request in hand as armed. */
    method ArmRequest()
      requires hand.Open? && hand.id in requests
      modifies this
      ensures View() == Armed(old(View()))
    {
      var request := requests[hand.id];
      var parts := Parts(request);
      var told: set<Ticket> := {};
      for i := 0 to |parts|
        invariant told == Tickets(parts[..i])
      {
        assert parts[..i + 1] == parts[..i] + [parts[i]];
        told := told + {parts[i].ticket};
      }
      assert parts[..|parts|] == parts;
      armed := armed + told;
      requests := requests[hand.id := request.(armed := true)];
    }

    /** The schedule after close_deliveries of the request in hand. */
    method Unscheduled(id: Ticket) returns (left: map<nat, Ticket>)
      requires id in requests
      ensures left == CloseScheduled(View(), id)
    {
      var t := requests[id].first.expected;
      left := scheduled;
      if t != 0 && t in scheduled {
        var shared := scheduled[t];
        if shared == id || !(shared in requests || (!hand.Idle? && hand.id == shared)) {
          left := scheduled - {t};
        }
      }
    }

    /** Takes the request in hand off the schedule and lists everybody who joined it. */
    method CloseDeliveries() returns (deliveries: seq<Delivery>)
      requires hand.Open? && hand.id in requests
      modifies this`scheduled, this`requests
      ensures deliveries == Parts(old(requests)[hand.id])
      ensures requests == old(requests) - {hand.id} && scheduled == CloseScheduled(old(View()), hand.id)
    {
      deliveries := Parts(requests[hand.id]);
      var left := Unscheduled(hand.id);
      scheduled, requests := left, requests - {hand.id};
    }

    /** The frame matched: nobody can join this request any more. */
    method CloseMatched(deviceTime: nat)
      requires hand.Open? && hand.id in requests
      modifies this
      ensures View() == FrameClosed(old(View()), deviceTime)
    {
      var metering := requests[hand.id].metering;
      var deliveries := CloseDeliveries();
      hand := Closed(hand.id, metering, deliveries, deviceTime);
    }

    /** Sets the outcome of every completion in the list, first to last. */
    method SettleAll(deliveries: seq<Delivery>, outcome: Outcome)
      modifies this`log
      ensures log == old(log) + Settle(deliveries, outcome)
    {
      for i := 0 to |deliveries|
        invariant log == old(log) + Settle(deliveries[..i], outcome)
      {
        log := log + [Settlement(deliveries[i], outcome)];
      }
      assert deliveries[..|deliveries|] == deliveries;
    }

    /** The catch block of the worker: every caller of the request in hand is told the failure. */
    method FailRequest()
      requires (hand.Open? && hand.id in requests) || hand.Closed?
      modifies this`hand, this`scheduled, this`requests, this`log, this`depth
      ensures View() == if old(hand).Closed? then Fail(old(View()), old(hand).all) else FailedOpen(old(View()))
    {
      var deliveries;
      if hand.Closed? {
        deliveries := hand.all;
      } else {
        deliveries := CloseDeliveries();
      }
      SettleAll(deliveries, Failure);
      depth := Less(depth, |deliveries|);
      hand := Idle;
    }

    /** The image was read out of the buffer. */
    method ConvertImage()
      requires hand.Closed?
      modifies this
      ensures View() == Converted(old(View()))
    {
      if hand.metering {
        SettleAll(hand.all, Success(hand.deviceTime));
        depth := Less(depth, 1);
        hand := Idle;
      } else {
        hand := Settling(hand.id, hand.all, hand.deviceTime);
      }
    }

    /** One turn of the delivery loop. */
    method Deliver()
      requires hand.Settling?
      modifies this
      ensures View() == Delivered(old(View()))
    {
      if hand.rest == [] {
        hand := Idle;
        return;
      }
      var delivery := hand.rest[0];
      if delivery.chunks {
        jobs := jobs + [delivery];
      } else {
        depth := Less(depth, 1);
      }
      SettleAll([delivery], Success(hand.deviceTime));
      hand := hand.(rest := hand.rest[1..]);
    }

    method StartEncoding()
      requires encoding.None? && jobs != []
      modifies this
      ensures View() == EncodeStarted(old(View()))
    {
      encoding, jobs := Some(jobs[0]), jobs[1..];
    }

    /** Published or failed, the job leaves the pipeline. */
    method FinishEncoding()
      requires encoding.Some? && depth > 0
      modifies this
      ensures View() == EncodeEnded(old(View()))
    {
      encoded := encoded + [encoding.value];
      encoding, depth := None, depth - 1;
    }

    lemma SettleConcat(a: seq<Delivery>, b: seq<Delivery>, outcome: Outcome)
      ensures Settle(a, outcome) + Settle(b, outcome) == Settle(a + b, outcome)
    {
    }

    /** Delivers to everybody left, first to last. */
    method DeliverAll()
      requires hand.Settling?
      modifies this
      ensures hand.Idle? && requests == old(requests) && pending == old(pending)
      ensures log == old(log) + Settle(old(hand).rest, Success(old(hand).deviceTime))
    {
      ghost var all := log + Settle(hand.rest, Success(hand.deviceTime));
      while hand.Settling?
        invariant hand.Settling? || hand.Idle?
        invariant hand.Settling? ==> all == log + Settle(hand.rest, Success(hand.deviceTime))
        invariant hand.Idle? ==> all == log
        invariant requests == old(requests) && pending == old(pending)
        decreases if hand.Settling? then |hand.rest| + 1 else 0
      {
        ghost var rest, time := hand.rest, hand.deviceTime;
        Deliver();
        if rest != [] {
          assert rest == [rest[0]] + rest[1..];
          SettleConcat([rest[0]], rest[1..], Success(time));
        }
      }
    }

    /** One turn of the worker loop that no caller interrupts: the oldest request is taken, and everybody who
        joined it is told the same outcome, the requester first. `frame` is the matched device time, if a
        frame was matched, and `converts` whether its image could be read. */
    method ServeNext(frame: Option<nat>, converts: bool)
      requires hand.Idle? && pending != [] && pending[0] in requests
      modifies this
      ensures hand.Idle? && pending == old(pending)[1..] && requests == old(requests) - {old(pending)[0]}
      ensures var outcome := if frame.Some? && converts then Success(frame.value) else Failure;
              log == old(log) + Settle(Parts(old(requests)[old(pending)[0]]), outcome)
    {
      PopRequest();
      ArmRequest();
      if frame.None? {
        FailRequest();
        return;
      }
      CloseMatched(frame.value);
      if !converts {
        FailRequest();
        return;
      }
      ConvertImage();
      if hand.Settling? {
        DeliverAll();
      }
    }

    /** One turn of the encoder loop. */
    method EncodeNext()
      requires encoding.None? && jobs != [] && depth > 0
      modifies this
      ensures jobs == old(jobs)[1..] && encoded == old(encoded) + [old(jobs)[0]] && depth == old(depth) - 1
    {
      StartEncoding();
      FinishEncoding();
    }

    /** The queue from one request on: that request's callers first. */
    lemma QueueUnfolds(queue: seq<Ticket>, open: map<Ticket, Request>, i: nat)
      requires i < |queue| && forall id :: id in queue ==> id in open
      ensures queue[i] in open && (forall id :: id in queue[i..] ==> id in open)
      ensures forall id :: id in queue[i + 1..] ==> id in open
      ensures Stopping(queue[i..], open) == Parts(open[queue[i]]) + Stopping(queue[i + 1..], open)
    {
      assert queue[i] in queue && queue[i..][1..] == queue[i + 1..];
    }

    lemma OneTold(before: seq<Settlement>, told: seq<Delivery>, parts: seq<Delivery>, rest: seq<Delivery>)
      ensures before + Settle(told, Stopped) + Settle(parts, Stopped) == before + Settle(told + parts, Stopped)
      ensures told + (parts + rest) == (told + parts) + rest
    {
      SettleConcat(told, parts, Stopped);
    }

    /** Everybody still queued is told that the session stopped. */
    method StopPending(queue: seq<Ticket>, open: map<Ticket, Request>) returns (ghost told: seq<Delivery>)
      requires forall id :: id in queue ==> id in open
      modifies this`log
      ensures told == Stopping(queue, open) && log == old(log) + Settle(told, Stopped)
    {
      told := [];
      ghost var rest := Stopping(queue, open);
      for i := 0 to |queue|
        invariant forall id :: id in queue[i..] ==> id in open
        invariant rest == Stopping(queue[i..], open) && told + rest == Stopping(queue, open)
        invariant log == old(log) + Settle(told, Stopped)
      {
        QueueUnfolds(queue, open, i);
        var parts := Parts(open[queue[i]]);
        rest := Stopping(queue[i + 1..], open);
        OneTold(old(log), told, parts, rest);
        SettleAll(parts, Stopped);
        told := told + parts;
      }
    }

    method ClearQueue()
      modifies this`requests, this`pending, this`scheduled
      ensures requests == map id | id in old(requests) && id !in old(pending) :: old(requests)[id]
      ensures pending == [] && scheduled == map[]
    {
      requests := map id | id in requests && id !in pending :: requests[id];
      pending, scheduled := [], map[];
    }

    /** Raises the stop flag and answers everybody in the queue. */
    method AnnounceStop()
      requires forall id :: id in pending ==> id in requests
      modifies this`stopping, this`log, this`abandoned
      ensures var s := old(View()); var told := Stopping(s.pending, s.requests);
              View() == s.(stopping := true, log := s.log + Settle(told, Stopped), abandoned := |told|)
    {
      stopping := true;
      ghost var told := StopPending(pending, requests);
      abandoned := |told|;
    }

    method Stop()
      requires forall id :: id in pending ==> id in requests
      modifies this`stopping, this`log, this`abandoned, this`requests, this`pending, this`scheduled
      ensures View() == ShutDown(old(View()))
    {
      AnnounceStop();
      ClearQueue();
    }
  }
}
