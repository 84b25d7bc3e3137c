/**
 The bounded audit queue (internal/audit_queue.go): any number of producers, one writer, and a
 cancellation after which the writer drains the queue and exits.  The protocol is a state machine
 whose events interleave in any order.
 */
module AuditQueue {
  import opened Wrappers

  const CAPACITY := 1024

  // An offered record, and whether the queue took it.
  datatype Offer<R> = Offer(rec: R, accepted: bool)

  // Selecting and Draining wait at the two select statements; Writing is inside AppendAuditRecord.
  datatype Writer<R> = Selecting | Writing(item: R, draining: bool) | Draining | Exited

  datatype State<R> = State(
    queue: seq<R>,
    writer: Writer<R>,
    written: seq<R>,
    cancelled: bool,
    dropped: nat,
    warnings: nat,
    offers: seq<Offer<R>>)  // history

  datatype Event<R> = Enqueue(rec: R) | Cancel | Take | SeeDone | Finish | DrainTake | DrainEnd

  function Initial<R>(): State<R> {
    State([], Selecting, [], false, 0, 0, [])
  }

  // EnqueueAuditRecord: a send that never blocks
  function Send<R>(s: State<R>, rec: R): State<R> {
    if |s.queue| < CAPACITY then
      s.(queue := s.queue + [rec], offers := s.offers + [Offer(rec, true)])
    else
      var n := s.dropped + 1;
      s.(dropped := n, offers := s.offers + [Offer(rec, false)],
         warnings := if n == 1 || n % 100 == 0 then s.warnings + 1 else s.warnings)
  }

  // The state after an event, if the event can happen.
  function Step<R>(s: State<R>, e: Event<R>): Option<State<R>> {
    match e
    case Enqueue(rec) => Some(Send(s, rec))
    case Cancel => Some(s.(cancelled := true))
    case Take =>
      if s.writer.Selecting? && s.queue != [] then
        Some(s.(writer := Writing(s.queue[0], false), queue := s.queue[1..]))
      else None
    case SeeDone =>
      if s.writer.Selecting? && s.cancelled then Some(s.(writer := Draining)) else None
    case Finish =>
      if s.writer.Writing? then
        Some(s.(written := s.written + [s.writer.item], writer := if s.writer.draining then Draining else Selecting))
      else None
    case DrainTake =>
      if s.writer.Draining? && s.queue != [] then
        Some(s.(writer := Writing(s.queue[0], true), queue := s.queue[1..]))
      else None
    case DrainEnd =>
      if s.writer.Draining? && s.queue == [] then Some(s.(writer := Exited)) else None
  }

  // The queue, the drop counter and the writer's output as the code updates them.
  class Queue<R> {
    var queue: seq<R>
    var dropped: nat
    var warnings: nat
    var written: seq<R>
    ghost var offers: seq<Offer<R>>

    constructor ()
      ensures queue == [] && dropped == 0 && warnings == 0 && written == [] && offers == []
    {
      queue, dropped, warnings, written, offers := [], 0, 0, [], [];
    }

    // The state while the writer waits and nothing is cancelled; sending depends on neither.
    ghost function Observe(): State<R>
      reads this
    {
      State(queue, Selecting, written, false, dropped, warnings, offers)
    }

    method EnqueueAuditRecord(rec: R)
      modifies this
      ensures Observe() == Send(old(Observe()), rec)
    {
      if |queue| < CAPACITY {
        queue := queue + [rec];
        offers := offers + [Offer(rec, true)];
      } else {
        dropped := dropped + 1;
        offers := offers + [Offer(rec, false)];
        if dropped == 1 || dropped % 100 == 0 {
          warnings := warnings + 1;
        }
      }
    }

    // The writer's loop after cancellation, when no producer is left.
    method Drain()
      modifies this`queue, this`written
      ensures queue == [] && written == old(written) + old(queue)
    {
      while queue != []
        invariant written + queue == old(written) + old(queue)
        decreases |queue|
      {
        var item := queue[0];
        queue := queue[1..];
        written := written + [item];
      }
    }
  }

  // Some interleaving of events leads from one state to another.
  function Run<R>(s: State<R>, events: seq<Event<R>>): Option<State<R>> {
    if events == [] then Some(s)
    else
      match Run(s, events[..|events| - 1])
      case None => None
      case Some(t) => Step(t, events[|events| - 1])
  }

  // ---------- the invariant ----------

  function Accepted<R>(offers: seq<Offer<R>>): seq<R> {
    if offers == [] then []
    else
      var last := offers[|offers| - 1];
      Accepted(offers[..|offers| - 1]) + if last.accepted then [last.rec] else []
  }

  function InFlight<R>(s: State<R>): seq<R> {
    if s.writer.Writing? then [s.writer.item] else []
  }

  ghost predicate Inv<R>(s: State<R>) {
    // first in, first out, and nothing accepted is lost or duplicated
    s.written + InFlight(s) + s.queue == Accepted(s.offers) &&
    // every offer is accepted or counted as dropped
    |s.offers| == |Accepted(s.offers)| + s.dropped &&
    |s.queue| <= 1024 &&
    // the first drop and every hundredth one is logged
    s.warnings == (if s.dropped == 0 then 0 else 1) + s.dropped / 100 &&
    (s.writer.Draining? || s.writer.Exited? || (s.writer.Writing? && s.writer.draining) ==> s.cancelled)
  }

  lemma AcceptedSnoc<R>(offers: seq<Offer<R>>, o: Offer<R>)
    ensures Accepted(offers + [o]) == Accepted(offers) + if o.accepted then [o.rec] else []
  {
    assert (offers + [o])[..|offers|] == offers;
  }

  lemma SendKeepsInv<R>(s: State<R>, rec: R)
    requires Inv(s)
    ensures Inv(Send(s, rec))
  {
    hide Accepted;
    AcceptedSnoc(s.offers, Offer(rec, true));
    AcceptedSnoc(s.offers, Offer(rec, false));
  }

  lemma StepKeepsInv<R>(s: State<R>, e: Event<R>)
    requires Inv(s) && Step(s, e).Some?
    ensures Inv(Step(s, e).value)
  {
    hide Accepted;
    if e.Enqueue? {
      SendKeepsInv(s, e.rec);
    } else {
      var t := Step(s, e).value;
      assert t.written + InFlight(t) + t.queue == s.written + InFlight(s) + s.queue;
    }
  }

  // Every state of every interleaving satisfies the invariant.
  lemma {:induction false} RunKeepsInv<R>(s: State<R>, events: seq<Event<R>>)
    requires Inv(s) && Run(s, events).Some?
    ensures Inv(Run(s, events).value)
  {
    hide Inv, Step;
    if events != [] {
      var init := events[..|events| - 1];
      RunKeepsInv(s, init);
      StepKeepsInv(Run(s, init).value, events[|events| - 1]);
    }
  }

  lemma ReachableInv<R>(events: seq<Event<R>>)
    requires Run(Initial<R>(), events).Some?
    ensures Inv(Run(Initial<R>(), events).value)
  {
    RunKeepsInv(Initial<R>(), events);
  }

  // At the step where the writer exits, everything accepted so far has been written, in order.
  lemma ExitHasWrittenAll<R>(events: seq<Event<R>>)
    requires Run(Initial<R>(), events).Some?
    requires Step(Run(Initial<R>(), events).value, DrainEnd).Some?
    ensures
      var t := Step(Run(Initial<R>(), events).value, DrainEnd).value;
      t.writer.Exited? && t.cancelled && t.written == Accepted(t.offers)
  {
    ReachableInv(events);
  }

  // After the exit nothing is written any more; what is still accepted stays in the queue.
  lemma {:induction false} NothingWrittenAfterExit<R>(s: State<R>, events: seq<Event<R>>)
    requires s.writer.Exited? && Run(s, events).Some?
    ensures
      var t := Run(s, events).value;
      t.writer.Exited? && t.written == s.written && s.queue <= t.queue
  {
    if events != [] {
      var init := events[..|events| - 1];
      NothingWrittenAfterExit(s, init);
      var t := Run(s, init).value;
      assert Step(t, events[|events| - 1]).Some?;
    }
  }

  // Everything the producers offered in a run, and how often they met a full queue
  function Enqueued<R>(events: seq<Event<R>>): seq<R> {
    if events == [] then []
    else
      var last := events[|events| - 1];
      Enqueued(events[..|events| - 1]) + if last.Enqueue? then [last.rec] else []
  }

  function FullMoments<R>(events: seq<Event<R>>): nat
    requires Run(Initial<R>(), events).Some?
  {
    if events == [] then 0
    else
      var front := events[..|events| - 1];
      var full := |Run(Initial<R>(), front).value.queue| == 1024;
      FullMoments(front) + if events[|events| - 1].Enqueue? && full then 1 else 0
  }

  lemma {:induction false} RunOffers<R>(events: seq<Event<R>>)
    requires Run(Initial<R>(), events).Some?
    ensures
      var t := Run(Initial<R>(), events).value;
      t.dropped == FullMoments(events) && |Accepted(t.offers)| + t.dropped == |Enqueued(events)| &&
      (t.dropped == 0 ==> Accepted(t.offers) == Enqueued(events))
  {
    hide Accepted;
    if events == [] {
      assert Accepted<R>([]) == [] by { NothingAccepted<R>(); }
    } else {
      var front, last := events[..|events| - 1], events[|events| - 1];
      RunOffers(front);
      ReachableInv(front);
      var s := Run(Initial<R>(), front).value;
      if last.Enqueue? {
        AcceptedSnoc(s.offers, Offer(last.rec, true));
        AcceptedSnoc(s.offers, Offer(last.rec, false));
      }
    }
  }

  lemma NothingAccepted<R>()
    ensures Accepted<R>([]) == []
  {
  }

  // In any run the drops are exactly the moments when a producer met 1024 waiting records, and
  // without such a moment, and only then, every offered record is written, in flight or queued, in
  // the order it was offered.
  lemma NothingLostUnlessFull<R>(events: seq<Event<R>>)
    requires Run(Initial<R>(), events).Some?
    ensures
      var t := Run(Initial<R>(), events).value;
      t.dropped == FullMoments(events) &&
      (FullMoments(events) == 0 <==> t.written + InFlight(t) + t.queue == Enqueued(events))
  {
    hide Run, FullMoments, Enqueued, Accepted;
    RunOffers(events);
    ReachableInv(events);
  }

  // ---------- the writer is never stuck ----------

  predicate WriterEvent<R>(e: Event<R>) { !e.Enqueue? && !e.Cancel? }

  // Apart from the producers and the cancellation something can happen in every state, except when
  // the writer has exited and when it waits for a record that nobody sent.
  lemma WriterIdlesIff<R>(s: State<R>)
    ensures (forall e :: WriterEvent(e) ==> Step(s, e).None?) <==>
      s.writer.Exited? || (s.writer.Selecting? && s.queue == [] && !s.cancelled)
  {
    var e: Event<R> :=
      if s.writer.Writing? then Finish
      else if s.writer.Draining? then if s.queue == [] then DrainEnd else DrainTake
      else if s.queue != [] then Take else SeeDone;
    assert WriterEvent(e);
    assert Step(s, e).Some? <==> !(s.writer.Exited? || (s.writer.Selecting? && s.queue == [] && !s.cancelled));
  }

  // It takes the oldest record, and what it took is what it writes.
  lemma WriterTakesTheOldest<R>(s: State<R>)
    requires s.queue != [] && (s.writer.Selecting? || s.writer.Draining?)
    ensures var e := if s.writer.Selecting? then Take else DrainTake;
      Step(s, e).Some? && var t := Step(s, e).value;
      t.queue == s.queue[1..] && Step(t, Finish).Some? &&
      Step(t, Finish).value == s.(queue := s.queue[1..], written := s.written + [s.queue[0]])
  {
  }

  // Without a cancellation the writer neither drains nor exits.
  lemma {:induction false} NoExitWithoutCancel<R>(events: seq<Event<R>>)
    requires Run(Initial<R>(), events).Some? && Cancel !in events
    ensures var t := Run(Initial<R>(), events).value;
      !t.cancelled && (t.writer.Selecting? || (t.writer.Writing? && !t.writer.draining))
  {
    if events != [] {
      assert events[|events| - 1] in events;
      assert forall e :: e in events[..|events| - 1] ==> e in events;
      NoExitWithoutCancel(events[..|events| - 1]);
    }
  }

  // ---------- the drain ends ----------

  predicate InDrain<R>(s: State<R>) {
    s.writer.Draining? || s.writer.Exited? || (s.writer.Writing? && s.writer.draining)
  }

  // The writer's remaining steps once no producer is left.
  function Remaining<R>(s: State<R>): nat {
    match s.writer
    case Exited => 0
    case Draining => 2 * |s.queue| + 1
    case _ => 2 * |s.queue| + 2
  }

  // Until it exits, the draining writer has exactly one next step, which brings it closer.
  lemma DrainStep<R>(s: State<R>)
    requires InDrain(s) && !s.writer.Exited?
    ensures exists e :: WriterEvent(e) && Step(s, e).Some?
    ensures forall e :: WriterEvent(e) && Step(s, e).Some? ==>
              InDrain(Step(s, e).value) && Remaining(Step(s, e).value) == Remaining(s) - 1 &&
              var t := Step(s, e).value; t.written + InFlight(t) + t.queue == s.written + InFlight(s) + s.queue
  {
    var next: Event<R> := if s.writer.Writing? then Finish else if s.queue == [] then DrainEnd else DrainTake;
    assert WriterEvent(next) && Step(s, next).Some?;
  }

  // Without producers the drain takes a fixed number of writer steps, and then all that was queued
  // has been written behind what was there.
  lemma {:induction false} DrainTerminates<R>(s: State<R>, events: seq<Event<R>>)
    requires InDrain(s) && !s.writer.Exited?
    requires Run(s, events).Some? && forall e :: e in events ==> WriterEvent(e)
    ensures |events| <= Remaining(s)
    ensures
      var t := Run(s, events).value;
      InDrain(t) && Remaining(t) == Remaining(s) - |events| &&
      t.written + InFlight(t) + t.queue == s.written + InFlight(s) + s.queue
    ensures |events| == Remaining(s) ==>
      Run(s, events).value.writer.Exited? && Run(s, events).value.written == s.written + InFlight(s) + s.queue
  {
    if events != [] {
      var init, last := events[..|events| - 1], events[|events| - 1];
      assert last in events && forall e :: e in init ==> e in events;
      DrainTerminates(s, init);
      var t := Run(s, init).value;
      if !t.writer.Exited? {
        DrainStep(t);
      }
    }
    var t := Run(s, events).value;
    if t.writer.Exited? {
      ExitedIsEmpty(s, events);
    }
  }

  lemma {:induction false} ExitedIsEmpty<R>(s: State<R>, events: seq<Event<R>>)
    requires InDrain(s) && Run(s, events).Some? && forall e :: e in events ==> WriterEvent(e)
    ensures Run(s, events).value.writer.Exited? && !s.writer.Exited? ==> Run(s, events).value.queue == []
  {
    if events != [] {
      var init, last := events[..|events| - 1], events[|events| - 1];
      assert last in events && forall e :: e in init ==> e in events;
      ExitedIsEmpty(s, init);
    }
  }
}
