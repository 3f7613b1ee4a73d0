/**
 The in-memory audit queue of the web tier: callers append and kick a flusher; the flusher drains
 the queue into a local list and hands its events to processing one by one, suspending at each. The
 code between two suspensions is one step, and suspended flushers resume in any order.
 */
module AuditQueue {

  const CAPACITY: nat := 5000

  /**
   `flushers` holds, for every running flusher, the drained events it has not handed over yet.
   `accepted` and `handed` record what was taken into the queue and what went to processing.
   */
  datatype State<E> = State(queue: seq<E>, flushing: bool, flushers: seq<seq<E>>, accepted: seq<E>, handed: seq<E>)

  datatype Step<E> = Append(event: E) | Resume(flusher: nat)

  function Empty<E>(): State<E> { State([], false, [], [], []) }

  /** Entering the flush: at most one caller gets past the flag, and it drains what is queued. */
  function Kick<E>(s: State<E>): State<E> {
    if s.flushing || s.queue == [] then s
    else s.(queue := [], flushing := true, flushers := s.flushers + [s.queue[1..]], handed := s.handed + [s.queue[0]])
  }

  /** A flusher continues after the processing of one event has ended, well or badly. */
  function Resumed<E>(s: State<E>, i: nat): State<E> {
    if i >= |s.flushers| then s
    else if s.flushers[i] != [] then
      s.(flushers := s.flushers[i := s.flushers[i][1..]], handed := s.handed + [s.flushers[i][0]])
    else if s.queue != [] then
      s.(queue := [], flushers := s.flushers[i := s.queue[1..]], handed := s.handed + [s.queue[0]])
    else s.(flushing := false, flushers := s.flushers[..i] + s.flushers[i + 1..])
  }

  function Next<E>(s: State<E>, step: Step<E>): State<E> {
    match step
    case Append(e) =>
      if |s.queue| < CAPACITY then Kick(s.(queue := s.queue + [e], accepted := s.accepted + [e])) else s
    case Resume(i) => Resumed(s, i)
  }

  function Run<E>(s: State<E>, steps: seq<Step<E>>): State<E> {
    if steps == [] then s else Next(Run(s, steps[..|steps| - 1]), steps[|steps| - 1])
  }

  function Remainder<E>(s: State<E>): seq<E> { if s.flushers == [] then [] else s.flushers[0] }

  predicate Coherent<E(==)>(s: State<E>) {
    && |s.flushers| <= 1
    && (s.flushing <==> |s.flushers| == 1)
    && (s.queue != [] ==> s.flushing)
    && |s.queue| <= CAPACITY
    && s.accepted == s.handed + Remainder(s) + s.queue
  }

  lemma CoherentAppend<E>(s: State<E>, e: E)
    requires Coherent(s)
    ensures Coherent(Next(s, Append(e)))
    ensures s.handed <= Next(s, Append(e)).handed
  {
    if |s.queue| < CAPACITY {
      if s.flushing {
        assert s.accepted + [e] == s.handed + Remainder(s) + (s.queue + [e]);
      } else {
        assert s.accepted == s.handed;
        var s' := Next(s, Append(e));
        assert s.queue + [e] == [e];
        assert s'.handed == s.handed + [e] && s'.flushers[0] == [];
      }
    }
  }

  lemma CoherentResume<E>(s: State<E>, i: nat)
    requires Coherent(s)
    ensures Coherent(Resumed(s, i))
    ensures s.handed <= Resumed(s, i).handed
  {
    if i < |s.flushers| {
      var s' := Resumed(s, i);
      if s.flushers[i] != [] {
        assert s.handed + s.flushers[i] == s'.handed + s'.flushers[i];
      } else if s.queue != [] {
        assert s.handed + s.queue == s'.handed + s'.flushers[i];
      } else {
        assert s'.flushers == [];
      }
    }
  }

  lemma CoherentStep<E>(s: State<E>, step: Step<E>)
    requires Coherent(s)
    ensures Coherent(Next(s, step))
    ensures s.handed <= Next(s, step).handed
  {
    hide Coherent, Resumed;
    match step {
      case Append(e) => CoherentAppend(s, e);
      case Resume(i) => CoherentResume(s, i);
    }
  }

  /**
   In every interleaving: one flusher at most, a non-empty queue always has one, and the events
   handed over, the drained remainder and the queue are together the accepted events in order. So
   what was handed over is a prefix of what was accepted, and all of it once no flusher runs.
   */
  lemma {:induction false} HandedOverOnceInOrder<E>(steps: seq<Step<E>>)
    ensures var s := Run(Empty(), steps);
      && Coherent(s)
      && s.handed <= s.accepted
      && (s.flushers == [] ==> s.handed == s.accepted)
  {
    if steps == [] {
    } else {
      HandedOverOnceInOrder(steps[..|steps| - 1]);
      CoherentStep(Run(Empty(), steps[..|steps| - 1]), steps[|steps| - 1]);
    }
  }

  /** No wake-up is lost: the running flusher, simply resumed, hands over everything and stops. */
  lemma {:induction false} Drains<E>(s: State<E>) returns (steps: seq<Step<E>>)
    requires Coherent(s)
    ensures forall i :: 0 <= i < |steps| ==> steps[i] == Resume(0)
    ensures var s' := Run(s, steps);
      !s'.flushing && s'.queue == [] && s'.accepted == s.accepted && s'.handed == s.accepted
    decreases |s.flushers|, |s.accepted| - |s.handed|
  {
    if !s.flushing {
      steps := [];
    } else {
      CoherentStep(s, Resume(0));
      var rest := Drains(Resumed(s, 0));
      steps := [Resume(0)] + rest;
      RunPrepend(s, Resume(0), rest);
    }
  }

  lemma {:induction false} RunPrepend<E>(s: State<E>, step: Step<E>, rest: seq<Step<E>>)
    ensures Run(s, [step] + rest) == Run(Next(s, step), rest)
  {
    hide Next;
    var all := [step] + rest;
    if rest == [] {
      assert all[..|all| - 1] == [];
    } else {
      RunPrepend(s, step, rest[..|rest| - 1]);
      assert all[..|all| - 1] == [step] + rest[..|rest| - 1];
    }
  }

  class Queue<E> {
    var queue: seq<E>
    var isFlushing: bool
    var drained: seq<seq<E>>
    ghost var accepted: seq<E>
    ghost var handed: seq<E>

    constructor ()
      ensures View() == Empty()
    {
      queue, isFlushing, drained, accepted, handed := [], false, [], [], [];
    }

    ghost function View(): State<E>
      reads this
    {
      State(queue, isFlushing, drained, accepted, handed)
    }

    method Flush()
      modifies this
      ensures View() == Kick(old(View()))
    {
      if isFlushing { return; }
      isFlushing := true;
      if |queue| > 0 {
        var taken := queue;
        queue := [];
        handed := handed + [taken[0]];
        drained := drained + [taken[1..]];
      } else {
        isFlushing := false;
      }
    }

    method AppendAuditEvent(event: E)
      modifies this
      ensures View() == Next(old(View()), Append(event))
    {
      if |queue| < CAPACITY {
        queue := queue + [event];
        accepted := accepted + [event];
        Flush();
      }
    }

    /** The continuation of a flusher's two loops after an awaited event. */
    method Continue(i: nat)
      requires i < |drained|
      modifies this
      ensures View() == Next(old(View()), Resume(i))
    {
      if drained[i] == [] && |queue| > 0 {
        drained := drained[i := queue];
        queue := [];
      }
      if drained[i] != [] {
        handed := handed + [drained[i][0]];
        drained := drained[i := drained[i][1..]];
      } else {
        isFlushing := false;
        drained := drained[..i] + drained[i + 1..];
      }
    }
  }

  /** An event is accepted, last in line, exactly when fewer than 5000 are queued; otherwise nothing changes. */
  lemma AcceptedBelowCapacity<E>(s: State<E>, e: E)
    ensures var s' := Next(s, Append(e));
      if |s.queue| < 5000 then s'.accepted == s.accepted + [e] else s' == s
  {
  }

  function Appends<E>(es: seq<E>): seq<Step<E>> { if es == [] then [] else Appends(es[..|es| - 1]) + [Append(es[|es| - 1])] }

  /** One more event while a flusher runs simply waits in the queue. */
  lemma WaitsInQueue<E>(s: State<E>, e: E)
    requires s.flushing && |s.queue| < 5000
    ensures Next(s, Append(e)) == s.(queue := s.queue + [e], accepted := s.accepted + [e])
  {
  }

  /** With the flusher never resumed, the first event is handed over and up to 5000 more are accepted behind it. */
  lemma {:induction false} BurstIsAccepted<E>(es: seq<E>)
    requires 1 <= |es| <= 5001
    ensures Run(Empty(), Appends(es)) == State(es[1..], true, [[]], es, [es[0]])
  {
    var init, last := es[..|es| - 1], es[|es| - 1];
    var steps := Appends(es);
    assert steps[..|steps| - 1] == Appends(init) && steps[|steps| - 1] == Append(last);
    if |es| == 1 {
      assert init == [] && es == [last];
      FirstIsHandedOver(last);
    } else {
      BurstIsAccepted(init);
      hide Appends, Next;
      WaitsInQueue(Run(Empty(), Appends(init)), last);
      assert init + [last] == es && init[1..] + [last] == es[1..];
    }
  }

  lemma FirstIsHandedOver<E>(e: E)
    ensures Next(Empty(), Append(e)) == State([], true, [[]], [e], [e])
  {
    var q: seq<E> := [] + [e];
    assert q == [e] && q[1..] == [];
  }
}
