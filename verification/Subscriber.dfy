/** The subscriber's wake-up protocol: an atomic FIFO queue and a one-slot notify
    channel between any number of producers and one consumer. */
module Subscriber {
  // ------------------------------------------------------------- the object

  /** One caller at a time. `notify` is the channel's single slot. */
  class Inbox<M> {
    var active: bool
    var messages: seq<M>
    var notify: bool

    constructor ()
      ensures active && messages == [] && !notify
    {
      active, messages, notify := true, [], false;
    }

    /** signal: an inactive subscriber takes nothing; a full slot is enough. */
    method Signal(m: M)
      modifies this`messages, this`notify
      ensures messages == if active then old(messages) + [m] else old(messages)
      ensures notify == (old(notify) || active)
    {
      if active {
        messages := messages + [m];
        if !notify { notify := true; }
      }
    }

    method Shutdown()
      modifies this`active, this`notify
      ensures !active && notify
    {
      active := false;
      if !notify { notify := true; }
    }

    /** Iterator: the whole queue in order while active, nothing afterwards. */
    method Drain() returns (out: seq<M>)
      modifies this`messages
      ensures out + messages == old(messages)
      ensures active ==> messages == []
      ensures !active ==> out == []
    {
      out := [];
      while active
        invariant out + messages == old(messages)
        invariant !active ==> out == []
        decreases |messages|
      {
        if |messages| == 0 { break; }
        out := out + [messages[0]];
        messages := messages[1..];
      }
    }
  }

  // -------------------------------------------------------- the interleaving

  /** A producer saw the subscriber active; it has enqueued and will signal. */
  datatype Producer<M> = Idle | Checked(message: M) | Enqueued

  /** The consumer blocks on Ready, drains under Iterator's active test, and then
      works through the snapshot. */
  datatype Consumer<M> = Waiting | Draining(got: seq<M>) | Tested(got: seq<M>) | Emitting(rest: seq<M>)

  /** `enqueued` and `delivered` are the messages ever enqueued and emitted. */
  datatype State<M> = State(
    active: bool, queue: seq<M>, token: bool, producers: seq<Producer<M>>, consumer: Consumer<M>,
    enqueued: seq<M>, delivered: seq<M>)

  ghost predicate Is<M>(s: State<M>, p: nat, x: Producer<M>) {
    p < |s.producers| && s.producers[p] == x
  }

  datatype Step<M> =
    | Check(p: nat, message: M)
    | Enqueue(p: nat, message: M)
    | Send(p: nat)
    | Wake
    | Test
    | Dequeue
    | Emit
    | ShutDown
    | WakeForShutdown

  ghost predicate Takes<M>(s: State<M>, s': State<M>, step: Step<M>) {
    match step
    case Check(p, m) => Is(s, p, Idle) && s.active && s' == s.(producers := s.producers[p := Checked(m)])
    case Enqueue(p, m) => Is(s, p, Checked(m))
      && s' == s.(producers := s.producers[p := Enqueued], queue := s.queue + [m], enqueued := s.enqueued + [m])
    case Send(p) => Is(s, p, Enqueued) && s' == s.(producers := s.producers[p := Idle], token := true)
    case Wake => s.consumer.Waiting? && s.token && s' == s.(token := false, consumer := Draining([]))
    case Test => s.consumer.Draining?
      && s' == s.(consumer := if s.active then Tested(s.consumer.got) else Emitting(s.consumer.got))
    case Dequeue =>
      && s.consumer.Tested?
      && s' == if s.queue == [] then s.(consumer := Emitting(s.consumer.got))
               else s.(consumer := Draining(s.consumer.got + [s.queue[0]]), queue := s.queue[1..])
    case Emit =>
      && s.consumer.Emitting?
      && s' == if s.consumer.rest == [] then s.(consumer := Waiting)
               else s.(consumer := Emitting(s.consumer.rest[1..]), delivered := s.delivered + [s.consumer.rest[0]])
    case ShutDown => s' == s.(active := false)
    case WakeForShutdown => !s.active && s' == s.(token := true)
  }

  ghost predicate Init<M>(s: State<M>) {
    && s.active && s.queue == [] && !s.token && s.consumer == Waiting && s.enqueued == [] && s.delivered == []
    && forall p :: 0 <= p < |s.producers| ==> s.producers[p] == Idle
  }

  ghost predicate Execution<M>(states: seq<State<M>>, steps: seq<Step<M>>) {
    && |states| == |steps| + 1 && Init(states[0])
    && forall i :: 0 <= i < |steps| ==> Takes(states[i], states[i + 1], steps[i])
  }

  /** Dequeued but not yet emitted. */
  function InHand<M>(c: Consumer<M>): seq<M> {
    match c
    case Waiting => []
    case Draining(got) => got
    case Tested(got) => got
    case Emitting(rest) => rest
  }

  ghost predicate SignalDue<M>(s: State<M>) {
    exists p :: 0 <= p < |s.producers| && s.producers[p] == Enqueued
  }

  /** A non-empty queue is never forgotten. */
  ghost predicate Covered<M>(s: State<M>) {
    s.active && s.queue != [] ==> s.token || SignalDue(s) || s.consumer.Draining? || s.consumer.Tested?
  }

  /** Nothing is lost, repeated or reordered. */
  ghost predicate Conserved<M>(s: State<M>) {
    s.enqueued == s.delivered + InHand(s.consumer) + s.queue
  }

  lemma StepCovers<M>(s: State<M>, s': State<M>, step: Step<M>)
    requires Covered(s) && Takes(s, s', step)
    ensures Covered(s')
  {
    match step
    case Enqueue(p, m) => assert s'.producers[p] == Enqueued;
    case Check(p, m) =>
      if SignalDue(s) {
        var q :| 0 <= q < |s.producers| && s.producers[q] == Enqueued;
        assert s'.producers[q] == Enqueued;
      }
    case _ =>
  }

  lemma StepConserves<M>(s: State<M>, s': State<M>, step: Step<M>)
    requires Conserved(s) && Takes(s, s', step)
    ensures Conserved(s')
  {
    match step
    case Dequeue => if s.queue != [] { assert s.queue == [s.queue[0]] + s.queue[1..]; }
    case Emit => if s.consumer.rest != [] { assert s.consumer.rest == [s.consumer.rest[0]] + s.consumer.rest[1..]; }
    case Enqueue(p, m) => assert s.delivered + InHand(s.consumer) + (s.queue + [m])
      == s.delivered + InHand(s.consumer) + s.queue + [m];
    case _ =>
  }

  /** No lost wake-up, in every interleaving; and what the consumer emitted, what
      it holds and what is queued are the enqueued messages in their order. */
  lemma {:induction false} NoLostWakeUp<M>(states: seq<State<M>>, steps: seq<Step<M>>, i: nat)
    requires Execution(states, steps) && i < |states|
    ensures Covered(states[i]) && Conserved(states[i])
  {
    if i > 0 {
      NoLostWakeUp(states, steps, i - 1);
      assert Takes(states[i - 1], states[i], steps[i - 1]);
      StepCovers(states[i - 1], states[i], steps[i - 1]);
      StepConserves(states[i - 1], states[i], steps[i - 1]);
    }
  }

  // ------------------------------------------------------ delivery completes

  function Weight<M>(p: Producer<M>): nat {
    match p
    case Idle => 0
    case Checked(_) => 9
    case Enqueued => 5
  }

  function Weights<M>(ps: seq<Producer<M>>): nat {
    if ps == [] then 0 else Weights(ps[..|ps| - 1]) + Weight(ps[|ps| - 1])
  }

  lemma {:induction false} WeightsUpdate<M>(ps: seq<Producer<M>>, p: nat, x: Producer<M>)
    requires p < |ps|
    ensures Weights(ps[p := x]) == Weights(ps) - Weight(ps[p]) + Weight(x)
  {
    var n := |ps| - 1;
    if p < n {
      WeightsUpdate(ps[..n], p, x);
      assert ps[p := x][..n] == ps[..n][p := x];
    } else {
      assert ps[p := x][..n] == ps[..n];
    }
  }

  /** How many steps the messages under way still need at most. */
  function Work<M>(s: State<M>): nat {
    Weights(s.producers) + 3 * |s.queue| + (if s.token then 4 else 0) +
    match s.consumer
    case Waiting => 0
    case Draining(got) => |got| + 3
    case Tested(got) => |got| + 2
    case Emitting(rest) => |rest| + 1
  }

  predicate Internal<M>(step: Step<M>) {
    !step.Check? && !step.ShutDown? && !step.WakeForShutdown?
  }

  /** Without new messages every step brings the work down. */
  lemma WorkFalls<M>(s: State<M>, s': State<M>, step: Step<M>)
    requires Takes(s, s', step) && Internal(step)
    ensures Work(s') < Work(s)
  {
    match step
    case Enqueue(p, m) => WeightsUpdate(s.producers, p, Enqueued);
    case Send(p) => WeightsUpdate(s.producers, p, Idle);
    case _ =>
  }

  /** No step is left but new messages and shutdown. */
  ghost predicate Quiet<M>(s: State<M>) {
    s.consumer.Waiting? && !s.token && forall p :: 0 <= p < |s.producers| ==> s.producers[p] == Idle
  }

  lemma QuietOrMoving<M>(s: State<M>)
    ensures Quiet(s) <==> !exists s': State<M>, step: Step<M> :: Internal(step) && Takes(s, s', step)
  {
    if !Quiet(s) {
      match s.consumer
      case Draining(got) => assert Takes(s, s.(consumer := if s.active then Tested(got) else Emitting(got)), Test);
      case Tested(got) =>
        var s' := if s.queue == [] then s.(consumer := Emitting(got))
            else s.(consumer := Draining(got + [s.queue[0]]), queue := s.queue[1..]);
        assert Takes(s, s', Dequeue);
      case Emitting(rest) =>
        var s' := if rest == [] then s.(consumer := Waiting)
            else s.(consumer := Emitting(rest[1..]), delivered := s.delivered + [rest[0]]);
        assert Takes(s, s', Emit);
      case Waiting =>
        if s.token {
          assert Takes(s, s.(token := false, consumer := Draining([])), Wake);
        } else {
          var p :| 0 <= p < |s.producers| && s.producers[p] != Idle;
          match s.producers[p] {
            case Checked(m) =>
              assert Takes(s, s.(producers := s.producers[p := Enqueued], queue := s.queue + [m],
                                 enqueued := s.enqueued + [m]), Enqueue(p, m));
            case Enqueued => assert Takes(s, s.(producers := s.producers[p := Idle], token := true), Send(p));
          }
        }
    }
  }

  /** Every message is delivered: once nothing is left to do on an active
      subscriber, the emitted messages are exactly the enqueued ones, in order. */
  lemma QuietMeansDelivered<M>(states: seq<State<M>>, steps: seq<Step<M>>, i: nat)
    requires Execution(states, steps) && i < |states| && Quiet(states[i]) && states[i].active
    ensures states[i].delivered == states[i].enqueued
  {
    NoLostWakeUp(states, steps, i);
    assert states[i].queue == [];
  }
}
