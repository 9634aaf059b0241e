/**
 newOrderedSender of lua_wiring.go: callers append to a pending list and leave a wake token; one worker takes the
 list and passes the messages on. Every interleaving of the callers' two steps with the worker's steps is a run.
 */
module OrderedSender {

  /** What callers and worker share: the list under mu and the one-slot wake channel. */
  datatype Box<T> = Box(pending: seq<T>, wake: bool)

  function AppendOf<T>(box: Box<T>, msg: T): Box<T> {
    box.(pending := box.pending + [msg])
  }

  /** The non-blocking send on wake: a full slot stays as it is. */
  function SignalOf<T>(box: Box<T>): Box<T> {
    if box.wake then box else box.(wake := true)
  }

  /** The worker's receive, possible only while the slot is full. */
  function ReceiveOf<T>(box: Box<T>): Box<T>
    requires box.wake
  {
    box.(wake := false)
  }

  function TakeOf<T>(box: Box<T>): (Box<T>, seq<T>) {
    (box.(pending := []), box.pending)
  }

  /** The sections of newOrderedSender in place; `Next` below runs the same functions in every interleaving. */
  class Mailbox<T> {
    var pending: seq<T>
    var wake: bool

    function Shared(): Box<T>
      reads this
    {
      Box(pending, wake)
    }

    constructor ()
      ensures Shared() == Box([], false)
    {
      pending, wake := [], false;
    }

    method Append(msg: T)
      modifies this`pending
      ensures Shared() == AppendOf(old(Shared()), msg)
    {
      pending := pending + [msg];
    }

    method Signal()
      modifies this`wake
      ensures Shared() == SignalOf(old(Shared()))
    {
      if !wake {
        wake := true;
      }
    }

    method Receive()
      requires wake
      modifies this`wake
      ensures Shared() == ReceiveOf(old(Shared()))
    {
      wake := false;
    }

    method Take() returns (batch: seq<T>)
      modifies this`pending
      ensures (Shared(), batch) == TakeOf(old(Shared()))
    {
      batch := pending;
      pending := [];
    }
  }

  datatype Worker<T> = Waiting | Woken | Sending(batch: seq<T>) | Stopped

  /**
   `unsignalled` counts the callers between their append and their signal; `queued` is every message so far, in order.
   */
  datatype State<T> = State(
    box: Box<T>, unsignalled: nat, done: bool, worker: Worker<T>, delivered: seq<T>, queued: seq<T>)

  datatype Step<T> = Append(msg: T) | Signal | Stop | WorkerStop | WorkerWake | Take | Deliver | Finish

  function Start<T>(): State<T> {
    State(Box([], false), 0, false, Waiting, [], [])
  }

  ghost predicate Next<T(!new)>(s: State<T>, step: Step<T>, t: State<T>) {
    match step
    case Append(msg) =>
      t == s.(box := AppendOf(s.box, msg), queued := s.queued + [msg], unsignalled := s.unsignalled + 1)
    case Signal => s.unsignalled > 0 && t == s.(unsignalled := s.unsignalled - 1, box := SignalOf(s.box))
    case Stop => t == s.(done := true)
    case WorkerStop => s.worker == Waiting && s.done && t == s.(worker := Stopped)
    case WorkerWake => s.worker == Waiting && s.box.wake && t == s.(worker := Woken, box := ReceiveOf(s.box))
    case Take => s.worker == Woken && t == s.(worker := Sending(TakeOf(s.box).1), box := TakeOf(s.box).0)
    case Deliver =>
      && s.worker.Sending? && s.worker.batch != []
      && t == s.(delivered := s.delivered + [s.worker.batch[0]], worker := Sending(s.worker.batch[1..]))
    case Finish => s.worker == Sending([]) && t == s.(worker := Waiting)
  }

  ghost predicate Run<T(!new)>(trace: seq<State<T>>, steps: seq<Step<T>>) {
    && |trace| == |steps| + 1 && trace[0] == Start()
    && forall i :: 0 <= i < |steps| ==> Next(trace[i], steps[i], trace[i + 1])
  }

  function InFlight<T>(s: State<T>): seq<T> {
    if s.worker.Sending? then s.worker.batch else []
  }

  /** Nothing is lost or reordered, and a waiting message has someone about to fetch it. */
  ghost predicate Inv<T>(s: State<T>) {
    && s.delivered + InFlight(s) + s.box.pending == s.queued
    && (s.box.pending != [] && s.worker != Stopped ==> s.box.wake || s.unsignalled > 0 || s.worker == Woken)
    && (s.worker == Stopped ==> s.done)
  }

  lemma StepKeeps<T(!new)>(s: State<T>, step: Step<T>, t: State<T>)
    requires Inv(s) && Next(s, step, t)
    ensures Inv(t)
  {
    match step
    case Append(msg) => AppendRegroups(s.delivered, InFlight(s), s.box.pending, msg);
    case Take => TakeRegroups(s.delivered, s.box.pending);
    case Deliver => DeliverRegroups(s.delivered, s.worker.batch, s.box.pending);
    case _ =>
  }

  lemma AppendRegroups<T>(delivered: seq<T>, inFlight: seq<T>, pending: seq<T>, msg: T)
    ensures delivered + inFlight + (pending + [msg]) == delivered + inFlight + pending + [msg]
  {
  }

  lemma TakeRegroups<T>(delivered: seq<T>, pending: seq<T>)
    ensures delivered + pending + [] == delivered + [] + pending
  {
  }

  lemma DeliverRegroups<T>(delivered: seq<T>, batch: seq<T>, pending: seq<T>)
    requires batch != []
    ensures delivered + [batch[0]] + batch[1..] + pending == delivered + batch + pending
  {
    assert [batch[0]] + batch[1..] == batch;
    assert delivered + [batch[0]] + batch[1..] == delivered + ([batch[0]] + batch[1..]);
  }

  lemma {:induction false} RunKeeps<T(!new)>(trace: seq<State<T>>, steps: seq<Step<T>>, i: nat)
    requires Run(trace, steps) && i < |trace|
    ensures Inv(trace[i])
  {
    if i > 0 {
      RunKeeps(trace, steps, i - 1);
      StepKeeps(trace[i - 1], steps[i - 1], trace[i]);
    }
  }

  /** At every moment, stopped or not, what was delivered is the first part of what was queued. */
  lemma DeliveredInOrder<T(!new)>(trace: seq<State<T>>, steps: seq<Step<T>>, i: nat)
    requires Run(trace, steps) && i < |trace|
    ensures trace[i].delivered <= trace[i].queued
    ensures trace[i].delivered + InFlight(trace[i]) + trace[i].box.pending == trace[i].queued
  {
    RunKeeps(trace, steps, i);
    var s := trace[i];
    assert s.queued == s.delivered + (InFlight(s) + s.box.pending);
  }

  /** When the worker sleeps with no wake-up on its way, everything was delivered. */
  lemma QuiescentMeansDelivered<T(!new)>(trace: seq<State<T>>, steps: seq<Step<T>>, i: nat)
    requires Run(trace, steps) && i < |trace|
    requires trace[i].worker == Waiting && !trace[i].box.wake && trace[i].unsignalled == 0
    ensures trace[i].delivered == trace[i].queued
  {
    RunKeeps(trace, steps, i);
    assert trace[i].delivered + [] + [] == trace[i].delivered;
  }

  predicate Internal<T>(step: Step<T>) {
    step.Signal? || step.WorkerWake? || step.Take? || step.Deliver? || step.Finish?
  }

  /** Until stop, an undelivered message always leaves some caller or the worker a step to take. */
  lemma NeverStuck<T(!new)>(trace: seq<State<T>>, steps: seq<Step<T>>, i: nat) returns (step: Step<T>, t: State<T>)
    requires Run(trace, steps) && i < |trace| && trace[i].worker != Stopped && trace[i].delivered != trace[i].queued
    ensures Internal(step) && Next(trace[i], step, t)
  {
    RunKeeps(trace, steps, i);
    var s := trace[i];
    match s.worker
    case Woken => step, t := Take, s.(worker := Sending(TakeOf(s.box).1), box := TakeOf(s.box).0);
    case Sending(batch) =>
      if batch == [] {
        step, t := Finish, s.(worker := Waiting);
      } else {
        step, t := Deliver, s.(delivered := s.delivered + [batch[0]], worker := Sending(batch[1..]));
      }
    case Waiting =>
      assert s.delivered + [] + s.box.pending == s.delivered + s.box.pending;
      assert s.box.pending == [] ==> s.delivered + s.box.pending == s.delivered;
      if s.box.wake {
        step, t := WorkerWake, s.(worker := Woken, box := ReceiveOf(s.box));
      } else {
        step, t := Signal, s.(unsignalled := s.unsignalled - 1, box := SignalOf(s.box));
      }
    case Stopped =>
  }

  /** A bound on the steps left until everything queued so far is delivered. */
  function Rank<T>(s: State<T>): nat {
    |s.box.pending| + 6 * s.unsignalled + (if s.box.wake then 4 else 0)
    + match s.worker
      case Waiting => 0
      case Woken => 3
      case Sending(batch) => 1 + |batch|
      case Stopped => 0
  }

  /** Each of those steps brings delivery closer, so without new messages it is reached. */
  lemma RankFalls<T(!new)>(s: State<T>, step: Step<T>, t: State<T>)
    requires Internal(step) && Next(s, step, t)
    ensures Rank(t) < Rank(s) && t.queued == s.queued
  {
  }
}
