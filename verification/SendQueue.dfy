/** The send queue of cancomm.cpp and cancomm_pcanfd.cpp: any number of producers, one sender thread, a mutex and a condition
    variable. Every access to shared state is a step of its own.

    The two classes differ in what the sender does after `m_cond.wait` returns: `CanComm` starts its loop again and looks at
    the queue (`rechecks`), `CanCommPCAN` goes on to look at `m_running` and dequeues. */
module SendQueue {
  import opened Wrappers

  datatype Owner = ByProducer(id: nat) | BySender

  /** A call of `enqueueMessage`: called, mutex held, message appended, waiter woken. */
  datatype Producer<M> = Called(m: M) | Holding(m: M) | Appended | Signalled

  /** The sender: at the loop head, before the lock, before the emptiness test, waiting, woken but without the mutex, back
      from the wait (re-checking loop only), before the test of `m_running` (PCAN only), before the dequeue, with a message
      and the mutex, with a message it has not sent yet, through. `Broken` is a dequeue from an empty queue. */
  datatype Sender<M> = Head | WantLock | Test | Waiting | Woken | Back | CheckRunning | Dequeue
                     | Took(m: M) | InFlight(m: M) | Through | Broken

  datatype Closer = NotClosing | Cleared | WokeAll

  datatype State<M> = State(
    queue: seq<M>, history: seq<M>, sent: seq<M>, running: bool, started: bool, mutex: Option<Owner>,
    producers: map<nat, Producer<M>>, sender: Sender<M>, closer: Closer)

  datatype Action<M> = Call(id: nat, m: M) | Produce(id: nat) | Send | Spurious | Open | Close

  function Initial<M>(running: bool): State<M> {
    State([], [], [], running, running, None, map[], Head, NotClosing)
  }

  function Wake<M>(s: Sender<M>): Sender<M> {
    if s.Waiting? then Woken else s
  }

  /** The next statement of the call that producer `id` is in. */
  function ProducerStep<M>(s: State<M>, id: nat): State<M>
    requires id in s.producers
  {
    match s.producers[id]
    case Called(m) =>
      if s.mutex == None then s.(mutex := Some(ByProducer(id)), producers := s.producers[id := Holding(m)]) else s
    case Holding(m) =>
      s.(queue := s.queue + [m], history := s.history + [m], producers := s.producers[id := Appended])
    case Appended => s.(sender := Wake(s.sender), producers := s.producers[id := Signalled])
    case Signalled => s.(mutex := None, producers := s.producers - {id})
  }

  /** The next statement of `sendLoop`. */
  function SenderStep<M>(s: State<M>, rechecks: bool): State<M> {
    match s.sender
    case Head => s.(sender := if s.running then WantLock else Through)
    case WantLock => if s.mutex == None then s.(mutex := Some(BySender), sender := Test) else s
    case Test =>
      if s.queue == [] then s.(mutex := None, sender := Waiting)
      else s.(sender := if rechecks then Dequeue else CheckRunning)
    case Waiting => s
    case Woken =>
      if s.mutex == None then s.(mutex := Some(BySender), sender := if rechecks then Back else CheckRunning) else s
    case Back => s.(mutex := None, sender := Head)
    case CheckRunning => if s.running then s.(sender := Dequeue) else s.(mutex := None, sender := Through)
    case Dequeue =>
      if s.queue == [] then s.(sender := Broken) else s.(sender := Took(s.queue[0]), queue := s.queue[1..])
    case Took(m) => s.(mutex := None, sender := InFlight(m))
    case InFlight(m) => s.(sent := s.sent + [m], sender := Head)
    case Through => s
    case Broken => s
  }

  /** `openConnection` starts the thread before it sets `m_running`; `closeConnection` clears it and then wakes all, without
      the mutex. */
  function Step<M>(s: State<M>, rechecks: bool, spurious: bool, a: Action<M>): State<M> {
    match a
    case Call(id, m) => if id in s.producers then s else s.(producers := s.producers[id := Called(m)])
    case Produce(id) => if id in s.producers then ProducerStep(s, id) else s
    case Send => SenderStep(s, rechecks)
    case Spurious => if spurious then s.(sender := Wake(s.sender)) else s
    case Open => if s.started then s else s.(started := true, running := true)
    case Close =>
      match s.closer
      case NotClosing => if s.running then s.(running := false, closer := Cleared) else s
      case Cleared => s.(sender := Wake(s.sender), closer := WokeAll)
      case WokeAll => s
  }

  function Run<M>(s: State<M>, rechecks: bool, spurious: bool, actions: seq<Action<M>>): State<M>
    decreases |actions|
  {
    if actions == [] then s
    else Step(Run(s, rechecks, spurious, actions[..|actions| - 1]), rechecks, spurious, actions[|actions| - 1])
  }

  // ---------------------------------------------------------------- the invariant

  function Flying<M>(s: Sender<M>): seq<M> {
    match s
    case Took(m) => [m]
    case InFlight(m) => [m]
    case _ => []
  }

  /** Nothing lost, nothing duplicated, nothing overtaken. */
  predicate InOrder<M(==)>(s: State<M>) {
    s.sent + Flying(s.sender) + s.queue == s.history
  }

  predicate SenderLocks<M>(s: Sender<M>) {
    s.Test? || s.Back? || s.CheckRunning? || s.Dequeue? || s.Took? || s.Broken?
  }

  predicate MutexInv<M(!new)>(s: State<M>) {
    && (s.mutex == Some(BySender) <==> SenderLocks(s.sender))
    && (forall id :: id in s.producers && !s.producers[id].Called? ==> s.mutex == Some(ByProducer(id)))
    && (s.mutex.Some? && s.mutex.value.ByProducer? ==>
          s.mutex.value.id in s.producers && !s.producers[s.mutex.value.id].Called?)
  }

  /** A producer that has appended and not yet unlocked keeps the queue from becoming empty. */
  predicate AppendedInv<M(!new)>(s: State<M>) {
    forall id :: id in s.producers && (s.producers[id].Appended? || s.producers[id].Signalled?) ==> s.queue != []
  }

  /** A sender that waits beside a message is about to be woken. */
  predicate WaitingInv<M>(s: State<M>) {
    s.sender.Waiting? && s.queue != [] ==>
      && s.mutex.Some? && s.mutex.value.ByProducer?
      && s.mutex.value.id in s.producers && s.producers[s.mutex.value.id].Appended?
  }

  /** Why a sender that does not look at the queue again may dequeue: it was woken by an enqueue, or it will see that the
      connection is closed. */
  predicate WokenInv<M>(s: State<M>, rechecks: bool) {
    && (s.sender.Dequeue? ==> s.queue != [])
    && (!rechecks && (s.sender.Woken? || s.sender.CheckRunning?) ==> s.queue != [] || !s.closer.NotClosing?)
    && (!s.closer.NotClosing? ==> s.started && !s.running)
    && (s.running ==> s.started)
    && (rechecks ==> !s.sender.CheckRunning?)
    && !s.sender.Broken?
  }

  ghost predicate Inv<M(!new)>(s: State<M>, rechecks: bool) {
    InOrder(s) && MutexInv(s) && AppendedInv(s) && WaitingInv(s) && WokenInv(s, rechecks)
  }

  lemma ProducerKeeps<M(!new)>(s: State<M>, rechecks: bool, id: nat)
    requires Inv(s, rechecks) && id in s.producers
    ensures Inv(ProducerStep(s, id), rechecks)
  {
    var n := ProducerStep(s, id);
    if s.producers[id].Holding? {
      var m := s.producers[id].m;
      assert s.sent + Flying(s.sender) + (s.queue + [m]) == (s.sent + Flying(s.sender) + s.queue) + [m];
    }
  }

  lemma SenderInOrder<M(!new)>(s: State<M>, rechecks: bool)
    requires InOrder(s)
    ensures InOrder(SenderStep(s, rechecks))
  {
    if s.sender.Dequeue? && s.queue != [] {
      TakeFirst(s.sent, s.queue);
    } else if s.sender.InFlight? {
      HandOver(s.sent, s.sender.m, s.queue);
    }
  }

  lemma TakeFirst<M>(sent: seq<M>, queue: seq<M>)
    requires queue != []
    ensures sent + [queue[0]] + queue[1..] == sent + [] + queue
  {
  }

  lemma HandOver<M>(sent: seq<M>, m: M, queue: seq<M>)
    ensures (sent + [m]) + [] + queue == sent + [m] + queue
  {
  }

  lemma SenderMutex<M(!new)>(s: State<M>, rechecks: bool)
    requires MutexInv(s)
    ensures MutexInv(SenderStep(s, rechecks))
  {
  }

  lemma SenderQueue<M(!new)>(s: State<M>, rechecks: bool)
    requires MutexInv(s) && AppendedInv(s) && WokenInv(s, rechecks)
    ensures AppendedInv(SenderStep(s, rechecks)) && WokenInv(SenderStep(s, rechecks), rechecks)
  {
  }

  lemma SenderWaits<M(!new)>(s: State<M>, rechecks: bool)
    requires WaitingInv(s)
    ensures WaitingInv(SenderStep(s, rechecks))
  {
  }

  lemma SenderKeeps<M(!new)>(s: State<M>, rechecks: bool)
    requires Inv(s, rechecks)
    ensures Inv(SenderStep(s, rechecks), rechecks)
  {
    hide SenderStep, InOrder, MutexInv, AppendedInv, WaitingInv, WokenInv;
    SenderWaits(s, rechecks);
    SenderInOrder(s, rechecks);
    SenderMutex(s, rechecks);
    SenderQueue(s, rechecks);
  }

  lemma StepKeeps<M(!new)>(s: State<M>, rechecks: bool, spurious: bool, a: Action<M>)
    requires Inv(s, rechecks) && (rechecks || !spurious)
    ensures Inv(Step(s, rechecks, spurious, a), rechecks)
  {
    match a
    case Call(id, m) =>
    case Produce(id) => if id in s.producers { ProducerKeeps(s, rechecks, id); }
    case Send => SenderKeeps(s, rechecks);
    case Spurious =>
    case Open =>
    case Close =>
  }

  lemma {:induction false} RunKeeps<M(!new)>(running: bool, rechecks: bool, spurious: bool, actions: seq<Action<M>>)
    requires rechecks || !spurious
    ensures Inv(Run(Initial<M>(running), rechecks, spurious, actions), rechecks)
    decreases |actions|
  {
    hide Step;
    if actions != [] {
      var init := actions[..|actions| - 1];
      RunKeeps(running, rechecks, spurious, init);
      StepKeeps(Run(Initial<M>(running), rechecks, spurious, init), rechecks, spurious, actions[|actions| - 1]);
    }
  }

  /** What was handed to `sendMessage`, then the message in flight, then the queue: together always the enqueue history, in
      order. The re-checking loop gives this under spurious wake-ups, the other one without them. */
  lemma SentInOrder<M(!new)>(running: bool, rechecks: bool, spurious: bool, actions: seq<Action<M>>)
    requires rechecks || !spurious
    ensures var s := Run(Initial<M>(running), rechecks, spurious, actions);
            s.sent + Flying(s.sender) + s.queue == s.history && !s.sender.Broken?
  {
    RunKeeps(running, rechecks, spurious, actions);
  }

  // ---------------------------------------------------------------- what goes wrong otherwise

  /** A loop that does not re-check dequeues from an empty queue after one spurious wake-up. */
  lemma SpuriousWakeBreaks<M(!new)>(running: bool)
    ensures exists actions: seq<Action<M>> :: Run(Initial<M>(running), false, true, actions).sender.Broken?
  {
    hide Run, Step;
    var s, on := Initial<M>(running), Initial<M>(true);
    var a2: seq<Action<M>> := [] + [Open, Send];
    var a4: seq<Action<M>> := a2 + [Send, Send];
    var a6: seq<Action<M>> := a4 + [Spurious, Send];
    RunNothing(s, true);
    TwoMore(s, true, [], Open, Send);
    TwoMore(s, true, a2, Send, Send);
    TwoMore(s, true, a4, Spurious, Send);
    TwoMore(s, true, a6, Send, Send);
    OpenThenSend<M>(running);
    FallAsleep(on);
    WakeForNothing(on);
    assert Run(s, false, true, a6 + [Send, Send]).sender.Broken?;
  }

  lemma RunNothing<M>(s: State<M>, spurious: bool)
    ensures Run(s, false, spurious, []) == s
  {
  }

  lemma OpenThenSend<M>(running: bool)
    ensures Step(Step(Initial<M>(running), false, true, Open), false, true, Send)
         == Initial<M>(true).(sender := WantLock)
  {
  }

  lemma FallAsleep<M>(on: State<M>)
    requires on.mutex == None && on.queue == []
    ensures Step(Step(on.(sender := WantLock), false, true, Send), false, true, Send) == on.(sender := Waiting)
  {
  }

  lemma WakeForNothing<M>(on: State<M>)
    requires on.mutex == None && on.queue == [] && on.running
    ensures var n := Step(Step(on.(sender := Waiting), false, true, Spurious), false, true, Send);
            Step(Step(n, false, true, Send), false, true, Send).sender.Broken?
  {
  }

  lemma TwoMore<M>(s: State<M>, spurious: bool, actions: seq<Action<M>>, a: Action<M>, b: Action<M>)
    ensures Run(s, false, spurious, actions + [a, b])
         == Step(Step(Run(s, false, spurious, actions), false, spurious, a), false, spurious, b)
  {
    hide Step;
    assert (actions + [a, b])[..|actions| + 1] == actions + [a];
    assert (actions + [a])[..|actions|] == actions;
  }

  /** A dequeue from an empty queue is impossible in every run exactly if the loop re-checks or wake-ups are never
      spurious. */
  lemma NeverEmptyIff<M(!new)>(running: bool, rechecks: bool, spurious: bool)
    ensures (forall actions: seq<Action<M>> :: !Run(Initial<M>(running), rechecks, spurious, actions).sender.Broken?)
       <==> (rechecks || !spurious)
  {
    if rechecks || !spurious {
      forall actions: seq<Action<M>> ensures !Run(Initial<M>(running), rechecks, spurious, actions).sender.Broken? {
        SentInOrder(running, rechecks, spurious, actions);
      }
    } else {
      SpuriousWakeBreaks<M>(running);
    }
  }

  // ---------------------------------------------------------------- closing

  /** No producer is in a call and the closer is through: only the sender can move. */
  predicate Quiet<M>(s: State<M>) {
    s.producers == map[] && s.closer.WokeAll?
  }

  predicate IsCall<M>(a: Action<M>) {
    a.Call?
  }

  /** `n` statements of the sender. */
  function Alone<M>(s: State<M>, rechecks: bool, n: nat): State<M>
    decreases n
  {
    if n == 0 then s else Alone(SenderStep(s, rechecks), rechecks, n - 1)
  }

  /** The sender ends by itself: the join in `closeConnection` returns. */
  ghost predicate Ends<M>(s: State<M>, rechecks: bool) {
    exists n: nat :: Alone(s, rechecks, n).sender.Through?
  }

  /** Nothing to send, and the sender past its look at `m_running` and not past its wait. */
  predicate Lost<M>(s: State<M>) {
    s.queue == [] && (s.sender.WantLock? || s.sender.Test? || s.sender.Waiting?)
  }

  /** How many statements the sender needs at most, once the connection is closed. */
  function Left<M>(s: Sender<M>): nat {
    match s
    case Through => 0
    case Head => 1
    case CheckRunning => 1
    case InFlight(_) => 2
    case Back => 2
    case Took(_) => 3
    case Woken => 3
    case Dequeue => 4
    case Test => 5
    case WantLock => 6
    case _ => 7
  }

  lemma QuietSender<M(!new)>(s: State<M>, rechecks: bool)
    requires Inv(s, rechecks) && Quiet(s)
    ensures var n := SenderStep(s, rechecks);
            && Quiet(n) && (Lost(s) <==> Lost(n))
            && (Lost(s) ==> !n.sender.Through?)
            && (!Lost(s) && !s.sender.Through? ==> Left(n.sender) < Left(s.sender))
  {
  }

  lemma {:induction false} NotLostEnds<M(!new)>(s: State<M>, rechecks: bool)
    requires Inv(s, rechecks) && Quiet(s) && !Lost(s)
    ensures Ends(s, rechecks)
    decreases Left(s.sender)
  {
    hide SenderStep, InOrder, MutexInv, AppendedInv, WaitingInv, WokenInv, Lost;
    if s.sender.Through? {
      assert Alone(s, rechecks, 0).sender.Through?;
    } else {
      QuietSender(s, rechecks);
      SenderKeeps(s, rechecks);
      var next := SenderStep(s, rechecks);
      NotLostEnds(next, rechecks);
      var n: nat :| Alone(next, rechecks, n).sender.Through?;
      assert Alone(s, rechecks, n + 1).sender.Through?;
    }
  }

  lemma {:induction false} LostStays<M(!new)>(s: State<M>, rechecks: bool, n: nat)
    requires Inv(s, rechecks) && Quiet(s) && Lost(s)
    ensures !Alone(s, rechecks, n).sender.Through?
    decreases n
  {
    hide SenderStep, InOrder, MutexInv, AppendedInv, WaitingInv, WokenInv;
    if n > 0 {
      QuietSender(s, rechecks);
      SenderKeeps(s, rechecks);
      LostStays(SenderStep(s, rechecks), rechecks, n - 1);
    }
  }

  /** When everyone else is through, the sender ends exactly if there is something to send or it is not on its way into the
      wait. */
  lemma EndsIff<M(!new)>(s: State<M>, rechecks: bool)
    requires Inv(s, rechecks) && Quiet(s)
    ensures Ends(s, rechecks) <==> !Lost(s)
  {
    hide SenderStep, InOrder, MutexInv, AppendedInv, WaitingInv, WokenInv, Alone;
    if Lost(s) {
      forall n: nat ensures !Alone(s, rechecks, n).sender.Through? { LostStays(s, rechecks, n); }
    } else {
      NotLostEnds(s, rechecks);
    }
  }

  /** The sender is missed: the wake is over, nothing is queued and nobody is about to queue anything. */
  predicate Missed<M>(s: State<M>) {
    Quiet(s) && Lost(s)
  }

  /** Without new calls, what happens after the wake neither causes nor mends that. */
  lemma MissedStays<M(!new)>(s: State<M>, rechecks: bool, a: Action<M>)
    requires Inv(s, rechecks) && s.closer.WokeAll? && !IsCall(a)
    ensures var n := Step(s, rechecks, false, a); n.closer.WokeAll? && (Missed(n) <==> Missed(s))
  {
    match a
    case Call(id, m) =>
    case Produce(id) => if id in s.producers { MissedByProducer(s, rechecks, id); }
    case Send => MissedBySender(s, rechecks);
    case Spurious =>
    case Open =>
    case Close =>
  }

  lemma MissedByProducer<M(!new)>(s: State<M>, rechecks: bool, id: nat)
    requires Inv(s, rechecks) && s.closer.WokeAll? && id in s.producers
    ensures var n := ProducerStep(s, id); n.closer.WokeAll? && !Missed(n) && !Missed(s)
  {
    hide InOrder;
    var n := ProducerStep(s, id);
    if s.producers[id].Signalled? {
      assert n.queue != [];
    } else {
      assert id in n.producers;
    }
  }

  lemma MissedBySender<M(!new)>(s: State<M>, rechecks: bool)
    requires Inv(s, rechecks) && s.closer.WokeAll?
    ensures var n := SenderStep(s, rechecks); n.closer.WokeAll? && (Missed(n) <==> Missed(s))
  {
    hide InOrder;
  }

  lemma {:induction false} MissedRun<M(!new)>(s: State<M>, rechecks: bool, actions: seq<Action<M>>)
    requires Inv(s, rechecks) && s.closer.WokeAll? && forall i :: 0 <= i < |actions| ==> !IsCall(actions[i])
    ensures var n := Run(s, rechecks, false, actions);
            Inv(n, rechecks) && n.closer.WokeAll? && (Missed(n) <==> Missed(s))
    decreases |actions|
  {
    hide Step, Inv, Missed, IsCall;
    if actions != [] {
      var init := actions[..|actions| - 1];
      MissedRun(s, rechecks, init);
      var before := Run(s, rechecks, false, init);
      StepKeeps(before, rechecks, false, actions[|actions| - 1]);
      MissedStays(before, rechecks, actions[|actions| - 1]);
    }
  }

  /** Whether closing ends the sender is decided at the wake. From any reachable state in which `closeConnection` is about to
      wake, whatever the calls already begun and the sender do afterwards, once they have come to rest the sender ends by
      itself, unless at the wake nothing was queued, no call was under way and the sender had looked at `m_running` and
      not yet begun to wait. */
  lemma ClosingEndsIff<M(!new)>(s: State<M>, rechecks: bool, actions: seq<Action<M>>)
    requires Inv(s, rechecks) && s.closer.Cleared? && forall i :: 0 <= i < |actions| ==> !IsCall(actions[i])
    requires Quiet(Run(Step(s, rechecks, false, Close), rechecks, false, actions))
    ensures Ends(Run(Step(s, rechecks, false, Close), rechecks, false, actions), rechecks)
       <==> !(s.queue == [] && s.producers == map[] && (s.sender.WantLock? || s.sender.Test?))
  {
    hide Run, Inv, Ends;
    var woken := Step(s, rechecks, false, Close);
    StepKeeps(s, rechecks, false, Close);
    assert Missed(woken) <==> s.queue == [] && s.producers == map[] && (s.sender.WantLock? || s.sender.Test?);
    MissedRun(woken, rechecks, actions);
    EndsIff(Run(woken, rechecks, false, actions), rechecks);
  }

  /** A sender that waits when everyone else is through waits for good: the join in `closeConnection` does not return. */
  lemma {:induction false} WaitsForGood<M(!new)>(s: State<M>, rechecks: bool, actions: seq<Action<M>>)
    requires Quiet(s) && s.sender.Waiting? && s.started && forall i :: 0 <= i < |actions| ==> !IsCall(actions[i])
    ensures var n := Run(s, rechecks, false, actions); Quiet(n) && n.sender.Waiting? && n.started
    decreases |actions|
  {
    if actions != [] {
      WaitsForGood(s, rechecks, actions[..|actions| - 1]);
    }
  }

  /** And `closeConnection` can bring that about: it may clear `m_running` and wake between the sender's look at `m_running`
      and its wait. */
  lemma CloseMayMissTheSender<M(!new)>()
    ensures exists actions: seq<Action<M>> ::
              var s := Run(Initial<M>(false), false, false, actions); Quiet(s) && s.sender.Waiting? && s.started
  {
    hide Run, Step, IsCall;
    var s, on := Initial<M>(false), Initial<M>(true);
    var a2: seq<Action<M>> := [] + [Open, Send];
    var a4: seq<Action<M>> := a2 + [Close, Close];
    RunNothing(s, false);
    TwoMore(s, false, [], Open, Send);
    TwoMore(s, false, a2, Close, Close);
    TwoMore(s, false, a4, Send, Send);
    OpenThenSendQuietly<M>();
    CloseThenWait(on);
    assert Run(s, false, false, a4 + [Send, Send]).sender.Waiting?;
  }

  lemma OpenThenSendQuietly<M>()
    ensures Step(Step(Initial<M>(false), false, false, Open), false, false, Send) == Initial<M>(true).(sender := WantLock)
  {
  }

  lemma CloseThenWait<M>(on: State<M>)
    requires on == Initial<M>(true)
    ensures var closed := Step(Step(on.(sender := WantLock), false, false, Close), false, false, Close);
            var n := Step(Step(closed, false, false, Send), false, false, Send);
            Quiet(n) && n.sender.Waiting? && n.started
  {
  }

  // ---------------------------------------------------------------- opening

  /** `openConnection` has the same gap at the other end: the thread ends at once exactly if it looks at `m_running` before
      that is set. */
  lemma {:induction false} StartedTooEarly<M(!new)>(actions: seq<Action<M>>)
    requires forall i :: 0 <= i < |actions| ==> !actions[i].Open?
    ensures var s := Run(Initial<M>(false), false, false, actions);
            && !s.running && !s.started && s.closer.NotClosing?
            && (s.sender.Head? || s.sender.Through?)
            && (s.sender.Through? <==> exists i :: 0 <= i < |actions| && actions[i].Send?)
    decreases |actions|
  {
    if actions != [] {
      var init, last := actions[..|actions| - 1], actions[|actions| - 1];
      StartedTooEarly(init);
      if last.Send? { assert actions[|actions| - 1].Send?; }
      assert (exists i :: 0 <= i < |init| && init[i].Send?) ==> exists i :: 0 <= i < |actions| && actions[i].Send?;
    }
  }
}
