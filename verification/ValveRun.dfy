/** The valve tasks of one run: `myTaskFunction` and `dataSend683` of mainwindow.cpp as a state machine.

    Twenty tasks run in a thread pool. A task fills its own struct and passes it by value to `dataSend683`, which under
    `dataMutex` encodes it into the static buffer and copies the buffer, releases the mutex, and only then enqueues the
    copy. Every statement is a step of its own, and steps of different tasks interleave in any way the mutex allows. */
module ValveRun {
  import opened Wrappers
  import opened Signals
  import opened Frame683
  import WiperRun

  const TASKS := 20
  const LEFT_LIDAR := 4

  const NO_REQUEST := 0
  const OFF := 1
  const ON := 2
  const INTERMIT := 3

  // ---------------------------------------------------------------- what a task sends

  /** The spraying part of one table row. */
  datatype Row = Row(sprayDuration: int, cycleCount: int, openDuration: int, closeDuration: int)

  /** The valve, in the order of the message, that a task drives. */
  function ValveOf(t: nat): (v: nat)
    requires t < TASKS
    ensures v < VALVES
  {
    if t < 7 || t >= 17 then t else if t < 11 then t + 6 else t - 4
  }

  /** No two tasks drive the same valve. */
  lemma OwnValve(t: nat, u: nat)
    requires t < TASKS && u < TASKS
    ensures ValveOf(t) == ValveOf(u) <==> t == u
  {
  }

  /** `Cdccontrol1683_Reset`. */
  function Reset(): (c: Control)
    ensures c.Valid()
  {
    Control(seq(VALVES, _ => Valve(NO_REQUEST, 0, 0.0, 0.0)), [0, 0, 0, 0])
  }

  function Setting(t: nat, v: Valve): (c: Control)
    requires t < TASKS
    ensures c.Valid()
  {
    Reset().(valves := Reset().valves[ValveOf(t) := v])
  }

  function Request(power: int): Valve {
    Valve(power, 0, 0.0, 0.0)
  }

  /** The intermittent spray that a task asks for. The task of the left lidar valve exchanges two of the fields. */
  function Intermittent(t: nat, r: Row): Valve {
    if t == LEFT_LIDAR then Valve(INTERMIT, r.openDuration, r.cycleCount as real, r.closeDuration as real)
    else Valve(INTERMIT, r.cycleCount, r.openDuration as real, r.closeDuration as real)
  }

  /** The structs that a task sends, in order; none if its row is missing. */
  function Script(t: nat, row: Option<Row>): (script: seq<Control>)
    requires t < TASKS
    ensures forall k :: 0 <= k < |script| ==> script[k].Valid()
  {
    match row
    case None => []
    case Some(r) =>
      if r.sprayDuration > 0 then [Setting(t, Request(ON)), Setting(t, Request(OFF))]
      else if r.cycleCount > 0 then [Setting(t, Request(NO_REQUEST)), Setting(t, Intermittent(t, r))]
      else []
  }

  // ---------------------------------------------------------------- the machine

  datatype Position = Idle | Locked | Encoded | Copied(bytes: seq<Byte>) | Unlocked(bytes: seq<Byte>)

  /** `frames` is the history of `enqueueMessage(0x683, ...)`, `senders` the tasks it comes from, and `encoded` the tasks in
      the order in which they wrote the buffer. */
  datatype State = State(
    buffer: seq<Byte>, frames: seq<seq<Byte>>, senders: seq<nat>, encoded: seq<nat>, mutex: Option<nat>,
    finished: seq<nat>, at: seq<Position>)
  {
    predicate Shaped() {
      |buffer| == 64 && |finished| == TASKS && |at| == TASKS
    }
  }

  type Scripts = seq<seq<Control>>

  predicate AllValid(script: seq<Control>) {
    forall k :: 0 <= k < |script| ==> script[k].Valid()
  }

  predicate Ready(scripts: Scripts) {
    |scripts| == TASKS && forall t :: 0 <= t < TASKS ==> AllValid(scripts[t])
  }

  predicate Enabled(s: State, scripts: Scripts, t: nat)
    requires s.Shaped() && Ready(scripts)
  {
    t < TASKS && s.finished[t] < |scripts[t]| && (s.at[t].Idle? ==> s.mutex == None)
  }

  /** The next statement of task `t`; a task that has to wait, or is through, does not move. */
  ghost function Step(s: State, scripts: Scripts, t: nat): (n: State)
    requires s.Shaped() && Ready(scripts)
    ensures n.Shaped()
  {
    if !Enabled(s, scripts, t) then s
    else
      var k := s.finished[t];
      match s.at[t]
      case Idle => s.(mutex := Some(t), at := s.at[t := Locked])
      case Locked =>
        s.(buffer := Sent(s.buffer, scripts[t][k]), encoded := s.encoded + [t], at := s.at[t := Encoded])
      case Encoded => s.(at := s.at[t := Copied(s.buffer)])
      case Copied(bytes) => s.(mutex := None, at := s.at[t := Unlocked(bytes)])
      case Unlocked(bytes) =>
        s.(frames := s.frames + [bytes], senders := s.senders + [t], finished := s.finished[t := k + 1],
           at := s.at[t := Idle])
  }

  ghost function Run(s: State, scripts: Scripts, schedule: seq<nat>): (n: State)
    requires s.Shaped() && Ready(scripts)
    ensures n.Shaped()
    decreases |schedule|
  {
    if schedule == [] then s
    else Step(Run(s, scripts, schedule[..|schedule| - 1]), scripts, schedule[|schedule| - 1])
  }

  predicate Initial(s: State) {
    && s.Shaped() && s.frames == [] && s.senders == [] && s.encoded == [] && s.mutex == None
    && forall t :: 0 <= t < TASKS ==> s.finished[t] == 0 && s.at[t] == Idle
  }

  // ---------------------------------------------------------------- every frame is one struct of its own task

  /** Encoding over `f` gives what encoding over `base` gives: nothing in `f` outlives an update. */
  ghost predicate Stale(base: seq<Byte>, f: seq<Byte>) {
    |base| == 64 && |f| == 64 && forall c: Control :: c.Valid() ==> Sent(f, c) == Sent(base, c)
  }

  lemma StaleSent(base: seq<Byte>, f: seq<Byte>, a: Control)
    requires Stale(base, f) && a.Valid()
    ensures Stale(base, Sent(f, a)) && Sent(f, a) == Sent(base, a)
  {
    hide Sent, Control.Valid;
    forall c: Control | c.Valid() ensures Sent(Sent(f, a), c) == Sent(base, c) { UpdateForgets(f, a, c); }
  }

  /** What task `t` holds is its current struct, encoded. */
  ghost predicate TaskInv(s: State, base: seq<Byte>, scripts: Scripts, t: nat)
    requires s.Shaped() && Ready(scripts) && |base| == 64 && t < TASKS
  {
    && s.finished[t] == WiperRun.Count(s.senders, t) <= |scripts[t]|
    && (!s.at[t].Idle? ==> s.finished[t] < |scripts[t]|)
    && (s.at[t].Locked? || s.at[t].Encoded? || s.at[t].Copied? <==> s.mutex == Some(t))
    && (s.at[t].Encoded? ==> s.buffer == Sent(base, scripts[t][s.finished[t]]))
    && (s.at[t].Copied? || s.at[t].Unlocked? ==> s.at[t].bytes == Sent(base, scripts[t][s.finished[t]]))
  }

  ghost predicate FrameInv(s: State, base: seq<Byte>, scripts: Scripts, n: nat)
    requires Ready(scripts) && |base| == 64
  {
    n < |s.frames| && n < |s.senders| && s.senders[n] < TASKS
    && var k := WiperRun.Count(s.senders[..n], s.senders[n]);
       k < |scripts[s.senders[n]]| && s.frames[n] == Sent(base, scripts[s.senders[n]][k])
  }

  ghost predicate Inv(s: State, base: seq<Byte>, scripts: Scripts) {
    && s.Shaped() && Ready(scripts) && |base| == 64 && Stale(base, s.buffer) && |s.frames| == |s.senders|
    && (s.mutex.Some? ==> s.mutex.value < TASKS)
    && (forall t: nat :: t < TASKS ==> TaskInv(s, base, scripts, t))
    && (forall n: nat :: n < |s.frames| ==> FrameInv(s, base, scripts, n))
  }

  lemma CountMore(order: seq<nat>, t: nat, u: nat)
    ensures WiperRun.Count(order + [t], u) == WiperRun.Count(order, u) + (if t == u then 1 else 0)
  {
    assert (order + [t])[..|order|] == order;
  }

  lemma StepTask(s: State, base: seq<Byte>, scripts: Scripts, t: nat, u: nat)
    requires Inv(s, base, scripts) && Enabled(s, scripts, t) && u < TASKS
    ensures TaskInv(Step(s, scripts, t), base, scripts, u)
  {
    hide Sent, Stale, FrameInv, AllValid;
    assert TaskInv(s, base, scripts, t) && TaskInv(s, base, scripts, u);
    CountMore(s.senders, t, u);
    if s.at[t].Locked? {
      ScriptValid(scripts, t, s.finished[t]);
      StaleSent(base, s.buffer, scripts[t][s.finished[t]]);
    }
  }

  lemma ScriptValid(scripts: Scripts, t: nat, k: nat)
    requires Ready(scripts) && t < TASKS && k < |scripts[t]|
    ensures scripts[t][k].Valid()
  {
  }

  lemma StepFrame(s: State, base: seq<Byte>, scripts: Scripts, t: nat, n: nat)
    requires Inv(s, base, scripts) && Enabled(s, scripts, t) && n < |Step(s, scripts, t).frames|
    ensures FrameInv(Step(s, scripts, t), base, scripts, n)
  {
    hide Sent, Stale, AllValid;
    var next := Step(s, scripts, t);
    assert TaskInv(s, base, scripts, t);
    if n < |s.frames| {
      assert FrameInv(s, base, scripts, n);
      assert next.senders[..n] == s.senders[..n];
    } else {
      assert next.senders[..n] == s.senders;
    }
  }

  lemma StepStale(s: State, base: seq<Byte>, scripts: Scripts, t: nat)
    requires Inv(s, base, scripts) && Enabled(s, scripts, t)
    ensures var n := Step(s, scripts, t);
            Stale(base, n.buffer) && |n.frames| == |n.senders| && (n.mutex.Some? ==> n.mutex.value < TASKS)
  {
    hide Sent, Stale, AllValid, FrameInv, TaskInv;
    if s.at[t].Locked? {
      ScriptValid(scripts, t, s.finished[t]);
      StaleSent(base, s.buffer, scripts[t][s.finished[t]]);
    }
  }

  /** Every statement of every task keeps the invariant. */
  lemma StepKeeps(s: State, base: seq<Byte>, scripts: Scripts, t: nat)
    requires Inv(s, base, scripts)
    ensures Inv(Step(s, scripts, t), base, scripts)
  {
    hide Sent, Stale, AllValid, FrameInv, TaskInv, Enabled;
    if Enabled(s, scripts, t) {
      var n := Step(s, scripts, t);
      StepStale(s, base, scripts, t);
      forall u: nat | u < TASKS ensures TaskInv(n, base, scripts, u) { StepTask(s, base, scripts, t, u); }
      forall i: nat | i < |n.frames| ensures FrameInv(n, base, scripts, i) { StepFrame(s, base, scripts, t, i); }
    }
  }

  lemma {:induction false} RunKeeps(s: State, scripts: Scripts, schedule: seq<nat>)
    requires Initial(s) && Ready(scripts)
    ensures Inv(Run(s, scripts, schedule), s.buffer, scripts)
    decreases |schedule|
  {
    hide Step, Stale, FrameInv, AllValid, Sent;
    if schedule == [] {
      assert Stale(s.buffer, s.buffer) by { StaleSelf(s.buffer); }
      forall t: nat | t < TASKS ensures TaskInv(s, s.buffer, scripts, t) { assert s.at[t] == Idle; }
    } else {
      RunKeeps(s, scripts, schedule[..|schedule| - 1]);
      StepKeeps(Run(s, scripts, schedule[..|schedule| - 1]), s.buffer, scripts, schedule[|schedule| - 1]);
    }
  }

  lemma StaleSelf(f: seq<Byte>)
    requires |f| == 64
    ensures Stale(f, f)
  {
  }

  /** In every interleaving each enqueued frame is the encoding of one struct of the task that enqueued it, over the buffer as
      it was before the run: nothing of another task is left in it. A task's frames come in the order of its structs. */
  lemma FramesAreOwn(s: State, scripts: Scripts, schedule: seq<nat>, n: nat)
    requires Initial(s) && Ready(scripts) && n < |Run(s, scripts, schedule).frames|
    ensures var r := Run(s, scripts, schedule);
            && n < |r.senders| && r.senders[n] < TASKS
            && var t, k := r.senders[n], WiperRun.Count(r.senders[..n], r.senders[n]);
               k < |scripts[t]| && r.frames[n] == Sent(s.buffer, scripts[t][k])
  {
    hide Sent, Step, Stale, AllValid;
    RunKeeps(s, scripts, schedule);
    assert FrameInv(Run(s, scripts, schedule), s.buffer, scripts, n);
  }

  predicate AllThrough(s: State, scripts: Scripts)
    requires s.Shaped() && Ready(scripts)
  {
    forall t: nat :: t < TASKS ==> s.finished[t] == |scripts[t]|
  }

  /** When all tasks are through, each has enqueued one frame per struct. */
  lemma AllAreSent(s: State, scripts: Scripts, schedule: seq<nat>, t: nat)
    requires Initial(s) && Ready(scripts) && t < TASKS && AllThrough(Run(s, scripts, schedule), scripts)
    ensures WiperRun.Count(Run(s, scripts, schedule).senders, t) == |scripts[t]|
  {
    hide Sent, Step, Stale, AllValid, FrameInv;
    RunKeeps(s, scripts, schedule);
    assert TaskInv(Run(s, scripts, schedule), s.buffer, scripts, t);
  }

  /** As long as a task has structs left, some task can move. */
  lemma NoDeadlock(s: State, scripts: Scripts, schedule: seq<nat>)
    requires Initial(s) && Ready(scripts) && !AllThrough(Run(s, scripts, schedule), scripts)
    ensures exists t: nat :: Enabled(Run(s, scripts, schedule), scripts, t)
  {
    hide Sent, Step, Stale, AllValid, FrameInv;
    RunKeeps(s, scripts, schedule);
    var r := Run(s, scripts, schedule);
    var t: nat :| t < TASKS && r.finished[t] != |scripts[t]|;
    assert TaskInv(r, s.buffer, scripts, t);
    if r.mutex.Some? {
      assert TaskInv(r, s.buffer, scripts, r.mutex.value);
      assert Enabled(r, scripts, r.mutex.value);
    } else {
      assert Enabled(r, scripts, t);
    }
  }

  // ---------------------------------------------------------------- the order of the frames

  lemma OneMore(s: State, scripts: Scripts, schedule: seq<nat>, t: nat)
    requires s.Shaped() && Ready(scripts)
    ensures Run(s, scripts, schedule + [t]) == Step(Run(s, scripts, schedule), scripts, t)
  {
    hide Step;
    assert (schedule + [t])[..|schedule|] == schedule;
  }

  /** From the idle task to the unlocked copy, while nobody else is in between. */
  lemma Encodes(s: State, scripts: Scripts, t: nat)
    requires s.Shaped() && Ready(scripts) && t < TASKS && s.finished[t] < |scripts[t]|
    requires s.at[t] == Idle && s.mutex == None
    ensures var n := Step(Step(Step(Step(s, scripts, t), scripts, t), scripts, t), scripts, t);
            && n.encoded == s.encoded + [t] && n.senders == s.senders && n.mutex == None && n.finished == s.finished
            && n.at[t].Unlocked? && (forall u :: 0 <= u < TASKS && u != t ==> n.at[u] == s.at[u])
  {
    hide Sent, AllValid;
  }

  lemma FourMore(s: State, scripts: Scripts, schedule: seq<nat>, t: nat)
    requires s.Shaped() && Ready(scripts)
    ensures Run(s, scripts, schedule + [t] + [t] + [t] + [t])
         == Step(Step(Step(Step(Run(s, scripts, schedule), scripts, t), scripts, t), scripts, t), scripts, t)
  {
    hide Step, Run;
    OneMore(s, scripts, schedule, t);
    OneMore(s, scripts, schedule + [t], t);
    OneMore(s, scripts, schedule + [t] + [t], t);
    OneMore(s, scripts, schedule + [t] + [t] + [t], t);
  }

  /** Frames need not be enqueued in the order in which they were encoded: of any two tasks with something to send, the one
      that encodes first may enqueue second. */
  lemma OrderMayChange(s: State, scripts: Scripts, t: nat, u: nat)
    requires Initial(s) && Ready(scripts) && t < TASKS && u < TASKS && t != u && scripts[t] != [] && scripts[u] != []
    ensures exists schedule: seq<nat> ::
              var r := Run(s, scripts, schedule); r.encoded == [t, u] && r.senders == [u, t]
  {
    hide Sent, AllValid, Run;
    var first: seq<nat> := [] + [t] + [t] + [t] + [t];
    var second := first + [u] + [u] + [u] + [u];
    FourMore(s, scripts, [], t);
    FourMore(s, scripts, first, u);
    assert Run(s, scripts, []) == s by { NoRun(s, scripts); }
    Encodes(s, scripts, t);
    var a := Run(s, scripts, first);
    Encodes(a, scripts, u);
    var b := Run(s, scripts, second);
    OneMore(s, scripts, second, u);
    OneMore(s, scripts, second + [u], t);
    Enqueues(b, scripts, u);
    Enqueues(Step(b, scripts, u), scripts, t);
    assert Run(s, scripts, second + [u] + [t]).senders == [u, t];
  }

  lemma NoRun(s: State, scripts: Scripts)
    requires s.Shaped() && Ready(scripts)
    ensures Run(s, scripts, []) == s
  {
  }

  lemma Enqueues(s: State, scripts: Scripts, t: nat)
    requires s.Shaped() && Ready(scripts) && t < TASKS && s.finished[t] < |scripts[t]| && s.at[t].Unlocked?
    ensures var n := Step(s, scripts, t);
            && n.encoded == s.encoded && n.senders == s.senders + [t]
            && (forall u :: 0 <= u < TASKS && u != t ==> n.at[u] == s.at[u] && n.finished[u] == s.finished[u])
  {
    hide Sent, AllValid;
  }

  // ---------------------------------------------------------------- what the frames say

  lemma StepsOfNothing(limit: real, step: real)
    requires limit >= 0.0 && step > 0.0
    ensures Steps(limit, step, 0.0) == 0
  {
    assert 0.0 / step == 0.0;
  }

  /** A frame of task `t` asks nothing of any other valve. */
  lemma OthersUntouched(base: seq<Byte>, t: nat, v: Valve, i: nat)
    requires |base| == 64 && t < TASKS && i < VALVES && i != ValveOf(t)
    ensures var g := Sent(base, Setting(t, v));
            && Extract(g, 16 + 2 * i, 2) == NO_REQUEST && Extract(g, 56 + 16 * i, 4) == 0
            && Extract(g, 60 + 16 * i, 6) == 0 && Extract(g, 66 + 16 * i, 6) == 0
  {
    hide Sent, Extract, Steps;
    var c := Setting(t, v);
    assert c.valves[i] == Valve(NO_REQUEST, 0, 0.0, 0.0);
    ValveReadsBack(base, c, i);
    StepsOfNothing(200.0, 5.0);
    StepsOfNothing(2000.0, 50.0);
  }

  /** What the frame of an intermittent spray asks of the task's own valve. */
  lemma IntermittentRead(base: seq<Byte>, t: nat, r: Row)
    requires |base| == 64 && t < TASKS
    ensures var g, i, v := Sent(base, Setting(t, Intermittent(t, r))), ValveOf(t), Intermittent(t, r);
            && Extract(g, 16 + 2 * i, 2) == INTERMIT
            && Extract(g, 56 + 16 * i, 4) == Clamp(0, 15, v.sprayNum)
            && Extract(g, 60 + 16 * i, 6) == Steps(200.0, 5.0, v.openDrtn)
            && Extract(g, 66 + 16 * i, 6) == Steps(2000.0, 50.0, r.closeDuration as real)
  {
    hide Sent, Extract, Steps;
    ValveReadsBack(base, Setting(t, Intermittent(t, r)), ValveOf(t));
  }

  /** The frame of an intermittent spray asks for the row's cycle count and open duration exactly if it is not that of the
      left lidar valve, or the two are the same to the message. */
  lemma AsTheRowSays(base: seq<Byte>, t: nat, r: Row)
    requires |base| == 64 && t < TASKS
    ensures var g, i := Sent(base, Setting(t, Intermittent(t, r))), ValveOf(t);
            (&& Extract(g, 56 + 16 * i, 4) == Clamp(0, 15, r.cycleCount)
             && Extract(g, 60 + 16 * i, 6) == Steps(200.0, 5.0, r.openDuration as real))
            <==> t != LEFT_LIDAR
                 || (&& Clamp(0, 15, r.openDuration) == Clamp(0, 15, r.cycleCount)
                     && Steps(200.0, 5.0, r.cycleCount as real) == Steps(200.0, 5.0, r.openDuration as real))
  {
    hide Sent, Extract, Steps, Clamp;
    IntermittentRead(base, t, r);
  }

  /** Three sprays of 100 on the left lidar valve come out as fifteen of nothing. */
  lemma LeftLidarExchanged(base: seq<Byte>)
    requires |base| == 64
    ensures var g := Sent(base, Setting(LEFT_LIDAR, Intermittent(LEFT_LIDAR, Row(0, 3, 100, 100))));
            Extract(g, 120, 4) == 15 && Extract(g, 124, 6) == 0
  {
    hide Sent, Extract;
    IntermittentRead(base, LEFT_LIDAR, Row(0, 3, 100, 100));
    assert 3.0 / 5.0 == 0.6;
  }

  // ---------------------------------------------------------------- whole tasks

  /** Where the message carries the power request of the valve that a task is named after, task by task: right lidar, right
      fisheye, front lidar, front fisheye, left lidar, left fisheye, left panorama; rear left, rear right and rear fisheye
      cameras, rear lidar; back camera, main lidar, left front, right front, left and right cameras; front, middle and rear
      chassis. */
  const POWER_BITS: seq<nat> :=
    [16, 18, 20, 22, 24, 26, 28, 42, 44, 46, 48, 30, 32, 34, 36, 38, 40, 50, 52, 54]

  lemma PowerBit(t: nat)
    requires t < TASKS
    ensures POWER_BITS[t] == 16 + 2 * ValveOf(t)
  {
  }

  /** A request without a spray pattern: the power alone. */
  lemma RequestRead(base: seq<Byte>, t: nat, power: int)
    requires |base| == 64 && t < TASKS && 0 <= power < 4
    ensures var g, i := Sent(base, Setting(t, Request(power))), ValveOf(t);
            && Extract(g, POWER_BITS[t], 2) == power && Extract(g, 56 + 16 * i, 4) == 0
            && Extract(g, 60 + 16 * i, 6) == 0 && Extract(g, 66 + 16 * i, 6) == 0
  {
    hide Sent, Extract, Steps;
    PowerBit(t);
    ValveReadsBack(base, Setting(t, Request(power)), ValveOf(t));
    StepsOfNothing(200.0, 5.0);
    StepsOfNothing(2000.0, 50.0);
  }

  /** The frames of a task, in the bits of its own valve: a spray is switched on (2) and off (1); an intermittent spray is
      reset (0) and then asked for (3); a row that asks for neither, or no row, sends nothing. */
  lemma TaskFrames(base: seq<Byte>, t: nat, row: Option<Row>)
    requires |base| == 64 && t < TASKS
    ensures var script, at := Script(t, row), POWER_BITS[t];
            && (row.None? || (row.value.sprayDuration <= 0 && row.value.cycleCount <= 0) ==> script == [])
            && (row.Some? && row.value.sprayDuration > 0 ==>
                  |script| == 2 && Extract(Sent(base, script[0]), at, 2) == 2 && Extract(Sent(base, script[1]), at, 2) == 1)
            && (row.Some? && row.value.sprayDuration <= 0 && row.value.cycleCount > 0 ==>
                  |script| == 2 && Extract(Sent(base, script[0]), at, 2) == 0 && Extract(Sent(base, script[1]), at, 2) == 3)
  {
    hide Sent, Extract, Steps, ValveOf, Setting;
    RequestRead(base, t, 0);
    RequestRead(base, t, 1);
    RequestRead(base, t, 2);
    PowerBit(t);
    if row.Some? { IntermittentRead(base, t, row.value); }
  }
}
