/** The wiper threads of one run: `on_timerMake0` and `dataSend443` of mainwindow.cpp as a state machine.

    Each wiper has its own thread, which performs a list of updates. An update takes `dataMutex1`, assigns the wiper's three
    fields in the shared struct one by one, passes the struct by value to `dataSend443`, which under `dataMutex0` encodes
    it into the static buffer and copies the buffer, and then enqueues the copy before `dataMutex1` is released. Every
    statement is a step of its own, and steps of different threads interleave in any way the mutexes allow. Delays are
    pauses between steps. */
module WiperRun {
  import opened Wrappers
  import opened Signals
  import opened Frame443

  const ACTIVE := 1
  const STANDBY := 2

  /** The cleaning part of one table row; the frequencies are positive, the source divides by them. */
  datatype Row = Row(cleanCount: int, cleanFrequency: int, waterCount: int, waterFrequency: int)

  const Parked := Command(STANDBY, 0, 0)

  /** The four lidar wipers are parked once before they start. */
  predicate ParksFirst(w: nat) {
    w == 6 || w == 7 || w == 8 || w == 11
  }

  /** The updates that `on_timerMake0` performs for wiper `w`, in order; none if its row is missing. */
  function Script(w: nat, row: Option<Row>): seq<Command> {
    if row.None? then []
    else
      var r := row.value;
      (if r.cleanCount > 0 then
         (if ParksFirst(w) then [Parked] else []) + [Command(ACTIVE, r.cleanFrequency, r.cleanCount), Parked]
       else [])
      + (if r.waterCount > 0 then [Command(ACTIVE, r.waterFrequency, r.waterCount), Parked] else [])
  }

  /** Where a thread is. `Called` and `InData` hold the by-value argument of `dataSend443`, `Copied` and `Unlocked` its
      local copy of the buffer. */
  datatype Position = Idle | Locked | CtlSet | FrequencySet | NumberSet | Called(arg: Settings) | InData(arg: Settings)
                    | Encoded | Copied(bytes: seq<Byte>) | Unlocked(bytes: seq<Byte>) | Enqueued

  /** `frames` is the history of `enqueueMessage(0x443, ...)`; `order` records which threads got `dataMutex1`. */
  datatype State = State(
    shared: Settings, buffer: seq<Byte>, frames: seq<seq<Byte>>, mutex1: Option<nat>, mutex0: Option<nat>,
    finished: seq<nat>, at: seq<Position>, order: seq<nat>)
  {
    predicate Shaped() {
      shared.Valid() && |buffer| == 64 && |finished| == WIPERS && |at| == WIPERS
    }
  }

  type Scripts = seq<seq<Command>>

  function SetWiper(c: Settings, w: nat, v: Wiper): (r: Settings)
    requires c.Valid() && w < WIPERS
    ensures r.Valid()
  {
    c.(wipers := c.wipers[w := v])
  }

  /** Whether thread `t` can take its next step. */
  predicate Enabled(s: State, scripts: Scripts, t: nat)
    requires s.Shaped() && |scripts| == WIPERS
  {
    t < WIPERS &&
    match s.at[t]
    case Idle => s.finished[t] < |scripts[t]| && s.mutex1 == None
    case Called(_) => s.mutex0 == None
    case _ => true
  }

  /** The next statement of thread `t`; a thread that has to wait, or is through, does not move. */
  function Step(s: State, scripts: Scripts, t: nat): State
    requires s.Shaped() && |scripts| == WIPERS
  {
    if !Enabled(s, scripts, t) then s
    else
      var k := s.finished[t];
      var v := s.shared.wipers[t];
      var next := if k < |scripts[t]| then scripts[t][k] else Parked;
      match s.at[t]
      case Idle => s.(mutex1 := Some(t), at := s.at[t := Locked], order := s.order + [t])
      case Locked => s.(shared := SetWiper(s.shared, t, v.(ctl := next.ctl)), at := s.at[t := CtlSet])
      case CtlSet => s.(shared := SetWiper(s.shared, t, v.(frequency := next.frequency)), at := s.at[t := FrequencySet])
      case FrequencySet => s.(shared := SetWiper(s.shared, t, v.(number := next.number)), at := s.at[t := NumberSet])
      case NumberSet => s.(at := s.at[t := Called(s.shared)])
      case Called(arg) => s.(mutex0 := Some(t), at := s.at[t := InData(arg)])
      case InData(arg) =>
        s.(buffer := if arg.Valid() then Sent(s.buffer, arg) else s.buffer, at := s.at[t := Encoded])
      case Encoded => s.(at := s.at[t := Copied(s.buffer)])
      case Copied(bytes) => s.(mutex0 := None, at := s.at[t := Unlocked(bytes)])
      case Unlocked(bytes) => s.(frames := s.frames + [bytes], at := s.at[t := Enqueued])
      case Enqueued => s.(mutex1 := None, at := s.at[t := Idle], finished := s.finished[t := k + 1])
  }

  /** The state after the threads have been scheduled in the given order. */
  function Run(s: State, scripts: Scripts, schedule: seq<nat>): State
    requires s.Shaped() && |scripts| == WIPERS
    ensures Run(s, scripts, schedule).Shaped()
    decreases |schedule|
  {
    if schedule == [] then s
    else
      StepShaped(Run(s, scripts, schedule[..|schedule| - 1]), scripts, schedule[|schedule| - 1]);
      Step(Run(s, scripts, schedule[..|schedule| - 1]), scripts, schedule[|schedule| - 1])
  }

  lemma StepShaped(s: State, scripts: Scripts, t: nat)
    requires s.Shaped() && |scripts| == WIPERS
    ensures Step(s, scripts, t).Shaped()
  {
    hide Sent;
  }

  predicate Initial(s: State) {
    && s.Shaped() && s.frames == [] && s.mutex1 == None && s.mutex0 == None && s.order == []
    && forall w :: 0 <= w < WIPERS ==> s.finished[w] == 0 && s.at[w] == Idle
  }

  // ---------------------------------------------------------------- what the frames should show

  function Count(order: seq<nat>, w: nat): nat {
    if order == [] then 0 else Count(order[..|order| - 1], w) + (if order[|order| - 1] == w then 1 else 0)
  }

  /** The command wiper `w` has after `n` updates of its own thread. */
  function Latest(init: seq<Command>, scripts: Scripts, w: nat, n: nat): Command
    requires w < |init| && w < |scripts|
  {
    if 0 < n <= |scripts[w]| then scripts[w][n - 1] else init[w]
  }

  /** A message in which every wiper has the latest command of its own thread, after the critical sections in `order`. */
  ghost predicate Shows(frame: seq<Byte>, init: seq<Command>, scripts: Scripts, order: seq<nat>)
    requires |init| == WIPERS && |scripts| == WIPERS
  {
    |frame| == 64 &&
    forall w :: 0 <= w < WIPERS ==> Read(frame, w) == Cut(Latest(init, scripts, w, Count(order, w)))
  }

  /** The same for the struct. */
  ghost predicate Holds(c: Settings, init: seq<Command>, scripts: Scripts, order: seq<nat>)
    requires |init| == WIPERS && |scripts| == WIPERS
  {
    c.Valid() &&
    forall w :: 0 <= w < WIPERS ==> CommandOf(c.wipers[w]) == Latest(init, scripts, w, Count(order, w))
  }

  /** The fields of the updating thread's wiper, partly old and partly new. */
  predicate Partly(v: Wiper, at: Position, before: Command, next: Command) {
    match at
    case Idle => CommandOf(v) == before
    case Locked => CommandOf(v) == before
    case CtlSet => CommandOf(v) == Command(next.ctl, before.frequency, before.number)
    case FrequencySet => CommandOf(v) == Command(next.ctl, next.frequency, before.number)
    case _ => CommandOf(v) == next
  }

  /** What the updating thread carries with it is the whole new struct, or its encoding. */
  ghost predicate Carries(at: Position, buffer: seq<Byte>, init: seq<Command>, scripts: Scripts, order: seq<nat>)
    requires |init| == WIPERS && |scripts| == WIPERS
  {
    match at
    case Called(arg) => Holds(arg, init, scripts, order)
    case InData(arg) => Holds(arg, init, scripts, order)
    case Encoded => Shows(buffer, init, scripts, order)
    case Copied(bytes) => Shows(bytes, init, scripts, order)
    case Unlocked(bytes) => Shows(bytes, init, scripts, order)
    case _ => true
  }

  predicate HoldsMutex0(at: Position) {
    at.InData? || at.Encoded? || at.Copied?
  }

  /** The critical sections of `dataMutex1`, and those whose frame is already enqueued. */
  predicate Bookkeeping(s: State)
    requires s.Shaped()
  {
    match s.mutex1
    case None => (forall w :: 0 <= w < WIPERS ==> s.at[w] == Idle) && s.mutex0 == None && |s.frames| == |s.order|
    case Some(t) =>
      && t < WIPERS && s.at[t] != Idle && (forall w :: 0 <= w < WIPERS && w != t ==> s.at[w] == Idle)
      && s.mutex0 == (if HoldsMutex0(s.at[t]) then Some(t) else None)
      && s.order != [] && s.order[|s.order| - 1] == t
      && |s.frames| == if s.at[t].Enqueued? then |s.order| else |s.order| - 1
  }

  ghost predicate Inv(s: State, init: seq<Command>, scripts: Scripts) {
    && s.Shaped() && |init| == WIPERS && |scripts| == WIPERS && Bookkeeping(s)
    && (forall w :: 0 <= w < WIPERS ==> WiperInv(s, init, scripts, w))
    && (s.mutex1.Some? ==> Carries(s.at[s.mutex1.value], s.buffer, init, scripts, s.order))
    && (forall n :: 0 <= n < |s.frames| ==> Shows(s.frames[n], init, scripts, s.order[..n + 1]))
  }

  predicate WiperInv(s: State, init: seq<Command>, scripts: Scripts, w: nat)
    requires s.Shaped() && |init| == WIPERS && |scripts| == WIPERS && w < WIPERS
  {
    var k := s.finished[w];
    && Count(s.order, w) == (if s.at[w] == Idle then k else k + 1)
    && (if s.at[w] == Idle then k <= |scripts[w]| else k < |scripts[w]|)
    && Partly(s.shared.wipers[w], s.at[w], Latest(init, scripts, w, k), Latest(init, scripts, w, k + 1))
  }

  // ---------------------------------------------------------------- every step keeps the invariant

  lemma StepBookkeeping(s: State, scripts: Scripts, t: nat)
    requires s.Shaped() && |scripts| == WIPERS && Bookkeeping(s) && Enabled(s, scripts, t)
    ensures Step(s, scripts, t).Shaped() && Bookkeeping(Step(s, scripts, t))
  {
    hide Sent;
  }

  /** Steps of other threads do not concern wiper `w`. */
  lemma StepOthers(s: State, init: seq<Command>, scripts: Scripts, t: nat, w: nat)
    requires Inv(s, init, scripts) && Enabled(s, scripts, t) && w < WIPERS && w != t
    ensures Step(s, scripts, t).Shaped() && WiperInv(Step(s, scripts, t), init, scripts, w)
  {
    hide Sent, Shows, Carries, Bookkeeping;
    assert WiperInv(s, init, scripts, w);
    var n := Step(s, scripts, t);
    assert s.at[t] == Idle ==> n.order[..|n.order| - 1] == s.order;
  }

  lemma StepOwn(s: State, init: seq<Command>, scripts: Scripts, t: nat)
    requires Inv(s, init, scripts) && Enabled(s, scripts, t)
    ensures Step(s, scripts, t).Shaped() && WiperInv(Step(s, scripts, t), init, scripts, t)
  {
    hide Sent, Shows, Carries, Bookkeeping;
    assert WiperInv(s, init, scripts, t);
    var n := Step(s, scripts, t);
    assert s.at[t] == Idle ==> n.order[..|n.order| - 1] == s.order;
  }

  /** When the fields are all set, the whole struct holds the latest commands. */
  lemma StructHolds(s: State, init: seq<Command>, scripts: Scripts, t: nat)
    requires Inv(s, init, scripts) && t < WIPERS && s.at[t] == NumberSet
    ensures Holds(s.shared, init, scripts, s.order)
  {
    hide Shows, Carries;
    forall w | 0 <= w < WIPERS ensures CommandOf(s.shared.wipers[w]) == Latest(init, scripts, w, Count(s.order, w)) {
      assert WiperInv(s, init, scripts, w);
    }
  }

  /** Encoding a struct that holds the latest commands gives a message that shows them. */
  lemma EncodingShows(f: seq<Byte>, c: Settings, init: seq<Command>, scripts: Scripts, order: seq<nat>)
    requires |f| == 64 && |init| == WIPERS && |scripts| == WIPERS && Holds(c, init, scripts, order)
    ensures Shows(Sent(f, c), init, scripts, order)
  {
    hide Sent, Read, Latest;
    forall w | 0 <= w < WIPERS
      ensures Read(Sent(f, c), w) == Cut(Latest(init, scripts, w, Count(order, w)))
    {
      CommandReadsBack(f, c, w);
    }
  }

  lemma StepCarries(s: State, init: seq<Command>, scripts: Scripts, t: nat)
    requires Inv(s, init, scripts) && Enabled(s, scripts, t)
    ensures var n := Step(s, scripts, t);
            n.Shaped() && (n.mutex1.Some? ==> n.mutex1.value == t && Carries(n.at[t], n.buffer, init, scripts, n.order))
  {
    hide Sent, Shows, Holds, WiperInv;
    if s.at[t].NumberSet? {
      StructHolds(s, init, scripts, t);
    } else if s.at[t].InData? {
      HoldsValid(s.at[t].arg, init, scripts, s.order);
      EncodingShows(s.buffer, s.at[t].arg, init, scripts, s.order);
    }
  }

  lemma HoldsValid(c: Settings, init: seq<Command>, scripts: Scripts, order: seq<nat>)
    requires |init| == WIPERS && |scripts| == WIPERS && Holds(c, init, scripts, order)
    ensures c.Valid()
  {
  }

  lemma StepFrames(s: State, init: seq<Command>, scripts: Scripts, t: nat)
    requires Inv(s, init, scripts) && Enabled(s, scripts, t)
    ensures var n := Step(s, scripts, t);
            |n.frames| <= |n.order| &&
            forall i :: 0 <= i < |n.frames| ==> Shows(n.frames[i], init, scripts, n.order[..i + 1])
  {
    hide Sent, Shows, Holds, WiperInv;
    var n := Step(s, scripts, t);
    forall i | 0 <= i < |n.frames| ensures Shows(n.frames[i], init, scripts, n.order[..i + 1]) {
      if i < |s.frames| {
        assert n.order[..i + 1] == s.order[..i + 1];
      } else {
        assert n.order[..i + 1] == s.order;
      }
    }
  }

  lemma StepInv(s: State, init: seq<Command>, scripts: Scripts, t: nat)
    requires Inv(s, init, scripts)
    ensures Inv(Step(s, scripts, t), init, scripts)
  {
    hide Sent, Shows, Carries, WiperInv, Bookkeeping, Step;
    if Enabled(s, scripts, t) {
      StepBookkeeping(s, scripts, t);
      StepOwn(s, init, scripts, t);
      StepCarries(s, init, scripts, t);
      StepFrames(s, init, scripts, t);
      forall w | 0 <= w < WIPERS ensures WiperInv(Step(s, scripts, t), init, scripts, w) {
        if w != t { StepOthers(s, init, scripts, t, w); }
      }
    } else {
      Waits(s, scripts, t);
    }
  }

  lemma Waits(s: State, scripts: Scripts, t: nat)
    requires s.Shaped() && |scripts| == WIPERS && !Enabled(s, scripts, t)
    ensures Step(s, scripts, t) == s
  {
  }

  // ---------------------------------------------------------------- results for every interleaving

  function InitialCommands(s: State): (init: seq<Command>)
    requires s.Shaped()
    ensures |init| == WIPERS
  {
    seq(WIPERS, w requires 0 <= w < WIPERS => CommandOf(s.shared.wipers[w]))
  }

  lemma {:induction false} RunInv(s: State, scripts: Scripts, schedule: seq<nat>)
    requires Initial(s) && |scripts| == WIPERS
    ensures Inv(Run(s, scripts, schedule), InitialCommands(s), scripts)
    decreases |schedule|
  {
    hide Step, Shows, Carries;
    if schedule != [] {
      RunInv(s, scripts, schedule[..|schedule| - 1]);
      StepInv(Run(s, scripts, schedule[..|schedule| - 1]), InitialCommands(s), scripts, schedule[|schedule| - 1]);
    }
  }

  /** Each message is an atomic snapshot, and messages are enqueued in the order in which `dataMutex1` was taken: the `n`-th
      shows for every wiper the latest whole update of its own thread among the first `n + 1` critical sections. */
  lemma FramesAreSnapshots(s: State, scripts: Scripts, schedule: seq<nat>, n: nat, w: nat)
    requires Initial(s) && |scripts| == WIPERS && w < WIPERS
    requires n < |Run(s, scripts, schedule).frames|
    ensures var r := Run(s, scripts, schedule);
            && n < |r.order| && |r.frames[n]| == 64
            && Read(r.frames[n], w) == Cut(Latest(InitialCommands(s), scripts, w, Count(r.order[..n + 1], w)))
  {
    hide Step, Read, Latest, Run, Carries, WiperInv;
    RunInv(s, scripts, schedule);
    var r := Run(s, scripts, schedule);
    assert Shows(r.frames[n], InitialCommands(s), scripts, r.order[..n + 1]);
  }

  /** Every thread has performed its whole list and stands outside the critical section. */
  predicate AllThrough(s: State, scripts: Scripts)
    requires s.Shaped() && |scripts| == WIPERS
  {
    forall w :: 0 <= w < WIPERS ==> s.at[w] == Idle && s.finished[w] == |scripts[w]|
  }

  lemma ScriptParks(w: nat, row: Option<Row>)
    ensures var script := Script(w, row); script != [] ==> script[|script| - 1] == Parked
  {
  }

  /** What a row asks of its wiper: strokes with the count and frequency for cleaning, then those with the count and frequency
      for rinsing, each only if its count is positive, and each followed by standby; the four lidar wipers go to standby
      first. Standby is control 2 with nothing else, strokes are control 1. */
  lemma ScriptAsks(w: nat, row: Option<Row>)
    ensures var script := Script(w, row);
            && (row.None? ==> script == [])
            && (row.Some? ==>
                  var r := row.value;
                  var cleans, rinses := r.cleanCount > 0, r.waterCount > 0;
                  var lidar := w in {RI_BLID, LE_BLID, FR_BLID, RE_BLID_RAC};
                  var from := if !cleans then 0 else if lidar then 3 else 2;
                  && |script| == from + (if rinses then 2 else 0)
                  && (cleans ==> script[from - 2] == Command(1, r.cleanFrequency, r.cleanCount)
                                 && script[from - 1] == Command(2, 0, 0) && (lidar ==> script[0] == Command(2, 0, 0)))
                  && (rinses ==> script[from] == Command(1, r.waterFrequency, r.waterCount)
                                 && script[from + 1] == Command(2, 0, 0)))
  {
  }

  /** Once all threads are through, every wiper that ran is parked, in the struct and in the last message; the others are as
      they were. */
  lemma ParkedAtTheEnd(s: State, rows: seq<Option<Row>>, schedule: seq<nat>, w: nat)
    requires Initial(s) && |rows| == WIPERS && w < WIPERS
    requires var scripts := seq(WIPERS, i requires 0 <= i < WIPERS => Script(i, rows[i]));
             AllThrough(Run(s, scripts, schedule), scripts)
    ensures var scripts := seq(WIPERS, i requires 0 <= i < WIPERS => Script(i, rows[i]));
            var r := Run(s, scripts, schedule);
            var last := if Script(w, rows[w]) == [] then CommandOf(s.shared.wipers[w]) else Parked;
            && CommandOf(r.shared.wipers[w]) == last
            && (r.frames != [] ==> |r.frames[|r.frames| - 1]| == 64 && Read(r.frames[|r.frames| - 1], w) == Cut(last))
  {
    hide Step, Read, Run, Carries, Script;
    var scripts := seq(WIPERS, i requires 0 <= i < WIPERS => Script(i, rows[i]));
    var r := Run(s, scripts, schedule);
    RunInv(s, scripts, schedule);
    ScriptParks(w, rows[w]);
    assert WiperInv(r, InitialCommands(s), scripts, w);
    assert r.mutex1 == None;
    if r.frames != [] {
      var n := |r.frames| - 1;
      assert r.order[..n + 1] == r.order;
      FramesAreSnapshots(s, scripts, schedule, n, w);
    }
  }

  /** The nested mutexes never block the run: as long as a thread has updates left, some thread can move. */
  lemma NoDeadlock(s: State, scripts: Scripts, schedule: seq<nat>)
    requires Initial(s) && |scripts| == WIPERS && !AllThrough(Run(s, scripts, schedule), scripts)
    ensures exists t: nat :: Enabled(Run(s, scripts, schedule), scripts, t)
  {
    hide Step, Run, Carries, Shows;
    var r := Run(s, scripts, schedule);
    RunInv(s, scripts, schedule);
    if r.mutex1 == None {
      var w :| 0 <= w < WIPERS && !(r.at[w] == Idle && r.finished[w] == |scripts[w]|);
      assert WiperInv(r, InitialCommands(s), scripts, w);
      assert Enabled(r, scripts, w);
    } else {
      assert Enabled(r, scripts, r.mutex1.value);
    }
  }
}
