/**
 The shutdown of a stress-test receiver: Receiver.cpp, MessagingTask.cpp and the
 close of TestSenderAndReceiver.cpp. The reader thread, any number of pool
 tasks and the closing owner take atomic steps in any order. A listener is
 registered from the start.
 */
module Shutdown {
  import opened SequenceCheck

  /** How a received message reaches the listener. */
  datatype Mode =
    | Pool          // a task, run by a thread of the pool
    | NoExecutor    // a task, run at once by the reader: the pool has no threads
    | Direct        // no task

  /** A place in executeMessagingTask, or in the queue before it. */
  datatype TaskPc = Queued | Checking | Calling | Decreasing | Ended
  {
    function Rank(): nat {
      match this
      case Queued => 4
      case Checking => 3
      case Calling => 2
      case Decreasing => 1
      case Ended => 0
    }
  }

  /** A place in Receiver::run. */
  datatype ReaderPc =
    | Looping
    | Receiving
    | Received(message: bool, error: bool)
    | Deciding(message: bool, error: bool)
    | Created                                  // a task is made, but not counted
    | Increased                                // it is counted, but not queued
    | Running(task: TaskPc, counted: bool)     // the reader runs the listener itself
    | ReadingTimeout
    | Awaiting
    | Terminated

  /** A place in TestSenderAndReceiver::close: closing, then deleting the receiver. */
  datatype CloserPc = Outside | Joining | Joined | DeletingTemplate | Waiting | Freed

  datatype State = State(
    mode: Mode,
    reader: ReaderPc,
    tasks: seq<TaskPc>,     // every task ever queued in the pool
    closer: CloserPc,
    closing: bool,
    template: bool,         // the CmsTemplate exists
    counter: int,           // numOfMessagingTasks
    lost: nat)              // the counted tasks whose listener threw
  {
    /** The tasks whose receiver pointer will still be followed. */
    function Pending(): nat {
      CountPending(tasks)
    }

    /** What the reader adds to the counter. */
    function ReaderShare(): nat {
      if reader.Increased? || (reader.Running? && reader.counted) then 1 else 0
    }

    /** What every step keeps. */
    ghost predicate Inv() {
      && counter == Pending() + ReaderShare() + lost
      && (reader.Running? ==> reader.task in {Checking, Calling, Decreasing})
      && (reader.Running? ==> (reader.counted <==> mode != Direct) && (reader.task == Decreasing ==> reader.counted))
      && (reader.Created? || reader.Increased? ==> mode != Direct)
      && (tasks != [] ==> mode == Pool)
      && (closer != Outside ==> closing)
      && (closer in {Joined, DeletingTemplate, Waiting, Freed} ==> reader == Terminated)
      && (!template <==> closer in {Waiting, Freed})
      && (closer == Freed ==> counter == 0)
      && (mode == Direct ==> lost == 0)
    }
  }

  function CountPending(tasks: seq<TaskPc>): nat {
    if tasks == [] then 0
    else CountPending(tasks[..|tasks| - 1]) + if tasks[|tasks| - 1] == Ended then 0 else 1
  }

  function Start(mode: Mode): State {
    State(mode, Looping, [], Outside, false, true, 0, 0)
  }

  /** Who moves, with what the environment decides for that move. */
  datatype Step =
    | Reader(message: bool, error: bool, quit: bool, throws: bool)
    | Worker(i: nat, throws: bool)
    | Closer

  predicate Enabled(s: State, step: Step) {
    match step
    case Reader(_, _, _, _) => s.reader != Terminated
    case Worker(i, _) => i < |s.tasks| && s.tasks[i] != Ended
    case Closer =>
      match s.closer
      case Joining => s.reader == Terminated
      case Waiting => s.counter <= 0
      case Freed => false
      case _ => true
  }

  /** The step goes through the receiver's pointer to its template, without a check for null. */
  predicate UsesTemplate(s: State, step: Step) {
    step.Reader? && s.reader == ReadingTimeout
  }

  function Next(s: State, step: Step): State
    requires Enabled(s, step)
  {
    match step
    case Reader(message, error, quit, throws) => ReaderNext(s, message, error, quit, throws)
    case Worker(i, throws) =>
      var t := TaskNext(s, s.tasks[i], true, throws);
      s.(tasks := s.tasks[i := t.0], counter := t.1, lost := t.2)
    case Closer =>
      match s.closer
      case Outside => s.(closer := Joining, closing := true)
      case Joining => s.(closer := Joined)
      case Joined => s.(closer := DeletingTemplate, closing := true)
      case DeletingTemplate => s.(closer := Waiting, template := false)
      case Waiting => s.(closer := Freed)
      case Freed => s
  }

  function ReaderNext(s: State, message: bool, error: bool, quit: bool, throws: bool): State {
    match s.reader
    case Looping => s.(reader := if s.closing then Terminated else Receiving)
    case Receiving => s.(reader := Received(message, error))
    case Received(m, e) => s.(reader := Deciding(m, e), closing := s.closing || quit)
    case Deciding(m, e) =>
      s.(reader :=
           if m && !s.closing then (if s.mode == Direct then Running(Checking, false) else Created)
           else if !s.closing && e then ReadingTimeout
           else Looping)
    case Created => s.(reader := Increased, counter := s.counter + 1)
    case Increased =>
      if s.mode == Pool then s.(reader := Looping, tasks := s.tasks + [Queued])
      else s.(reader := Running(Checking, true))
    case Running(task, counted) =>
      var t := TaskNext(s, task, counted, throws);
      s.(reader := if t.0 == Ended then Looping else Running(t.0, counted), counter := t.1, lost := t.2)
    case ReadingTimeout => s.(reader := Awaiting)
    case Awaiting => s.(reader := Looping, closing := s.closing || quit)
    case Terminated => s
  }

  /** The next place of a task, the counter and the number of lost tasks. */
  function TaskNext(s: State, task: TaskPc, counted: bool, throws: bool): (TaskPc, int, nat) {
    match task
    case Queued => (Checking, s.counter, s.lost)
    case Checking => (if s.closing then After(counted) else Calling, s.counter, s.lost)
    case Calling =>
      if throws then (Ended, s.counter, if counted then s.lost + 1 else s.lost)
      else (After(counted), s.counter, s.lost)
    case Decreasing => (Ended, s.counter - 1, s.lost)
    case Ended => (Ended, s.counter, s.lost)
  }

  /** Only a counted task goes on to decrease the counter. */
  function After(counted: bool): TaskPc {
    if counted then Decreasing else Ended
  }

  /** The steps lead from s to t. */
  ghost predicate Runs(s: State, steps: seq<Step>, t: State)
    decreases |steps|
  {
    if steps == [] then s == t
    else Enabled(s, steps[0]) && Runs(Next(s, steps[0]), steps[1..], t)
  }

  lemma {:induction false} PendingUpdate(tasks: seq<TaskPc>, i: nat, pc: TaskPc)
    requires i < |tasks|
    ensures CountPending(tasks[i := pc]) - (if pc == Ended then 0 else 1)
            == CountPending(tasks) - (if tasks[i] == Ended then 0 else 1)
  {
    var n := |tasks| - 1;
    if i < n {
      PendingUpdate(tasks[..n], i, pc);
      assert tasks[i := pc][..n] == tasks[..n][i := pc];
    } else {
      assert tasks[i := pc][..n] == tasks[..n];
    }
  }

  lemma {:induction false} PendingSome(tasks: seq<TaskPc>)
    ensures CountPending(tasks) == 0 <==> forall i | 0 <= i < |tasks| :: tasks[i] == Ended
  {
    if tasks != [] {
      PendingSome(tasks[..|tasks| - 1]);
    }
  }

  lemma PendingAppend(tasks: seq<TaskPc>)
    ensures CountPending(tasks + [Queued]) == CountPending(tasks) + 1
  {
    assert (tasks + [Queued])[..|tasks|] == tasks;
  }

  lemma StepKeepsInv(s: State, step: Step)
    requires s.Inv() && Enabled(s, step)
    ensures Next(s, step).Inv() && s.lost <= Next(s, step).lost
  {
    match step
    case Worker(i, throws) =>
      PendingUpdate(s.tasks, i, TaskNext(s, s.tasks[i], true, throws).0);
    case Reader(message, error, quit, throws) =>
      ReaderKeepsInv(s, message, error, quit, throws);
    case Closer =>
      PendingSome(s.tasks);
  }

  lemma ReaderKeepsInv(s: State, message: bool, error: bool, quit: bool, throws: bool)
    requires s.Inv() && s.reader != Terminated
    ensures var t := ReaderNext(s, message, error, quit, throws); t.Inv() && s.lost <= t.lost
  {
    if s.reader.Running? {
      RunningKeepsInv(s, message, error, quit, throws);
    } else {
      PendingAppend(s.tasks);
    }
  }

  lemma RunningKeepsInv(s: State, message: bool, error: bool, quit: bool, throws: bool)
    requires s.Inv() && s.reader.Running?
    ensures var t := ReaderNext(s, message, error, quit, throws); t.Inv() && s.lost <= t.lost
  {
  }

  /** In every run from a state in order, every state is in order, and lost tasks stay lost. */
  lemma {:induction false} RunKeepsInv(s: State, steps: seq<Step>, t: State)
    requires s.Inv() && Runs(s, steps, t)
    ensures t.Inv() && s.lost <= t.lost
    decreases |steps|
  {
    if steps != [] {
      StepKeepsInv(s, steps[0]);
      RunKeepsInv(Next(s, steps[0]), steps[1..], t);
    }
  }

  /**
   In every run the counter is the number of tasks queued or running, one for a
   task the reader has counted but not handed over, and those whose listener threw.
   */
  lemma CounterIsExact(mode: Mode, steps: seq<Step>, t: State)
    requires Runs(Start(mode), steps, t)
    ensures t.counter == t.Pending() + t.ReaderShare() + t.lost
  {
    RunKeepsInv(Start(mode), steps, t);
  }

  /** In every run, once the receiver is freed nobody will go through a pointer to it again. */
  lemma NoUseAfterFree(mode: Mode, steps: seq<Step>, t: State, step: Step)
    requires Runs(Start(mode), steps, t) && t.closer == Freed
    ensures t.reader == Terminated && t.lost == 0
    ensures forall i | 0 <= i < |t.tasks| :: t.tasks[i] == Ended
    ensures !Enabled(t, step)
  {
    RunKeepsInv(Start(mode), steps, t);
    FreedIsDead(t, step);
  }

  lemma FreedIsDead(t: State, step: Step)
    requires t.Inv() && t.closer == Freed
    ensures t.reader == Terminated && t.lost == 0
    ensures forall i | 0 <= i < |t.tasks| :: t.tasks[i] == Ended
    ensures !Enabled(t, step)
  {
    PendingSome(t.tasks);
  }

  /** In every run, a step that uses the template finds it there. */
  lemma TemplateIsThere(mode: Mode, steps: seq<Step>, t: State, step: Step)
    requires Runs(Start(mode), steps, t) && Enabled(t, step) && UsesTemplate(t, step)
    ensures t.template
  {
    RunKeepsInv(Start(mode), steps, t);
  }

  // Whether the destructor can return.

  function ReaderRank(pc: ReaderPc): nat {
    match pc
    case Terminated => 0
    case Looping => 1
    case Running(task, _) => 1 + task.Rank()
    case Deciding(_, _) => 2
    case Awaiting => 2
    case Received(_, _) => 3
    case ReadingTimeout => 3
    case Receiving => 4
    case Increased => 6
    case Created => 7
  }

  function TasksRank(tasks: seq<TaskPc>): nat {
    if tasks == [] then 0 else TasksRank(tasks[..|tasks| - 1]) + tasks[|tasks| - 1].Rank()
  }

  function CloserRank(pc: CloserPc): nat {
    match pc
    case Outside => 5
    case Joining => 4
    case Joined => 3
    case DeletingTemplate => 2
    case Waiting => 1
    case Freed => 0
  }

  function Rank(s: State): nat {
    ReaderRank(s.reader) + TasksRank(s.tasks) + CloserRank(s.closer)
  }

  lemma {:induction false} TasksRankUpdate(tasks: seq<TaskPc>, i: nat, pc: TaskPc)
    requires i < |tasks|
    ensures TasksRank(tasks[i := pc]) - pc.Rank() == TasksRank(tasks) - tasks[i].Rank()
  {
    var n := |tasks| - 1;
    if i < n {
      TasksRankUpdate(tasks[..n], i, pc);
      assert tasks[i := pc][..n] == tasks[..n][i := pc];
    } else {
      assert tasks[i := pc][..n] == tasks[..n];
    }
  }

  /** Unless a listener has thrown, somebody can always move, and the moves left get fewer. */
  lemma Progress(s: State) returns (step: Step)
    requires s.Inv() && s.lost == 0 && s.closer != Freed
    ensures Enabled(s, step) && Next(s, step).lost == 0 && Rank(Next(s, step)) < Rank(s)
  {
    if s.closer == Joining && s.reader != Terminated {
      step := Reader(false, false, false, false);
      StepDescends(s, step);
    } else if s.closer == Waiting && s.counter > 0 {
      PendingSome(s.tasks);
      var i :| 0 <= i < |s.tasks| && s.tasks[i] != Ended;
      step := Worker(i, false);
      StepDescends(s, step);
    } else {
      step := Closer;
    }
  }

  lemma {:induction false} Drain(s: State) returns (steps: seq<Step>, t: State)
    requires s.Inv() && s.lost == 0
    ensures Runs(s, steps, t) && t.closer == Freed
    decreases Rank(s)
  {
    if s.closer == Freed {
      steps, t := [], s;
    } else {
      var step := Progress(s);
      StepKeepsInv(s, step);
      var rest, end := Drain(Next(s, step));
      steps, t := [step] + rest, end;
      assert steps[1..] == rest;
    }
  }

  ghost predicate CanBeFreed(s: State) {
    exists steps, t :: Runs(s, steps, t) && t.closer == Freed
  }

  lemma FreedIff(s: State)
    requires s.Inv()
    ensures CanBeFreed(s) <==> s.lost == 0
  {
    if s.lost == 0 {
      var steps, t := Drain(s);
    }
    if CanBeFreed(s) {
      var steps, t :| Runs(s, steps, t) && t.closer == Freed;
      RunKeepsInv(s, steps, t);
    }
  }

  /** From any point of any run, the destructor can still return if and only if no counted listener call has thrown. */
  lemma FreedUnlessThrown(mode: Mode, before: seq<Step>, s: State)
    requires Runs(Start(mode), before, s)
    ensures CanBeFreed(s) <==> s.lost == 0
  {
    RunKeepsInv(Start(mode), before, s);
    FreedIff(s);
  }

  // That it does return.

  /** Once the receiver is closing, every step, whoever takes it, brings the end nearer. */
  lemma StepDescends(s: State, step: Step)
    requires s.Inv() && s.closing && Enabled(s, step)
    ensures Next(s, step).closing && Rank(Next(s, step)) < Rank(s)
  {
    match step
    case Worker(i, throws) => TasksRankUpdate(s.tasks, i, TaskNext(s, s.tasks[i], true, throws).0);
    case Reader(message, error, quit, throws) => ReaderDescends(s, message, error, quit, throws);
    case Closer =>
  }

  lemma ReaderDescends(s: State, message: bool, error: bool, quit: bool, throws: bool)
    requires s.Inv() && s.closing && s.reader != Terminated
    ensures var t := ReaderNext(s, message, error, quit, throws); t.closing && Rank(t) < Rank(s)
  {
    RankAppend(s.tasks);
  }

  lemma RankAppend(tasks: seq<TaskPc>)
    ensures TasksRank(tasks + [Queued]) == TasksRank(tasks) + 4
  {
    assert (tasks + [Queued])[..|tasks|] == tasks;
  }

  lemma {:induction false} SchedulesAreShort(s: State, steps: seq<Step>, t: State)
    requires s.Inv() && s.closing && Runs(s, steps, t)
    ensures t.Inv() && t.closing && |steps| + Rank(t) <= Rank(s)
    decreases |steps|
  {
    if steps != [] {
      StepDescends(s, steps[0]);
      StepKeepsInv(s, steps[0]);
      SchedulesAreShort(Next(s, steps[0]), steps[1..], t);
    }
  }

  /** Nobody can move. */
  ghost predicate IsStuck(s: State) {
    forall step :: !Enabled(s, step)
  }

  lemma StuckIsEnd(s: State)
    requires s.Inv() && s.closer != Outside && IsStuck(s)
    ensures s.closer == Freed <==> s.lost == 0
  {
    assert !Enabled(s, Reader(false, false, false, false)) && !Enabled(s, Closer);
    forall i | 0 <= i < |s.tasks| ensures s.tasks[i] == Ended {
      assert !Enabled(s, Worker(i, false));
    }
    PendingSome(s.tasks);
  }

  lemma {:induction false} CloserGoesOn(s: State, steps: seq<Step>, t: State)
    requires s.closer != Outside && Runs(s, steps, t)
    ensures t.closer != Outside
    decreases |steps|
  {
    if steps != [] {
      CloserGoesOn(Next(s, steps[0]), steps[1..], t);
    }
  }

  /**
   Once the owner is closing, every schedule comes to an end within so many steps, and where it can go no further, the
   receiver is freed if and only if no counted listener call has thrown.
   */
  lemma EveryScheduleEnds(mode: Mode, before: seq<Step>, s: State, steps: seq<Step>, t: State)
    requires Runs(Start(mode), before, s) && s.closer != Outside && Runs(s, steps, t)
    ensures |steps| <= Rank(s)
    ensures IsStuck(t) ==> (t.closer == Freed <==> t.lost == 0)
  {
    RunKeepsInv(Start(mode), before, s);
    ScheduleEnds(s, steps, t);
  }

  lemma ScheduleEnds(s: State, steps: seq<Step>, t: State)
    requires s.Inv() && s.closer != Outside && Runs(s, steps, t)
    ensures t.Inv() && |steps| <= Rank(s) && (IsStuck(t) ==> (t.closer == Freed <==> t.lost == 0))
  {
    SchedulesAreShort(s, steps, t);
    CloserGoesOn(s, steps, t);
    if IsStuck(t) {
      StuckIsEnd(t);
    }
  }

  /** Without tasks the counter plays no part: a listener may throw, and every schedule frees the receiver. */
  lemma DirectAlwaysFrees(before: seq<Step>, s: State, steps: seq<Step>, t: State)
    requires Runs(Start(Direct), before, s) && s.closer != Outside && Runs(s, steps, t)
    ensures |steps| <= Rank(s) && (IsStuck(t) ==> t.closer == Freed)
  {
    RunKeepsInv(Start(Direct), before, s);
    ScheduleEnds(s, steps, t);
    ModeIsKept(Start(Direct), before, s);
    ModeIsKept(s, steps, t);
  }

  lemma {:induction false} ModeIsKept(s: State, steps: seq<Step>, t: State)
    requires Runs(s, steps, t)
    ensures t.mode == s.mode
    decreases |steps|
  {
    if steps != [] {
      ModeIsKept(Next(s, steps[0]), steps[1..], t);
    }
  }

  // That it may wait forever.

  lemma {:induction false} OneMoreStep(s: State, steps: seq<Step>, t: State, step: Step)
    requires Runs(s, steps, t) && Enabled(t, step)
    ensures Runs(s, steps + [step], Next(t, step))
    decreases |steps|
  {
    var all := steps + [step];
    if steps == [] {
      assert all[1..] == [];
    } else {
      OneMoreStep(Next(s, steps[0]), steps[1..], t, step);
      assert all[0] == steps[0] && all[1..] == steps[1..] + [step];
    }
  }

  lemma Take(s: State, steps: seq<Step>, t: State, step: Step) returns (steps': seq<Step>, t': State)
    requires Runs(s, steps, t) && Enabled(t, step)
    ensures steps' == steps + [step] && t' == Next(t, step) && Runs(s, steps', t')
  {
    OneMoreStep(s, steps, t, step);
    steps', t' := steps + [step], Next(t, step);
  }

  /** A message is received, and a task is queued for it. */
  lemma QueueOne() returns (steps: seq<Step>, t: State)
    ensures Runs(Start(Pool), steps, t)
    ensures t == State(Pool, Looping, [Queued], Outside, false, true, 1, 0)
  {
    var s, step := Start(Pool), Reader(true, false, false, false);
    steps, t := [], s;
    steps, t := Take(s, steps, t, step);
    steps, t := Take(s, steps, t, step);
    steps, t := Take(s, steps, t, step);
    steps, t := Take(s, steps, t, step);
    steps, t := Take(s, steps, t, step);
    steps, t := Take(s, steps, t, step);
  }

  /** The task calls the listener, which throws if and only if it cannot read the message. */
  lemma CallWith(message: string, threadCount: int) returns (steps: seq<Step>, t: State)
    requires Read(message, threadCount).Unreadable?
    ensures Runs(Start(Pool), steps, t)
    ensures t == State(Pool, Looping, [Ended], Outside, false, true, 1, 1)
  {
    var s, step := Start(Pool), Worker(0, Read(message, threadCount).Unreadable?);
    steps, t := QueueOne();
    steps, t := Take(s, steps, t, step);
    steps, t := Take(s, steps, t, step);
    steps, t := Take(s, steps, t, step);
  }

  /**
   One message that the listener cannot read is enough: its task never decreases the counter, and when the owner closes
   later, nobody can move and the receiver is not freed.
   */
  lemma BadMessageBlocks(message: string, threadCount: int) returns (steps: seq<Step>, t: State)
    requires Read(message, threadCount).Unreadable?
    ensures Runs(Start(Pool), steps, t) && t.lost == 1 && t.closer == Waiting && IsStuck(t) && !CanBeFreed(t)
  {
    var s := Start(Pool);
    steps, t := CallWith(message, threadCount);
    steps, t := Take(s, steps, t, Closer);
    steps, t := Take(s, steps, t, Reader(false, false, false, false));
    steps, t := Take(s, steps, t, Closer);
    steps, t := Take(s, steps, t, Closer);
    steps, t := Take(s, steps, t, Closer);
    FreedUnlessThrown(Pool, steps, t);
  }

  // That every message reaches the listener.

  /** A received message is taken on: the reader has one, and nobody is closing. */
  predicate TakesOn(s: State, step: Step) {
    step.Reader? && s.reader.Deciding? && s.reader.message && !s.closing
  }

  /** The step is a handling of a message at a place, by a task or by the reader itself. */
  predicate HandlesAt(s: State, step: Step, pc: TaskPc) {
    match step
    case Worker(i, _) => i < |s.tasks| && s.tasks[i] == pc
    case Reader(_, _, _, _) => s.reader.Running? && s.reader.task == pc
    case Closer => false
  }

  /** The listener is called. */
  predicate Calls(s: State, step: Step) {
    HandlesAt(s, step, Calling)
  }

  /** The listener is not called, because the receiver is seen to be closing. */
  predicate Skips(s: State, step: Step) {
    HandlesAt(s, step, Checking) && s.closing
  }

  /** The reader has seen an error instead of a message, and will wait before it goes on. */
  predicate Fails(s: State, step: Step) {
    step.Reader? && s.reader.Deciding? && !s.reader.message && s.reader.error && !s.closing
  }

  /** It has waited. */
  predicate Waited(s: State, step: Step) {
    step.Reader? && s.reader == Awaiting
  }

  /** The owner closes, or the reader sees that the program quits. */
  predicate Closes(s: State, step: Step) {
    match step
    case Closer => s.closer == Outside
    case Reader(_, _, quit, _) => quit && (s.reader.Received? || s.reader == Awaiting)
    case Worker(_, _) => false
  }

  datatype Kind = TakingOn | ListenerCall | Skipping | Failing | AskingTimeout | Pausing | Closing

  predicate IsOf(kind: Kind, s: State, step: Step) {
    match kind
    case TakingOn => TakesOn(s, step)
    case ListenerCall => Calls(s, step)
    case Skipping => Skips(s, step)
    case Failing => Fails(s, step)
    case AskingTimeout => UsesTemplate(s, step)
    case Pausing => Waited(s, step)
    case Closing => Closes(s, step)
  }

  /** How many steps of a run are of a kind. */
  function Count(kind: Kind, s: State, steps: seq<Step>): nat
    decreases |steps|
  {
    if steps == [] || !Enabled(s, steps[0]) then 0
    else (if IsOf(kind, s, steps[0]) then 1 else 0) + Count(kind, Next(s, steps[0]), steps[1..])
  }

  predicate IsOpen(pc: TaskPc) {
    pc == Queued || pc == Checking || pc == Calling
  }

  function CountOpen(tasks: seq<TaskPc>): nat {
    if tasks == [] then 0
    else CountOpen(tasks[..|tasks| - 1]) + if IsOpen(tasks[|tasks| - 1]) then 1 else 0
  }

  /** The messages taken on for which the listener may still be called. */
  function Open(s: State): nat {
    CountOpen(s.tasks)
    + match s.reader
      case Created => 1
      case Increased => 1
      case Running(pc, _) => if IsOpen(pc) then 1 else 0
      case _ => 0
  }

  lemma {:induction false} OpenUpdate(tasks: seq<TaskPc>, i: nat, pc: TaskPc)
    requires i < |tasks|
    ensures CountOpen(tasks[i := pc]) - (if IsOpen(pc) then 1 else 0)
            == CountOpen(tasks) - (if IsOpen(tasks[i]) then 1 else 0)
  {
    var n := |tasks| - 1;
    if i < n {
      OpenUpdate(tasks[..n], i, pc);
      assert tasks[i := pc][..n] == tasks[..n][i := pc];
    } else {
      assert tasks[i := pc][..n] == tasks[..n];
    }
  }

  lemma StepConserves(s: State, step: Step)
    requires s.Inv() && Enabled(s, step)
    ensures Open(s) + (if TakesOn(s, step) then 1 else 0)
            == Open(Next(s, step)) + (if Calls(s, step) then 1 else 0) + (if Skips(s, step) then 1 else 0)
  {
    match step
    case Worker(i, throws) => OpenUpdate(s.tasks, i, TaskNext(s, s.tasks[i], true, throws).0);
    case Reader(message, error, quit, throws) => ReaderConserves(s, message, error, quit, throws);
    case Closer =>
  }

  lemma ReaderConserves(s: State, message: bool, error: bool, quit: bool, throws: bool)
    requires s.Inv() && s.reader != Terminated
    ensures var step := Reader(message, error, quit, throws);
            Open(s) + (if TakesOn(s, step) then 1 else 0)
            == Open(ReaderNext(s, message, error, quit, throws))
               + (if Calls(s, step) then 1 else 0) + (if Skips(s, step) then 1 else 0)
  {
    assert (s.tasks + [Queued])[..|s.tasks|] == s.tasks;
  }

  lemma {:induction false} RunConserves(s: State, steps: seq<Step>, t: State)
    requires s.Inv() && Runs(s, steps, t)
    ensures Open(s) + Count(TakingOn, s, steps) == Open(t) + Count(ListenerCall, s, steps) + Count(Skipping, s, steps)
    decreases |steps|
  {
    if steps != [] {
      StepConserves(s, steps[0]);
      StepKeepsInv(s, steps[0]);
      RunConserves(Next(s, steps[0]), steps[1..], t);
    }
  }

  /**
   In every run, for a pool, for one without threads and without tasks: for each message that is taken on the listener
   is called once, or the receiver was closing when that was looked at, or it is still to come.
   */
  lemma EveryMessageIsHandled(mode: Mode, steps: seq<Step>, t: State)
    requires Runs(Start(mode), steps, t)
    ensures Count(TakingOn, Start(mode), steps)
            == Count(ListenerCall, Start(mode), steps) + Count(Skipping, Start(mode), steps) + Open(t)
  {
    NothingIsOpenYet(mode);
    HandledFrom(Start(mode), steps, t);
  }

  lemma NothingIsOpenYet(mode: Mode)
    ensures Start(mode).Inv() && Open(Start(mode)) == 0
  {
    EndedIsNotOpen(Start(mode).tasks);
  }

  lemma HandledFrom(s: State, steps: seq<Step>, t: State)
    requires s.Inv() && Open(s) == 0 && Runs(s, steps, t)
    ensures Count(TakingOn, s, steps) == Count(ListenerCall, s, steps) + Count(Skipping, s, steps) + Open(t)
  {
    RunConserves(s, steps, t);
  }

  lemma {:induction false} EndedIsNotOpen(tasks: seq<TaskPc>)
    requires forall i | 0 <= i < |tasks| :: tasks[i] == Ended
    ensures CountOpen(tasks) == 0
  {
    if tasks != [] {
      EndedIsNotOpen(tasks[..|tasks| - 1]);
    }
  }

  /** Where a closed receiver can go no further, whether it is freed or not, nothing is still to come. */
  lemma NothingIsLeftOpen(mode: Mode, steps: seq<Step>, t: State)
    requires Runs(Start(mode), steps, t) && t.closer != Outside && IsStuck(t)
    ensures Count(TakingOn, Start(mode), steps)
            == Count(ListenerCall, Start(mode), steps) + Count(Skipping, Start(mode), steps)
  {
    EveryMessageIsHandled(mode, steps, t);
    assert !Enabled(t, Reader(false, false, false, false));
    forall i | 0 <= i < |t.tasks| ensures t.tasks[i] == Ended {
      assert !Enabled(t, Worker(i, false));
    }
    EndedIsNotOpen(t.tasks);
  }

  lemma {:induction false} ClosingStays(s: State, steps: seq<Step>, t: State)
    requires s.Inv() && Runs(s, steps, t)
    ensures t.closing <==> s.closing || Count(Closing, s, steps) > 0
    ensures s.closing ==> Count(TakingOn, s, steps) == 0
    decreases |steps|
  {
    if steps != [] {
      StepKeepsInv(s, steps[0]);
      ClosingStays(Next(s, steps[0]), steps[1..], t);
    }
  }

  /** A receiver is closing once the owner has closed it or the program was seen to quit, and then takes nothing on. */
  lemma ClosingIff(mode: Mode, before: seq<Step>, s: State, steps: seq<Step>, t: State)
    requires Runs(Start(mode), before, s) && Runs(s, steps, t)
    ensures s.closing <==> Count(Closing, Start(mode), before) > 0
    ensures s.closing ==> t.closing && Count(TakingOn, s, steps) == 0
  {
    RunKeepsInv(Start(mode), before, s);
    ClosingStays(Start(mode), before, s);
    ClosingStays(s, steps, t);
  }

  lemma {:induction false} WaitsConserved(s: State, steps: seq<Step>, t: State)
    requires Runs(s, steps, t)
    ensures (if s.reader == ReadingTimeout || s.reader == Awaiting then 1 else 0) + Count(Failing, s, steps)
            == (if t.reader == ReadingTimeout || t.reader == Awaiting then 1 else 0) + Count(Pausing, s, steps)
    ensures (if s.reader == ReadingTimeout then 1 else 0) + Count(Failing, s, steps)
            == (if t.reader == ReadingTimeout then 1 else 0) + Count(AskingTimeout, s, steps)
    decreases |steps|
  {
    if steps != [] {
      WaitsConserved(Next(s, steps[0]), steps[1..], t);
    }
  }

  /** After each failure to receive the reader asks the template for its timeout and waits, once each. */
  lemma EveryFailureIsWaitedFor(mode: Mode, steps: seq<Step>, t: State)
    requires Runs(Start(mode), steps, t)
    ensures Count(Failing, Start(mode), steps)
            == Count(AskingTimeout, Start(mode), steps) + (if t.reader == ReadingTimeout then 1 else 0)
    ensures Count(Failing, Start(mode), steps)
            == Count(Pausing, Start(mode), steps)
               + (if t.reader == ReadingTimeout || t.reader == Awaiting then 1 else 0)
  {
    WaitsConserved(Start(mode), steps, t);
  }
}
