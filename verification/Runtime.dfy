/**
 The queues and tasks of the running bot as one mutable object.  Each method is
 the code one coroutine runs between two of its await points; `history` is the
 transition system's view of the object, and every method is one of its actions.
 */
module Runtime {
  import opened Pipeline

  class Bot {
    const recvCap: nat
    const workCap: nat
    var recv: seq<Message>
    var recvUnfinished: int
    var dispatchers: seq<Task>
    var work: seq<Item>
    var workUnfinished: int
    var workers: seq<Task>
    var phase: Phase
    ghost var history: State

    ghost predicate Valid()
      reads this
    {
      && history.recvCap == recvCap && history.workCap == workCap
      && history.recv == recv && history.recvUnfinished == recvUnfinished
      && history.work == work && history.workUnfinished == workUnfinished
      && history.dispatchers == dispatchers && history.workers == workers
      && history.phase == phase
      && Inv(history)
    }

    /** reset_queues and worker_start: sizes below one are raised to one, and
        `workerNum` zero stands for the default of one worker. */
    constructor (recvSize: int, workSize: int, dispatcherNum: nat, workerNum: nat)
      ensures Valid() && Started(history)
      ensures recvCap == (if recvSize < 1 then 1 else recvSize) && workCap == (if workSize < 1 then 1 else workSize)
      ensures |dispatchers| == dispatcherNum && |workers| == (if workerNum == 0 then 1 else workerNum)
    {
      recvCap := if recvSize < 1 then 1 else recvSize;
      workCap := if workSize < 1 then 1 else workSize;
      recv, work, recvUnfinished, workUnfinished := [], [], 0, 0;
      dispatchers := seq(dispatcherNum, _ => Idle);
      workers := seq(if workerNum == 0 then 1 else workerNum, _ => Idle);
      phase := Running;
      new;
      history := State(recvCap, [], 0, dispatchers, workCap, [], 0, workers, Running,
                       [], [], [], [], [], [], [], [], [], [], [], []);
      StartedInv(history);
    }

    /** push_event on a message event: put_nowait, or drop when the queue is full. */
    method PushEvent(m: Message) returns (queued: bool)
      requires Valid() && phase.Running?
      modifies this
      ensures Valid() && history == Apply(old(history), Push(m))
      ensures queued == (|old(recv)| < recvCap)
      ensures recv == if queued then old(recv) + [m] else old(recv)
    {
      StepInv(history, Push(m));
      history := Apply(history, Push(m));
      queued := |recv| < recvCap;
      if queued {
        recv, recvUnfinished := recv + [m], recvUnfinished + 1;
      }
    }

    /** A scheduled program puts its message straight into the work queue. */
    method SchedulePut(m: Message)
      requires Valid() && Enabled(history, Schedule(m))
      modifies this
      ensures Valid() && history == Apply(old(history), Schedule(m))
    {
      StepInv(history, Schedule(m));
      history := Apply(history, Schedule(m));
      work, workUnfinished := work + [Msg(m)], workUnfinished + 1;
    }

    /** process_loop from `get` to the post-processing of the message, or back
        to `get` when the group is ONLY_READ. */
    method DispatcherGet(i: nat)
      requires Valid() && Enabled(history, DispatcherTake(i))
      modifies this
      ensures Valid() && history == Apply(old(history), DispatcherTake(i))
    {
      StepInv(history, DispatcherTake(i));
      history := Apply(history, DispatcherTake(i));
      var m := recv[0];
      recv := recv[1..];
      if m.onlyRead {
        recvUnfinished := recvUnfinished - 1;
        return;
      }
      dispatchers := dispatchers[i := Holding(m, false)];
    }

    /** Post-processing returns, raises or times out: all three lead to the put. */
    method DispatcherPostProcessed(i: nat)
      requires Valid() && Enabled(history, DispatcherPost(i))
      modifies this
      ensures Valid() && history == Apply(old(history), DispatcherPost(i))
    {
      StepInv(history, DispatcherPost(i));
      history := Apply(history, DispatcherPost(i));
      dispatchers := dispatchers[i := Holding(dispatchers[i].m, true)];
    }

    /** The put into the work queue finds room; `finally` reports the task done. */
    method DispatcherForward(i: nat)
      requires Valid() && Enabled(history, DispatcherPut(i))
      modifies this
      ensures Valid() && history == Apply(old(history), DispatcherPut(i))
    {
      StepInv(history, DispatcherPut(i));
      history := Apply(history, DispatcherPut(i));
      work, workUnfinished := work + [Msg(dispatchers[i].m)], workUnfinished + 1;
      dispatchers := dispatchers[i := Idle];
      recvUnfinished := recvUnfinished - 1;
    }

    /** CancelledError reaches a dispatcher; `finally` still reports a taken message as done. */
    method DispatcherCancelled(i: nat)
      requires Valid() && Enabled(history, DispatcherCancel(i))
      modifies this
      ensures Valid() && history == Apply(old(history), DispatcherCancel(i))
    {
      StepInv(history, DispatcherCancel(i));
      history := Apply(history, DispatcherCancel(i));
      if dispatchers[i].Holding? {
        recvUnfinished := recvUnfinished - 1;
      }
      dispatchers := dispatchers[i := Ended];
    }

    /** worker_loop from `get`: a None ends the worker, a message is processed. */
    method WorkerGet(i: nat)
      requires Valid() && Enabled(history, WorkerTake(i))
      modifies this
      ensures Valid() && history == Apply(old(history), WorkerTake(i))
    {
      StepInv(history, WorkerTake(i));
      history := Apply(history, WorkerTake(i));
      var item := work[0];
      work := work[1..];
      match item
      case Pill =>
        workers, workUnfinished := workers[i := Ended], workUnfinished - 1;
      case Msg(m) =>
        workers := workers[i := Holding(m, false)];
    }

    /** process_message returns or raises; either way the task is done. */
    method WorkerProcessed(i: nat)
      requires Valid() && Enabled(history, WorkerDone(i))
      modifies this
      ensures Valid() && history == Apply(old(history), WorkerDone(i))
    {
      StepInv(history, WorkerDone(i));
      history := Apply(history, WorkerDone(i));
      workers, workUnfinished := workers[i := Idle], workUnfinished - 1;
    }

    method WorkerCancelled(i: nat)
      requires Valid() && Enabled(history, WorkerCancel(i))
      modifies this
      ensures Valid() && history == Apply(old(history), WorkerCancel(i))
    {
      StepInv(history, WorkerCancel(i));
      history := Apply(history, WorkerCancel(i));
      if workers[i].Holding? {
        workUnfinished := workUnfinished - 1;
      }
      workers := workers[i := Ended];
    }

    /** A CancelledError that escapes a plugin ends the worker; `finally` reports the task done. */
    method WorkerCrashed(i: nat)
      requires Valid() && Enabled(history, WorkerCrash(i))
      modifies this
      ensures Valid() && history == Apply(old(history), WorkerCrash(i))
    {
      StepInv(history, WorkerCrash(i));
      history := Apply(history, WorkerCrash(i));
      workers, workUnfinished := workers[i := Ended], workUnfinished - 1;
    }

    /** worker_shutdown starts, once the dispatchers and the scheduler have stopped. */
    method ShutdownBegin()
      requires Valid() && Enabled(history, BeginDrain)
      modifies this
      ensures Valid() && history == Apply(old(history), BeginDrain)
    {
      StepInv(history, BeginDrain);
      history := Apply(history, BeginDrain);
      phase := Draining(0);
    }

    method ShutdownPutNone()
      requires Valid() && Enabled(history, DrainPut)
      modifies this
      ensures Valid() && history == Apply(old(history), DrainPut)
    {
      StepInv(history, DrainPut);
      history := Apply(history, DrainPut);
      work, workUnfinished := work + [Pill], workUnfinished + 1;
      phase := Draining(phase.pills + 1);
    }

    method ShutdownTimeout()
      requires Valid() && Enabled(history, DrainTimeout)
      modifies this
      ensures Valid() && history == Apply(old(history), DrainTimeout)
    {
      StepInv(history, DrainTimeout);
      history := Apply(history, DrainTimeout);
      phase := Cancelling;
    }

    method ShutdownJoin()
      requires Valid() && Enabled(history, DrainJoin)
      modifies this
      ensures Valid() && history == Apply(old(history), DrainJoin)
    {
      StepInv(history, DrainJoin);
      history := Apply(history, DrainJoin);
      phase := Finished(phase.Cancelling?);
    }

    // ------------------------------------------------------------------ sessions

    /** The object as it is now, without its history. */
    function Snapshot(): State
      reads this
    {
      State(recvCap, recv, recvUnfinished, dispatchers, workCap, work, workUnfinished, workers, phase,
            [], [], [], [], [], [], [], [], [], [], [], [])
    }

    /** One step of whatever task or producer is to move. */
    method Perform(a: Action)
      requires Valid() && Enabled(history, a)
      modifies this
      ensures Valid() && history == Apply(old(history), a)
    {
      match a
      case Push(m) => var _ := PushEvent(m);
      case Schedule(m) => SchedulePut(m);
      case DispatcherTake(i) => DispatcherGet(i);
      case DispatcherPost(i) => DispatcherPostProcessed(i);
      case DispatcherPut(i) => DispatcherForward(i);
      case DispatcherCancel(i) => DispatcherCancelled(i);
      case WorkerTake(i) => WorkerGet(i);
      case WorkerDone(i) => WorkerProcessed(i);
      case WorkerCancel(i) => WorkerCancelled(i);
      case WorkerCrash(i) => WorkerCrashed(i);
      case BeginDrain => ShutdownBegin();
      case DrainPut => ShutdownPutNone();
      case DrainTimeout => ShutdownTimeout();
      case DrainJoin => ShutdownJoin();
    }

    /** Any sequence of steps; those that are not possible when their turn comes are
        passed over.  What the object has gone through is a run of the transition system. */
    method Serve(wishes: seq<Action>) returns (ghost run: seq<Action>)
      requires Valid()
      modifies this
      ensures Valid() && Runs(old(history), run, history) && |run| <= |wishes|
    {
      run := [];
      RunsNothing(history);
      hide Inv, Apply, Runs;
      for n := 0 to |wishes|
        invariant Valid() && Runs(old(history), run, history) && |run| <= n
      {
        if Enabled(Snapshot(), wishes[n]) {
          RunsAppend(old(history), run, history, wishes[n]);
          run := run + [wishes[n]];
          Perform(wishes[n]);
        }
      }
    }

    /** worker_shutdown without its timeout, from the first None on: the tasks move
        as `pick` chooses among all they can do, until nothing can move any more.
        Whatever the choices, the drain has then come to its end, after a number of
        steps that does not depend on them, if and only if the work queue has room for
        what it leaves behind; otherwise it waits for ever. */
    method Drain(pick: nat -> nat) returns (steps: nat)
      requires Valid() && phase == Draining(0)
      modifies this
      ensures Valid() && forall a :: Internal(a) ==> !Enabled(history, a)
      ensures phase == Finished(false) <==> LeftBehind(old(history)) <= workCap
      ensures history.crashed == old(history.crashed) && history.entered == old(history.entered)
      ensures phase == Finished(false) ==>
        && Drained(history) && |work| == LeftBehind(old(history))
        && steps == 2 * |old(work)| + Holders(old(workers)) + 2 * |old(workers)| + 1 - |work| - |Messages(work)|
    {
      steps := 0;
      ghost var start, run := history, [];
      hide *;
      DrainBegins(start);
      var moves := Moves();
      while moves != []
        invariant Valid() && DrainedTo(start, run, history) && |run| == steps
        invariant moves == DrainMoves(history)
        decreases Measure(history)
      {
        var a := moves[pick(steps) % |moves|];
        DrainGoesOn(start, run, history, a);
        run := run + [a];
        Perform(a);
        steps := steps + 1;
        moves := Moves();
      }
      DrainRests(start, run, history);
    }

    /** All that the tasks can do now. */
    method Moves() returns (moves: seq<Action>)
      requires Valid()
      ensures moves == DrainMoves(history)
    {
      hide Inv, DrainMoves;
      moves := DrainMoves(Snapshot());
      SameMoves(Snapshot(), history);
    }
  }

  /** A drain left to itself has gone from `start` to `s`. */
  ghost predicate DrainedTo(start: State, run: seq<Action>, s: State) {
    && Inv(start) && start.phase == Draining(0) && Inv(s)
    && Runs(start, run, s) && (forall a :: a in run ==> Internal(a))
    && (s.phase.Draining? || s.phase == Finished(false))
    && s.crashed == start.crashed && s.entered == start.entered
  }

  lemma DrainBegins(start: State)
    requires Inv(start) && start.phase == Draining(0)
    ensures DrainedTo(start, [], start)
  {
    RunsNothing(start);
  }

  lemma DrainGoesOn(start: State, run: seq<Action>, s: State, a: Action)
    requires DrainedTo(start, run, s) && a in DrainMoves(s)
    ensures Enabled(s, a) && DrainedTo(start, run + [a], Apply(s, a)) && 0 <= Measure(Apply(s, a)) < Measure(s)
  {
    hide Inv, Apply, Enabled, Measure, DrainMoves, Runs, LeftBehind;
    DrainMovesIff(s, a);
    FinishedRests(s, a);
    StepInv(s, a);
    DrainStep(s, a);
    LeftBehindStep(s, a);
    RunsAppend(start, run, s, a);
    MeasureNat(Apply(s, a));
  }

  lemma DrainRests(start: State, run: seq<Action>, s: State)
    requires DrainedTo(start, run, s) && DrainMoves(s) == []
    ensures forall a :: Internal(a) ==> !Enabled(s, a)
    ensures s.phase == Finished(false) <==> LeftBehind(start) <= s.workCap
    ensures s.phase == Finished(false) ==>
      && Drained(s) && |s.work| == LeftBehind(start)
      && |run| == 2 * |start.work| + Holders(start.workers) + 2 * |start.workers| + 1 - |s.work| - |Messages(s.work)|
  {
    hide Inv, Apply, Enabled, DrainMoves, LeftBehind, Runs, Measure, Drained;
    forall a | Internal(a) ensures !Enabled(s, a) { DrainMovesIff(s, a); }
    DrainEndsIff(start, run, s);
    LeftBehindRun(start, run, s);
    if s.phase.Finished? {
      DrainLength(start, run, s);
      FinishedIsDrained(s);
    }
  }

  lemma {:induction false} SameWorkerMoves(s: State, t: State, n: nat)
    requires s.workers == t.workers && s.work == t.work && n <= |s.workers|
    ensures WorkerMoves(s, n) == WorkerMoves(t, n)
  {
    if n == 0 {
    } else {
      SameWorkerMoves(s, t, n - 1);
    }
  }

  /** What can happen next does not depend on what has happened. */
  lemma SameMoves(s: State, t: State)
    requires s.workers == t.workers && s.work == t.work && s.workCap == t.workCap && s.phase == t.phase
    ensures DrainMoves(s) == DrainMoves(t)
  {
    SameWorkerMoves(s, t, |s.workers|);
  }

  /** A bot from its start: through any session each accepted event is in exactly one
      place, so is each message put into the work queue, and both queues count right. */
  method Session(recvSize: int, workSize: int, dispatcherNum: nat, workerNum: nat, wishes: seq<Action>)
    returns (bot: Bot)
    ensures fresh(bot) && bot.Valid() && Accounted(bot.history)
  {
    bot := new Bot(recvSize, workSize, dispatcherNum, workerNum);
    ghost var start := bot.history;
    ghost var run := bot.Serve(wishes);
    AllAccounted(start, run, bot.history);
  }
}
