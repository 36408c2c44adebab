/**
 The inbound half of the bot as a transition system: the receive queue, the
 dispatcher tasks, the bounded work queue, the plugin workers and the
 poison-pill shutdown.  One action is one stretch of code between two await
 points, and any enabled action may come next.
 */
module Pipeline {

  datatype Message = Message(id: nat, onlyRead: bool)

  /** What the work queue carries: a message, or the None that ends a worker. */
  datatype Item = Msg(m: Message) | Pill

  /** A dispatcher or a worker.  `ready` tells a dispatcher that has finished
      post-processing and now waits for room in the work queue. */
  datatype Task = Idle | Holding(m: Message, ready: bool) | Ended

  datatype Phase = Running | Draining(pills: nat) | Cancelling | Finished(timedOut: bool)

  /** The queues and tasks, followed by the history of every message. */
  datatype State = State(
    recvCap: nat, recv: seq<Message>, recvUnfinished: int, dispatchers: seq<Task>,
    workCap: nat, work: seq<Item>, workUnfinished: int, workers: seq<Task>,
    phase: Phase,
    accepted: seq<Message>,   // put into the receive queue
    received: seq<Message>,   // taken from the receive queue
    ignored: seq<Message>,    // dropped because their group is ONLY_READ
    lost: seq<Message>,       // in a dispatcher's hands when it was cancelled
    forwarded: seq<Message>,  // put into the work queue by a dispatcher
    scheduled: seq<Message>,  // put into the work queue by a scheduled job
    entered: seq<Message>,    // put into the work queue by anyone
    taken: seq<Message>,      // taken from the work queue
    processed: seq<Message>,  // gone through process_message
    aborted: seq<Message>,    // in a worker's hands when it was cancelled or crashed
    pilled: seq<nat>,         // the workers that took a None, in order
    crashed: seq<nat>)        // the workers that a CancelledError from a plugin has ended

  datatype Action =
    | Push(m: Message)
    | Schedule(m: Message)
    | DispatcherTake(i: nat)
    | DispatcherPost(i: nat)
    | DispatcherPut(i: nat)
    | DispatcherCancel(i: nat)
    | WorkerTake(i: nat)
    | WorkerDone(i: nat)
    | WorkerCancel(i: nat)
    | WorkerCrash(i: nat)
    | BeginDrain
    | DrainPut
    | DrainTimeout
    | DrainJoin

  // ---------------------------------------------------------------- semantics

  predicate AllEnded(ts: seq<Task>) {
    forall i :: 0 <= i < |ts| ==> ts[i] == Ended
  }

  predicate Enabled(s: State, a: Action) {
    match a
    case Push(m) => s.phase.Running?
    case Schedule(m) => s.phase.Running? && |s.work| < s.workCap
    case DispatcherTake(i) => i < |s.dispatchers| && s.dispatchers[i] == Idle && s.recv != []
    case DispatcherPost(i) => i < |s.dispatchers| && s.dispatchers[i].Holding? && !s.dispatchers[i].ready
    case DispatcherPut(i) =>
      i < |s.dispatchers| && s.dispatchers[i].Holding? && s.dispatchers[i].ready && |s.work| < s.workCap
    case DispatcherCancel(i) => i < |s.dispatchers| && !s.dispatchers[i].Ended? && s.phase.Running?
    case WorkerTake(i) => i < |s.workers| && s.workers[i] == Idle && s.work != []
    case WorkerDone(i) => i < |s.workers| && s.workers[i].Holding?
    case WorkerCancel(i) => i < |s.workers| && !s.workers[i].Ended? && s.phase.Cancelling?
    case WorkerCrash(i) => i < |s.workers| && s.workers[i].Holding? && (s.phase.Running? || s.phase.Draining?)
    case BeginDrain => s.phase.Running? && AllEnded(s.dispatchers)
    case DrainPut => s.phase.Draining? && s.phase.pills < |s.workers| && |s.work| < s.workCap
    case DrainTimeout => s.phase.Draining?
    case DrainJoin =>
      AllEnded(s.workers) &&
      (s.phase.Cancelling? || (s.phase.Draining? && s.phase.pills == |s.workers|))
  }

  function Apply(s: State, a: Action): State
    requires Enabled(s, a)
  {
    match a
    case Push(m) =>
      if |s.recv| < s.recvCap then
        s.(recv := s.recv + [m], recvUnfinished := s.recvUnfinished + 1, accepted := s.accepted + [m])
      else s  // the queue is full: the event is logged and dropped
    case Schedule(m) =>
      s.(work := s.work + [Msg(m)], workUnfinished := s.workUnfinished + 1,
         scheduled := s.scheduled + [m], entered := s.entered + [m])
    case DispatcherTake(i) =>
      var m := s.recv[0];
      if m.onlyRead then
        s.(recv := s.recv[1..], received := s.received + [m], ignored := s.ignored + [m],
           recvUnfinished := s.recvUnfinished - 1)
      else
        s.(recv := s.recv[1..], received := s.received + [m],
           dispatchers := s.dispatchers[i := Holding(m, false)])
    case DispatcherPost(i) =>
      s.(dispatchers := s.dispatchers[i := Holding(s.dispatchers[i].m, true)])
    case DispatcherPut(i) =>
      var m := s.dispatchers[i].m;
      s.(work := s.work + [Msg(m)], workUnfinished := s.workUnfinished + 1,
         forwarded := s.forwarded + [m], entered := s.entered + [m],
         dispatchers := s.dispatchers[i := Idle], recvUnfinished := s.recvUnfinished - 1)
    case DispatcherCancel(i) =>
      if s.dispatchers[i].Holding? then
        s.(lost := s.lost + [s.dispatchers[i].m], recvUnfinished := s.recvUnfinished - 1,
           dispatchers := s.dispatchers[i := Ended])
      else
        s.(dispatchers := s.dispatchers[i := Ended])
    case WorkerTake(i) =>
      (match s.work[0]
       case Msg(m) => s.(work := s.work[1..], taken := s.taken + [m],
                         workers := s.workers[i := Holding(m, false)])
       case Pill => s.(work := s.work[1..], workUnfinished := s.workUnfinished - 1,
                       workers := s.workers[i := Ended], pilled := s.pilled + [i]))
    case WorkerDone(i) =>
      s.(processed := s.processed + [s.workers[i].m], workUnfinished := s.workUnfinished - 1,
         workers := s.workers[i := Idle])
    case WorkerCancel(i) =>
      if s.workers[i].Holding? then
        s.(aborted := s.aborted + [s.workers[i].m], workUnfinished := s.workUnfinished - 1,
           workers := s.workers[i := Ended])
      else
        s.(workers := s.workers[i := Ended])
    case WorkerCrash(i) =>
      s.(aborted := s.aborted + [s.workers[i].m], workUnfinished := s.workUnfinished - 1,
         workers := s.workers[i := Ended], crashed := s.crashed + [i])
    case BeginDrain => s.(phase := Draining(0))
    case DrainPut =>
      s.(work := s.work + [Pill], workUnfinished := s.workUnfinished + 1, phase := Draining(s.phase.pills + 1))
    case DrainTimeout => s.(phase := Cancelling)
    case DrainJoin => s.(phase := Finished(s.phase.Cancelling?))
  }

  ghost predicate Runs(s: State, actions: seq<Action>, t: State)
    decreases |actions|
  {
    if actions == [] then s == t
    else Enabled(s, actions[0]) && Runs(Apply(s, actions[0]), actions[1..], t)
  }

  /** Freshly started: empty queues, every task waiting. */
  predicate Started(s: State) {
    && s.recvCap >= 1 && s.workCap >= 1 && |s.workers| >= 1
    && s.recv == [] && s.work == [] && s.recvUnfinished == 0 && s.workUnfinished == 0
    && (forall i :: 0 <= i < |s.dispatchers| ==> s.dispatchers[i] == Idle)
    && (forall i :: 0 <= i < |s.workers| ==> s.workers[i] == Idle)
    && s.phase == Running
    && s.accepted == s.received == s.ignored == s.lost == s.forwarded == []
    && s.scheduled == s.entered == s.taken == s.processed == s.aborted == []
    && s.pilled == s.crashed == []
  }

  // ---------------------------------------------------------------- counting

  /** How often `m` occurs in `s`. */
  function Count(s: seq<Message>, m: Message): (n: nat) {
    multiset(s)[m]
  }

  /** How many of the tasks have `m` in their hands. */
  function Held(ts: seq<Task>, m: Message): (n: nat) {
    if ts == [] then 0 else (if ts[0].Holding? && ts[0].m == m then 1 else 0) + Held(ts[1..], m)
  }

  /** How many of the tasks have some message in their hands. */
  function Holders(ts: seq<Task>): (n: nat) {
    if ts == [] then 0 else (if ts[0].Holding? then 1 else 0) + Holders(ts[1..])
  }

  function EndedCount(ts: seq<Task>): (n: nat) {
    if ts == [] then 0 else (if ts[0] == Ended then 1 else 0) + EndedCount(ts[1..])
  }

  /** The messages of a work queue, without the pills. */
  function Messages(q: seq<Item>): seq<Message> {
    if q == [] then [] else (if q[0].Msg? then [q[0].m] else []) + Messages(q[1..])
  }

  lemma {:induction false} HeldUpdate(ts: seq<Task>, i: nat, t: Task, m: Message)
    requires i < |ts|
    ensures Held(ts[i := t], m) + (if ts[i].Holding? && ts[i].m == m then 1 else 0)
         == Held(ts, m) + (if t.Holding? && t.m == m then 1 else 0)
  {
    if i == 0 {
      assert ts[i := t][1..] == ts[1..];
    } else {
      HeldUpdate(ts[1..], i - 1, t, m);
      assert ts[i := t][1..] == ts[1..][i - 1 := t];
    }
  }

  /** Replacing one task changes the numbers of busy and of ended tasks by that task alone. */
  lemma {:induction false} TaskUpdate(ts: seq<Task>, i: nat, t: Task)
    requires i < |ts|
    ensures Holders(ts[i := t]) + (if ts[i].Holding? then 1 else 0)
         == Holders(ts) + (if t.Holding? then 1 else 0)
    ensures EndedCount(ts[i := t]) + (if ts[i] == Ended then 1 else 0)
         == EndedCount(ts) + (if t == Ended then 1 else 0)
  {
    if i == 0 {
      assert ts[i := t][1..] == ts[1..];
    } else {
      TaskUpdate(ts[1..], i - 1, t);
      assert ts[i := t][1..] == ts[1..][i - 1 := t];
    }
  }

  lemma {:induction false} AllIdle(ts: seq<Task>, m: Message)
    requires forall i :: 0 <= i < |ts| ==> ts[i] == Idle
    ensures Held(ts, m) == 0 && Holders(ts) == 0 && EndedCount(ts) == 0
  {
    if ts == [] {
    } else {
      AllIdle(ts[1..], m);
    }
  }

  /** All tasks have ended exactly when their count says so; then no hand holds anything. */
  lemma {:induction false} EndedAll(ts: seq<Task>, m: Message)
    ensures EndedCount(ts) <= |ts|
    ensures AllEnded(ts) <==> EndedCount(ts) == |ts|
    ensures AllEnded(ts) ==> Held(ts, m) == 0 && Holders(ts) == 0
  {
    if ts == [] {
    } else {
      EndedAll(ts[1..], m);
      assert AllEnded(ts) <==> ts[0] == Ended && AllEnded(ts[1..]);
    }
  }

  lemma {:induction false} MessagesAppend(q: seq<Item>, x: Item)
    ensures Messages(q + [x]) == Messages(q) + (if x.Msg? then [x.m] else [])
  {
    if q == [] {
      assert q + [x] == [x];
    } else {
      MessagesAppend(q[1..], x);
      assert (q + [x])[1..] == q[1..] + [x];
    }
  }

  // --------------------------------------------------------------- invariant

  predicate PillsLast(q: seq<Item>) {
    forall i, j :: 0 <= i < j < |q| && q[i] == Pill ==> q[j] == Pill
  }

  predicate Distinct(s: seq<nat>) {
    forall i, j :: 0 <= i < j < |s| ==> s[i] != s[j]
  }

  /** Every copy of `m` taken from the receive queue is in exactly one place. */
  predicate InboundBalance(s: State, m: Message) {
    && Count(s.received, m) ==
       Count(s.ignored, m) + Count(s.lost, m) + Count(s.forwarded, m) + Held(s.dispatchers, m)
    && (m.onlyRead ==> Count(s.lost, m) + Count(s.forwarded, m) + Held(s.dispatchers, m) == 0)
    && (!m.onlyRead ==> Count(s.ignored, m) == 0)
  }

  /** Every copy of `m` put into the work queue is in exactly one place. */
  predicate WorkBalance(s: State, m: Message) {
    && Count(s.entered, m) == Count(s.forwarded, m) + Count(s.scheduled, m)
    && Count(s.taken, m) == Held(s.workers, m) + Count(s.processed, m) + Count(s.aborted, m)
  }

  /** Both queues are first in, first out, bounded, and count their unfinished items. */
  predicate RecvQueueInv(s: State) {
    && s.recvCap >= 1 && |s.recv| <= s.recvCap
    && s.accepted == s.received + s.recv
    && s.recvUnfinished == |s.recv| + Holders(s.dispatchers)
  }

  predicate WorkQueueInv(s: State) {
    && s.workCap >= 1 && |s.work| <= s.workCap
    && s.entered == s.taken + Messages(s.work)
    && s.workUnfinished == |s.work| + Holders(s.workers)
  }

  predicate QueueInv(s: State) {
    RecvQueueInv(s) && WorkQueueInv(s)
  }

  /** The workers that have ended: by a None or by a crash, never by both. */
  predicate LeaversOk(s: State) {
    && Distinct(s.pilled) && Distinct(s.crashed)
    && (forall k :: 0 <= k < |s.pilled| ==> s.pilled[k] < |s.workers| && s.workers[s.pilled[k]] == Ended)
    && (forall k :: 0 <= k < |s.crashed| ==> s.crashed[k] < |s.workers| && s.workers[s.crashed[k]] == Ended)
    && (forall k, l :: 0 <= k < |s.pilled| && 0 <= l < |s.crashed| ==> s.pilled[k] != s.crashed[l])
  }

  /** Where the pills are: every pill sent is in the queue or has ended one worker. */
  predicate PillInv(s: State) {
    && |s.workers| >= 1
    && PillsLast(s.work)
    && (s.pilled != [] ==> Messages(s.work) == [])
    && (s.phase.Running? ==> |Messages(s.work)| == |s.work| && s.pilled == [])
    && (s.phase.Running? || s.phase.Draining? ==>
          |s.pilled| + |s.crashed| == EndedCount(s.workers) && |s.aborted| == |s.crashed|)
    && (s.phase.Draining? ==>
          && s.phase.pills <= |s.workers|
          && s.phase.pills + |Messages(s.work)| == |s.work| + |s.pilled|)
    && (!s.phase.Running? ==> AllEnded(s.dispatchers))
    && (s.phase.Finished? ==> AllEnded(s.workers))
    && (s.phase == Finished(false) ==>
          && |s.aborted| == |s.crashed| && |s.pilled| + |s.crashed| == |s.workers|
          && |s.work| == |s.crashed| + |Messages(s.work)|)
  }

  ghost predicate Inv(s: State) {
    && QueueInv(s)
    && PillInv(s)
    && LeaversOk(s)
    && forall m :: InboundBalance(s, m) && WorkBalance(s, m)
  }

  // ----------------------------------------------------------- what a step means

  /** An event is accepted exactly when the receive queue has room, and then waits at
      its end; otherwise nothing changes. */
  lemma PushIff(s: State, m: Message)
    requires Enabled(s, Push(m))
    ensures var t := Apply(s, Push(m));
      if |s.recv| < s.recvCap then t.accepted == s.accepted + [m] && t.recv == s.recv + [m] else t == s
  {
  }

  /** Which steps decide about a message: it is processed when its worker is done with it,
      aborted when that worker is cancelled or crashes, lost when its dispatcher is
      cancelled, ignored when a dispatcher finds its group to be ONLY_READ, and forwarded
      by the put behind post-processing. */
  lemma StepDecides(s: State, a: Action)
    requires Enabled(s, a)
    ensures var t := Apply(s, a);
      && (t.processed != s.processed <==> a.WorkerDone?)
      && (t.aborted != s.aborted <==> a.WorkerCrash? || (a.WorkerCancel? && s.workers[a.i].Holding?))
      && (t.lost != s.lost <==> a.DispatcherCancel? && s.dispatchers[a.i].Holding?)
      && (t.ignored != s.ignored <==> a.DispatcherTake? && s.recv[0].onlyRead)
      && (t.forwarded != s.forwarded <==> a.DispatcherPut?)
      && (t.scheduled != s.scheduled <==> a.Schedule?)
      && (t.crashed != s.crashed <==> a.WorkerCrash?)
  {
  }

  // ------------------------------------------------------- every step, every run

  lemma StartedInv(s: State)
    requires Started(s)
    ensures Inv(s)
  {
    forall m ensures InboundBalance(s, m) && WorkBalance(s, m) {
      AllIdle(s.dispatchers, m);
      AllIdle(s.workers, m);
    }
    AllIdle(s.dispatchers, Message(0, false));
    AllIdle(s.workers, Message(0, false));
  }

  lemma InboundStep(s: State, a: Action, m: Message)
    requires Enabled(s, a) && InboundBalance(s, m)
    ensures InboundBalance(Apply(s, a), m)
  {
    match a
    case DispatcherTake(i) => InboundTake(s, i, m);
    case DispatcherPost(i) => HeldUpdate(s.dispatchers, i, Holding(s.dispatchers[i].m, true), m);
    case DispatcherPut(i) => InboundPut(s, i, m);
    case DispatcherCancel(i) => InboundCancel(s, i, m);
    case _ =>
  }

  lemma InboundTake(s: State, i: nat, m: Message)
    requires Enabled(s, DispatcherTake(i)) && InboundBalance(s, m)
    ensures InboundBalance(Apply(s, DispatcherTake(i)), m)
  {
    HeldUpdate(s.dispatchers, i, Holding(s.recv[0], false), m);
  }

  lemma InboundPut(s: State, i: nat, m: Message)
    requires Enabled(s, DispatcherPut(i)) && InboundBalance(s, m)
    ensures InboundBalance(Apply(s, DispatcherPut(i)), m)
  {
    HeldUpdate(s.dispatchers, i, Idle, m);
  }

  lemma InboundCancel(s: State, i: nat, m: Message)
    requires Enabled(s, DispatcherCancel(i)) && InboundBalance(s, m)
    ensures InboundBalance(Apply(s, DispatcherCancel(i)), m)
  {
    HeldUpdate(s.dispatchers, i, Ended, m);
  }

  lemma WorkStep(s: State, a: Action, m: Message)
    requires Enabled(s, a) && WorkBalance(s, m)
    ensures WorkBalance(Apply(s, a), m)
  {
    match a
    case WorkerTake(i) => WorkTake(s, i, m);
    case WorkerDone(i) => HeldUpdate(s.workers, i, Idle, m);
    case WorkerCancel(i) => WorkCancel(s, i, m);
    case WorkerCrash(i) => WorkCrash(s, i, m);
    case Schedule(_) => WorkSchedule(s, a, m);
    case DispatcherPut(i) => WorkForward(s, i, m);
    case _ =>
  }

  lemma WorkSchedule(s: State, a: Action, m: Message)
    requires a.Schedule? && Enabled(s, a) && WorkBalance(s, m)
    ensures WorkBalance(Apply(s, a), m)
  {
    hide Held;
  }

  lemma WorkForward(s: State, i: nat, m: Message)
    requires Enabled(s, DispatcherPut(i)) && WorkBalance(s, m)
    ensures WorkBalance(Apply(s, DispatcherPut(i)), m)
  {
    hide Held;
  }

  lemma WorkTake(s: State, i: nat, m: Message)
    requires Enabled(s, WorkerTake(i)) && WorkBalance(s, m)
    ensures WorkBalance(Apply(s, WorkerTake(i)), m)
  {
    HeldUpdate(s.workers, i, Apply(s, WorkerTake(i)).workers[i], m);
  }

  lemma WorkCancel(s: State, i: nat, m: Message)
    requires Enabled(s, WorkerCancel(i)) && WorkBalance(s, m)
    ensures WorkBalance(Apply(s, WorkerCancel(i)), m)
  {
    HeldUpdate(s.workers, i, Ended, m);
  }

  lemma WorkCrash(s: State, i: nat, m: Message)
    requires Enabled(s, WorkerCrash(i)) && WorkBalance(s, m)
    ensures WorkBalance(Apply(s, WorkerCrash(i)), m)
  {
    HeldUpdate(s.workers, i, Ended, m);
  }

  lemma RecvQueueStep(s: State, a: Action)
    requires RecvQueueInv(s) && Enabled(s, a)
    ensures RecvQueueInv(Apply(s, a))
  {
    match a
    case DispatcherTake(i) => RecvQueueTake(s, i);
    case DispatcherPost(i) => TaskUpdate(s.dispatchers, i, Holding(s.dispatchers[i].m, true));
    case DispatcherPut(i) => TaskUpdate(s.dispatchers, i, Idle);
    case DispatcherCancel(i) => TaskUpdate(s.dispatchers, i, Ended);
    case _ =>
  }

  lemma RecvQueueTake(s: State, i: nat)
    requires RecvQueueInv(s) && Enabled(s, DispatcherTake(i))
    ensures RecvQueueInv(Apply(s, DispatcherTake(i)))
  {
    TaskUpdate(s.dispatchers, i, Holding(s.recv[0], false));
  }

  lemma WorkQueueStep(s: State, a: Action)
    requires WorkQueueInv(s) && Enabled(s, a)
    ensures WorkQueueInv(Apply(s, a))
  {
    match a
    case Schedule(m) => MessagesAppend(s.work, Msg(m));
    case DispatcherPut(i) => MessagesAppend(s.work, Msg(s.dispatchers[i].m));
    case DrainPut => MessagesAppend(s.work, Pill);
    case WorkerTake(i) => WorkQueueTake(s, i);
    case WorkerDone(i) => WorkQueueDone(s, i);
    case WorkerCancel(i) => WorkQueueCancel(s, i);
    case WorkerCrash(i) => WorkQueueCrash(s, i);
    case _ =>
  }

  lemma WorkQueueCrash(s: State, i: nat)
    requires WorkQueueInv(s) && Enabled(s, WorkerCrash(i))
    ensures WorkQueueInv(Apply(s, WorkerCrash(i)))
  {
    TaskUpdate(s.workers, i, Ended);
  }

  lemma WorkQueueDone(s: State, i: nat)
    requires WorkQueueInv(s) && Enabled(s, WorkerDone(i))
    ensures WorkQueueInv(Apply(s, WorkerDone(i)))
  {
    TaskUpdate(s.workers, i, Idle);
  }

  lemma WorkQueueCancel(s: State, i: nat)
    requires WorkQueueInv(s) && Enabled(s, WorkerCancel(i))
    ensures WorkQueueInv(Apply(s, WorkerCancel(i)))
  {
    TaskUpdate(s.workers, i, Ended);
  }

  lemma WorkQueueTake(s: State, i: nat)
    requires WorkQueueInv(s) && Enabled(s, WorkerTake(i))
    ensures WorkQueueInv(Apply(s, WorkerTake(i)))
  {
    TaskUpdate(s.workers, i, Apply(s, WorkerTake(i)).workers[i]);
  }

  lemma PillStep(s: State, a: Action)
    requires QueueInv(s) && PillInv(s) && Enabled(s, a)
    ensures PillInv(Apply(s, a))
  {
    match a
    case Schedule(m) => PillFeed(s, a, m);
    case DispatcherPut(i) => PillFeed(s, a, s.dispatchers[i].m);
    case DrainPut => PillPut(s);
    case DrainJoin => PillJoin(s);
    case WorkerTake(i) => PillTake(s, i);
    case WorkerDone(i) => PillDone(s, i);
    case WorkerCancel(i) => PillCancel(s, i);
    case WorkerCrash(i) => PillCrash(s, i);
    case BeginDrain => NoMessages(s.work);
    case DrainTimeout =>
    case _ => PillElsewhere(s, a);
  }

  lemma PillJoin(s: State)
    requires QueueInv(s) && PillInv(s) && Enabled(s, DrainJoin)
    ensures PillInv(Apply(s, DrainJoin))
  {
    EndedAll(s.workers, Message(0, false));
  }

  /** Steps of the receive side, once they touch neither the work queue nor a worker. */
  lemma PillElsewhere(s: State, a: Action)
    requires PillInv(s) && Enabled(s, a)
    requires a.Push? || a.DispatcherTake? || a.DispatcherPost? || a.DispatcherCancel?
    ensures PillInv(Apply(s, a))
  {
    hide Messages, EndedCount;
  }

  lemma PillCrash(s: State, i: nat)
    requires QueueInv(s) && PillInv(s) && Enabled(s, WorkerCrash(i))
    ensures PillInv(Apply(s, WorkerCrash(i)))
  {
    TaskUpdate(s.workers, i, Ended);
  }

  /** A worker that ends now has not ended before. */
  lemma LeaversStep(s: State, a: Action)
    requires LeaversOk(s) && Enabled(s, a)
    ensures LeaversOk(Apply(s, a))
  {
    match a
    case WorkerTake(i) => LeaversTake(s, i);
    case WorkerCrash(i) => LeaversCrash(s, i);
    case WorkerDone(i) => LeaversRest(s, Apply(s, a), i);
    case WorkerCancel(i) => LeaversRest(s, Apply(s, a), i);
    case _ => hide LeaversOk; LeaversSame(s, Apply(s, a));
  }

  lemma LeaversSame(s: State, t: State)
    requires LeaversOk(s) && t.workers == s.workers && t.pilled == s.pilled && t.crashed == s.crashed
    ensures LeaversOk(t)
  {
  }

  lemma LeaversRest(s: State, t: State, i: nat)
    requires LeaversOk(s) && i < |s.workers| && s.workers[i] != Ended && |t.workers| == |s.workers|
    requires (forall j :: 0 <= j < |s.workers| && j != i ==> t.workers[j] == s.workers[j])
    requires t.pilled == s.pilled && t.crashed == s.crashed
    ensures LeaversOk(t)
  {
  }

  lemma LeaversTake(s: State, i: nat)
    requires LeaversOk(s) && Enabled(s, WorkerTake(i))
    ensures LeaversOk(Apply(s, WorkerTake(i)))
  {
  }

  lemma LeaversCrash(s: State, i: nat)
    requires LeaversOk(s) && Enabled(s, WorkerCrash(i))
    ensures LeaversOk(Apply(s, WorkerCrash(i)))
  {
  }

  lemma PillPut(s: State)
    requires QueueInv(s) && PillInv(s) && Enabled(s, DrainPut)
    ensures PillInv(Apply(s, DrainPut))
  {
    MessagesAppend(s.work, Pill);
  }

  lemma PillCancel(s: State, i: nat)
    requires QueueInv(s) && PillInv(s) && Enabled(s, WorkerCancel(i))
    ensures PillInv(Apply(s, WorkerCancel(i)))
  {
  }

  lemma PillFeed(s: State, a: Action, m: Message)
    requires QueueInv(s) && PillInv(s) && Enabled(s, a)
    requires a == Schedule(m) || (a.DispatcherPut? && m == s.dispatchers[a.i].m)
    ensures PillInv(Apply(s, a))
  {
    NoMessages(s.work);
    MessagesAppend(s.work, Msg(m));
  }

  lemma PillDone(s: State, i: nat)
    requires QueueInv(s) && PillInv(s) && Enabled(s, WorkerDone(i))
    ensures PillInv(Apply(s, WorkerDone(i)))
  {
    TaskUpdate(s.workers, i, Idle);
  }

  lemma PillTake(s: State, i: nat)
    requires QueueInv(s) && PillInv(s) && Enabled(s, WorkerTake(i))
    ensures PillInv(Apply(s, WorkerTake(i)))
  {
    if s.work[0] == Pill {
      PillEnds(s, i);
    } else {
      PillWaits(s, i);
    }
  }

  /** A worker takes a pill and ends. */
  lemma PillEnds(s: State, i: nat)
    requires QueueInv(s) && PillInv(s) && Enabled(s, WorkerTake(i)) && s.work[0] == Pill && PillsLast(s.work[1..])
    ensures PillInv(Apply(s, WorkerTake(i)))
  {
    PillsMiddle(s.work);
    TaskUpdate(s.workers, i, Ended);
  }

  /** A worker takes a message; the pills stay where they are. */
  lemma PillWaits(s: State, i: nat)
    requires QueueInv(s) && PillInv(s) && Enabled(s, WorkerTake(i)) && s.work[0].Msg? && PillsLast(s.work[1..])
    ensures PillInv(Apply(s, WorkerTake(i)))
  {
    assert Messages(s.work) != [] && s.pilled == [];
    TaskUpdate(s.workers, i, Holding(s.work[0].m, false));
  }

  /** Behind a pill there are only pills. */
  lemma {:induction false} PillsMiddle(q: seq<Item>)
    requires PillsLast(q) && q != [] && q[0] == Pill
    ensures Messages(q) == []
  {
    if |q| == 1 {
    } else {
      assert q[1] == Pill;
      PillsMiddle(q[1..]);
    }
  }

  lemma {:induction false} NoMessages(q: seq<Item>)
    ensures |Messages(q)| <= |q|
    ensures |Messages(q)| == |q| ==> forall k :: 0 <= k < |q| ==> q[k].Msg?
  {
    if q == [] {
    } else {
      NoMessages(q[1..]);
    }
  }

  lemma StepInv(s: State, a: Action)
    requires Inv(s) && Enabled(s, a)
    ensures Inv(Apply(s, a))
  {
    RecvQueueStep(s, a);
    WorkQueueStep(s, a);
    PillStep(s, a);
    LeaversStep(s, a);
    forall m ensures InboundBalance(Apply(s, a), m) && WorkBalance(Apply(s, a), m) {
      InboundStep(s, a, m);
      WorkStep(s, a, m);
    }
  }

  lemma {:induction false} RunInv(s: State, actions: seq<Action>, t: State)
    requires Inv(s) && Runs(s, actions, t)
    ensures Inv(t)
    decreases |actions|
  {
    if actions == [] {
    } else {
      StepInv(s, actions[0]);
      RunInv(Apply(s, actions[0]), actions[1..], t);
    }
  }

  // ------------------------------------------------------------ conservation

  /** In every run whatever, each accepted copy of a message is in exactly one
      place, and copies enter and leave the work queue in the same order. */
  lemma Conservation(s: State, actions: seq<Action>, t: State, m: Message)
    requires Started(s) && Runs(s, actions, t)
    ensures Count(t.accepted, m) ==
            Count(t.recv, m) + Held(t.dispatchers, m) + Count(t.ignored, m) + Count(t.lost, m) + Count(t.forwarded, m)
    ensures Count(t.forwarded, m) + Count(t.scheduled, m) ==
            Count(Messages(t.work), m) + Held(t.workers, m) + Count(t.processed, m) + Count(t.aborted, m)
    ensures t.taken <= t.entered && t.received <= t.accepted
    ensures t.recvUnfinished == |t.recv| + Holders(t.dispatchers)
    ensures t.workUnfinished == |t.work| + Holders(t.workers)
  {
    StartedInv(s);
    RunInv(s, actions, t);
    assert InboundBalance(t, m) && WorkBalance(t, m);
  }

  /** What Conservation says, of all messages at once. */
  ghost predicate Accounted(t: State) {
    && (forall m :: Count(t.accepted, m)
          == Count(t.recv, m) + Held(t.dispatchers, m) + Count(t.ignored, m) + Count(t.lost, m) + Count(t.forwarded, m))
    && (forall m :: Count(t.forwarded, m) + Count(t.scheduled, m)
          == Count(Messages(t.work), m) + Held(t.workers, m) + Count(t.processed, m) + Count(t.aborted, m))
    && t.recvUnfinished == |t.recv| + Holders(t.dispatchers)
    && t.workUnfinished == |t.work| + Holders(t.workers)
  }

  lemma AllAccounted(s: State, actions: seq<Action>, t: State)
    requires Started(s) && Runs(s, actions, t)
    ensures Accounted(t)
  {
    Conservation(s, actions, t, Message(0, false));
    forall m
      ensures Count(t.accepted, m)
        == Count(t.recv, m) + Held(t.dispatchers, m) + Count(t.ignored, m) + Count(t.lost, m) + Count(t.forwarded, m)
      ensures Count(t.forwarded, m) + Count(t.scheduled, m)
        == Count(Messages(t.work), m) + Held(t.workers, m) + Count(t.processed, m) + Count(t.aborted, m) {
      Conservation(s, actions, t, m);
    }
  }

  predicate Cancels(a: Action) {
    a.DispatcherCancel? || a.WorkerCancel? || a.DrainTimeout?
  }

  lemma {:induction false} NothingLost(s: State, actions: seq<Action>, t: State)
    requires Runs(s, actions, t) && forall a :: a in actions ==> !Cancels(a)
    ensures t.lost == s.lost
    decreases |actions|
  {
    if actions == [] {
    } else {
      assert actions[0] in actions;
      NothingLost(Apply(s, actions[0]), actions[1..], t);
    }
  }

  /** Without cancellation, once the receive side is idle, every accepted event
      has gone to the work queue exactly as often as it was accepted, except
      that events of ONLY_READ groups never go there. */
  lemma EveryEventForwarded(s: State, actions: seq<Action>, t: State, m: Message)
    requires Started(s) && Runs(s, actions, t)
    requires forall a :: a in actions ==> !Cancels(a)
    requires t.recv == [] && forall i :: 0 <= i < |t.dispatchers| ==> t.dispatchers[i] == Idle
    ensures Count(t.forwarded, m) == if m.onlyRead then 0 else Count(t.accepted, m)
  {
    Conservation(s, actions, t, m);
    NothingLost(s, actions, t);
    AllIdle(t.dispatchers, m);
    StartedInv(s);
    RunInv(s, actions, t);
    assert InboundBalance(t, m);
  }

  // ---------------------------------------------------------------- progress

  /** What the tasks themselves do, with no one feeding or cancelling them. */
  predicate Internal(a: Action) {
    a.DispatcherTake? || a.DispatcherPost? || a.DispatcherPut? || a.WorkerTake? || a.WorkerDone?
    || a.DrainPut? || a.DrainJoin?
  }

  /** Steps still owed to what the dispatchers hold. */
  function Owed(ts: seq<Task>): (n: nat) {
    if ts == [] then 0
    else (if !ts[0].Holding? then 0 else if ts[0].ready then 3 else 4) + Owed(ts[1..])
  }

  /** Steps still owed to everything in the pipeline and to the drain. */
  function Measure(s: State): int {
    5 * |s.recv| + Owed(s.dispatchers) + |s.work| + |Messages(s.work)| + Holders(s.workers)
    + (match s.phase
       case Draining(pills) => 2 * (|s.workers| - pills) + 1
       case Cancelling => 1
       case _ => 0)
  }

  lemma {:induction false} OwedUpdate(ts: seq<Task>, i: nat, t: Task)
    requires i < |ts|
    ensures Owed(ts[i := t]) - Owed([t]) == Owed(ts) - Owed([ts[i]])
  {
    if i == 0 {
      assert ts[i := t][1..] == ts[1..];
    } else {
      OwedUpdate(ts[1..], i - 1, t);
      assert ts[i := t][1..] == ts[1..][i - 1 := t];
    }
  }

  /** Every internal step brings the pipeline nearer to rest; while draining, by exactly one. */
  lemma InternalDecreases(s: State, a: Action)
    requires Inv(s) && Enabled(s, a) && Internal(a)
    ensures Measure(Apply(s, a)) < Measure(s)
    ensures s.phase.Draining? ==> Measure(Apply(s, a)) == Measure(s) - 1
  {
    match a
    case DispatcherTake(i) => OwedUpdate(s.dispatchers, i, Holding(s.recv[0], false));
    case DispatcherPost(i) => OwedUpdate(s.dispatchers, i, Holding(s.dispatchers[i].m, true));
    case DispatcherPut(i) => PutDecreases(s, i);
    case WorkerTake(i) => TakeDecreases(s, i);
    case WorkerDone(i) => TaskUpdate(s.workers, i, Idle);
    case DrainPut => MessagesAppend(s.work, Pill);
    case DrainJoin =>
  }

  lemma MeasureNat(s: State)
    requires Inv(s)
    ensures Measure(s) >= 0
  {
  }

  lemma PutDecreases(s: State, i: nat)
    requires Enabled(s, DispatcherPut(i))
    ensures Measure(Apply(s, DispatcherPut(i))) < Measure(s)
  {
    OwedUpdate(s.dispatchers, i, Idle);
    MessagesAppend(s.work, Msg(s.dispatchers[i].m));
  }

  lemma TakeDecreases(s: State, i: nat)
    requires Enabled(s, WorkerTake(i))
    ensures Measure(Apply(s, WorkerTake(i))) == Measure(s) - 1
  {
    TaskUpdate(s.workers, i, Apply(s, WorkerTake(i)).workers[i]);
  }

  /** An Idle or Holding worker exists while fewer pills were taken than there are workers. */
  lemma LiveWorker(s: State) returns (i: nat)
    requires Inv(s) && !AllEnded(s.workers)
    ensures i < |s.workers| && s.workers[i] != Ended
    ensures s.work != [] ==> Enabled(s, WorkerTake(i)) || Enabled(s, WorkerDone(i))
  {
    i :| 0 <= i < |s.workers| && s.workers[i] != Ended;
  }

  /** How long the work queue will be at the end of a drain in which nobody crashes
      any more: a None for each crashed worker; or, if all have crashed, everything
      that is queued and every None still to come. */
  function LeftBehind(s: State): int
    requires s.phase.Draining?
  {
    if |s.crashed| < |s.workers| then |s.crashed| else |s.work| + |s.workers| - s.phase.pills
  }

  /** With every worker ended and some of them by a None, only Nones are queued,
      fewer of them than workers have crashed as long as the drain puts more. */
  lemma LeftOver(s: State)
    requires Inv(s) && s.phase.Draining? && AllEnded(s.workers) && |s.crashed| < |s.workers|
    ensures Messages(s.work) == [] && |s.work| == s.phase.pills + |s.crashed| - |s.workers|
  {
    EndedAll(s.workers, Message(0, false));
  }

  /** The shutdown does not deadlock while the work queue has room for what will be
      left behind: the drain itself or some worker can move, and a put of None
      blocked by a full queue means that a worker is alive and able to move. */
  lemma DrainNeverStuck(s: State)
    requires Inv(s) && s.phase.Draining? && LeftBehind(s) <= s.workCap
    ensures exists a :: Internal(a) && Enabled(s, a)
    ensures s.phase.pills < |s.workers| && |s.work| == s.workCap ==>
            exists i :: Enabled(s, WorkerTake(i)) || Enabled(s, WorkerDone(i))
  {
    if AllEnded(s.workers) {
      if |s.crashed| < |s.workers| { LeftOver(s); }
      assert if s.phase.pills < |s.workers| then Enabled(s, DrainPut) else Enabled(s, DrainJoin);
      assert Internal(DrainPut) && Internal(DrainJoin);
    } else {
      var i := LiveWorker(s);
      if s.work != [] || s.workers[i].Holding? {
        assert Enabled(s, WorkerTake(i)) || Enabled(s, WorkerDone(i));
        if Enabled(s, WorkerTake(i)) { assert Internal(WorkerTake(i)); } else { assert Internal(WorkerDone(i)); }
      } else {
        IdlePut(s);
      }
    }
  }

  /** An empty queue has room for the next None, for each one sent has ended a worker. */
  lemma IdlePut(s: State)
    requires Inv(s) && s.phase.Draining? && !AllEnded(s.workers) && s.work == []
    ensures Enabled(s, DrainPut) && Internal(DrainPut)
  {
    EndedAll(s.workers, Message(0, false));
  }

  /** Before the shutdown nothing gets stuck either: as long as a dispatcher and a
      worker are alive, any message anywhere in the pipeline means that some task
      can move. */
  lemma RunningNeverStuck(s: State, d: nat)
    requires Inv(s) && s.phase.Running? && d < |s.dispatchers| && s.dispatchers[d] != Ended
    requires |s.crashed| < |s.workers|
    requires s.recv != [] || s.dispatchers[d].Holding? || s.work != [] || Holders(s.workers) > 0
    ensures exists a :: Internal(a) && Enabled(s, a)
  {
    EndedAll(s.workers, Message(0, false));
    var i := LiveWorker(s);
    if s.work != [] {
      if Enabled(s, WorkerTake(i)) { assert Internal(WorkerTake(i)); } else { assert Internal(WorkerDone(i)); }
    } else if Holders(s.workers) > 0 {
      var j := SomeHolder(s.workers);
      assert Enabled(s, WorkerDone(j)) && Internal(WorkerDone(j));
    } else if s.dispatchers[d] == Idle {
      assert Enabled(s, DispatcherTake(d)) && Internal(DispatcherTake(d));
    } else if s.dispatchers[d].ready {
      assert Enabled(s, DispatcherPut(d)) && Internal(DispatcherPut(d));
    } else {
      assert Enabled(s, DispatcherPost(d)) && Internal(DispatcherPost(d));
    }
  }

  lemma {:induction false} SomeHolder(ts: seq<Task>) returns (j: nat)
    requires Holders(ts) > 0
    ensures j < |ts| && ts[j].Holding?
  {
    if ts[0].Holding? {
      j := 0;
    } else {
      j := SomeHolder(ts[1..]);
      j := j + 1;
    }
  }

  // ------------------------------------------------------------- the shutdown

  /** Left to themselves, the tasks come to rest: no run of internal steps is
      longer than the measure of its start. */
  lemma {:induction false} InternalRunsEnd(s: State, actions: seq<Action>, t: State)
    requires Inv(s) && Runs(s, actions, t) && forall a :: a in actions ==> Internal(a)
    ensures |actions| <= |actions| + Measure(t) <= Measure(s)
    decreases |actions|
  {
    if actions == [] {
    } else {
      assert actions[0] in actions;
      StepInv(s, actions[0]);
      InternalDecreases(s, actions[0]);
      InternalRunsEnd(Apply(s, actions[0]), actions[1..], t);
    }
  }

  /** A step of a drain that is not timed out: one of the tasks' own, or a crash. */
  lemma DrainStep(s: State, a: Action)
    requires Inv(s) && s.phase.Draining? && Enabled(s, a) && a != DrainTimeout
    ensures Internal(a) || a.WorkerCrash?
    ensures Measure(Apply(s, a)) == Measure(s) - 1
    ensures Apply(s, a).phase.Draining? || Apply(s, a).phase == Finished(false)
  {
    if a.WorkerCrash? {
      TaskUpdate(s.workers, a.i, Ended);
    } else {
      InternalDecreases(s, a);
    }
  }

  /** A drain that is not timed out uses up its measure one by one, whatever
      the interleaving and whoever crashes, and can only end in `Finished(false)`. */
  lemma {:induction false} DrainSteps(s: State, actions: seq<Action>, t: State)
    requires Inv(s) && (s.phase.Draining? || s.phase == Finished(false)) && Runs(s, actions, t)
    requires DrainTimeout !in actions
    ensures t.phase == Finished(false) || t.phase.Draining?
    ensures |actions| + Measure(t) == Measure(s)
    ensures t.entered == s.entered && t.recv == s.recv
    decreases |actions|
  {
    if actions == [] {
    } else {
      var a := actions[0];
      assert a in actions;
      StepInv(s, a);
      FinishedRests(s, a);
      DrainStep(s, a);
      DrainSteps(Apply(s, a), actions[1..], t);
    }
  }

  /** Nothing can happen any more to the tasks behind a finished drain. */
  lemma FinishedRests(s: State, a: Action)
    requires Inv(s) && Enabled(s, a)
    ensures !s.phase.Finished?
  {
  }

  lemma {:induction false} NoneOwed(ts: seq<Task>)
    requires AllEnded(ts)
    ensures Owed(ts) == 0
  {
    if ts == [] {
    } else {
      NoneOwed(ts[1..]);
    }
  }

  /** A drain that comes to its end without timing out has taken a number of
      steps fixed by its start and by what it leaves behind: two for each message
      queued and two for each worker's None, one for each message in hand, and the
      join; less one for each None and two for each message that stays queued. */
  lemma DrainLength(s: State, actions: seq<Action>, t: State)
    requires Inv(s) && s.phase == Draining(0) && Runs(s, actions, t) && t.phase.Finished?
    requires DrainTimeout !in actions
    ensures |actions| == 2 * |s.work| + Holders(s.workers) + 2 * |s.workers| + 1 - |t.work| - |Messages(t.work)|
    ensures |t.crashed| < |t.workers| ==>
      |actions| == 2 * |s.work| + Holders(s.workers) + 2 * |s.workers| + 1 - |t.crashed|
  {
    DrainSteps(s, actions, t);
    RunInv(s, actions, t);
    NoneOwed(s.dispatchers);
    NoneOwed(t.dispatchers);
    EndedAll(t.workers, Message(0, false));
    assert |Messages(s.work)| == |s.work| by { DrainStart(s); }
    WhatIsLeft(t);
  }

  /** Before the first None, only messages are queued. */
  lemma DrainStart(s: State)
    requires Inv(s) && s.phase == Draining(0)
    ensures |Messages(s.work)| == |s.work| && s.pilled == []
  {
    NoMessages(s.work);
  }

  /** A finished drain leaves one None for each crashed worker in the work queue,
      and messages only if every worker has crashed; each other worker has taken
      exactly one None; and every message put in was processed, was in the hands of
      a crashed worker, or is still queued. */
  lemma DrainComplete(s: State, actions: seq<Action>, t: State, m: Message, w: nat)
    requires Started(s) && Runs(s, actions, t) && t.phase == Finished(false) && w < |t.workers|
    ensures |t.work| == |t.crashed| + |Messages(t.work)| && |t.aborted| == |t.crashed|
    ensures |t.crashed| < |t.workers| ==> Messages(t.work) == [] && t.taken == t.entered
    ensures Count(t.processed, m) + Count(t.aborted, m) + Count(Messages(t.work), m)
         == Count(t.forwarded, m) + Count(t.scheduled, m)
    ensures multiset(t.pilled)[w] == if w in t.crashed then 0 else 1
  {
    StartedInv(s);
    RunInv(s, actions, t);
    Conservation(s, actions, t, m);
    WhatIsLeft(t);
    EndedAll(t.workers, m);
    OnePillEach(t, w);
  }

  /** The same, of all messages and all workers at once. */
  ghost predicate Drained(t: State) {
    && |t.work| == |t.crashed| + |Messages(t.work)|
    && (|t.crashed| < |t.workers| ==> Messages(t.work) == [] && t.taken == t.entered)
    && (forall m :: Count(t.processed, m) + Count(t.aborted, m) + Count(Messages(t.work), m) == Count(t.entered, m))
    && (forall w: nat :: w < |t.workers| ==> multiset(t.pilled)[w] == if w in t.crashed then 0 else 1)
  }

  lemma FinishedIsDrained(t: State)
    requires Inv(t) && t.phase == Finished(false)
    ensures Drained(t)
  {
    WhatIsLeft(t);
    forall m ensures Count(t.processed, m) + Count(t.aborted, m) + Count(Messages(t.work), m) == Count(t.entered, m) {
      EndedAll(t.workers, m);
      assert WorkBalance(t, m);
    }
    forall w: nat | w < |t.workers| ensures multiset(t.pilled)[w] == if w in t.crashed then 0 else 1 {
      OnePillEach(t, w);
    }
  }

  /** Without a crash this reads: the queue is empty, everything was processed, and
      each worker has taken exactly one None. */
  lemma CleanDrain(s: State, actions: seq<Action>, t: State, m: Message, w: nat)
    requires Started(s) && Runs(s, actions, t) && t.phase == Finished(false) && w < |t.workers|
    requires t.crashed == []
    ensures t.work == [] && t.workUnfinished == 0 && t.taken == t.entered
    ensures Count(t.processed, m) == Count(t.forwarded, m) + Count(t.scheduled, m)
    ensures multiset(t.pilled)[w] == 1
  {
    StartedInv(s);
    RunInv(s, actions, t);
    EndedAll(t.workers, m);
    DrainComplete(s, actions, t, m, w);
    assert t.aborted == [];
  }

  /** What will be left behind does not change, and is there in the end. */
  lemma LeftBehindStep(s: State, a: Action)
    requires Inv(s) && s.phase.Draining? && Enabled(s, a) && Internal(a)
    ensures var t := Apply(s, a);
      && t.workCap == s.workCap && t.crashed == s.crashed && |t.workers| == |s.workers| && t.entered == s.entered
      && (if t.phase.Draining? then LeftBehind(t) == LeftBehind(s)
          else t.phase == Finished(false) && |t.work| == LeftBehind(s))
  {
    EndedAll(s.workers, Message(0, false));
    if a.DrainJoin? {
      if |s.crashed| < |s.workers| { LeftOver(s); }
    }
  }

  lemma {:induction false} LeftBehindRun(s: State, actions: seq<Action>, t: State)
    requires Inv(s) && s.phase.Draining? && Runs(s, actions, t) && forall a :: a in actions ==> Internal(a)
    ensures t.workCap == s.workCap
    ensures if t.phase.Draining? then LeftBehind(t) == LeftBehind(s)
            else t.phase == Finished(false) && |t.work| == LeftBehind(s)
    decreases |actions|
  {
    if actions == [] {
    } else {
      var a := actions[0];
      assert a in actions;
      StepInv(s, a);
      LeftBehindStep(s, a);
      var u := Apply(s, a);
      if u.phase.Draining? {
        LeftBehindRun(u, actions[1..], t);
      } else if actions[1..] != [] {
        FinishedRests(u, actions[1]);
      }
    }
  }

  /** A drain left to itself goes on until nothing can move, which InternalRunsEnd
      says must come.  It has then come to its end if, and only if, the work queue
      has room for what is left behind; otherwise it waits for ever to put the next
      None.  With some worker not crashed this says that no more workers have
      crashed than the queue has places; with all of them crashed, that the queue
      has room for all that is queued and all Nones still to come. */
  lemma DrainEndsIff(s: State, actions: seq<Action>, t: State)
    requires Inv(s) && s.phase.Draining?
    requires Runs(s, actions, t) && forall a :: a in actions ==> Internal(a)
    requires forall a :: Internal(a) ==> !Enabled(t, a)
    ensures t.phase == Finished(false) <==> LeftBehind(s) <= s.workCap
  {
    RunInv(s, actions, t);
    LeftBehindRun(s, actions, t);
    if t.phase.Draining? && LeftBehind(t) <= t.workCap {
      DrainNeverStuck(t);
    }
  }

  /** A drain that never ends: one worker, which crashes; the message behind its own
      fills the queue of one place. */
  lemma OneWorkerCrashes(s: State, m: Message, n: Message) returns (t: State)
    requires Started(s) && s.workers == [Idle] && s.workCap == 1 && s.dispatchers == []
    ensures Runs(s, [Schedule(m), WorkerTake(0), Schedule(n), WorkerCrash(0), BeginDrain], t)
    ensures Inv(t) && t.phase == Draining(0) && LeftBehind(t) == 2
    ensures forall a :: Internal(a) ==> !Enabled(t, a)
  {
    var u := OneTakes(s, m);
    t := OneCrashes(u, m, n);
    assert [Schedule(m), WorkerTake(0)] + [Schedule(n), WorkerCrash(0), BeginDrain]
        == [Schedule(m), WorkerTake(0), Schedule(n), WorkerCrash(0), BeginDrain];
    RunsJoin(s, [Schedule(m), WorkerTake(0)], u, [Schedule(n), WorkerCrash(0), BeginDrain], t);
    StartedInv(s);
    RunInv(s, [Schedule(m), WorkerTake(0), Schedule(n), WorkerCrash(0), BeginDrain], t);
  }

  lemma OneTakes(s: State, m: Message) returns (u: State)
    requires Started(s) && s.workers == [Idle] && s.workCap == 1 && s.dispatchers == []
    ensures Runs(s, [Schedule(m), WorkerTake(0)], u)
    ensures u.workers == [Holding(m, false)] && u.workCap == 1 && u.dispatchers == [] && u.work == []
    ensures u.phase.Running? && u.recv == [] && u.crashed == []
  {
    var s1 := Apply(s, Schedule(m));
    assert s1.work == [Msg(m)];
    u := Apply(s1, WorkerTake(0));
    RunsNothing(s);
    RunsAppend(s, [], s, Schedule(m));
    RunsAppend(s, [Schedule(m)], s1, WorkerTake(0));
    assert [] + [Schedule(m)] == [Schedule(m)] && [Schedule(m)] + [WorkerTake(0)] == [Schedule(m), WorkerTake(0)];
  }

  lemma OneCrashes(u: State, m: Message, n: Message) returns (t: State)
    requires u.workers == [Holding(m, false)] && u.workCap == 1 && u.dispatchers == [] && u.work == []
    requires u.phase.Running? && u.recv == [] && u.crashed == []
    ensures Runs(u, [Schedule(n), WorkerCrash(0), BeginDrain], t)
    ensures t.phase == Draining(0) && LeftBehind(t) == 2 && forall a :: Internal(a) ==> !Enabled(t, a)
  {
    var s3 := Apply(u, Schedule(n));
    assert s3.workers == u.workers && s3.work == [Msg(n)] && s3.phase.Running? && s3.crashed == [];
    var s4 := Apply(s3, WorkerCrash(0));
    assert s4.workers == [Ended] && s4.work == [Msg(n)] && s4.phase.Running? && s4.crashed == [0];
    t := Apply(s4, BeginDrain);
    RunsNothing(u);
    RunsAppend(u, [], u, Schedule(n));
    RunsAppend(u, [Schedule(n)], s3, WorkerCrash(0));
    RunsAppend(u, [Schedule(n), WorkerCrash(0)], s4, BeginDrain);
    assert [] + [Schedule(n)] == [Schedule(n)] && [Schedule(n)] + [WorkerCrash(0)] == [Schedule(n), WorkerCrash(0)];
    assert [Schedule(n), WorkerCrash(0)] + [BeginDrain] == [Schedule(n), WorkerCrash(0), BeginDrain];
    hide Runs;
  }

  /** What a finished drain leaves in the queue. */
  lemma WhatIsLeft(t: State)
    requires Inv(t) && t.phase == Finished(false)
    ensures |t.work| == |t.crashed| + |Messages(t.work)| <= t.workCap
    ensures |t.crashed| < |t.workers| ==> Messages(t.work) == [] && t.taken == t.entered
  {
    assert |t.crashed| < |t.workers| ==> t.pilled != [];
  }

  /** A finished drain: each worker has either crashed or taken exactly one None. */
  lemma OnePillEach(t: State, w: nat)
    requires LeaversOk(t) && |t.pilled| + |t.crashed| == |t.workers| && w < |t.workers|
    ensures multiset(t.pilled)[w] == if w in t.crashed then 0 else 1
  {
    var all := t.pilled + t.crashed;
    assert Distinct(all);
    Pigeonhole(all, |t.workers|, w);
    DistinctOnce(t.crashed, w);
  }

  /** `n` distinct numbers below `n` are all the numbers below `n`. */
  lemma Pigeonhole(s: seq<nat>, n: nat, w: nat)
    requires Distinct(s) && |s| == n && w < n && forall k :: 0 <= k < |s| ==> s[k] < n
    ensures multiset(s)[w] == 1
  {
    DistinctOnce(s, w);
    if w !in s { InjectionSize(s, Below(n) - {w}); }
  }

  lemma {:induction false} DistinctOnce(s: seq<nat>, w: nat)
    requires Distinct(s)
    ensures multiset(s)[w] == if w in s then 1 else 0
  {
    if s == [] {
    } else {
      assert s == [s[0]] + s[1..];
      assert forall i, j :: 0 <= i < j < |s[1..]| ==> s[1..][i] == s[i + 1] && s[1..][j] == s[j + 1];
      DistinctOnce(s[1..], w);
    }
  }

  lemma {:induction false} InjectionSize(s: seq<nat>, range: set<nat>)
    requires Distinct(s) && forall x :: x in s ==> x in range
    ensures |s| <= |range|
  {
    if s == [] {
    } else {
      assert forall i, j :: 0 <= i < j < |s[1..]| ==> s[1..][i] == s[i + 1] && s[1..][j] == s[j + 1];
      InjectionSize(s[1..], range - {s[0]});
    }
  }

  function Below(n: nat): (r: set<nat>)
    ensures |r| == n && forall x: nat :: x in r <==> x < n
  {
    if n == 0 then {} else Below(n - 1) + {n - 1}
  }

  // ------------------------------------------------------------ choosing a step

  lemma RunsNothing(s: State)
    ensures Runs(s, [], s)
  {
  }

  lemma {:induction false} RunsAppend(s: State, actions: seq<Action>, t: State, a: Action)
    requires Runs(s, actions, t) && Enabled(t, a)
    ensures Runs(s, actions + [a], Apply(t, a))
    decreases |actions|
  {
    if actions == [] {
      assert [a][1..] == [] && actions + [a] == [a];
    } else {
      RunsAppend(Apply(s, actions[0]), actions[1..], t, a);
      assert (actions + [a])[1..] == actions[1..] + [a];
    }
  }

  lemma {:induction false} RunsJoin(s: State, first: seq<Action>, u: State, second: seq<Action>, t: State)
    requires Runs(s, first, u) && Runs(u, second, t)
    ensures Runs(s, first + second, t)
    decreases |first|
  {
    if first == [] {
      assert first + second == second;
    } else {
      RunsJoin(Apply(s, first[0]), first[1..], u, second, t);
      assert (first + second)[1..] == first[1..] + second;
    }
  }

  /** What the first `n` workers can do. */
  function WorkerMoves(s: State, n: nat): seq<Action>
    requires n <= |s.workers|
  {
    if n == 0 then []
    else
      WorkerMoves(s, n - 1)
      + (if Enabled(s, WorkerTake(n - 1)) then [WorkerTake(n - 1)] else [])
      + (if Enabled(s, WorkerDone(n - 1)) then [WorkerDone(n - 1)] else [])
  }

  /** What can happen next in a drain that is left to itself. */
  function DrainMoves(s: State): seq<Action> {
    WorkerMoves(s, |s.workers|)
    + (if Enabled(s, DrainPut) then [DrainPut] else [])
    + (if Enabled(s, DrainJoin) then [DrainJoin] else [])
  }

  lemma {:induction false} WorkerMovesIff(s: State, n: nat, a: Action)
    requires n <= |s.workers|
    ensures a in WorkerMoves(s, n) <==> (a.WorkerTake? || a.WorkerDone?) && a.i < n && Enabled(s, a)
  {
    if n == 0 {
    } else {
      WorkerMovesIff(s, n - 1, a);
      hide Enabled;
    }
  }

  /** The list holds all that can happen and nothing else. */
  lemma DrainMovesIff(s: State, a: Action)
    requires Inv(s) && (s.phase.Draining? || s.phase.Finished?)
    ensures a in DrainMoves(s) <==> Internal(a) && Enabled(s, a)
  {
    WorkerMovesIff(s, |s.workers|, a);
  }
}
