/**
 The outbound half of the bot as a transition system: callers of call_action and
 of the plain send functions, the send and receive loops of one connection, and
 the loop that reconnects.  One action is one stretch of code between two await
 points; the peer, the timeouts and the failures may strike at any moment.
 */
module Connection {
  import opened ActionRouter
  import opened SendQueue

  /** Down: no transport bound.  Bound: connected, the two loops not yet started.
      Up: both loops run.  Closing: the connection has ended, its loops are being
      cancelled and the transport is still bound; until then they may go on. */
  datatype Phase = Down | Bound | Up | Closing

  datatype State = State(phase: Phase, table: Table, out: Outbound)

  datatype Action =
    | Request(e: Echo)                 // call_action up to its await
    | Send(e: Echo, onLoop: bool)      // a frame nobody waits for
    | Callback                         // a frame handed over by another thread
    | Respond(p: Payload)              // resolve_response
    | Strike(i: nat)                   // a timeout or a cancellation reaches a call
    | Resume(i: nat, o: Outcome)       // a call runs again and returns
    | Connect
    | Start
    | SendTake
    | SendOk
    | SendFail
    | Break                            // a loop ended, or the bot is shutting down
    | SendCancelled
    | Teardown                         // the finally block of the reconnect loop

  predicate Enabled(s: State, a: Action) {
    match a
    case Request(e) => e !in s.out.offered
    case Send(e, _) => e !in s.out.offered
    case Callback => s.out.callbacks != []
    case Respond(_) => s.phase.Up? || s.phase.Closing?
    case Strike(i) => i < |s.table.calls| && s.table.calls[i].outcome.Unreturned?
    case Resume(i, o) => i < |s.table.calls| && Woken(s.table.calls[i]) && Ends(s.table.calls[i], o)
    case Connect => s.phase.Down?
    case Start => s.phase.Bound?
    case SendTake => (s.phase.Up? || s.phase.Closing?) && s.out.hand.None? && s.out.queue != []
    case SendOk => s.out.hand.Some?
    case SendFail => s.out.hand.Some?
    case Break => s.phase.Up?
    case SendCancelled => s.phase.Closing? && s.out.hand.Some?
    case Teardown => !s.phase.Up? && s.out.hand.None?
  }

  function Apply(s: State, a: Action): State
    requires Enabled(s, a)
  {
    match a
    case Request(e) =>
      if s.phase.Down? then s.(table := ActionRouter.Refuse(s.table, e), out := SendQueue.Refuse(s.out, e))
      else s.(table := Register(s.table, e), out := Offer(s.out, e, true))
    case Send(e, onLoop) =>
      if s.phase.Down? then s.(out := SendQueue.Refuse(s.out, e)) else s.(out := Offer(s.out, e, onLoop))
    case Callback => s.(out := RunCallback(s.out))
    case Respond(p) => s.(table := Resolve(s.table, p))
    case Strike(i) => s.(table := Interrupt(s.table, i))
    case Resume(i, o) => s.(table := Return(s.table, i, o))
    case Connect => s.(phase := Bound)
    case Start => s.(phase := Up)
    case SendTake => s.(out := Take(s.out))
    case SendOk => s.(out := Sent(s.out))
    case SendFail => s.(phase := Closing, out := Requeue(s.out))
    case Break => s.(phase := Closing)
    case SendCancelled => s.(out := Abandon(s.out))
    case Teardown => s.(phase := Down, table := FailAll(s.table))
  }

  ghost predicate Runs(s: State, actions: seq<Action>, t: State)
    decreases |actions|
  {
    if actions == [] then s == t
    else Enabled(s, actions[0]) && Runs(Apply(s, actions[0]), actions[1..], t)
  }

  predicate Started(s: State) {
    && s.phase == Down && s.table == Table([], map[])
    && s.out == Outbound(s.out.cap, [], [], None, 0, [], [], [], [], [], [], false) && s.out.cap >= 1
  }

  /** The first state, for the configured size of the queue; a size below one is raised to one. */
  function Opening(size: int): (s: State)
    ensures Started(s)
  {
    State(Down, Table([], map[]),
          Outbound(if size < 1 then 1 else size, [], [], None, 0, [], [], [], [], [], [], false))
  }

  // ----------------------------------------------------------------- invariant

  /** A call has returned "not ready" exactly when its frame was refused. */
  ghost predicate CallsOffered(s: State) {
    forall i :: 0 <= i < |s.table.calls| ==>
      && s.table.calls[i].echo in s.out.offered
      && (s.table.calls[i].outcome.NotReady? <==> s.table.calls[i].echo in s.out.refused)
  }

  ghost predicate Inv(s: State) {
    && TableInv(s.table)
    && OutboundInv(s.out)
    && CallsOffered(s)
    && (s.phase.Down? ==> s.table.pending == map[])
    && (s.out.hand.Some? ==> s.phase.Up? || s.phase.Closing?)
  }

  lemma StartedInv(s: State)
    requires Started(s)
    ensures Inv(s)
  {
    forall e ensures FrameBalance(s.out, e) {
    }
  }

  lemma Fresh(s: State, e: Echo)
    requires CallsOffered(s) && e !in s.out.offered
    ensures FreshEcho(s.table, e) && Count(s.out.offered, e) == 0
  {
  }

  lemma TableStep(s: State, a: Action)
    requires Inv(s) && Enabled(s, a)
    ensures TableInv(Apply(s, a).table)
  {
    hide TableInv, OutboundInv, Register, ActionRouter.Refuse, Resolve, Interrupt, Return, FailAll;
    hide Offer, SendQueue.Refuse, RunCallback, Take, Sent, Requeue, Abandon;

    match a
    case Request(e) =>
      Fresh(s, e);
      if s.phase.Down? { ActionRouter.RefuseInv(s.table, e); } else { RegisterInv(s.table, e); }
    case Respond(p) => ResolveInv(s.table, p);
    case Strike(i) => InterruptInv(s.table, i);
    case Resume(i, o) => ReturnInv(s.table, i, o);
    case Teardown => FailAllInv(s.table);
    case _ =>
  }

  lemma OutboundStep(s: State, a: Action)
    requires Inv(s) && Enabled(s, a)
    ensures OutboundInv(Apply(s, a).out)
  {
    hide TableInv, OutboundInv, Register, ActionRouter.Refuse, Resolve, Interrupt, Return, FailAll;
    hide Offer, SendQueue.Refuse, RunCallback, Take, Sent, Requeue, Abandon;

    match a
    case Request(e) =>
      Fresh(s, e);
      if s.phase.Down? { SendQueue.RefuseInv(s.out, e); } else { OfferInv(s.out, e, true); }
    case Send(e, onLoop) =>
      Fresh(s, e);
      if s.phase.Down? { SendQueue.RefuseInv(s.out, e); } else { OfferInv(s.out, e, onLoop); }
    case Callback => CallbackInv(s.out);
    case SendTake => TakeInv(s.out);
    case SendOk => SentInv(s.out);
    case SendFail => RequeueInv(s.out);
    case SendCancelled => AbandonInv(s.out);
    case _ =>
  }

  /** Every step keeps the invariant. */
  lemma StepInv(s: State, a: Action)
    requires Inv(s) && Enabled(s, a)
    ensures Inv(Apply(s, a))
  {
    hide TableInv, OutboundInv, CallsOffered;
    TableStep(s, a);
    OutboundStep(s, a);
    OfferedStep(s, a);
  }

  lemma OfferedStep(s: State, a: Action)
    requires Inv(s) && Enabled(s, a)
    ensures CallsOffered(Apply(s, a))
  {
    match a
    case Request(e) => OfferedCall(s, e);
    case Send(e, onLoop) => OfferedSend(s, e, onLoop);
    case Respond(_) => hide TableInv, OutboundInv;
    case Strike(_) => hide TableInv, OutboundInv;
    case Resume(_, _) => hide TableInv, OutboundInv;
    case Teardown => hide TableInv, OutboundInv;
    case _ => OfferedQueue(s, a);
  }

  lemma OfferedQueue(s: State, a: Action)
    requires Inv(s) && Enabled(s, a)
    requires a.Callback? || a.Connect? || a.Start? || a.SendTake? || a.SendOk? || a.SendFail? || a.Break?
             || a.SendCancelled?
    ensures CallsOffered(Apply(s, a))
  {
    hide TableInv, OutboundInv;
    assert Apply(s, a).out.offered == s.out.offered && Apply(s, a).out.refused == s.out.refused;
    assert Apply(s, a).table == s.table;
    hide Apply;
  }

  lemma OfferedCall(s: State, e: Echo)
    requires Inv(s) && e !in s.out.offered
    ensures CallsOffered(Apply(s, Request(e)))
  {
    Fresh(s, e);
    assert e !in s.out.refused by {
      assert FrameBalance(s.out, e);
    }
    hide TableInv, OutboundInv;
    OfferedLogs(s.out, e, true);
    hide Offer, SendQueue.Refuse;
  }

  lemma OfferedSend(s: State, e: Echo, onLoop: bool)
    requires Inv(s) && e !in s.out.offered
    ensures CallsOffered(Apply(s, Send(e, onLoop)))
  {
    Fresh(s, e);
    hide TableInv, OutboundInv;
    OfferedLogs(s.out, e, onLoop);
    hide Offer, SendQueue.Refuse;
  }

  lemma OfferedLogs(o: Outbound, e: Echo, onLoop: bool)
    ensures Offer(o, e, onLoop).offered == o.offered + [e] == SendQueue.Refuse(o, e).offered
    ensures Offer(o, e, onLoop).refused == o.refused && SendQueue.Refuse(o, e).refused == o.refused + [e]
    ensures e in o.offered + [e] && e in o.refused + [e]
  {
  }

  // ------------------------------------------------------------ every whole run

  /** Every reachable state satisfies the invariant. */
  lemma {:induction false} RunInv(s: State, actions: seq<Action>, t: State)
    requires Inv(s) && Runs(s, actions, t)
    ensures Inv(t)
    decreases |actions|
  {
    if actions == [] {
    } else {
      StepInv(s, actions[0]);
      RunInv(Apply(s, actions[0]), actions[1..], t);
    }
  }

  /** What later steps may no longer change about a call: its echo, a completed
      future, and everything once it has returned. */
  ghost predicate Settled(c: ActionRouter.Call, d: ActionRouter.Call) {
    && d.echo == c.echo
    && (!c.future.Open? ==> d.future == c.future)
    && (!c.outcome.Unreturned? ==> d == c)
  }

  lemma StepSettles(s: State, a: Action, i: nat)
    requires Inv(s) && Enabled(s, a) && i < |s.table.calls|
    ensures i < |Apply(s, a).table.calls| && Settled(s.table.calls[i], Apply(s, a).table.calls[i])
  {
    match a
    case Respond(p) => ResolveOnlyOwn(s.table, p, i);
    case Teardown => FailAllReleases(s.table, i);
    case _ =>
  }

  /** Each future is completed at most once: in no run does a completed future, or
      a call that has returned, change again. */
  lemma {:induction false} CompletedOnce(s: State, actions: seq<Action>, t: State, i: nat)
    requires Inv(s) && Runs(s, actions, t) && i < |s.table.calls|
    ensures i < |t.table.calls| && Settled(s.table.calls[i], t.table.calls[i])
    decreases |actions|
  {
    if actions == [] {
    } else {
      StepInv(s, actions[0]);
      StepSettles(s, actions[0], i);
      CompletedOnce(Apply(s, actions[0]), actions[1..], t, i);
    }
  }

  lemma StepResolves(s: State, a: Action, i: nat)
    requires Inv(s) && Enabled(s, a) && i < |Apply(s, a).table.calls|
    requires Apply(s, a).table.calls[i].future.Resolved?
    requires i < |s.table.calls| ==> !s.table.calls[i].future.Resolved?
    ensures a == Respond(Apply(s, a).table.calls[i].future.p) && i < |s.table.calls| && Waiting(s.table.calls[i])
  {
    match a
    case Respond(p) => ResolveOnlyOwn(s.table, p, i);
    case Teardown => FailAllReleases(s.table, i);
    case _ =>
  }

  lemma {:induction false} ResolvedByPeer(s: State, actions: seq<Action>, t: State, i: nat)
    requires Inv(s) && Runs(s, actions, t) && i < |t.table.calls| && t.table.calls[i].future.Resolved?
    requires i < |s.table.calls| ==> !s.table.calls[i].future.Resolved?
    ensures Respond(t.table.calls[i].future.p) in actions
    decreases |actions|
  {
    if actions == [] {
    } else {
      var u := Apply(s, actions[0]);
      StepInv(s, actions[0]);
      if i < |u.table.calls| && u.table.calls[i].future.Resolved? {
        StepResolves(s, actions[0], i);
        CompletedOnce(u, actions[1..], t, i);
      } else {
        ResolvedByPeer(u, actions[1..], t, i);
      }
    }
  }

  /** A call that returns a response returns one the peer sent during the run, and
      that response carries the call's own echo. */
  lemma OwnResponse(s: State, actions: seq<Action>, t: State, i: nat)
    requires Started(s) && Runs(s, actions, t)
    requires i < |t.table.calls| && t.table.calls[i].outcome.Response?
    ensures t.table.calls[i].outcome.p.echo == Some(t.table.calls[i].echo)
    ensures Respond(t.table.calls[i].outcome.p) in actions
  {
    StartedInv(s);
    RunInv(s, actions, t);
    ResolvedByPeer(s, actions, t, i);
  }

  lemma StepFails(s: State, a: Action, i: nat)
    requires Inv(s) && Enabled(s, a) && i < |Apply(s, a).table.calls|
    requires Apply(s, a).table.calls[i].future.Failed?
    requires i < |s.table.calls| ==> !s.table.calls[i].future.Failed?
    ensures a == Teardown && i < |s.table.calls| && Waiting(s.table.calls[i])
  {
    match a
    case Respond(p) => ResolveOnlyOwn(s.table, p, i);
    case Teardown => FailAllReleases(s.table, i);
    case _ =>
  }

  lemma StepInterrupts(s: State, a: Action, i: nat)
    requires Inv(s) && Enabled(s, a) && i < |Apply(s, a).table.calls|
    requires Apply(s, a).table.calls[i].interrupted
    requires i < |s.table.calls| ==> !s.table.calls[i].interrupted
    ensures a == Strike(i) && i < |s.table.calls| && s.table.calls[i].outcome.Unreturned?
  {
    match a
    case Respond(p) => ResolveOnlyOwn(s.table, p, i);
    case Teardown => FailAllReleases(s.table, i);
    case _ =>
  }

  /** In the run the `k`-th step is a teardown that finds call `i` waiting. */
  ghost predicate TornDownAt(s: State, actions: seq<Action>, i: nat, k: nat)
    decreases |actions|
  {
    && k < |actions| && Enabled(s, actions[0])
    && if k == 0 then actions[0] == Teardown && i < |s.table.calls| && Waiting(s.table.calls[i])
       else TornDownAt(Apply(s, actions[0]), actions[1..], i, k - 1)
  }

  /** A future fails only by a teardown that finds its call waiting. */
  lemma {:induction false} FailedByTeardown(s: State, actions: seq<Action>, t: State, i: nat) returns (k: nat)
    requires Inv(s) && Runs(s, actions, t) && i < |t.table.calls| && t.table.calls[i].future.Failed?
    requires i < |s.table.calls| ==> !s.table.calls[i].future.Failed?
    ensures TornDownAt(s, actions, i, k)
    decreases |actions|
  {
    var u := Apply(s, actions[0]);
    StepInv(s, actions[0]);
    if i < |u.table.calls| && u.table.calls[i].future.Failed? {
      StepFails(s, actions[0], i);
      k := 0;
    } else {
      k := FailedByTeardown(u, actions[1..], t, i);
      k := k + 1;
    }
  }

  lemma {:induction false} InterruptedByStrike(s: State, actions: seq<Action>, t: State, i: nat)
    requires Inv(s) && Runs(s, actions, t) && i < |t.table.calls| && t.table.calls[i].interrupted
    requires i < |s.table.calls| ==> !s.table.calls[i].interrupted
    ensures Strike(i) in actions
    decreases |actions|
  {
    if actions == [] {
    } else {
      var u := Apply(s, actions[0]);
      StepInv(s, actions[0]);
      if i < |u.table.calls| && u.table.calls[i].interrupted {
        StepInterrupts(s, actions[0], i);
      } else {
        InterruptedByStrike(u, actions[1..], t, i);
      }
    }
  }

  /** A call that reports a lost connection was waiting when the connection was torn
      down, at some point of the run. */
  lemma OwnDisconnect(s: State, actions: seq<Action>, t: State, i: nat) returns (k: nat)
    requires Started(s) && Runs(s, actions, t)
    requires i < |t.table.calls| && t.table.calls[i].outcome.Disconnected?
    ensures TornDownAt(s, actions, i, k)
  {
    StartedInv(s);
    RunInv(s, actions, t);
    k := FailedByTeardown(s, actions, t, i);
  }

  /** A call that ends by a timeout or a cancellation was struck by one in the run. */
  lemma OwnInterruption(s: State, actions: seq<Action>, t: State, i: nat)
    requires Started(s) && Runs(s, actions, t)
    requires i < |t.table.calls| && t.table.calls[i].outcome.Interrupted?
    ensures Strike(i) in actions
  {
    StartedInv(s);
    RunInv(s, actions, t);
    InterruptedByStrike(s, actions, t, i);
  }

  /** A call struck while it waits can only end as interrupted, whatever comes later. */
  lemma StruckEndsInterrupted(s: State, i: nat, actions: seq<Action>, t: State)
    requires Inv(s) && Enabled(s, Strike(i)) && Waiting(s.table.calls[i])
    requires Runs(Apply(s, Strike(i)), actions, t)
    ensures i < |t.table.calls|
    ensures t.table.calls[i].outcome.Unreturned? || t.table.calls[i].outcome.Interrupted?
    ensures t.table.calls[i].outcome.Unreturned? ==> forall o :: Enabled(t, Resume(i, o)) <==> o == Interrupted
  {
    var u := Apply(s, Strike(i));
    StepInv(s, Strike(i));
    CompletedOnce(u, actions, t, i);
    RunInv(u, actions, t);
    assert CallOk(t.table.calls[i]);
  }

  /** What call_action does up to its await: a new call that waits under its echo when
      the transport is bound and has ended as not ready when it is down; all earlier
      calls stay as they are. */
  lemma RequestOutcome(s: State, e: Echo)
    requires Inv(s) && Enabled(s, Request(e))
    ensures var t, n := Apply(s, Request(e)).table, |s.table.calls|;
      && |t.calls| == n + 1 && t.calls[..n] == s.table.calls && t.calls[n].echo == e && !t.calls[n].interrupted
      && (if s.phase.Down? then t.calls[n].outcome.NotReady? && t.pending == s.table.pending
          else Waiting(t.calls[n]) && t.pending == s.table.pending[e := n])
  {
    Fresh(s, e);
    assert e !in s.table.pending;
  }

  /** A response changes the state exactly when a waiting call has its echo: late,
      repeated and unmatched responses do nothing. */
  lemma RespondIff(s: State, p: Payload)
    requires Inv(s) && Enabled(s, Respond(p))
    ensures Apply(s, Respond(p)) != s <==> exists i: nat :: Answers(s.table, p, i)
  {
    AcceptsIff(s.table, p);
    if i: nat :| Answers(s.table, p, i) {
      ResolveOnlyOwn(s.table, p, i);
    }
  }

  /** While the transport is down the table is empty, nobody waits, and every call
      that has not returned can return now. */
  lemma DownHasNoWaiter(s: State, i: nat)
    requires Inv(s) && s.phase.Down? && i < |s.table.calls|
    ensures s.table.pending == map[] && !Waiting(s.table.calls[i])
    ensures s.table.calls[i].outcome.Unreturned? ==> exists o :: Enabled(s, Resume(i, o))
  {
    var c := s.table.calls[i];
    assert CallOk(c) && !Waiting(c);
    if c.outcome.Unreturned? {
      var o := match c.future
        case Resolved(p) => Response(p)
        case Failed => Disconnected
        case _ => Interrupted;
      assert Enabled(s, Resume(i, o));
    }
  }

  /** Losing the connection fails every waiter at once and leaves an empty table. */
  lemma TeardownReleases(s: State, i: nat)
    requires Inv(s) && Enabled(s, Teardown) && i < |s.table.calls|
    ensures Apply(s, Teardown).table.pending == map[]
    ensures Apply(s, Teardown).table.calls[i]
         == (if Waiting(s.table.calls[i]) then s.table.calls[i].(future := Failed) else s.table.calls[i])
    ensures Waiting(s.table.calls[i]) ==> Enabled(Apply(s, Teardown), Resume(i, Disconnected))
  {
    FailAllReleases(s.table, i);
  }

  /** Nothing that happens after a disconnect, reconnections included, reaches the
      future of a call made before it. */
  lemma AfterDisconnect(s: State, actions: seq<Action>, t: State, i: nat)
    requires Inv(s) && s.phase.Down? && Runs(s, actions, t) && i < |s.table.calls|
    ensures i < |t.table.calls| && t.table.calls[i].future == s.table.calls[i].future
  {
    DownHasNoWaiter(s, i);
    CompletedOnce(s, actions, t, i);
  }

  // ------------------------------------------------------------- outbound frames

  /** Every frame ever made is in exactly one place, and is sent at most once. */
  lemma FrameConservation(s: State, actions: seq<Action>, t: State, e: Echo)
    requires Started(s) && Runs(s, actions, t)
    ensures Count(t.out.offered, e) <= 1
    ensures Count(t.out.offered, e)
         == Count(t.out.refused, e) + Count(t.out.callbacks, e) + Count(t.out.dropped, e) + Count(t.out.queue, e)
            + Count(InHand(t.out), e) + Count(t.out.sent, e) + Count(t.out.lost, e)
    ensures |t.out.queue| <= t.out.cap && t.out.unfinished == |t.out.queue| + |InHand(t.out)|
  {
    StartedInv(s);
    RunInv(s, actions, t);
    assert FrameBalance(t.out, e);
    CountLine(t.out, e);
  }

  /** A call returns "not ready" exactly when its frame never reached the queue. */
  lemma NotReadyNeverSent(s: State, actions: seq<Action>, t: State, i: nat)
    requires Started(s) && Runs(s, actions, t) && i < |t.table.calls|
    ensures t.table.calls[i].outcome.NotReady? <==> t.table.calls[i].echo in t.out.refused
    ensures t.table.calls[i].outcome.NotReady? ==> t.table.calls[i].echo !in t.out.admitted + t.out.callbacks
  {
    StartedInv(s);
    RunInv(s, actions, t);
    assert FrameBalance(t.out, t.table.calls[i].echo);
  }

  /** A frame is refused exactly while the transport is down, dropped exactly when it
      comes to a full queue, and lost exactly when its send is cancelled, or fails while
      others have filled the queue. */
  lemma StepLosesIff(s: State, a: Action)
    requires Inv(s) && Enabled(s, a)
    ensures Apply(s, a).out.dropped != s.out.dropped
      <==> |s.out.queue| == s.out.cap
           && (a.Callback? || (!s.phase.Down? && (a.Request? || (a.Send? && a.onLoop))))
    ensures Apply(s, a).out.refused != s.out.refused <==> s.phase.Down? && (a.Request? || a.Send?)
    ensures Apply(s, a).out.lost != s.out.lost
      <==> a.SendCancelled? || (a.SendFail? && |s.out.queue| == s.out.cap)
  {
    hide TableInv, CallsOffered, FrameBalance, InOrder, Register, Resolve, Interrupt, Return, FailAll;
  }

  /** No send failed or was cut off. */
  predicate Smooth(actions: seq<Action>) {
    forall a :: a in actions ==> !a.SendFail? && !a.SendCancelled?
  }

  lemma {:induction false} SmoothLosesNothing(s: State, actions: seq<Action>, t: State)
    requires Runs(s, actions, t) && Smooth(actions)
    ensures t.out.lost == s.out.lost && t.out.jumped == s.out.jumped
    decreases |actions|
  {
    if actions == [] {
    } else {
      assert actions[0] in actions;
      SmoothLosesNothing(Apply(s, actions[0]), actions[1..], t);
    }
  }

  /** Without failed sends, everything that entered the queue leaves it in that order. */
  lemma SmoothRunIsFifo(s: State, actions: seq<Action>, t: State)
    requires Started(s) && Runs(s, actions, t) && Smooth(actions)
    ensures t.out.sent + InHand(t.out) + t.out.queue == t.out.admitted
  {
    StartedInv(s);
    RunInv(s, actions, t);
    SmoothLosesNothing(s, actions, t);
    WithoutNothing(t.out.admitted);
  }

  /** A frame put back behind others leaves after them: the order is lost at the
      first failed send that finds the queue neither empty nor full, and only there. */
  lemma OrderUntilRequeued(s: State, actions: seq<Action>, t: State)
    requires Started(s) && Runs(s, actions, t)
    requires !t.out.jumped
    ensures InOrder(t.out)
    ensures (Enabled(t, SendFail) && |t.out.queue| < t.out.cap ==>
               (InOrder(Apply(t, SendFail).out) <==> t.out.queue == []))
  {
    StartedInv(s);
    RunInv(s, actions, t);
    if Enabled(t, SendFail) && |t.out.queue| < t.out.cap {
      RequeueOrder(t.out);
    }
  }
}
