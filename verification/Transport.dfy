/**
 The pending table, the outbound queue and the futures as mutable objects.  Each
 method is the code that one coroutine runs between two of its await points;
 `history` is the transition system's view of them.
 */
module Transport {
  import opened ActionRouter
  import opened SendQueue
  import opened Connection

  /** An asyncio future, with the echo of the call that waits for it: completed in
      place, by whoever comes first. */
  class Pledge {
    const echo: Echo
    var state: Future

    constructor (echo: Echo)
      ensures this.echo == echo && state == Open
    {
      this.echo := echo;
      state := Open;
    }
  }

  /** The future of call `i` once fail_pending has swept all echoes but `todo`. */
  ghost function Swept(t: Table, todo: set<Echo>, i: nat): Future
    requires i < |t.calls|
  {
    FailedCall(t.calls[i], Registered(t, i) && t.calls[i].echo !in todo).future
  }

  /** The table and the pledges are one object per call, which carries its echo. */
  ghost predicate Linked(pending: map<Echo, Pledge>, pledges: seq<Pledge>, t: Table) {
    && |pledges| == |t.calls|
    && (forall i, j :: 0 <= i < j < |pledges| ==> pledges[i] != pledges[j])
    && (forall i :: 0 <= i < |pledges| ==> pledges[i].echo == t.calls[i].echo)
    && pending.Keys == t.pending.Keys
    && (forall e :: e in pending ==> t.pending[e] < |pledges| && pending[e] == pledges[t.pending[e]])
  }

  lemma LinkedMore(pending: map<Echo, Pledge>, pledges: seq<Pledge>, t: Table, e: Echo, p: Pledge)
    requires Linked(pending, pledges, t) && p !in pledges && p.echo == e
    ensures Linked(pending[e := p], pledges + [p], Register(t, e))
    ensures Linked(pending[e := p] - {e}, pledges + [p], ActionRouter.Refuse(t, e))
  {
  }

  lemma LinkedLess(pending: map<Echo, Pledge>, pledges: seq<Pledge>, t: Table, i: nat, o: Outcome)
    requires Linked(pending, pledges, t) && i < |t.calls|
    ensures pledges[i].echo == t.calls[i].echo
    ensures Linked(pending - {t.calls[i].echo}, pledges, Return(t, i, o))
  {
  }

  class Client {
    const cap: nat
    var phase: Phase
    var pending: map<Echo, Pledge>
    var callbacks: seq<Echo>
    var queue: seq<Echo>
    var hand: Option<Echo>
    var unfinished: int
    var pledges: seq<Pledge>  // the future of each call, in the order of the calls
    ghost var history: State

    ghost predicate QueueView()
      reads this
    {
      && history.out.cap == cap && history.phase == phase
      && history.out.callbacks == callbacks && history.out.queue == queue
      && history.out.hand == hand && history.out.unfinished == unfinished
    }

    ghost predicate TableView()
      reads this, pledges
    {
      && |pledges| == |history.table.calls| && Linked(pending, pledges, history.table)
      && (forall i :: 0 <= i < |pledges| ==> pledges[i].state == history.table.calls[i].future)
    }

    ghost predicate Valid()
      reads this, pledges
    {
      QueueView() && TableView() && Inv(history)
    }

    constructor (size: int)
      ensures Valid() && history == Opening(size) && cap == (if size < 1 then 1 else size)
    {
      cap := if size < 1 then 1 else size;
      phase, pending, callbacks, queue, hand, unfinished := Down, map[], [], [], None, 0;
      pledges := [];
      history := Opening(size);
      new;
      hide Inv;
      StartedInv(history);
    }

    /** resolve_response. */
    method ResolveResponse(p: Payload) returns (matched: bool)
      requires Valid() && Enabled(history, Respond(p))
      modifies this`history, pledges
      ensures Valid() && history == Apply(old(history), Respond(p))
      ensures matched == Accepts(old(history.table), p)
    {
      hide OutboundInv, CallsOffered;
      StepInv(history, Respond(p));
      history := Apply(history, Respond(p));
      if p.echo.None? {
        return false;
      }
      if p.echo.value !in pending {
        return false;
      }
      var pledge := pending[p.echo.value];
      if !pledge.state.Open? {
        return false;
      }
      pledge.state := Resolved(p);
      return true;
    }

    /** _put_outbound. */
    method PutOutbound(e: Echo)
      modifies this`queue, this`unfinished
      ensures queue == (if |old(queue)| < cap then old(queue) + [e] else old(queue))
      ensures unfinished == (if |old(queue)| < cap then old(unfinished) + 1 else old(unfinished))
    {
      if |queue| < cap {
        queue, unfinished := queue + [e], unfinished + 1;
      }
    }

    /** call_action up to its await. */
    method CallBegin(e: Echo) returns (pledge: Pledge, ready: bool)
      requires Valid() && Enabled(history, Request(e))
      modifies this
      ensures Valid() && fresh(pledge) && pledges == old(pledges) + [pledge]
      ensures history == Apply(old(history), Request(e))
      ensures ready == !old(phase).Down? && (ready ==> e in pending && pending[e] == pledge)
    {
      pledge := new Pledge(e);
      hide TableInv, OutboundInv, CallsOffered, Linked;
      LinkedMore(pending, pledges, history.table, e, pledge);
      StepInv(history, Request(e));
      history := Apply(history, Request(e));
      pledges := pledges + [pledge];
      pending := pending[e := pledge];
      ready := !phase.Down?;
      if ready {
        PutOutbound(e);
      } else {
        pending := pending - {e};
      }
    }

    /** The timeout of wait_for, or a cancellation, reaches call `i`. */
    method Interrupt(i: nat)
      requires Valid() && Enabled(history, Strike(i))
      modifies this`history, pledges
      ensures Valid() && history == Apply(old(history), Strike(i))
    {
      hide TableInv, OutboundInv, CallsOffered;
      var pledge := pledges[i];
      StepInv(history, Strike(i));
      history := Apply(history, Strike(i));
      if pledge.state.Open? {
        pledge.state := Cancelled;
      }
    }

    /** call_action from its await to its end. */
    method CallReturn(i: nat, interrupted: bool) returns (outcome: Outcome)
      requires Valid() && i < |history.table.calls| && Woken(history.table.calls[i])
      requires if interrupted then history.table.calls[i].interrupted else !history.table.calls[i].future.Cancelled?
      modifies this
      ensures Enabled(old(history), Resume(i, outcome)) && (interrupted <==> outcome == Interrupted)
      ensures Valid() && history == Apply(old(history), Resume(i, outcome)) && pledges == old(pledges)
      ensures pledges[i].echo !in pending
    {
      hide Inv;
      var pledge := pledges[i];
      if interrupted {
        outcome := Interrupted;
      } else {
        outcome := if pledge.state.Resolved? then Response(pledge.state.p) else Disconnected;
      }
      LinkedLess(pending, pledges, history.table, i, outcome);
      hide Linked;
      StepInv(history, Resume(i, outcome));
      history := Apply(history, Resume(i, outcome));
      pending := pending - {pledge.echo};
    }

    /** enqueue_outbound for a frame that nobody waits for. */
    method EnqueueOutbound(e: Echo, onLoop: bool) returns (ready: bool)
      requires Valid() && Enabled(history, Send(e, onLoop))
      modifies this
      ensures Valid() && history == Apply(old(history), Send(e, onLoop)) && pledges == old(pledges)
      ensures ready == !phase.Down?
    {
      hide TableInv, OutboundInv, CallsOffered;
      StepInv(history, Send(e, onLoop));
      history := Apply(history, Send(e, onLoop));
      if phase.Down? {
        return false;
      }
      if onLoop {
        PutOutbound(e);
      } else {
        callbacks := callbacks + [e];
      }
      return true;
    }

    /** The loop runs the oldest callback left by another thread. */
    method CallbackRun()
      requires Valid() && Enabled(history, Callback)
      modifies this
      ensures Valid() && history == Apply(old(history), Callback) && pledges == old(pledges)
    {
      hide TableInv, OutboundInv, CallsOffered;
      StepInv(history, Callback);
      history := Apply(history, Callback);
      var e := callbacks[0];
      callbacks := callbacks[1..];
      PutOutbound(e);
    }

    /** send_loop from its get to the send. */
    method SendNext()
      requires Valid() && Enabled(history, SendTake)
      modifies this
      ensures Valid() && history == Apply(old(history), SendTake) && pledges == old(pledges)
    {
      hide TableInv, OutboundInv, CallsOffered;
      StepInv(history, SendTake);
      history := Apply(history, SendTake);
      hand, queue := Some(queue[0]), queue[1..];
    }

    method SendReturned()
      requires Valid() && Enabled(history, SendOk)
      modifies this
      ensures Valid() && history == Apply(old(history), SendOk) && pledges == old(pledges)
    {
      hide TableInv, OutboundInv, CallsOffered;
      StepInv(history, SendOk);
      history := Apply(history, SendOk);
      hand, unfinished := None, unfinished - 1;
    }

    /** The send raised: put the frame back at the tail if there is room, then task_done. */
    method SendRaised()
      requires Valid() && Enabled(history, SendFail)
      modifies this
      ensures Valid() && history == Apply(old(history), SendFail) && pledges == old(pledges)
    {
      hide TableInv, OutboundInv, CallsOffered;
      StepInv(history, SendFail);
      history := Apply(history, SendFail);
      if |queue| < cap {
        queue, unfinished := queue + [hand.value], unfinished + 1;
      }
      hand, unfinished, phase := None, unfinished - 1, Closing;
    }

    method SendCut()
      requires Valid() && Enabled(history, SendCancelled)
      modifies this
      ensures Valid() && history == Apply(old(history), SendCancelled) && pledges == old(pledges)
    {
      hide TableInv, OutboundInv, CallsOffered;
      StepInv(history, SendCancelled);
      history := Apply(history, SendCancelled);
      hand, unfinished := None, unfinished - 1;
    }

    method Connected()
      requires Valid() && Enabled(history, Connect)
      modifies this
      ensures Valid() && history == Apply(old(history), Connect) && pledges == old(pledges)
    {
      hide TableInv, OutboundInv, CallsOffered;
      StepInv(history, Connect);
      history := Apply(history, Connect);
      phase := Bound;
    }

    method LoopsStarted()
      requires Valid() && Enabled(history, Start)
      modifies this
      ensures Valid() && history == Apply(old(history), Start) && pledges == old(pledges)
    {
      hide TableInv, OutboundInv, CallsOffered;
      StepInv(history, Start);
      history := Apply(history, Start);
      phase := Up;
    }

    method LoopEnded()
      requires Valid() && Enabled(history, Break)
      modifies this
      ensures Valid() && history == Apply(old(history), Break) && pledges == old(pledges)
    {
      hide TableInv, OutboundInv, CallsOffered;
      StepInv(history, Break);
      history := Apply(history, Break);
      phase := Closing;
    }

    /** The calls whose echo is not in `todo` have been swept. */
    ghost predicate SweptTo(todo: set<Echo>)
      reads this`pledges, this`history, pledges
    {
      && |pledges| == |history.table.calls|
      && forall i :: 0 <= i < |pledges| ==> pledges[i].state == Swept(history.table, todo, i)
    }

    /** One round of fail_pending's loop. */
    method FailOne(e: Echo, ghost todo: set<Echo>)
      requires Linked(pending, pledges, history.table) && EntriesOk(history.table)
      requires SweptTo(todo) && e in todo && e in pending
      modifies pledges
      ensures SweptTo(todo - {e})
    {
      forall i: nat | i < |pledges| ensures Swept(history.table, todo - {e}, i)
        == (if i == history.table.pending[e] && pledges[i].state.Open? then Failed else pledges[i].state) {
      }
      hide Swept, EntriesOk;
      var pledge := pending[e];
      if pledge.state.Open? {
        pledge.state := Failed;
      }
    }

    lemma SweepBegin()
      requires TableView()
      ensures SweptTo(pending.Keys) && Linked(pending, pledges, history.table)
    {
    }

    lemma SweepEnd()
      requires SweptTo({})
      ensures |pledges| == |history.table.calls|
      ensures forall i :: 0 <= i < |pledges| ==> pledges[i].state == FailAll(history.table).calls[i].future
    {
    }

    /** fail_pending: the open futures of the table fail, one by one in any order,
        and the table is cleared. */
    method FailPending()
      requires TableView() && EntriesOk(history.table)
      modifies this`pending, pledges
      ensures pending == map[] && |pledges| == |history.table.calls|
      ensures forall i :: 0 <= i < |pledges| ==> pledges[i].state == FailAll(history.table).calls[i].future
    {
      hide Swept, EntriesOk, FailAll, SweptTo, Linked, TableView;
      SweepBegin();
      var todo := pending.Keys;
      while todo != {}
        invariant todo <= pending.Keys && Linked(pending, pledges, history.table) && SweptTo(todo)
        decreases |todo|
      {
        var e :| e in todo;
        FailOne(e, todo);
        todo := todo - {e};
      }
      SweepEnd();
      pending := map[];
    }

    /** The finally block of the reconnect loop. */
    method Disconnect()
      requires Valid() && Enabled(history, Teardown)
      modifies this, pledges
      ensures Valid() && history == Apply(old(history), Teardown) && pledges == old(pledges)
    {
      phase := Down;
      FailPending();
      StepInv(history, Teardown);
      history := Apply(history, Teardown);
    }

    // ------------------------------------------------------------------ sessions

    /** One step of whoever is to move. */
    method Perform(a: Action)
      requires Valid() && Enabled(history, a)
      modifies this, pledges
      ensures Valid() && history == Apply(old(history), a)
      ensures old(pledges) <= pledges
      ensures forall i :: |old(pledges)| <= i < |pledges| ==> fresh(pledges[i])
    {
      hide Inv;
      match a
      case Request(e) => var _, _ := CallBegin(e);
      case Send(e, onLoop) => var _ := EnqueueOutbound(e, onLoop);
      case Callback => CallbackRun();
      case Respond(p) => var _ := ResolveResponse(p);
      case Strike(i) => Interrupt(i);
      case Resume(i, o) =>
        OneEnding(history.table.calls[i]);
        var _ := CallReturn(i, o == Interrupted);
      case Connect => Connected();
      case Start => LoopsStarted();
      case SendTake => SendNext();
      case SendOk => SendReturned();
      case SendFail => SendRaised();
      case Break => LoopEnded();
      case SendCancelled => SendCut();
      case Teardown => Disconnect();
    }

    /** Every run of the transition system is a run of the object, which ends as the
        run does; so what Connection proves of runs holds of the object. */
    method Follow(actions: seq<Action>, ghost t: State)
      requires Valid() && Runs(history, actions, t)
      modifies this, pledges
      ensures Valid() && history == t
      decreases |actions|
    {
      if actions != [] {
        Perform(actions[0]);
        forall p | p in pledges ensures p in old(pledges) || fresh(p) {
          var i :| 0 <= i < |pledges| && pledges[i] == p;
          if i < |old(pledges)| { assert p == old(pledges)[i]; }
        }
        Follow(actions[1..], t);
      }
    }
  }

  /** How a call ends is settled by its future, but for an interruption. */
  lemma OneEnding(c: Call)
    ensures forall o, p :: Ends(c, o) && Ends(c, p) && o != Interrupted && p != Interrupted ==> o == p
  {
  }

  /** A client from its start through any run: while the transport is down its table
      is empty and no future is open that somebody waits for. */
  method Session(size: int, actions: seq<Action>, ghost t: State) returns (client: Client)
    requires Runs(Opening(size), actions, t)
    ensures fresh(client) && client.Valid() && client.history == t
    ensures t.phase.Down? ==>
      && client.pending == map[]
      && forall i :: 0 <= i < |client.pledges| && t.table.calls[i].outcome.Unreturned? ==>
           !client.pledges[i].state.Open?
  {
    hide Inv;
    client := new Client(size);
    client.Follow(actions, t);
    if t.phase.Down? {
      forall i: nat | i < |t.table.calls| ensures !Waiting(t.table.calls[i]) {
        DownHasNoWaiter(t, i);
      }
      DownIsEmpty(t);
    }
  }

  lemma DownIsEmpty(t: State)
    requires Inv(t) && t.phase.Down?
    ensures t.table.pending == map[]
  {
  }
}
