/**
 The table of pending requests.  A call leaves an open future in the table under
 the echo of its frame; a response, a timeout, a cancellation or the loss of the
 connection completes the future, and the caller takes its entry out on return.
 */
module ActionRouter {

  type Echo = string

  datatype Option<+T> = None | Some(value: T)

  /** A frame of the OneBot peer that answers a request.  `echo` is None when the
      field is null. */
  datatype Payload = Payload(echo: Option<Echo>, body: string)

  datatype Future = Open | Resolved(p: Payload) | Failed | Cancelled

  datatype Outcome = Unreturned | Response(p: Payload) | NotReady | Disconnected | Interrupted

  /** One run of call_action.  `interrupted` records that its timeout fired or that
      its task was cancelled; it learns so only when it runs again. */
  datatype Call = Call(echo: Echo, future: Future, interrupted: bool, outcome: Outcome)

  datatype Table = Table(calls: seq<Call>, pending: map<Echo, nat>)

  // ---------------------------------------------------------------- operations

  predicate FreshEcho(t: Table, e: Echo) {
    forall i :: 0 <= i < |t.calls| ==> t.calls[i].echo != e
  }

  /** The call is at its `await` and nothing has completed its future. */
  predicate Waiting(c: Call) {
    c.outcome.Unreturned? && c.future.Open?
  }

  /** The call is at its `await` and its task can run again. */
  predicate Woken(c: Call) {
    c.outcome.Unreturned? && !c.future.Open?
  }

  predicate Registered(t: Table, i: nat)
    requires i < |t.calls|
  {
    t.calls[i].echo in t.pending && t.pending[t.calls[i].echo] == i
  }

  /** call_action up to its `await`, when the frame was accepted for sending. */
  function Register(t: Table, e: Echo): Table {
    Table(t.calls + [Call(e, Open, false, Unreturned)], t.pending[e := |t.calls|])
  }

  /** call_action when the transport is not ready: the entry is popped again. */
  function Refuse(t: Table, e: Echo): Table {
    Table(t.calls + [Call(e, Open, false, NotReady)], t.pending - {e})
  }

  /** Whether resolve_response completes call `i`. */
  predicate Answers(t: Table, p: Payload, i: nat) {
    i < |t.calls| && Waiting(t.calls[i]) && p.echo == Some(t.calls[i].echo)
  }

  /** The test of resolve_response. */
  predicate Accepts(t: Table, p: Payload) {
    && p.echo.Some? && p.echo.value in t.pending
    && t.pending[p.echo.value] < |t.calls| && t.calls[t.pending[p.echo.value]].future.Open?
  }

  function Resolve(t: Table, p: Payload): Table {
    if Accepts(t, p) then
      var i := t.pending[p.echo.value];
      t.(calls := t.calls[i := t.calls[i].(future := Resolved(p))])
    else
      t
  }

  /** The timeout of wait_for fires, or the calling task is cancelled: an open
      future is cancelled at once, the call itself runs later. */
  function Interrupt(t: Table, i: nat): Table
    requires i < |t.calls|
  {
    var c := t.calls[i];
    t.(calls := t.calls[i := c.(interrupted := true, future := if c.future.Open? then Cancelled else c.future)])
  }

  /** How the call ends when its task runs again.  An interruption may arrive
      after the future was completed and still win. */
  predicate Ends(c: Call, o: Outcome) {
    match o
    case Unreturned => false
    case NotReady => false
    case Response(p) => c.future == Resolved(p)
    case Disconnected => c.future == Failed
    case Interrupted => c.interrupted
  }

  function Return(t: Table, i: nat, o: Outcome): Table
    requires i < |t.calls|
  {
    Table(t.calls[i := t.calls[i].(outcome := o)], t.pending - {t.calls[i].echo})
  }

  function FailedCall(c: Call, registered: bool): Call {
    if registered && c.future.Open? then c.(future := Failed) else c
  }

  /** fail_pending: every open future of the table fails, and the table is emptied. */
  function FailAll(t: Table): (r: Table)
    ensures |r.calls| == |t.calls|
  {
    Table(seq(|t.calls|, i requires 0 <= i < |t.calls| => FailedCall(t.calls[i], Registered(t, i))), map[])
  }

  // ----------------------------------------------------------------- invariant

  ghost predicate Distinct(t: Table) {
    forall i, j :: 0 <= i < j < |t.calls| ==> t.calls[i].echo != t.calls[j].echo
  }

  /** Every entry leads to the call that made it, and that call has not returned. */
  ghost predicate EntriesOk(t: Table) {
    forall e :: e in t.pending ==>
      t.pending[e] < |t.calls| && t.calls[t.pending[e]].echo == e && t.calls[t.pending[e]].outcome.Unreturned?
  }

  predicate CallOk(c: Call) {
    && (c.future.Resolved? ==> c.future.p.echo == Some(c.echo))
    && (c.future.Cancelled? ==> c.interrupted)
    && (c.interrupted ==> !c.future.Open?)
    && (c.outcome.Response? ==> c.future == Resolved(c.outcome.p))
    && (c.outcome.NotReady? ==> c.future.Open?)
    && (c.outcome.Disconnected? ==> c.future.Failed?)
    && (c.outcome.Interrupted? ==> c.interrupted)
  }

  ghost predicate CallsOk(t: Table) {
    forall i :: 0 <= i < |t.calls| ==> CallOk(t.calls[i]) && (Waiting(t.calls[i]) ==> Registered(t, i))
  }

  ghost predicate TableInv(t: Table) {
    Distinct(t) && EntriesOk(t) && CallsOk(t)
  }

  lemma RegisterInv(t: Table, e: Echo)
    requires TableInv(t) && FreshEcho(t, e)
    ensures TableInv(Register(t, e))
  {
  }

  lemma RefuseInv(t: Table, e: Echo)
    requires TableInv(t) && FreshEcho(t, e)
    ensures TableInv(Refuse(t, e))
  {
  }

  lemma ResolveInv(t: Table, p: Payload)
    requires TableInv(t)
    ensures TableInv(Resolve(t, p))
  {
  }

  lemma InterruptInv(t: Table, i: nat)
    requires TableInv(t) && i < |t.calls| && t.calls[i].outcome.Unreturned?
    ensures TableInv(Interrupt(t, i))
  {
  }

  lemma ReturnInv(t: Table, i: nat, o: Outcome)
    requires TableInv(t) && i < |t.calls| && Woken(t.calls[i]) && Ends(t.calls[i], o)
    ensures TableInv(Return(t, i, o))
  {
  }

  lemma FailAllInv(t: Table)
    requires TableInv(t)
    ensures TableInv(FailAll(t))
  {
  }

  // --------------------------------------------------------------- one response

  /** A response is accepted exactly when a waiting call has its echo. */
  lemma AcceptsIff(t: Table, p: Payload)
    requires TableInv(t)
    ensures Accepts(t, p) <==> exists i: nat :: Answers(t, p, i)
  {
    if i: nat :| Answers(t, p, i) {
      assert Registered(t, i);
    }
    if Accepts(t, p) {
      assert Answers(t, p, t.pending[p.echo.value]);
    }
  }

  /** A response completes the waiting call with its echo and no other; without
      such a call the table is left as it was. */
  lemma ResolveOnlyOwn(t: Table, p: Payload, i: nat)
    requires TableInv(t) && i < |t.calls|
    ensures Resolve(t, p).pending == t.pending && |Resolve(t, p).calls| == |t.calls|
    ensures Resolve(t, p).calls[i] == (if Answers(t, p, i) then t.calls[i].(future := Resolved(p)) else t.calls[i])
    ensures Resolve(t, p) != t <==> exists j: nat :: Answers(t, p, j)
  {
    AcceptsIff(t, p);
    if Answers(t, p, i) {
      assert Registered(t, i);
    }
    if Accepts(t, p) {
      var j := t.pending[p.echo.value];
      assert Resolve(t, p).calls[j].future != t.calls[j].future;
    }
  }

  /** After fail_pending nobody waits: the calls that waited have failed, the
      others are as they were. */
  lemma FailAllReleases(t: Table, i: nat)
    requires TableInv(t) && i < |t.calls|
    ensures FailAll(t).pending == map[] && !Waiting(FailAll(t).calls[i])
    ensures FailAll(t).calls[i] == (if Waiting(t.calls[i]) then t.calls[i].(future := Failed) else t.calls[i])
  {
  }
}
