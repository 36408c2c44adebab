/**
 The outbound queue: frames are put in by callers of any thread, and the send
 loop of the current connection takes them out one at a time.
 */
module SendQueue {
  import opened ActionRouter

  /** The queue and the frame in the send loop's hands, followed by the history of
      every frame.  Frames are named by their echo. */
  datatype Outbound = Outbound(
    cap: nat,
    callbacks: seq<Echo>,   // handed over by other threads, not yet run by the loop
    queue: seq<Echo>,
    hand: Option<Echo>,
    unfinished: int,
    offered: seq<Echo>,     // made by make_action
    refused: seq<Echo>,     // the transport was not ready
    dropped: seq<Echo>,     // the queue was full
    admitted: seq<Echo>,    // put into the queue
    sent: seq<Echo>,        // the send returned
    lost: seq<Echo>,        // taken out, not sent, not put back
    jumped: bool)           // a frame was put back behind others

  // ---------------------------------------------------------------- operations

  /** _put_outbound: put_nowait, or drop the frame when the queue is full. */
  function Put(o: Outbound, e: Echo): Outbound {
    if |o.queue| < o.cap then
      o.(queue := o.queue + [e], unfinished := o.unfinished + 1, admitted := o.admitted + [e])
    else
      o.(dropped := o.dropped + [e])
  }

  /** enqueue_outbound on a bound transport, from the loop's thread or another. */
  function Offer(o: Outbound, e: Echo, onLoop: bool): Outbound {
    var made := o.(offered := o.offered + [e]);
    if onLoop then Put(made, e) else made.(callbacks := made.callbacks + [e])
  }

  function Refuse(o: Outbound, e: Echo): Outbound {
    o.(offered := o.offered + [e], refused := o.refused + [e])
  }

  function RunCallback(o: Outbound): Outbound
    requires o.callbacks != []
  {
    Put(o.(callbacks := o.callbacks[1..]), o.callbacks[0])
  }

  function Take(o: Outbound): Outbound
    requires o.hand.None? && o.queue != []
  {
    o.(hand := Some(o.queue[0]), queue := o.queue[1..])
  }

  function Sent(o: Outbound): Outbound
    requires o.hand.Some?
  {
    o.(hand := None, sent := o.sent + [o.hand.value], unfinished := o.unfinished - 1)
  }

  /** The send raised an Exception: put_nowait at the tail, or drop the frame when
      others have filled the queue meanwhile; then task_done. */
  function Requeue(o: Outbound): Outbound
    requires o.hand.Some?
  {
    if |o.queue| < o.cap then
      o.(hand := None, queue := o.queue + [o.hand.value], jumped := o.jumped || o.queue != [])
    else
      o.(hand := None, lost := o.lost + [o.hand.value], unfinished := o.unfinished - 1)
  }

  /** CancelledError during the send is no Exception: the frame is not put back. */
  function Abandon(o: Outbound): Outbound
    requires o.hand.Some?
  {
    o.(hand := None, lost := o.lost + [o.hand.value], unfinished := o.unfinished - 1)
  }

  // -------------------------------------------------------------- conservation

  function Count(s: seq<Echo>, e: Echo): (n: nat) {
    multiset(s)[e]
  }

  function InHand(o: Outbound): seq<Echo> {
    if o.hand.Some? then [o.hand.value] else []
  }

  /** The frames on their way through the queue: sent, in hand, queued. */
  function Line(o: Outbound): seq<Echo> {
    o.sent + InHand(o) + o.queue
  }

  /** `s` without the elements of `gone`. */
  function Without(s: seq<Echo>, gone: seq<Echo>): seq<Echo> {
    if s == [] then []
    else Without(s[..|s| - 1], gone) + (if s[|s| - 1] in gone then [] else [s[|s| - 1]])
  }

  /** Where one frame is: in exactly one of seven places, and once. */
  ghost predicate FrameBalance(o: Outbound, e: Echo) {
    && Count(o.offered, e) <= 1
    && Count(o.offered, e) == Count(o.refused, e) + Count(o.callbacks, e) + Count(o.dropped, e) + Count(o.admitted, e)
    && Count(o.admitted, e) == Count(Line(o), e) + Count(o.lost, e)
  }

  predicate QueueOk(o: Outbound) {
    o.cap >= 1 && |o.queue| <= o.cap && o.unfinished == |o.queue| + |InHand(o)|
  }

  /** The frames leave in the order they were put in. */
  predicate InOrder(o: Outbound) {
    Line(o) == Without(o.admitted, o.lost)
  }

  ghost predicate OutboundInv(o: Outbound) {
    && (forall e :: FrameBalance(o, e))
    && QueueOk(o)
    && (!o.jumped ==> InOrder(o))
  }

  // ------------------------------------------------------------------- proofs

  lemma CountLine(o: Outbound, e: Echo)
    ensures Count(Line(o), e) == Count(o.sent, e) + Count(InHand(o), e) + Count(o.queue, e)
  {
  }

  lemma CountHead(s: seq<Echo>, e: Echo)
    requires s != []
    ensures Count(s, e) == Count([s[0]], e) + Count(s[1..], e)
  {
    assert s == [s[0]] + s[1..];
  }

  lemma CountMore(s: seq<Echo>, x: Echo, e: Echo)
    ensures Count(s + [x], e) == Count(s, e) + if x == e then 1 else 0
  {
  }

  lemma PutBalance(o: Outbound, x: Echo, e: Echo)
    requires Count(o.offered, e) <= 1
    requires Count(o.offered, e) == Count(o.refused, e) + Count(o.callbacks, e) + Count(o.dropped, e)
                                    + Count(o.admitted, e) + (if x == e then 1 else 0)
    requires Count(o.admitted, e) == Count(Line(o), e) + Count(o.lost, e)
    ensures FrameBalance(Put(o, x), e)
  {
    hide Count;
    if |o.queue| < o.cap {
      assert Line(Put(o, x)) == Line(o) + [x];
      CountMore(Line(o), x, e);
      CountMore(o.admitted, x, e);
    } else {
      CountMore(o.dropped, x, e);
    }
  }

  lemma OfferBalance(o: Outbound, x: Echo, onLoop: bool, e: Echo)
    requires FrameBalance(o, e) && Count(o.offered, x) == 0
    ensures FrameBalance(Offer(o, x, onLoop), e)
  {
    var made := o.(offered := o.offered + [x]);
    if onLoop {
      PutBalance(made, x, e);
    } else {
      assert Line(made.(callbacks := made.callbacks + [x])) == Line(o);
    }
  }

  lemma RefuseBalance(o: Outbound, x: Echo, e: Echo)
    requires FrameBalance(o, e) && Count(o.offered, x) == 0
    ensures FrameBalance(Refuse(o, x), e)
  {
    assert Line(Refuse(o, x)) == Line(o);
  }

  lemma CallbackBalance(o: Outbound, e: Echo)
    requires FrameBalance(o, e) && o.callbacks != []
    ensures FrameBalance(RunCallback(o), e)
  {
    var rest := o.(callbacks := o.callbacks[1..]);
    CountHead(o.callbacks, e);
    assert Line(rest) == Line(o);
    PutBalance(rest, o.callbacks[0], e);
  }

  lemma TakeLine(o: Outbound)
    requires o.hand.None? && o.queue != []
    ensures Line(Take(o)) == Line(o)
  {
    assert o.queue == [o.queue[0]] + o.queue[1..];
  }

  lemma SentLine(o: Outbound)
    requires o.hand.Some?
    ensures Line(Sent(o)) == Line(o)
  {
  }

  lemma GoneBalance(o: Outbound, r: Outbound, x: Echo, e: Echo)
    requires FrameBalance(o, e) && o.hand == Some(x)
    requires r.offered == o.offered && r.refused == o.refused && r.callbacks == o.callbacks
    requires r.dropped == o.dropped && r.admitted == o.admitted && r.sent == o.sent && r.hand == None
    requires (r.queue == o.queue && r.lost == o.lost + [x]) || (r.queue == o.queue + [x] && r.lost == o.lost)
    ensures FrameBalance(r, e)
  {
    CountLine(o, e);
    CountLine(r, e);
  }

  lemma {:induction false} WithoutIgnores(s: seq<Echo>, gone: seq<Echo>, x: Echo)
    requires x !in s
    ensures Without(s, gone + [x]) == Without(s, gone)
  {
    if s == [] {
    } else {
      WithoutIgnores(s[..|s| - 1], gone, x);
    }
  }

  lemma {:induction false} WithoutMembers(s: seq<Echo>, gone: seq<Echo>, x: Echo)
    ensures x in Without(s, gone) <==> x in s && x !in gone
  {
    if s == [] {
    } else {
      WithoutMembers(s[..|s| - 1], gone, x);
      assert s == s[..|s| - 1] + [s[|s| - 1]];
    }
  }

  lemma {:induction false} WithoutNothing(s: seq<Echo>)
    ensures Without(s, []) == s
  {
    if s == [] {
    } else {
      WithoutNothing(s[..|s| - 1]);
      assert s == s[..|s| - 1] + [s[|s| - 1]];
    }
  }

  /** Losing one frame takes just that frame out of the rest. */
  lemma {:induction false} WithoutOneMore(s: seq<Echo>, gone: seq<Echo>, x: Echo, before: seq<Echo>, after: seq<Echo>)
    requires Without(s, gone) == before + [x] + after
    requires x !in before && x !in after && Count(s, x) <= 1
    ensures Without(s, gone + [x]) == before + after
  {
    WithoutMembers(s, gone, x);
    assert x == (before + [x] + after)[|before|];
    var last := s[|s| - 1];
    var front := s[..|s| - 1];
    assert s == front + [last];
    var all := before + [x] + after;
    if last == x {
      WithoutMembers(front, gone, x);
      WithoutIgnores(front, gone, x);
      assert all[|all| - 1] == x;
      assert after == [];
      assert before + [x] + after == before + [x];
      assert Without(front, gone) == before by {
        assert (Without(front, gone) + [x])[..|before|] == (before + [x])[..|before|];
      }
      assert before + after == before;
    } else {
      if last in gone {
        WithoutOneMore(front, gone, x, before, after);
      } else {
        assert all[|all| - 1] == last;
        assert after != [];
        var shorter := after[..|after| - 1];
        assert after == shorter + [last];
        assert all == (before + [x] + shorter) + [last];
        assert Without(front, gone) == all[..|all| - 1] == before + [x] + shorter;
        WithoutOneMore(front, gone, x, before, shorter);
        assert before + after == before + shorter + [last];
      }
    }
  }

  // ------------------------------------------------------ every step of the queue

  lemma PutOk(o: Outbound, x: Echo)
    requires QueueOk(o)
    requires Count(o.lost, x) == 0
    ensures QueueOk(Put(o, x)) && (InOrder(o) ==> InOrder(Put(o, x)))
  {
    if |o.queue| < o.cap {
      assert (o.admitted + [x])[..|o.admitted|] == o.admitted;
      assert Line(Put(o, x)) == Line(o) + [x];
    } else {
      assert Line(Put(o, x)) == Line(o);
    }
  }

  /** A frame that was never offered is nowhere. */
  lemma NowhereYet(o: Outbound, x: Echo)
    requires FrameBalance(o, x) && Count(o.offered, x) == 0
    ensures Count(o.lost, x) == 0
  {
  }

  lemma OfferInv(o: Outbound, x: Echo, onLoop: bool)
    requires OutboundInv(o) && Count(o.offered, x) == 0
    ensures OutboundInv(Offer(o, x, onLoop))
  {
    forall e ensures FrameBalance(Offer(o, x, onLoop), e) {
      OfferBalance(o, x, onLoop, e);
    }
    NowhereYet(o, x);
    var made := o.(offered := o.offered + [x]);
    assert Line(made) == Line(o);
    if onLoop {
      PutOk(made, x);
    } else {
      assert Line(Offer(o, x, onLoop)) == Line(o);
    }
  }

  lemma RefuseInv(o: Outbound, x: Echo)
    requires OutboundInv(o) && Count(o.offered, x) == 0
    ensures OutboundInv(Refuse(o, x))
  {
    forall e ensures FrameBalance(Refuse(o, x), e) {
      RefuseBalance(o, x, e);
    }
    assert Line(Refuse(o, x)) == Line(o);
  }

  lemma CallbackInv(o: Outbound)
    requires OutboundInv(o) && o.callbacks != []
    ensures OutboundInv(RunCallback(o))
  {
    forall e ensures FrameBalance(RunCallback(o), e) {
      CallbackBalance(o, e);
    }
    var x := o.callbacks[0];
    var rest := o.(callbacks := o.callbacks[1..]);
    assert FrameBalance(o, x);
    CountHead(o.callbacks, x);
    assert Line(rest) == Line(o);
    PutOk(rest, x);
  }

  lemma TakeInv(o: Outbound)
    requires OutboundInv(o) && o.hand.None? && o.queue != []
    ensures OutboundInv(Take(o))
  {
    TakeLine(o);
    forall e ensures FrameBalance(Take(o), e) {
      assert FrameBalance(o, e);
    }
  }

  lemma SentInv(o: Outbound)
    requires OutboundInv(o) && o.hand.Some?
    ensures OutboundInv(Sent(o))
  {
    SentLine(o);
    forall e ensures FrameBalance(Sent(o), e) {
      assert FrameBalance(o, e);
    }
  }

  /** The frame in hand is neither sent nor queued. */
  lemma HandIsAlone(o: Outbound, x: Echo)
    requires FrameBalance(o, x) && o.hand == Some(x)
    ensures x !in o.sent && x !in o.queue && Count(o.admitted, x) == 1
  {
    CountLine(o, x);
  }

  lemma AbandonLine(o: Outbound)
    requires o.hand.Some?
    ensures Line(o) == o.sent + [o.hand.value] + o.queue && Line(Abandon(o)) == o.sent + o.queue
  {
  }

  /** Losing the frame in hand leaves the order of the others. */
  lemma AbandonOrder(o: Outbound)
    requires o.hand.Some? && InOrder(o) && FrameBalance(o, o.hand.value)
    ensures InOrder(Abandon(o))
  {
    var x := o.hand.value;
    assert x !in o.sent && x !in o.queue && Count(o.admitted, x) == 1 by {
      HandIsAlone(o, x);
    }
    AbandonLine(o);
    hide FrameBalance, Without, Line;
    WithoutOneMore(o.admitted, o.lost, x, o.sent, o.queue);
  }

  lemma AbandonInv(o: Outbound)
    requires OutboundInv(o) && o.hand.Some?
    ensures OutboundInv(Abandon(o))
  {
    var x := o.hand.value;
    var r := Abandon(o);
    forall e ensures FrameBalance(r, e) {
      assert FrameBalance(o, e);
      GoneBalance(o, r, x, e);
    }
    if !o.jumped {
      hide *;
      AbandonOrder(o);
    }
  }

  /** Putting a frame back keeps the order exactly when nobody stood behind it. */
  lemma RequeueOrder(o: Outbound)
    requires OutboundInv(o) && o.hand.Some? && InOrder(o) && |o.queue| < o.cap
    ensures InOrder(Requeue(o)) <==> o.queue == []
  {
    var x := o.hand.value;
    var r := Requeue(o);
    assert FrameBalance(o, x);
    HandIsAlone(o, x);
    if o.queue == [] {
      assert Line(r) == Line(o);
    } else {
      assert Line(o)[|o.sent|] == x;
      assert Line(r)[|o.sent|] == o.queue[0];
    }
  }

  lemma RequeueInv(o: Outbound)
    requires OutboundInv(o) && o.hand.Some?
    ensures OutboundInv(Requeue(o))
  {
    if |o.queue| < o.cap {
      var x := o.hand.value;
      var r := Requeue(o);
      forall e ensures FrameBalance(r, e) {
        assert FrameBalance(o, e);
        GoneBalance(o, r, x, e);
      }
      if !r.jumped {
        RequeueOrder(o);
      }
    } else {
      AbandonInv(o);
    }
  }
}
