/**
 The message list that is sent to a chat model again and again, and its shape: an
 assistant message with tool calls is followed by one tool reply per call, in order.
 */
module Transcript {

  /** Ids come from the model, or are made up for calls found in its text. */
  datatype Id = Given(text: string) | MadeUp(round: nat, index: nat)

  datatype Message =
    | Original(n: nat)                            // what the caller passed in
    | Assistant(text: string, calls: seq<Id>)
    | ToolReply(id: Id)
    | Nudge                                       // asks to search, or to finish a plan
    | FinalRequest                                // asks for the final answer

  function Replies(ids: seq<Id>): (r: seq<Message>)
    ensures |r| == |ids|
  {
    seq(|ids|, i requires 0 <= i < |ids| => ToolReply(ids[i]))
  }

  /** Every assistant message with calls is followed by exactly its replies, in order. */
  predicate WellShaped(ms: seq<Message>)
    decreases |ms|
  {
    if ms == [] then true
    else match ms[0]
      case ToolReply(_) => false
      case Assistant(_, calls) =>
        && |calls| + 1 <= |ms|
        && ms[1..|calls| + 1] == Replies(calls)
        && WellShaped(ms[|calls| + 1..])
      case _ => WellShaped(ms[1..])
  }

  function Finals(ms: seq<Message>): (n: nat) {
    if ms == [] then 0 else (if ms[0].FinalRequest? then 1 else 0) + Finals(ms[1..])
  }

  /** How many of the messages call tools. */
  function ToolTurns(ms: seq<Message>): (n: nat) {
    if ms == [] then 0 else (if ms[0].Assistant? && ms[0].calls != [] then 1 else 0) + ToolTurns(ms[1..])
  }

  /** How many messages the first one takes with its replies. */
  function Turn(ms: seq<Message>): (k: nat)
    requires ms != [] && WellShaped(ms)
    ensures 1 <= k <= |ms|
  {
    if ms[0].Assistant? then |ms[0].calls| + 1 else 1
  }

  lemma {:induction false} ShapeAppend(a: seq<Message>, b: seq<Message>)
    requires WellShaped(a) && WellShaped(b)
    ensures WellShaped(a + b)
    decreases |a|
  {
    if a == [] {
      assert a + b == b;
    } else {
      var k := Turn(a);
      ShapeAppend(a[k..], b);
      assert (a + b)[k..] == a[k..] + b;
      assert (a + b)[1..k] == a[1..k];
    }
  }

  lemma {:induction false} FinalsAppend(a: seq<Message>, b: seq<Message>)
    ensures Finals(a + b) == Finals(a) + Finals(b) && ToolTurns(a + b) == ToolTurns(a) + ToolTurns(b)
  {
    if a == [] {
      assert a + b == b;
    } else {
      FinalsAppend(a[1..], b);
      assert (a + b)[1..] == a[1..] + b;
    }
  }

  /** An assistant message with its replies, or any other single message, is well shaped. */
  lemma ShapeOfTurn(text: string, calls: seq<Id>)
    ensures WellShaped([Assistant(text, calls)] + Replies(calls))
    ensures Finals([Assistant(text, calls)] + Replies(calls)) == 0
    ensures ToolTurns([Assistant(text, calls)] + Replies(calls)) == if calls == [] then 0 else 1
  {
    var turn := [Assistant(text, calls)] + Replies(calls);
    assert turn[1..|calls| + 1] == Replies(calls) && turn[|calls| + 1..] == [] && turn[1..] == Replies(calls);
    NoFinals(calls);
  }

  lemma {:induction false} NoFinals(ids: seq<Id>)
    ensures Finals(Replies(ids)) == 0 && ToolTurns(Replies(ids)) == 0
  {
    if ids == [] {
    } else {
      NoFinals(ids[1..]);
      assert Replies(ids)[1..] == Replies(ids[1..]);
    }
  }

  /** Adding one request for the final answer. */
  lemma AddFinal(ms: seq<Message>)
    requires WellShaped(ms)
    ensures WellShaped(ms + [FinalRequest]) && Finals(ms + [FinalRequest]) == Finals(ms) + 1
    ensures ToolTurns(ms + [FinalRequest]) == ToolTurns(ms)
  {
    var b := [FinalRequest];
    assert b[1..] == [];
    ShapeAppend(ms, b);
    FinalsAppend(ms, b);
  }

  /** Adding an answer that was not good enough, and asking again. */
  lemma AddNudge(ms: seq<Message>, text: string)
    requires WellShaped(ms)
    ensures var more := ms + [Assistant(text, []), Nudge];
      WellShaped(more) && Finals(more) == Finals(ms) && ToolTurns(more) == ToolTurns(ms)
  {
    var b := [Assistant(text, []), Nudge];
    assert b[1..1] == Replies([]) && b[1..] == [Nudge] && [Nudge][1..] == [];
    assert WellShaped([Nudge]) && Finals([Nudge]) == 0 && Finals(b) == Finals([Nudge]);
    assert ToolTurns(b) == ToolTurns([Nudge]) == 0;
    ShapeAppend(ms, b);
    FinalsAppend(ms, b);
  }

  /** Adding a turn of tool calls with all its replies. */
  lemma AddTurn(ms: seq<Message>, text: string, calls: seq<Id>)
    requires WellShaped(ms)
    ensures var more := ms + ([Assistant(text, calls)] + Replies(calls));
      WellShaped(more) && Finals(more) == Finals(ms) && ToolTurns(more) == ToolTurns(ms) + if calls == [] then 0 else 1
  {
    ShapeOfTurn(text, calls);
    ShapeAppend(ms, [Assistant(text, calls)] + Replies(calls));
    FinalsAppend(ms, [Assistant(text, calls)] + Replies(calls));
  }
}
