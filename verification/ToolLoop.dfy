/**
 LLMAdapter.tool_loop against a model that may answer anything: the rounds of
 requests, tool calls and replies, the budgets, and the request for a final answer.
 */
module ToolLoop {
  import opened Basics
  import opened Transcript

  /** What running a tool gives: an exception, or a result with a label (`""` for none). */
  datatype Outcome = Raises | Result(tag: string)

  datatype Call = Call(id: Id, outcome: Outcome)

  /** What a request gives: an HTTP error, a payload without choices, or a message
      with tool calls of its own and calls found in its text.  `progress` tells that
      the text only announces what will be done next. */
  datatype Reply =
    | RequestFailed
    | NoChoices
    | Reply(content: string, stopped: bool, calls: seq<Call>, inText: seq<Call>, progress: bool)

  datatype Error = HttpError | LLMError | ExecutorError

  datatype Request = Request(messages: seq<Message>, toolsEnabled: bool)

  datatype Executed = Executed(call: Call, afterFinal: bool)

  /** The caller's messages and options. */
  datatype Config = Config(given: seq<Message>, maxRounds: int, requireSearch: bool)

  const CALL_LIMIT := 10

  /** The variables of the loop; `added` is what has been appended to the caller's
      messages, `requests` and `executed` record what was done. */
  datatype State = State(added: seq<Message>, used: seq<string>, toolRounds: int, toolCalls: int,
                         finalRequested: bool, requests: seq<Request>, executed: seq<Executed>)

  datatype RoundEnd =
    | Continue(st: State)
    | Return(content: string, st: State)
    | Raise(error: Error, st: State)

  function Limit(c: Config): int {
    if c.requireSearch then c.maxRounds else c.maxRounds + 2
  }

  function MaxToolRounds(c: Config): (r: int)
    ensures r >= 1
  {
    if c.maxRounds - 1 >= 1 then c.maxRounds - 1 else 1
  }

  /** `not content.strip()`. */
  predicate Blank(s: string) {
    forall i :: 0 <= i < |s| ==> IsSpace(s[i])
  }

  // ------------------------------------------------------------------- one round

  /** The request for the final answer at the head of a round. */
  function Opened(c: Config, st: State, round: nat): State {
    if c.requireSearch && (round == c.maxRounds - 1 || st.toolCalls >= CALL_LIMIT) && !st.finalRequested
    then st.(finalRequested := true, added := st.added + [FinalRequest])
    else st
  }

  predicate ToolsEnabled(c: Config, st: State) {
    st.toolRounds < MaxToolRounds(c) && !st.finalRequested
  }

  function Asked(c: Config, st: State): State {
    st.(requests := st.requests + [Request(c.given + st.added, ToolsEnabled(c, st))])
  }

  /** The calls to run: the model's own, or those found in its text under new ids. */
  function CallsOf(reply: Reply, round: nat): (r: seq<Call>)
    requires reply.Reply?
  {
    if reply.calls != [] then reply.calls
    else seq(|reply.inText|, i requires 0 <= i < |reply.inText| => reply.inText[i].(id := MadeUp(round, i + 1)))
  }

  function Ids(calls: seq<Call>): (r: seq<Id>)
    ensures |r| == |calls|
  {
    seq(|calls|, i requires 0 <= i < |calls| => calls[i].id)
  }

  function Tagged(used: seq<string>, tag: string): seq<string> {
    if tag == "" then used else used + [tag]
  }

  /** Running calls in order; the first exception ends it. */
  function Execute(st: State, calls: seq<Call>): (r: (State, bool))
    decreases |calls|
  {
    if calls == [] then (st, true)
    else
      var tried := st.(executed := st.executed + [Executed(calls[0], st.finalRequested)]);
      match calls[0].outcome
      case Raises => (tried, false)
      case Result(tag) =>
        Execute(tried.(used := Tagged(st.used, tag), added := st.added + [ToolReply(calls[0].id)]), calls[1..])
  }

  /** The end of a round of calls. */
  function Closed(c: Config, st: State, n: nat): State {
    var counted := st.(toolRounds := st.toolRounds + 1, toolCalls := st.toolCalls + n);
    if counted.toolRounds >= MaxToolRounds(c)
    then counted.(finalRequested := true, added := counted.added + [FinalRequest])
    else counted
  }

  function Answered(c: Config, st: State, round: nat, reply: Reply): RoundEnd
    requires reply.Reply?
  {
    var again := st.(added := st.added + [Assistant(reply.content, []), Nudge]);
    if c.requireSearch then
      if !reply.stopped || Blank(reply.content) then Raise(LLMError, st)
      else if st.used == [] then (if round == c.maxRounds - 1 then Return("", st) else Continue(again))
      else if reply.progress then Continue(again)
      else Return(reply.content, st)
    else Return(reply.content, st)
  }

  function Called(c: Config, st: State, text: string, calls: seq<Call>): RoundEnd {
    if c.requireSearch && (!ToolsEnabled(c, st) || st.toolCalls + |calls| > CALL_LIMIT) then Raise(LLMError, st)
    else
      var (after, all) := Execute(st.(added := st.added + [Assistant(text, Ids(calls))]), calls);
      if all then Continue(Closed(c, after, |calls|)) else Raise(ExecutorError, after)
  }

  function Round(c: Config, st0: State, round: nat, reply: Reply): RoundEnd {
    var st := Asked(c, Opened(c, st0, round));
    match reply
    case RequestFailed => Raise(HttpError, st)
    case NoChoices => Raise(LLMError, st)
    case Reply(content, _, _, _, _) =>
      var calls := CallsOf(reply, round);
      if calls == [] then Answered(c, st, round, reply) else Called(c, st, content, calls)
  }

  /** All rounds from `round` on, against the model `replies`. */
  function Run(c: Config, st: State, round: nat, replies: nat -> Reply): RoundEnd
    decreases Limit(c) - round
  {
    if round >= Limit(c) then Raise(LLMError, st)
    else
      match Round(c, st, round, replies(round))
      case Continue(next) => Run(c, next, round + 1, replies)
      case other => other
  }

  const START := State([], [], 0, 0, false, [], [])

  // --------------------------------------------------------------- the methods

  /** The loop over the calls of one reply. */
  method RunCalls(st0: State, calls: seq<Call>) returns (st: State, all: bool)
    ensures (st, all) == Execute(st0, calls)
  {
    var used, added, executed := st0.used, st0.added, st0.executed;
    var rest := calls;
    while rest != []
      invariant Execute(st0, calls) == Execute(st0.(used := used, added := added, executed := executed), rest)
      decreases |rest|
    {
      var call := rest[0];
      executed := executed + [Executed(call, st0.finalRequested)];
      if call.outcome.Raises? {
        return st0.(used := used, added := added, executed := executed), false;
      }
      if call.outcome.tag != "" { used := used + [call.outcome.tag]; }
      added := added + [ToolReply(call.id)];
      rest := rest[1..];
    }
    return st0.(used := used, added := added, executed := executed), true;
  }

  /** The body of the loop over the rounds. */
  method RunRound(c: Config, st0: State, round: nat, reply: Reply) returns (out: RoundEnd)
    ensures out == Round(c, st0, round, reply)
  {
    var st := st0;
    if c.requireSearch && (round == c.maxRounds - 1 || st.toolCalls >= CALL_LIMIT) && !st.finalRequested {
      st := st.(finalRequested := true, added := st.added + [FinalRequest]);
    }
    var toolsEnabled := st.toolRounds < MaxToolRounds(c) && !st.finalRequested;
    st := st.(requests := st.requests + [Request(c.given + st.added, toolsEnabled)]);
    if reply.RequestFailed? { return Raise(HttpError, st); }
    if reply.NoChoices? { return Raise(LLMError, st); }
    var calls := CallsOf(reply, round);
    if calls == [] {
      if c.requireSearch {
        if !reply.stopped || Blank(reply.content) { return Raise(LLMError, st); }
        if st.used == [] {
          if round == c.maxRounds - 1 { return Return("", st); }
        } else if !reply.progress {
          return Return(reply.content, st);
        }
        return Continue(st.(added := st.added + [Assistant(reply.content, []), Nudge]));
      }
      return Return(reply.content, st);
    }
    if c.requireSearch && (!toolsEnabled || st.toolCalls + |calls| > CALL_LIMIT) { return Raise(LLMError, st); }
    var all;
    st, all := RunCalls(st.(added := st.added + [Assistant(reply.content, Ids(calls))]), calls);
    if !all { return Raise(ExecutorError, st); }
    st := st.(toolRounds := st.toolRounds + 1, toolCalls := st.toolCalls + |calls|);
    if st.toolRounds >= MaxToolRounds(c) {
      st := st.(finalRequested := true, added := st.added + [FinalRequest]);
    }
    return Continue(st);
  }

  /** tool_loop. */
  method Loop(given: seq<Message>, maxRounds: int, requireSearch: bool, replies: nat -> Reply)
    returns (out: RoundEnd)
    ensures out == Run(Config(given, maxRounds, requireSearch), START, 0, replies)
  {
    hide Round;
    var c := Config(given, maxRounds, requireSearch);
    var st, round := START, 0;
    while round < (if requireSearch then maxRounds else maxRounds + 2)
      invariant 0 <= round && Run(c, START, 0, replies) == Run(c, st, round, replies)
    {
      out := RunRound(c, st, round, replies(round));
      if !out.Continue? { return out; }
      st, round := out.st, round + 1;
    }
    out := Raise(LLMError, st);
  }

  // ---------------------------------------------------------------- the promises

  function TagsOf(executed: seq<Executed>): seq<string> {
    if executed == [] then []
    else
      var front, e := TagsOf(executed[..|executed| - 1]), executed[|executed| - 1];
      if e.call.outcome.Result? then Tagged(front, e.call.outcome.tag) else front
  }

  /** What always holds between rounds. */
  ghost predicate Inv(c: Config, st: State, round: nat) {
    && |st.requests| == round && st.toolRounds == ToolTurns(st.added) <= round
    && WellShaped(st.added)
    && (st.finalRequested <==> Finals(st.added) > 0)
    && (st.toolRounds >= MaxToolRounds(c) ==> st.finalRequested)
    && (st.finalRequested ==> WantsFinal(c, st, round - 1))
    && (forall r :: 0 <= r < |st.requests| ==> Sent(c, st.requests[r]))
    && st.toolCalls == |st.executed| && st.used == TagsOf(st.executed)
    && (c.requireSearch ==>
          && st.toolCalls <= CALL_LIMIT
          && Finals(st.added) == (if st.finalRequested then 1 else 0)
          && forall e :: 0 <= e < |st.executed| ==> !st.executed[e].afterFinal)
  }

  /** Whether a request of this round is to ask for the final answer: the rounds of tool
      calls are used up, or, with `require_search`, the rounds or the calls are. */
  predicate WantsFinal(c: Config, st: State, round: int) {
    || st.toolRounds >= Max(1, c.maxRounds - 1)
    || (c.requireSearch && (round >= c.maxRounds - 1 || st.toolCalls >= CALL_LIMIT))
  }

  /** A request carries the caller's messages and, behind them, a well-shaped
      conversation; it offers tools as long as that does not ask for the final answer. */
  ghost predicate Sent(c: Config, r: Request) {
    && c.given <= r.messages && WellShaped(r.messages[|c.given|..])
    && (r.toolsEnabled <==> Finals(r.messages[|c.given|..]) == 0)
  }

  /** The state when a request has gone out. */
  ghost predicate AskedInv(c: Config, st: State, round: nat) {
    Inv(c, st, round + 1) && st.toolRounds <= round && (st.finalRequested <==> WantsFinal(c, st, round))
  }

  lemma AskedKeeps(c: Config, st: State, round: nat)
    requires Inv(c, st, round) && round < Limit(c)
    ensures AskedInv(c, Asked(c, Opened(c, st, round)), round)
  {
    AddFinal(st.added);
    var next := Opened(c, st, round);
    assert (c.given + next.added)[|c.given|..] == next.added;
  }

  /** How many calls are tried: all, or those up to the first that raises. */
  function Tried(calls: seq<Call>): (n: nat)
    ensures n <= |calls|
  {
    if calls == [] then 0 else if calls[0].outcome.Raises? then 1 else 1 + Tried(calls[1..])
  }

  /** How many of them give a result. */
  function Finished(calls: seq<Call>): (n: nat)
    ensures n <= |calls|
  {
    if calls == [] || calls[0].outcome.Raises? then 0 else 1 + Finished(calls[1..])
  }

  function Log(calls: seq<Call>, final: bool): (r: seq<Executed>)
    ensures |r| == |calls|
  {
    seq(|calls|, i requires 0 <= i < |calls| => Executed(calls[i], final))
  }

  /** Only the log, the tags and the replies change; all calls ran exactly when all finished. */
  lemma {:induction false} ExecuteFrame(st: State, calls: seq<Call>)
    ensures var (after, all) := Execute(st, calls);
      && after == st.(added := after.added, used := after.used, executed := after.executed)
      && (all <==> Finished(calls) == |calls|)
    decreases |calls|
  {
    if calls == [] {
    } else if calls[0].outcome.Result? {
      ExecuteFrame(AfterOne(st, calls[0]), calls[1..]);
    }
  }

  function AfterOne(st: State, call: Call): State
    requires call.outcome.Result?
  {
    st.(executed := st.executed + [Executed(call, st.finalRequested)],
        used := Tagged(st.used, call.outcome.tag), added := st.added + [ToolReply(call.id)])
  }

  /** One reply per finished call, in the order of the calls. */
  lemma {:induction false} ExecuteReplies(st: State, calls: seq<Call>)
    ensures Execute(st, calls).0.added == st.added + Replies(Ids(calls[..Finished(calls)]))
    decreases |calls|
  {
    var n := Finished(calls);
    if n == 0 {
      assert Replies(Ids(calls[..0])) == [];
    } else {
      ExecuteReplies(AfterOne(st, calls[0]), calls[1..]);
      assert calls[..n] == [calls[0]] + calls[1..][..n - 1];
      assert Replies(Ids(calls[..n])) == [ToolReply(calls[0].id)] + Replies(Ids(calls[1..][..n - 1]));
    }
  }

  /** Every tried call is logged, in order. */
  lemma {:induction false} ExecuteLog(st: State, calls: seq<Call>)
    ensures Execute(st, calls).0.executed == st.executed + Log(calls[..Tried(calls)], st.finalRequested)
    decreases |calls|
  {
    var n, f := Tried(calls), st.finalRequested;
    if calls == [] {
      assert Log(calls[..0], f) == [];
    } else if calls[0].outcome.Raises? {
      assert Log(calls[..1], f) == [Executed(calls[0], f)];
    } else {
      ExecuteLog(AfterOne(st, calls[0]), calls[1..]);
      assert calls[..n] == [calls[0]] + calls[1..][..n - 1];
      assert Log(calls[..n], f) == [Executed(calls[0], f)] + Log(calls[1..][..n - 1], f);
    }
  }

  /** The labels are always those of the calls logged. */
  lemma {:induction false} ExecuteTags(st: State, calls: seq<Call>)
    requires st.used == TagsOf(st.executed)
    ensures Execute(st, calls).0.used == TagsOf(Execute(st, calls).0.executed)
    decreases |calls|
  {
    if calls == [] {
    } else {
      if calls[0].outcome.Result? { ExecuteTags(AfterOne(st, calls[0]), calls[1..]); }
    }
  }

  lemma {:induction false} AllTried(calls: seq<Call>)
    requires Finished(calls) == |calls|
    ensures Tried(calls) == |calls|
  {
    if calls == [] {
    } else {
      AllTried(calls[1..]);
    }
  }

  /** The log after a round of calls is as clean as before. */
  lemma LogStaysClean(st: State, calls: seq<Call>, n: nat)
    requires n <= |calls| && !st.finalRequested
    requires forall e :: 0 <= e < |st.executed| ==> !st.executed[e].afterFinal
    ensures forall e :: 0 <= e < |st.executed + Log(calls[..n], st.finalRequested)| ==>
      !(st.executed + Log(calls[..n], st.finalRequested))[e].afterFinal
  {
  }

  lemma CalledKeeps(c: Config, st: State, round: nat, text: string, calls: seq<Call>)
    requires AskedInv(c, st, round) && calls != []
    ensures match Called(c, st, text, calls)
      case Continue(next) => Inv(c, next, round + 1)
      case Return(_, _) => false
      case Raise(_, last) => RaisedInv(c, last)  && |last.requests| == round + 1
  {
    hide Execute, WellShaped, Replies, Tried, Finished, TagsOf, Sent;
    if c.requireSearch && (!ToolsEnabled(c, st) || st.toolCalls + |calls| > CALL_LIMIT) { return; }
    var asking := st.(added := st.added + [Assistant(text, Ids(calls))]);
    var (after, all) := Execute(asking, calls);
    ExecuteFrame(asking, calls);
    ExecuteReplies(asking, calls);
    ExecuteLog(asking, calls);
    ExecuteTags(asking, calls);
    if c.requireSearch { LogStaysClean(asking, calls, Tried(calls)); }
    if all {
      AllTried(calls);
      assert calls[..|calls|] == calls;
      AddTurn(st.added, text, Ids(calls));
      assert after.added == st.added + ([Assistant(text, Ids(calls))] + Replies(Ids(calls)));
      AddFinal(after.added);
    } else {
      FinalsAppend(st.added, [Assistant(text, Ids(calls))]);
      FinalsAppend(asking.added, Replies(Ids(calls[..Finished(calls)])));
      NoFinals(Ids(calls[..Finished(calls)]));
    }
  }

  /** What holds when the loop is left, even by an exception in the middle of a round. */
  ghost predicate RaisedInv(c: Config, st: State) {
    && (forall r :: 0 <= r < |st.requests| ==> Sent(c, st.requests[r]))
    && (c.requireSearch ==>
          && |st.executed| <= CALL_LIMIT
          && Finals(st.added) <= 1
          && forall e :: 0 <= e < |st.executed| ==> !st.executed[e].afterFinal)
  }

  ghost predicate ReturnedInv(c: Config, st: State, content: string) {
    && RaisedInv(c, st) && WellShaped(st.added)
    && st.used == TagsOf(st.executed)
    && (c.requireSearch && content != "" ==> st.used != [] && !Blank(content))
  }

  lemma AnsweredKeeps(c: Config, st: State, round: nat, reply: Reply)
    requires AskedInv(c, st, round) && reply.Reply?
    ensures match Answered(c, st, round, reply)
      case Continue(next) => Inv(c, next, round + 1)
      case Return(content, last) => ReturnedInv(c, last, content) && |last.requests| == round + 1
      case Raise(_, last) => RaisedInv(c, last) && |last.requests| == round + 1
  {
    AddNudge(st.added, reply.content);
  }

  lemma RoundKeeps(c: Config, st: State, round: nat, reply: Reply)
    requires Inv(c, st, round) && round < Limit(c)
    ensures match Round(c, st, round, reply)
      case Continue(next) => Inv(c, next, round + 1)
      case Return(content, last) => ReturnedInv(c, last, content) && |last.requests| == round + 1
      case Raise(_, last) => RaisedInv(c, last) && |last.requests| == round + 1
  {
    var asked := Asked(c, Opened(c, st, round));
    AskedKeeps(c, st, round);
    if reply.Reply? {
      var calls := CallsOf(reply, round);
      if calls == [] {
        AnsweredKeeps(c, asked, round, reply);
      } else {
        CalledKeeps(c, asked, round, reply.content, calls);
      }
    }
  }

  /** Against every model, from any point the loop can reach. */
  lemma {:induction false} RunKeeps(c: Config, st: State, round: nat, replies: nat -> Reply)
    requires Inv(c, st, round) && (round <= Limit(c) || round == 0)
    ensures match Run(c, st, round, replies)
      case Continue(_) => false
      case Return(content, last) => ReturnedInv(c, last, content) && 0 < |last.requests| <= Limit(c)
      case Raise(_, last) => RaisedInv(c, last) && (|last.requests| <= Limit(c) || last.requests == [])
    decreases Limit(c) - round
  {
    hide Inv, Round, ReturnedInv, RaisedInv;
    if round < Limit(c) {
      RoundKeeps(c, st, round, replies(round));
      match Round(c, st, round, replies(round))
      case Continue(next) => RunKeeps(c, next, round + 1, replies);
      case Return(content, last) =>
      case Raise(_, last) =>
    } else {
      InvIsRaised(c, st, round);
    }
  }

  lemma InvIsRaised(c: Config, st: State, round: nat)
    requires Inv(c, st, round)
    ensures RaisedInv(c, st) && |st.requests| == round
  {
  }

  /** With `require_search`, whatever the model answers: at most `max_rounds`
      requests, at most ten tool calls and none once the final answer has been
      asked for, which happens at most once; every request shows each earlier call
      answered exactly once, in order; and an answer that is not empty is backed by
      a labelled search. */
  lemma SearchLoopIsSafe(given: seq<Message>, maxRounds: int, replies: nat -> Reply)
    ensures var c := Config(given, maxRounds, true);
      match Run(c, START, 0, replies)
      case Continue(_) => false
      case Return(content, st) =>
        && 1 <= |st.requests| <= maxRounds && RaisedInv(c, st) && WellShaped(st.added)
        && (content != "" ==> st.used != [] && st.used == TagsOf(st.executed) && !Blank(content))
      case Raise(_, st) => (|st.requests| <= maxRounds || st.requests == []) && RaisedInv(c, st)
  {
    RunKeeps(Config(given, maxRounds, true), START, 0, replies);
  }

  /** Without it only the rounds are bounded, and the conversation keeps its shape. */
  lemma FreeLoopIsBounded(given: seq<Message>, maxRounds: int, replies: nat -> Reply)
    ensures var c := Config(given, maxRounds, false);
      match Run(c, START, 0, replies)
      case Continue(_) => false
      case Return(_, st) =>
        && 1 <= |st.requests| <= maxRounds + 2 && WellShaped(st.added)
        && forall r | r in st.requests :: Sent(c, r)
      case Raise(_, st) =>
        && (|st.requests| <= maxRounds + 2 || st.requests == [])
        && forall r | r in st.requests :: Sent(c, r)
  {
    RunKeeps(Config(given, maxRounds, false), START, 0, replies);
  }

  /** A reply with calls, of its own or in its text. */
  predicate HasCalls(reply: Reply) {
    reply.Reply? && (reply.calls != [] || reply.inText != [])
  }

  /** The model's own calls come first; those found in its text are used only without
      them, unchanged but for ids of their own. */
  lemma CallsAre(reply: Reply, round: nat)
    requires reply.Reply?
    ensures reply.calls != [] ==> CallsOf(reply, round) == reply.calls
    ensures reply.calls == [] ==> |CallsOf(reply, round)| == |reply.inText|
    ensures reply.calls == [] ==> forall i :: 0 <= i < |reply.inText| ==>
      && CallsOf(reply, round)[i].outcome == reply.inText[i].outcome
      && CallsOf(reply, round)[i].id == MadeUp(round, i + 1)
  {
  }

  /** A text that with `require_search` counts as an answer or as a reason to go on. */
  predicate Complete(reply: Reply) {
    reply.Reply? && reply.stopped && !Blank(reply.content)
  }

  predicate Answers(c: Config, reply: Reply, searched: bool, round: nat) {
    && reply.Reply? && !HasCalls(reply)
    && (c.requireSearch ==> Complete(reply) && if searched then !reply.progress else round == c.maxRounds - 1)
  }

  /** Which rounds end the loop with an answer, and with which. */
  lemma RoundReturnsIff(c: Config, st: State, round: nat, reply: Reply)
    requires Inv(c, st, round)
    ensures var out, searched := Round(c, st, round, reply), TagsOf(st.executed) != [];
      && (out.Return? <==> Answers(c, reply, searched, round))
      && (out.Return? ==> out.content == if c.requireSearch && !searched then "" else reply.content)
  {
  }

  /** The answer of a whole run is the text of the last reply, which had no calls; with
      `require_search` it was complete and no mere plan, and labelled tools had run;
      or there were none by the last round, and the answer is empty. */
  lemma {:induction false} AnswerIsLastReply(c: Config, st: State, round: nat, replies: nat -> Reply)
    requires Inv(c, st, round) && (round <= Limit(c) || round == 0) && Run(c, st, round, replies).Return?
    ensures var out := Run(c, st, round, replies);
      var last, searched := |out.st.requests| - 1, TagsOf(out.st.executed) != [];
      && last >= round && Answers(c, replies(last), searched, last)
      && out.content == if c.requireSearch && !searched then "" else replies(last).content
    decreases Limit(c) - round
  {
    hide Inv, Round, Answers;
    RoundKeeps(c, st, round, replies(round));
    RoundReturnsIff(c, st, round, replies(round));
    if Round(c, st, round, replies(round)).Return? {
      ReturnKeeps(c, st, round, replies(round));
    } else {
      AnswerIsLastReply(c, Round(c, st, round, replies(round)).st, round + 1, replies);
    }
  }

  lemma ReturnKeeps(c: Config, st: State, round: nat, reply: Reply)
    requires Round(c, st, round, reply).Return?
    ensures Round(c, st, round, reply).st.executed == st.executed
  {
    hide Execute;
  }

  /** Which rounds raise, and what. */
  lemma RoundRaisesIff(c: Config, st: State, round: nat, reply: Reply)
    requires Inv(c, st, round) && round < Limit(c)
    ensures var out := Round(c, st, round, reply);
      && (out == Raise(HttpError, out.st) <==> reply.RequestFailed?)
      && (out == Raise(LLMError, out.st) <==>
            || reply.NoChoices?
            || (c.requireSearch && reply.Reply? && !HasCalls(reply) && !Complete(reply))
            || (c.requireSearch && HasCalls(reply)
                && (WantsFinal(c, st, round) || |st.executed| + |CallsOf(reply, round)| > 10)))
      && (out == Raise(ExecutorError, out.st) <==>
            || (HasCalls(reply) && !(c.requireSearch
                && (WantsFinal(c, st, round) || |st.executed| + |CallsOf(reply, round)| > 10))
                && exists i :: 0 <= i < |CallsOf(reply, round)| && CallsOf(reply, round)[i].outcome.Raises?))
  {
    AskedKeeps(c, st, round);
    if HasCalls(reply) {
      var asked, calls := Asked(c, Opened(c, st, round)), CallsOf(reply, round);
      ExecuteFrame(asked.(added := asked.added + [Assistant(reply.content, Ids(calls))]), calls);
      FinishedIff(calls);
      hide Execute, Inv, Opened, CallsOf;
    }
  }

  lemma {:induction false} FinishedIff(calls: seq<Call>)
    ensures Finished(calls) < |calls| <==> exists i :: 0 <= i < |calls| && calls[i].outcome.Raises?
  {
    if calls == [] {
    } else {
      FinishedIff(calls[1..]);
      if i :| 0 <= i < |calls[1..]| && calls[1..][i].outcome.Raises? {
        assert calls[i + 1].outcome.Raises?;
      }
      if i :| 0 <= i < |calls| && calls[i].outcome.Raises? {
        if i > 0 { assert calls[1..][i - 1].outcome.Raises?; }
      }
    }
  }

  /** The messages when the request of a round goes out. */
  function Before(c: Config, st: State, round: nat): seq<Message> {
    st.added + if WantsFinal(c, st, round) && !st.finalRequested then [FinalRequest] else []
  }

  lemma AskedWrites(c: Config, st: State, round: nat)
    requires Inv(c, st, round) && round < Limit(c)
    ensures var asked := Asked(c, Opened(c, st, round));
      && asked.added == Before(c, st, round) && asked.executed == st.executed
      && asked.finalRequested == WantsFinal(c, st, round) && asked.toolRounds == st.toolRounds
  {
    AskedKeeps(c, st, round);
    hide Inv;
  }

  /** A round that goes on without calls has written the answer and the reason to go on. */
  lemma TextRoundWrites(c: Config, st: State, round: nat, reply: Reply)
    requires Inv(c, st, round) && round < Limit(c) && Round(c, st, round, reply).Continue? && !HasCalls(reply)
    ensures reply.Reply?
    ensures var next := Round(c, st, round, reply).st;
      && next.added == Before(c, st, round) + [Assistant(reply.content, []), Nudge]
      && next.executed == st.executed
  {
    AskedWrites(c, st, round);
    hide Inv, Asked, Opened, Before;
  }

  /** A round that goes on with calls has run them all, in order, and written the calls
      with one reply each; and, if that was the last round of calls allowed, the request
      for the final answer. */
  lemma CallRoundWrites(c: Config, st: State, round: nat, reply: Reply)
    requires Inv(c, st, round) && round < Limit(c) && Round(c, st, round, reply).Continue? && HasCalls(reply)
    ensures var next, calls := Round(c, st, round, reply).st, CallsOf(reply, round);
      && next.executed == st.executed + Log(calls, WantsFinal(c, st, round))
      && next.added == Before(c, st, round) + [Assistant(reply.content, Ids(calls))] + Replies(Ids(calls))
                       + if st.toolRounds + 1 >= Max(1, c.maxRounds - 1) then [FinalRequest] else []
  {
    AskedWrites(c, st, round);
    var asked, calls := Asked(c, Opened(c, st, round)), CallsOf(reply, round);
    var asking := asked.(added := asked.added + [Assistant(reply.content, Ids(calls))]);
    ExecuteFrame(asking, calls);
    ExecuteReplies(asking, calls);
    ExecuteLog(asking, calls);
    FinishedAll(c, asked, reply.content, calls);
    hide Inv, Asked, Opened, Before, Execute, Tried, Finished, Replies, Log, Ids, CallsOf, WantsFinal;
    assert calls[..|calls|] == calls;
  }

  lemma FinishedAll(c: Config, asked: State, text: string, calls: seq<Call>)
    ensures Called(c, asked, text, calls).Continue? ==> Finished(calls) == |calls| == Tried(calls)
  {
    ExecuteFrame(asked.(added := asked.added + [Assistant(text, Ids(calls))]), calls);
    if Finished(calls) == |calls| { AllTried(calls); }
  }

  /** When the calls of a reply are run: always without `require_search`, even when
      the request had offered no tools; with it, only within the budget and as long
      as tools are on offer. */
  lemma CallsRunIff(c: Config, st0: State, round: nat, reply: Reply)
    requires Inv(c, st0, round) && reply.Reply? && CallsOf(reply, round) != []
    ensures var st := Asked(c, Opened(c, st0, round));
      var calls := CallsOf(reply, round);
      |Round(c, st0, round, reply).st.executed| > |st0.executed| <==>
        !c.requireSearch || (ToolsEnabled(c, st) && st.toolCalls + |calls| <= CALL_LIMIT)
  {
    var st, calls := Asked(c, Opened(c, st0, round)), CallsOf(reply, round);
    var asking := st.(added := st.added + [Assistant(reply.content, Ids(calls))]);
    ExecuteFrame(asking, calls);
    ExecuteLog(asking, calls);
    assert Tried(calls) >= 1;
  }

  /** Such a run: one round allowed, no search required, and a model that calls a
      tool every time.  Its second call is run after the final answer was asked for. */
  lemma ToolsRunAfterFinal(id: Id)
    ensures var c := Config([], 1, false);
      var reply := Reply("", true, [Call(id, Result("a"))], [], false);
      var st := Run(c, START, 0, (n: nat) => reply).st;
      |st.requests| == 3 && !st.requests[1].toolsEnabled && |st.executed| == 3 && st.executed[1].afterFinal
  {
    var c := Config([], 1, false);
    var call := Call(id, Result("a"));
    var reply := Reply("", true, [call], [], false);
    var replies := (n: nat) => reply;
    var s1 := Round(c, START, 0, reply).st;
    OneCallRound(c, START, 0, reply, call);
    var s2 := Round(c, s1, 1, reply).st;
    OneCallRound(c, s1, 1, reply, call);
    var s3 := Round(c, s2, 2, reply).st;
    OneCallRound(c, s2, 2, reply, call);
    assert Run(c, s3, 3, replies) == Raise(LLMError, s3);
    assert Run(c, s2, 2, replies) == Run(c, s3, 3, replies);
    assert Run(c, s1, 1, replies) == Run(c, s2, 2, replies);
  }

  lemma OneCallRound(c: Config, st: State, round: nat, reply: Reply, call: Call)
    requires !c.requireSearch && reply.Reply? && reply.calls == [call] && call.outcome.Result?
    ensures var out := Round(c, st, round, reply);
      && out.Continue? && out.st.executed == st.executed + [Executed(call, st.finalRequested)]
      && |out.st.requests| == |st.requests| + 1 && out.st.requests[..|st.requests|] == st.requests
      && out.st.requests[|st.requests|].toolsEnabled == ToolsEnabled(c, st)
      && out.st.toolRounds == st.toolRounds + 1
      && (out.st.toolRounds >= MaxToolRounds(c) ==> out.st.finalRequested)
  {
    var asked := Asked(c, st);
    var asking := asked.(added := st.added + [Assistant(reply.content, Ids([call]))]);
    assert [call][1..] == [];
    assert Execute(asking, [call]) == Execute(AfterOne(asking, call), []);
  }
}
