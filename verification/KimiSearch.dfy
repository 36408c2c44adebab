/**
 The round loop of LLMAdapter.kimi_search: ten rounds and ten searches at most, and
 no answer that was not searched for.
 */
module KimiSearch {
  import opened Transcript

  /** What running one search gives. */
  datatype Fiber = Unavailable | NotSucceeded | NoEvidence | Evidence

  datatype Call = Call(id: Id, known: bool, fiber: Fiber)

  datatype Finish = Stop | Length | OtherFinish

  /** What a request gives; `progress` tells that the text is only a plan. */
  datatype Reply =
    | RequestFailed
    | Reply(text: string, blank: bool, progress: bool, finish: Finish, calls: seq<Call>)

  datatype Error = HttpError | LLMError | SearchUnavailable

  datatype Request = Request(messages: seq<Message>, toolsOffered: bool)

  /** A search that was posted, whatever came of it. */
  datatype Search = Search(id: Id, afterFinal: bool, succeeded: bool)

  datatype State = State(added: seq<Message>, searches: nat, finalRequested: bool,
                         requests: seq<Request>, posted: seq<Search>)

  datatype RoundEnd =
    | Continue(st: State)
    | Answer(text: string, st: State)
    | Raise(error: Error, st: State)

  const MAX_ROUNDS := 10
  const MAX_SEARCHES := 10

  predicate Finalizing(st: State, round: nat) {
    st.searches >= MAX_SEARCHES || round == MAX_ROUNDS - 1
  }

  function Asked(given: seq<Message>, st0: State, round: nat): State {
    var finalizing := Finalizing(st0, round);
    var st := if finalizing && st0.searches > 0 && !st0.finalRequested
              then st0.(finalRequested := true, added := st0.added + [FinalRequest]) else st0;
    st.(requests := st.requests + [Request(given + st.added, !finalizing)])
  }

  function Ids(calls: seq<Call>): (r: seq<Id>)
    ensures |r| == |calls|
  {
    seq(|calls|, i requires 0 <= i < |calls| => calls[i].id)
  }

  /** A search goes out, before anything is known of its result. */
  function Post(st: State, call: Call): State {
    st.(posted := st.posted + [Search(call.id, st.finalRequested, call.fiber.Evidence?)])
  }

  function After(st: State, call: Call): State {
    Post(st, call).(searches := st.searches + 1, added := st.added + [ToolReply(call.id)])
  }

  /** The searches of one reply, in order, up to the first that fails. */
  function Execute(st: State, calls: seq<Call>): RoundEnd
    decreases |calls|
  {
    if calls == [] then Continue(st)
    else if !calls[0].known then Raise(LLMError, st)
    else
      match calls[0].fiber
      case Evidence => Execute(After(st, calls[0]), calls[1..])
      case Unavailable => Raise(SearchUnavailable, Post(st, calls[0]))
      case _ => Raise(LLMError, Post(st, calls[0]))
  }

  function Answered(st: State, round: nat, reply: Reply): RoundEnd
    requires reply.Reply?
  {
    var again := st.(added := st.added + [Assistant(reply.text, []), Nudge]);
    if reply.finish != Stop || reply.blank then Raise(LLMError, st)
    else if st.searches == 0 || reply.progress then
      (if round == MAX_ROUNDS - 1 then Raise(LLMError, st) else Continue(again))
    else Answer(reply.text, st)
  }

  function Round(given: seq<Message>, st0: State, round: nat, reply: Reply): RoundEnd {
    var st := Asked(given, st0, round);
    if reply.RequestFailed? then Raise(HttpError, st)
    else if reply.calls == [] then Answered(st, round, reply)
    else if reply.finish == Length || st.searches + |reply.calls| > MAX_SEARCHES || Finalizing(st0, round)
    then Raise(LLMError, st)
    else Execute(st.(added := st.added + [Assistant(reply.text, Ids(reply.calls))]), reply.calls)
  }

  function Run(given: seq<Message>, st: State, round: nat, replies: nat -> Reply): RoundEnd
    decreases MAX_ROUNDS - round
  {
    if round >= MAX_ROUNDS then Raise(LLMError, st)
    else
      match Round(given, st, round, replies(round))
      case Continue(next) => Run(given, next, round + 1, replies)
      case other => other
  }

  const START := State([], 0, false, [], [])

  // --------------------------------------------------------------- the methods

  method RunSearches(st0: State, calls: seq<Call>) returns (out: RoundEnd)
    ensures out == Execute(st0, calls)
  {
    var st, rest := st0, calls;
    while rest != []
      invariant Execute(st0, calls) == Execute(st, rest)
      decreases |rest|
    {
      var call := rest[0];
      if !call.known { return Raise(LLMError, st); }
      st := st.(posted := st.posted + [Search(call.id, st.finalRequested, call.fiber.Evidence?)]);
      match call.fiber
      case Unavailable => return Raise(SearchUnavailable, st);
      case NotSucceeded => return Raise(LLMError, st);
      case NoEvidence => return Raise(LLMError, st);
      case Evidence =>
        st := st.(added := st.added + [ToolReply(call.id)], searches := st.searches + 1);
        rest := rest[1..];
    }
    return Continue(st);
  }

  method RunRound(given: seq<Message>, st0: State, round: nat, reply: Reply) returns (out: RoundEnd)
    ensures out == Round(given, st0, round, reply)
  {
    var st := st0;
    var finalizing := st.searches >= MAX_SEARCHES || round == MAX_ROUNDS - 1;
    if finalizing && st.searches > 0 && !st.finalRequested {
      st := st.(finalRequested := true, added := st.added + [FinalRequest]);
    }
    st := st.(requests := st.requests + [Request(given + st.added, !finalizing)]);
    if reply.RequestFailed? { return Raise(HttpError, st); }
    if reply.calls == [] {
      if reply.finish != Stop || reply.blank { return Raise(LLMError, st); }
      if st.searches == 0 {
        if round == MAX_ROUNDS - 1 { return Raise(LLMError, st); }
        return Continue(st.(added := st.added + [Assistant(reply.text, []), Nudge]));
      }
      if reply.progress {
        if round == MAX_ROUNDS - 1 { return Raise(LLMError, st); }
        return Continue(st.(added := st.added + [Assistant(reply.text, []), Nudge]));
      }
      return Answer(reply.text, st);
    }
    if reply.finish == Length { return Raise(LLMError, st); }
    if st.searches + |reply.calls| > MAX_SEARCHES || finalizing { return Raise(LLMError, st); }
    out := RunSearches(st.(added := st.added + [Assistant(reply.text, Ids(reply.calls))]), reply.calls);
  }

  /** kimi_search, once the search tools have been fetched. */
  method Loop(given: seq<Message>, replies: nat -> Reply) returns (out: RoundEnd)
    ensures out == Run(given, START, 0, replies)
  {
    hide Round;
    var st, round := START, 0;
    while round < MAX_ROUNDS
      invariant Run(given, START, 0, replies) == Run(given, st, round, replies)
    {
      out := RunRound(given, st, round, replies(round));
      if !out.Continue? { return out; }
      st, round := out.st, round + 1;
    }
    out := Raise(LLMError, st);
  }

  // --------------------------------------------------------------- the promises

  ghost predicate Sent(given: seq<Message>, r: Request) {
    given <= r.messages && WellShaped(r.messages[|given|..])
  }

  /** What holds at every point of the loop, also when it is left: of the searches
      posted only the last can have failed. */
  ghost predicate Safe(given: seq<Message>, st: State) {
    && (forall r :: 0 <= r < |st.requests| ==> Sent(given, st.requests[r]))
    && st.searches <= |st.posted| <= MAX_SEARCHES
    && (forall e :: 0 <= e < |st.posted| ==> !st.posted[e].afterFinal)
    && |st.posted| <= st.searches + 1
    && (forall e :: 0 <= e < |st.posted| ==> (st.posted[e].succeeded <==> e < st.searches))
    && Finals(st.added) == (if st.finalRequested then 1 else 0)
    && (st.finalRequested ==> st.searches > 0)
  }

  ghost predicate Inv(given: seq<Message>, st: State, round: nat) {
    && Safe(given, st) && WellShaped(st.added) && |st.requests| == round && |st.posted| == st.searches
    && (st.finalRequested ==> st.searches >= MAX_SEARCHES || round >= MAX_ROUNDS)
  }

  lemma AskedKeeps(given: seq<Message>, st: State, round: nat)
    requires Inv(given, st, round)
    ensures Inv(given, Asked(given, st, round), round + 1)
  {
    AddFinal(st.added);
    var next := Asked(given, st, round);
    assert (given + next.added)[|given|..] == next.added;
  }

  /** Between two searches of a reply. */
  ghost predicate Searching(given: seq<Message>, st: State) {
    Safe(given, st) && !st.finalRequested && |st.posted| == st.searches
  }

  lemma OneSearch(given: seq<Message>, st: State, call: Call)
    requires Searching(given, st) && st.searches < MAX_SEARCHES
    ensures if call.fiber.Evidence? then Searching(given, After(st, call)) else Safe(given, Post(st, call))
  {
    FinalsAppend(st.added, [ToolReply(call.id)]);
  }

  /** Each search posted is logged, and each that succeeds is counted and answered once. */
  lemma {:induction false} ExecuteKeeps(given: seq<Message>, st: State, calls: seq<Call>)
    requires Searching(given, st) && st.searches + |calls| <= MAX_SEARCHES
    ensures Safe(given, Execute(st, calls).st) && Execute(st, calls).st.requests == st.requests
    ensures !Execute(st, calls).Answer? && !Execute(st, calls).st.finalRequested
    ensures Execute(st, calls).Continue? ==>
      && Execute(st, calls).st.added == st.added + Replies(Ids(calls))
      && |Execute(st, calls).st.posted| == Execute(st, calls).st.searches
    decreases |calls|
  {
    hide Safe;
    if calls == [] {
      assert Replies(Ids(calls)) == [];
    } else {
      OneSearch(given, st, calls[0]);
      if calls[0].known && calls[0].fiber.Evidence? {
        ExecuteKeeps(given, After(st, calls[0]), calls[1..]);
        assert Replies(Ids(calls)) == [ToolReply(calls[0].id)] + Replies(Ids(calls[1..]));
      }
    }
  }

  lemma SearchedKeeps(given: seq<Message>, st: State, round: nat, reply: Reply)
    requires Inv(given, st, round + 1) && reply.Reply? && reply.calls != []
    requires !st.finalRequested && st.searches + |reply.calls| <= MAX_SEARCHES
    ensures var out := Execute(st.(added := st.added + [Assistant(reply.text, Ids(reply.calls))]), reply.calls);
      && Safe(given, out.st) && |out.st.requests| == round + 1 && !out.Answer? && !out.st.finalRequested
      && (out.Continue? ==> WellShaped(out.st.added) && |out.st.posted| == out.st.searches)
  {
    var turn := Assistant(reply.text, Ids(reply.calls));
    FinalsAppend(st.added, [turn]);
    ExecuteKeeps(given, st.(added := st.added + [turn]), reply.calls);
    AddTurn(st.added, reply.text, Ids(reply.calls));
    assert st.added + [turn] + Replies(Ids(reply.calls)) == st.added + ([turn] + Replies(Ids(reply.calls)));
  }

  lemma RoundKeeps(given: seq<Message>, st0: State, round: nat, reply: Reply)
    requires Inv(given, st0, round) && round < MAX_ROUNDS
    ensures var out := Round(given, st0, round, reply);
      && Safe(given, out.st) && |out.st.requests| == round + 1
      && (out.Continue? ==> Inv(given, out.st, round + 1))
      && (out.Answer? ==> out.st.searches >= 1 && WellShaped(out.st.added))
  {
    var st := Asked(given, st0, round);
    AskedKeeps(given, st0, round);
    if reply.Reply? {
      AddNudge(st.added, reply.text);
      if reply.calls != [] && !Finalizing(st0, round) && st.searches + |reply.calls| <= MAX_SEARCHES {
        SearchedKeeps(given, st, round, reply);
      }
    }
  }

  /** The request of a round: tools are on offer until ten searches have succeeded or the
      last round has come; then the final answer is asked for, once, if there is evidence. */
  lemma RequestIs(given: seq<Message>, st: State, round: nat)
    requires Inv(given, st, round) && round < MAX_ROUNDS
    ensures var asked, finalizing := Asked(given, st, round), st.searches >= 10 || round == 9;
      && asked.requests == st.requests + [Request(given + asked.added, !finalizing)]
      && asked.added == st.added + (if finalizing && st.searches > 0 && Finals(st.added) == 0
                                    then [FinalRequest] else [])
      && Finals(asked.added) == (if finalizing && st.searches > 0 then 1 else 0)
  {
    AddFinal(st.added);
    assert Inv(given, Asked(given, st, round), round + 1) by { AskedKeeps(given, st, round); }
  }

  /** A text that counts as an answer or as a reason to go on. */
  predicate Complete(reply: Reply) {
    reply.Reply? && reply.calls == [] && reply.finish == Stop && !reply.blank
  }

  /** Which rounds end the loop with an answer, and with which. */
  lemma RoundAnswersIff(given: seq<Message>, st: State, round: nat, reply: Reply)
    requires Inv(given, st, round) && round < MAX_ROUNDS
    ensures var out := Round(given, st, round, reply);
      && (out.Answer? <==> Complete(reply) && |st.posted| > 0 && !reply.progress)
      && (out.Answer? ==> out.text == reply.text && out.st.posted == st.posted)
  {
    if reply.Reply? {
      var asked := Asked(given, st, round);
      ExecuteIs(asked.(added := asked.added + [Assistant(reply.text, Ids(reply.calls))]), reply.calls);
      hide Execute;
    }
  }

  /** A reply with searches that are run: within the budget, and while tools are on offer. */
  predicate Searches(st: State, round: nat, reply: Reply) {
    && reply.Reply? && reply.calls != [] && reply.finish != Length
    && |st.posted| + |reply.calls| <= 10 && round != 9
  }

  predicate Succeeds(call: Call) {
    call.known && call.fiber.Evidence?
  }

  /** Which rounds go on: a text too early or only a plan, before the last round, or
      searches that all succeed; and what such a round has written. */
  lemma RoundGoesOnIff(given: seq<Message>, st: State, round: nat, reply: Reply)
    requires Inv(given, st, round) && round < MAX_ROUNDS
    ensures var out, asked := Round(given, st, round, reply), Asked(given, st, round);
      && (out.Continue? <==>
            || (Complete(reply) && (|st.posted| == 0 || reply.progress) && round < 9)
            || (Searches(st, round, reply) && forall i :: 0 <= i < |reply.calls| ==> Succeeds(reply.calls[i])))
      && (out.Continue? && reply.calls == [] ==>
            out.st == asked.(added := asked.added + [Assistant(reply.text, []), Nudge]))
      && (out.Continue? && reply.calls != [] ==>
            out.st.added == asked.added + [Assistant(reply.text, Ids(reply.calls))] + Replies(Ids(reply.calls)))
      && (out == Raise(HttpError, out.st) <==> reply.RequestFailed?)
  {
    if reply.Reply? {
      var asked := Asked(given, st, round);
      var asking := asked.(added := asked.added + [Assistant(reply.text, Ids(reply.calls))]);
      ExecuteIs(asking, reply.calls);
      hide Execute;
    }
  }

  lemma {:induction false} ExecuteIs(st: State, calls: seq<Call>)
    ensures Execute(st, calls).Continue? <==> forall i :: 0 <= i < |calls| ==> Succeeds(calls[i])
    ensures Execute(st, calls).Continue? ==> Execute(st, calls).st.added == st.added + Replies(Ids(calls))
    ensures !(Execute(st, calls).Raise? && Execute(st, calls).error == HttpError) && !Execute(st, calls).Answer?
    decreases |calls|
  {
    if calls == [] {
      assert Replies(Ids(calls)) == [];
    } else {
      assert (forall i :: 0 <= i < |calls| ==> Succeeds(calls[i]))
        <==> Succeeds(calls[0]) && forall i :: 0 <= i < |calls[1..]| ==> Succeeds(calls[1..][i]);
      if Succeeds(calls[0]) {
        ExecuteIs(After(st, calls[0]), calls[1..]);
        assert Replies(Ids(calls)) == [ToolReply(calls[0].id)] + Replies(Ids(calls[1..]));
      }
    }
  }

  /** Searches are posted one after the other up to the first that does not succeed,
      which decides about the exception; one with an unknown name is not posted. */
  lemma {:induction false} ExecuteRaises(st: State, calls: seq<Call>, k: nat)
    requires k < |calls| && !Succeeds(calls[k]) && forall i :: 0 <= i < k ==> Succeeds(calls[i])
    ensures var out := Execute(st, calls);
      && out.Raise?
      && out.error == (if calls[k].known && calls[k].fiber.Unavailable? then SearchUnavailable else LLMError)
      && out.st.searches == st.searches + k
      && |out.st.posted| == |st.posted| + k + if calls[k].known then 1 else 0
    decreases |calls|
  {
    if k > 0 { ExecuteRaises(After(st, calls[0]), calls[1..], k - 1); }
  }

  /** The answer of a whole run is the text of the last reply, which was complete, no mere
      plan, and came behind a successful search. */
  lemma {:induction false} AnswerIsLastReply(given: seq<Message>, st: State, round: nat, replies: nat -> Reply)
    requires Inv(given, st, round) && round <= MAX_ROUNDS && Run(given, st, round, replies).Answer?
    ensures var out := Run(given, st, round, replies);
      var last := |out.st.requests| - 1;
      && last >= round && Complete(replies(last)) && !replies(last).progress && |out.st.posted| > 0
      && out.text == replies(last).text
    decreases MAX_ROUNDS - round
  {
    hide Round, Safe, Inv, Complete;
    RoundKeeps(given, st, round, replies(round));
    RoundAnswersIff(given, st, round, replies(round));
    if Round(given, st, round, replies(round)).Continue? {
      AnswerIsLastReply(given, Round(given, st, round, replies(round)).st, round + 1, replies);
    }
  }

  lemma {:induction false} RunKeeps(given: seq<Message>, st: State, round: nat, replies: nat -> Reply)
    requires Inv(given, st, round) && round <= MAX_ROUNDS
    ensures var out := Run(given, st, round, replies);
      && Safe(given, out.st) && |out.st.requests| <= MAX_ROUNDS && !out.Continue?
      && (out.Answer? ==> out.st.searches >= 1 && WellShaped(out.st.added))
    decreases MAX_ROUNDS - round
  {
    hide Round, Safe;
    if round == MAX_ROUNDS {
    } else {
      RoundKeeps(given, st, round, replies(round));
      match Round(given, st, round, replies(round))
      case Continue(next) => RunKeeps(given, next, round + 1, replies);
      case _ =>
    }
  }

  /** Whatever the model and the search service answer: at most ten requests and
      ten searches posted, failed ones included, none after the final answer was asked for, which happens at
      most once and only with evidence at hand; every request shows each earlier
      search answered once, in order; and there is no answer without a search. */
  lemma KimiSearchIsSafe(given: seq<Message>, replies: nat -> Reply)
    ensures var out := Run(given, START, 0, replies);
      && |out.st.requests| <= MAX_ROUNDS && |out.st.posted| <= MAX_SEARCHES
      && Safe(given, out.st)
      && (out.Answer? ==> out.st.searches >= 1 && WellShaped(out.st.added))
  {
    RunKeeps(given, START, 0, replies);
  }
}
