/** The log of a run, told from the replies and the tools alone: what each round adds to it, and what every
    model call is shown. */
module AgentTranscript {
  import opened Common
  import opened AgentLoop

  // ----- the conversation as it was said -----

  function Find(executed: seq<Execution>, round: nat): Option<Execution> {
    if executed == [] then None
    else if executed[|executed| - 1].round == round then Some(executed[|executed| - 1])
    else Find(executed[..|executed| - 1], round)
  }

  /** A turn with the reply's text, and for each call, in order, what its tool returned. */
  function Recorded(w: World, execution: Execution): seq<Message> {
    [Turn(execution.calls, w.replies(execution.round).visible)]
      + seq(|execution.calls|, i requires 0 <= i < |execution.calls| =>
          ToolResult(execution.calls[i].id, w.invoke(execution.round, i).content))
  }

  /** What the rounds before `round` added: an executed turn, or else the one retry. */
  function Gained(w: World, executed: seq<Execution>, round: nat): seq<Message> {
    if round == 0 then []
    else
      var turn := Find(executed, round - 1);
      Gained(w, executed, round - 1) + (if turn.Some? then Recorded(w, turn.value) else [Ask(w.retry)])
  }

  /** What round `round` shows: the conversation so far, and on a closing round the request to finish. */
  function Said(w: World, before: seq<Message>, executed: seq<Execution>, round: nat, rounds: nat): seq<Message> {
    before + Gained(w, executed, round) + (if round + 1 == rounds > 1 then [Ask(w.finish)] else [])
  }

  // ----- the log tells it, up to shortened results -----

  function Times(w: World, content: string, n: nat): string {
    if n == 0 then content else Shortened(w, Times(w, content, n - 1))
  }

  ghost predicate Reads(w: World, said: Message, now: Message) {
    if !said.ToolResult? then now == said
    else now.ToolResult? && now.id == said.id && exists n: nat :: now.content == Times(w, said.content, n)
  }

  predicate Bounded(context: Option<(nat, nat)>) {
    context.Some? && context.value.0 > 0
  }

  /** Message by message the log is what was said; only results may be shortened, and none is when no
      context size is known. */
  ghost predicate Tells(w: World, context: Option<(nat, nat)>, said: seq<Message>, log: seq<Message>) {
    && |log| == |said| && (forall i :: 0 <= i < |log| ==> Reads(w, said[i], log[i]))
    && (!Bounded(context) ==> log == said)
  }

  lemma ReadsSelf(w: World, message: Message)
    ensures Reads(w, message, message)
  {
    if message.ToolResult? { assert message.content == Times(w, message.content, 0); }
  }

  lemma ReadsShorter(w: World, said: Message, now: Message, next: Message)
    requires Reads(w, said, now)
    requires next == now || ShortForm(w, now, next)
    ensures Reads(w, said, next)
  {
    if next != now {
      var n: nat :| now.content == Times(w, said.content, n);
      assert next.content == Times(w, said.content, n + 1);
    }
  }

  lemma TellsSelf(w: World, context: Option<(nat, nat)>, log: seq<Message>)
    ensures Tells(w, context, log, log)
  {
    forall i | 0 <= i < |log| ensures Reads(w, log[i], log[i]) { ReadsSelf(w, log[i]); }
  }

  lemma TellsMore(w: World, context: Option<(nat, nat)>, said: seq<Message>, log: seq<Message>, more: seq<Message>)
    requires Tells(w, context, said, log)
    ensures Tells(w, context, said + more, log + more)
  {
    TellsSelf(w, context, more);
    forall i | 0 <= i < |log + more| ensures Reads(w, (said + more)[i], (log + more)[i]) {
      if i >= |log| { assert (log + more)[i] == more[i - |log|] == (said + more)[i]; }
    }
  }

  lemma {:induction false} CompactedTells(w: World, context: Option<(nat, nat)>, said: seq<Message>, log: seq<Message>,
      tools: bool, budget: nat)
    requires Tells(w, context, said, log) && Bounded(context)
    ensures Tells(w, context, said, Compacted(w, log, tools, budget, ResultsAt(log, 0)))
  {
    var at := ResultsAt(log, 0);
    if |at| > 4 {
      var out := Compacted(w, log, tools, budget, at);
      CompactionIsLocal(w, log, tools, budget, at);
      forall i | 0 <= i < |out| ensures Reads(w, said[i], out[i]) {
        assert KeptOrShortened(w, log, out, at, i);
        ReadsShorter(w, said[i], log[i], out[i]);
      }
    }
  }

  lemma {:induction false} PreparedTells(w: World, context: Option<(nat, nat)>, said: seq<Message>, log: seq<Message>,
      last: bool, first: bool)
    requires Tells(w, context, said, log)
    ensures Tells(w, context, said + (if last && !first then [Ask(w.finish)] else []),
                  Prepared(w, log, context, last, first))
  {
    if Bounded(context) { CompactedTells(w, context, said, log, !last, Budget(context.value.0, context.value.1)); }
    var kept := Prepared(w, log, context, last, true);
    TellsMore(w, context, said, kept, [Ask(w.finish)]);
    assert said + [] == said;
  }

  /** What a round shows of the log: with a context size, as few of the oldest results shortened as the
      budget asks for, and otherwise the log itself; then, closing, the request to finish. */
  lemma {:induction false} ShownWithinBudget(w: World, log: seq<Message>, context: Option<(nat, nat)>, last: bool,
      first: bool)
    returns (n: nat, kept: seq<Message>)
    ensures Prepared(w, log, context, last, first) == kept + (if last && !first then [Ask(w.finish)] else [])
    ensures var at := ResultsAt(log, 0);
      && n <= |at| && FirstShortened(w, log, at, n, kept) && (n > 0 ==> n + 4 <= |at| && Bounded(context))
      && (Bounded(context) ==>
           w.size(kept, !last) <= Budget(context.value.0, context.value.1) || n + 4 >= |at|)
      && forall m, some :: 0 <= m < n && FirstShortened(w, log, at, m, some) ==>
           w.size(some, !last) > Budget(context.value.0, context.value.1)
  {
    n := 0;
    kept := Prepared(w, log, context, last, true);
    if Bounded(context) {
      n := CompactionIsLeast(w, log, !last, Budget(context.value.0, context.value.1), ResultsAt(log, 0));
    }
    assert kept + [] == kept;
  }

  // ----- over the rounds -----

  predicate RoundsBelow(executed: seq<Execution>, round: nat) {
    forall k :: 0 <= k < |executed| ==> executed[k].round < round
  }

  lemma {:induction false} FindNone(executed: seq<Execution>, round: nat)
    requires RoundsBelow(executed, round)
    ensures Find(executed, round) == None
    decreases |executed|
  {
    if executed != [] { FindNone(executed[..|executed| - 1], round); }
  }

  lemma {:induction false} GainedStays(w: World, executed: seq<Execution>, next: Execution, round: nat)
    requires round <= next.round
    ensures Gained(w, executed + [next], round) == Gained(w, executed, round)
  {
    if round > 0 {
      GainedStays(w, executed, next, round - 1);
      assert (executed + [next])[..|executed|] == executed;
    }
  }

  /** Every model call was shown what had been said by then. */
  ghost predicate ShownTells(w: World, before: seq<Message>, s: State, rounds: nat, context: Option<(nat, nat)>) {
    forall k :: 0 <= k < |s.shown| ==>
      Tells(w, context, Said(w, before, s.executed, k, rounds), s.shown[k].messages)
  }

  /** The turn holds no clarification whose tool returned a question. */
  predicate NothingAsked(w: World, turn: Execution) {
    forall k :: 0 <= k < |turn.calls| && turn.calls[k].name == CLARIFY ==> w.invoke(turn.round, k).question == ""
  }

  /** A round the run went on after: it executed a turn that asked nothing, or had neither calls nor text
      to show. */
  predicate Spent(w: World, executed: seq<Execution>, round: nat) {
    var turn := Find(executed, round);
    if turn.Some? then NothingAsked(w, turn.value) else Useless(w.replies(round), false)
  }

  predicate AllSpent(w: World, s: State, round: nat) {
    forall k :: 0 <= k < round ==> Spent(w, s.executed, k)
  }

  /** Before round `round`: what was said so far, and nothing else. */
  ghost predicate Going(w: World, before: seq<Message>, s: State, round: nat, rounds: nat,
      context: Option<(nat, nat)>)
  {
    && |s.shown| == round && RoundsBelow(s.executed, round)
    && Tells(w, context, before + Gained(w, s.executed, round), s.log)
    && ShownTells(w, before, s, rounds, context) && AllSpent(w, s, round)
  }

  /** After round `round`, which was shown its log. */
  ghost predicate Showing(w: World, before: seq<Message>, s: State, round: nat, rounds: nat,
      context: Option<(nat, nat)>)
  {
    && |s.shown| == round + 1 && RoundsBelow(s.executed, round) && s.log == s.shown[round].messages
    && ShownTells(w, before, s, rounds, context) && AllSpent(w, s, round)
  }

  lemma ShowTells(w: World, before: seq<Message>, s: State, round: nat, rounds: nat, context: Option<(nat, nat)>)
    requires Going(w, before, s, round, rounds, context)
    ensures Showing(w, before, Show(w, s, round, rounds, context), round, rounds, context)
  {
    PreparedTells(w, context, before + Gained(w, s.executed, round), s.log, round + 1 == rounds, round == 0);
  }

  lemma {:induction false} ExecutedTells(
    w: World, before: seq<Message>, s: State, next: State, turn: Execution, rounds: nat, context: Option<(nat, nat)>)
    requires turn.round + 1 < rounds && Showing(w, before, s, turn.round, rounds, context)
    requires Recording(w, s, turn, next)
    ensures ShownTells(w, before, next, rounds, context) && AllSpent(w, next, turn.round)
    ensures Tells(w, context, before + Gained(w, next.executed, turn.round + 1), next.log)
    ensures NothingAsked(w, turn) ==> Going(w, before, next, turn.round + 1, rounds, context)
  {
    var said := before + Gained(w, s.executed, turn.round);
    assert said + [] == said;
    TellsMore(w, context, said, s.log, Recorded(w, turn));
    GainedStays(w, s.executed, turn, turn.round);
    assert said + Recorded(w, turn) == before + Gained(w, next.executed, turn.round + 1);
    assert next.executed[..|s.executed|] == s.executed;
    forall k | 0 <= k < |s.shown|
      ensures Tells(w, context, Said(w, before, next.executed, k, rounds), next.shown[k].messages)
    {
      GainedStays(w, s.executed, turn, k);
    }
    forall k | 0 <= k < turn.round ensures Spent(w, next.executed, k) {
      assert Spent(w, s.executed, k);
    }
  }

  lemma {:induction false} RetriedTells(
    w: World, before: seq<Message>, s: State, round: nat, rounds: nat, context: Option<(nat, nat)>)
    requires round + 1 < rounds && Showing(w, before, s, round, rounds, context) && Useless(w.replies(round), false)
    ensures Going(w, before, s.(retried := true, log := s.log + [Ask(w.retry)]), round + 1, rounds, context)
  {
    var said := before + Gained(w, s.executed, round);
    assert said + [] == said;
    FindNone(s.executed, round);
    TellsMore(w, context, said, s.log, [Ask(w.retry)]);
    assert said + [Ask(w.retry)] == before + Gained(w, s.executed, round + 1);
  }

  /** What holds when the run ends: every call was shown what had been said by then, and the log is what
      the last call was shown, or goes on with the turn that asked. */
  ghost predicate Told(w: World, before: seq<Message>, outcome: Outcome, s: State, rounds: nat,
      context: Option<(nat, nat)>) {
    && s.shown != [] && ShownTells(w, before, s, rounds, context) && AllSpent(w, s, |s.shown| - 1)
    && if outcome.Asked? then Tells(w, context, before + Gained(w, s.executed, |s.shown|), s.log)
       else s.log == s.shown[|s.shown| - 1].messages && RoundsBelow(s.executed, |s.shown| - 1)
  }

  predicate Recording(w: World, s: State, turn: Execution, next: State) {
    next == s.(log := s.log + Recorded(w, turn), seen := next.seen, executed := s.executed + [turn])
  }

  /** An executing round records its turn, and stops exactly when the turn asks something. */
  lemma {:induction false} ExecutingStep(
    w: World, s: State, shown: State, step: Step, round: nat, rounds: nat, context: Option<(nat, nat)>)
    returns (turn: Execution)
    requires Executes(w, round, rounds)
    requires shown == Show(w, s, round, rounds, context) && step == RoundStep(w, s, round, rounds, context)
    ensures turn.round == round && Recording(w, shown, turn, step.state)
    ensures step.Go? <==> NothingAsked(w, turn)
    ensures step.Stop? ==> step.outcome.Asked?
  {
    var calls := AssignIds(Chosen(CallsOf(w.replies(round), false)), shown.seen, round + 1, 0);
    turn := Execution(round, calls, BatchesOf(w, calls));
    assert TurnWith(w, calls, VisibleOf(w.replies(round), false), round) == Recorded(w, turn);
    assert step.state == Execute(w, shown, calls, VisibleOf(w.replies(round), false), round);
    AsksWhenAlone(w, calls, round, turn);
  }

  lemma AsksWhenAlone(w: World, calls: seq<Call>, round: nat, turn: Execution)
    requires forall k :: 0 <= k < |calls| ==> (calls[k].name == CLARIFY ==> |calls| == 1)
    requires turn.calls == calls && turn.round == round
    ensures QuestionOf(w, calls, round) == "" <==> NothingAsked(w, turn)
  {}

  lemma {:induction false} RoundTells(
    w: World, before: seq<Message>, s: State, step: Step, round: nat, rounds: nat, context: Option<(nat, nat)>)
    requires round < rounds && Going(w, before, s, round, rounds, context)
    requires step == RoundStep(w, s, round, rounds, context)
    ensures step.Go? ==> Going(w, before, step.state, round + 1, rounds, context)
    ensures step.Stop? ==> Told(w, before, step.outcome, step.state, rounds, context)
  {
    ShowTells(w, before, s, round, rounds, context);
    var shown := Show(w, s, round, rounds, context);
    if Executes(w, round, rounds) {
      var turn := ExecutingStep(w, s, shown, step, round, rounds, context);
      ExecutedTells(w, before, shown, step.state, turn, rounds, context);
    } else {
      QuietStops(w, s, shown, step, round, rounds, context);
      if step.Go? { RetriedTells(w, before, shown, round, rounds, context); }
    }
  }

  /** A round without calls to execute that goes on had a reply of no use; one that stops asks nothing. */
  lemma QuietStops(w: World, s: State, shown: State, step: Step, round: nat, rounds: nat, context: Option<(nat, nat)>)
    requires round < rounds && !Executes(w, round, rounds)
    requires shown == Show(w, s, round, rounds, context) && step == RoundStep(w, s, round, rounds, context)
    ensures if step.Go?
      then round + 1 < rounds && Useless(w.replies(round), false)
        && step.state == shown.(retried := true, log := shown.log + [Ask(w.retry)])
      else step.state == shown && !step.outcome.Asked?
  {}

  lemma {:induction false} RunTells(
    w: World, before: seq<Message>, s: State, round: nat, rounds: nat, context: Option<(nat, nat)>)
    requires round < rounds && Going(w, before, s, round, rounds, context)
    ensures var (outcome, end) := RunFrom(w, s, round, rounds, context);
      Told(w, before, outcome, end, rounds, context)
    decreases rounds - round
  {
    var step := RoundStep(w, s, round, rounds, context);
    RoundTells(w, before, s, step, round, rounds, context);
    RoundEnds(w, s, round, rounds, context);
    if step.Go? { RunTells(w, before, step.state, round + 1, rounds, context); }
  }

  /** Every run shows each model call exactly what was said before it: the messages it started from, for
      each executed round the turn with the reply's text and, call by call, what the tools returned, and
      the retry after the one reply that was of no use. Only older results may have been shortened, and
      without a context size none is. */
  lemma {:induction false} LogTellsTheRun(w: World, before: seq<Message>, maxRounds: int, context: Option<(nat, nat)>)
    ensures var (outcome, end) := RunFrom(w, Start(before), 0, Rounds(maxRounds), context);
      Told(w, before, outcome, end, Rounds(maxRounds), context)
  {
    TellsSelf(w, context, before);
    assert before + Gained(w, [], 0) == before;
    RunTells(w, before, Start(before), 0, Rounds(maxRounds), context);
  }
}
