/** The bounded agent loop (apps/daemon/graite/agent/loop.py:95-317): rounds, one retry, batches of
    tool calls, and the message log the model is shown.

    A run is given by what the model replies in each round and what the tools return; text
    filtering and the recovery of calls from prose are part of the reply. */
module AgentLoop {
  import opened Common

  datatype Call = Call(id: string, name: string, arguments: string)

  /** `Plain` covers system, user and assistant messages without tool calls. */
  datatype Message =
    | Plain(role: string, text: string)
    | Turn(calls: seq<Call>, text: string)
    | ToolResult(id: string, content: string)

  /** One streamed reply: its tool calls by slot, the calls recovered from its text, its visible
      text, and whether it hit the output limit. */
  datatype Reply = Reply(calls: seq<Call>, recovered: seq<Call>, visible: string, truncated: bool)

  /** What a tool returned, and the question in it, if any. */
  datatype Returned = Returned(content: string, question: string)

  datatype Outcome = Answered(text: string) | Asked(question: string) | NoAnswer | TooManyCalls | StepLimit

  /** What a run is shown of the world outside, and the two texts it adds to the log. */
  datatype World = World(
    replies: nat -> Reply, invoke: (nat, nat) -> Returned, parallelSafe: string -> bool,
    size: (seq<Message>, bool) -> nat, shorten: string -> Option<string>,
    finish: string, retry: string)

  function Ask(text: string): Message {
    Plain("user", text)
  }

  const CLARIFY := "request_clarification"
  const MAX_CALLS := 16

  // ----- the protocol the log has to keep -----

  predicate Answers(message: Message, call: Call) {
    message.ToolResult? && message.id == call.id
  }

  /** `messages` starts with one result per call, in the order of the calls. */
  predicate ResultsFollow(messages: seq<Message>, calls: seq<Call>) {
    |calls| <= |messages| && forall k :: 0 <= k < |calls| ==> Answers(messages[k], calls[k])
  }

  /** How many messages belong to a turn that starts with `message`. */
  function Span(message: Message): nat {
    if message.Turn? then 1 + |message.calls| else 1
  }

  /** A log starts with a plain message, or with a turn and its results. */
  predicate Opens(messages: seq<Message>)
    requires messages != []
  {
    && !messages[0].ToolResult?
    && (messages[0].Turn? ==> ResultsFollow(messages[1..], messages[0].calls))
  }

  /** Each turn with tool calls is followed by exactly its results, and results stand nowhere else. */
  predicate Paired(messages: seq<Message>)
    decreases |messages|
  {
    messages == [] || (Opens(messages) && Paired(messages[Span(messages[0])..]))
  }

  lemma OpensJoin(a: seq<Message>, b: seq<Message>)
    requires a != [] && Opens(a)
    ensures Opens(a + b) && (a + b)[0] == a[0] && Span(a[0]) <= |a|
    ensures (a + b)[Span(a[0])..] == a[Span(a[0])..] + b
  {
    assert (a + b)[1..] == a[1..] + b;
  }

  lemma {:induction false} PairedJoin(a: seq<Message>, b: seq<Message>)
    requires Paired(a) && Paired(b)
    ensures Paired(a + b)
    decreases |a|
  {
    if a == [] {
      assert a + b == b;
    } else {
      OpensJoin(a, b);
      PairedJoin(a[Span(a[0])..], b);
    }
  }

  lemma PairedPlain(message: Message)
    requires message.Plain?
    ensures Paired([message])
  {
    assert [message][1..] == [];
  }

  // ----- compaction -----

  /** Three bytes for each token of the context, less the answer's share of at most half, and never less
      than 4000. */
  function Budget(context: nat, output: nat): (budget: nat)
    ensures budget >= 4000 && budget >= 3 * (context - output) && budget >= 3 * (context - context / 2)
    ensures budget == 4000 || budget == 3 * (context - output) || budget == 3 * (context - context / 2)
  {
    var reserved := if output < context / 2 then output else context / 2;
    var budget := (context - reserved) * 3;
    if budget < 4000 then 4000 else budget
  }

  /** Indices of tool results, in order. */
  function ResultsAt(messages: seq<Message>, from: nat): (at: seq<nat>)
    requires from <= |messages|
    ensures forall k :: 0 <= k < |at| ==> from <= at[k] < |messages| && messages[at[k]].ToolResult?
    ensures forall j, k :: 0 <= j < k < |at| ==> at[j] < at[k]
    ensures forall i :: from <= i < |messages| && messages[i].ToolResult? ==> i in at
    decreases |messages| - from
  {
    if from == |messages| then []
    else (if messages[from].ToolResult? then [from] else []) + ResultsAt(messages, from + 1)
  }

  /** The same message up to the content of a tool result. */
  predicate SameButContent(a: Message, b: Message) {
    if a.ToolResult? then b.ToolResult? && b.id == a.id else b == a
  }

  predicate SameShape(a: seq<Message>, b: seq<Message>) {
    |a| == |b| && forall i :: 0 <= i < |a| ==> SameButContent(a[i], b[i])
  }

  /** Long results are shortened; the others stay. */
  function Shortened(w: World, content: string): string {
    if |content| < 1500 || w.shorten(content).None? then content else w.shorten(content).value
  }

  /** The short form of a result: its own text below 1500 characters or when it cannot be shortened. */
  predicate ShortForm(w: World, was: Message, now: Message) {
    && was.ToolResult? && now.ToolResult? && now.id == was.id
    && (|was.content| < 1500 || w.shorten(was.content) == None ==> now.content == was.content)
    && (|was.content| >= 1500 && w.shorten(was.content).Some? ==> w.shorten(was.content) == Some(now.content))
  }

  function ShortenAt(w: World, messages: seq<Message>, i: nat): seq<Message>
    requires i < |messages| && messages[i].ToolResult?
  {
    messages[i := ToolResult(messages[i].id, Shortened(w, messages[i].content))]
  }

  /** The results still to be looked at are where `at` says. */
  predicate ResultsIn(messages: seq<Message>, at: seq<nat>) {
    && (forall k :: 0 <= k < |at| ==> at[k] < |messages| && messages[at[k]].ToolResult?)
    && (forall j, k :: 0 <= j < k < |at| ==> at[j] < at[k])
  }

  /** Results are shortened from the oldest on, never the latest four, until the log fits. */
  function Compacted(w: World, messages: seq<Message>, tools: bool, budget: nat, at: seq<nat>): seq<Message>
    requires ResultsIn(messages, at)
    decreases |at|
  {
    if |at| <= 4 || w.size(messages, tools) <= budget then messages
    else Compacted(w, ShortenAt(w, messages, at[0]), tools, budget, at[1..])
  }

  /** A message after compaction: as it was, or an older result in its shortened form. */
  predicate KeptOrShortened(w: World, a: seq<Message>, b: seq<Message>, at: seq<nat>, i: nat)
    requires i < |a| == |b|
  {
    b[i] == a[i] || (|at| > 4 && i in at[..|at| - 4] && ShortForm(w, a[i], b[i]))
  }

  /** Compaction keeps every message but older results, and those only shortened. */
  lemma {:induction false} CompactionIsLocal(w: World, messages: seq<Message>, tools: bool, budget: nat, at: seq<nat>)
    requires ResultsIn(messages, at) && |at| > 4
    ensures var out := Compacted(w, messages, tools, budget, at);
      |out| == |messages| && forall i :: 0 <= i < |out| ==> KeptOrShortened(w, messages, out, at, i)
    decreases |at|
  {
    if w.size(messages, tools) > budget {
      var next := ShortenAt(w, messages, at[0]);
      var out := Compacted(w, next, tools, budget, at[1..]);
      var early := at[..|at| - 4];
      if |at| > 5 {
        CompactionIsLocal(w, next, tools, budget, at[1..]);
        assert at[1..][..|at| - 5] == early[1..];
      }
      forall i | 0 <= i < |out| ensures KeptOrShortened(w, messages, out, at, i) {
        assert early[0] == at[0];
        if |at| > 5 {
          assert KeptOrShortened(w, next, out, at[1..], i);
          assert forall m :: 0 <= m < |early[1..]| ==> early[1..][m] == at[m + 1] > at[0];
          if i in early[1..] { assert i in early; }
        }
      }
    }
  }

  /** `out` is `messages` with its first `n` results shortened and nothing else changed. */
  predicate FirstShortened(w: World, messages: seq<Message>, at: seq<nat>, n: nat, out: seq<Message>)
    requires ResultsIn(messages, at) && n <= |at|
  {
    && |out| == |messages|
    && (forall i :: 0 <= i < |out| && i !in at[..n] ==> out[i] == messages[i])
    && (forall k :: 0 <= k < n ==> ShortForm(w, messages[at[k]], out[at[k]]))
  }

  /** Compaction is minimal: it shortens the fewest of the oldest results with which the log fits the
      budget, and all but the latest four if it never fits. */
  lemma {:induction false} CompactionIsLeast(w: World, messages: seq<Message>, tools: bool, budget: nat, at: seq<nat>)
    returns (n: nat)
    requires ResultsIn(messages, at)
    ensures var out := Compacted(w, messages, tools, budget, at);
      && n <= |at| && (n > 0 ==> n + 4 <= |at|)
      && FirstShortened(w, messages, at, n, out)
      && (w.size(out, tools) <= budget || n + 4 >= |at|)
      && (forall m, some :: 0 <= m < n && FirstShortened(w, messages, at, m, some) ==> w.size(some, tools) > budget)
    decreases |at|
  {
    n := 0;
    if |at| > 4 && w.size(messages, tools) > budget {
      CompactedStep(w, messages, tools, budget, at);
      var next := ShortenAt(w, messages, at[0]);
      var rest := CompactionIsLeast(w, next, tools, budget, at[1..]);
      n := rest + 1;
      OneMore(w, messages, at, next, rest, Compacted(w, messages, tools, budget, at));
      forall m, some | 0 <= m < n && FirstShortened(w, messages, at, m, some)
        ensures w.size(some, tools) > budget
      {
        if m == 0 { assert some == messages; } else { OneLess(w, messages, at, next, m - 1, some); }
      }
    }
  }

  lemma OneMore(w: World, messages: seq<Message>, at: seq<nat>, next: seq<Message>, n: nat, out: seq<Message>)
    requires ResultsIn(messages, at) && n < |at| && next == ShortenAt(w, messages, at[0]) && ResultsIn(next, at[1..])
    requires FirstShortened(w, next, at[1..], n, out)
    ensures FirstShortened(w, messages, at, n + 1, out)
  {
    assert at[..n + 1] == [at[0]] + at[1..][..n];
    forall k | 0 <= k < n + 1
      ensures ShortForm(w, messages[at[k]], out[at[k]])
    {
      if k > 0 { assert at[1..][k - 1] == at[k]; } else { assert at[0] !in at[1..][..n]; }
    }
  }

  lemma OneLess(w: World, messages: seq<Message>, at: seq<nat>, next: seq<Message>, n: nat, out: seq<Message>)
    requires ResultsIn(messages, at) && n < |at| && next == ShortenAt(w, messages, at[0]) && ResultsIn(next, at[1..])
    requires FirstShortened(w, messages, at, n + 1, out)
    ensures FirstShortened(w, next, at[1..], n, out)
  {
    assert at[..n + 1] == [at[0]] + at[1..][..n];
    assert out[at[0]] == next[at[0]];
  }

  lemma {:induction false} CompactedStep(w: World, messages: seq<Message>, tools: bool, budget: nat, at: seq<nat>)
    requires ResultsIn(messages, at) && |at| > 4 && w.size(messages, tools) > budget
    ensures var next := ShortenAt(w, messages, at[0]);
      ResultsIn(next, at[1..]) && Compacted(w, messages, tools, budget, at)
        == Compacted(w, next, tools, budget, at[1..])
  {
  }

  /** The results still ahead read as they did at the start. */
  predicate Ahead(messages: seq<Message>, out: seq<Message>, at: seq<nat>) {
    |out| == |messages| && ResultsIn(messages, at) && forall m :: 0 <= m < |at| ==> out[at[m]] == messages[at[m]]
  }

  lemma AheadStep(w: World, messages: seq<Message>, out: seq<Message>, at: seq<nat>)
    requires Ahead(messages, out, at) && at != []
    ensures Ahead(messages, ShortenAt(w, out, at[0]), at[1..])
    ensures ShortenAt(w, out, at[0]) != messages <==>
      out != messages || Shortened(w, out[at[0]].content) != out[at[0]].content
  {
    var next := ShortenAt(w, out, at[0]);
    if Shortened(w, out[at[0]].content) == out[at[0]].content {
      assert next == out;
    } else {
      assert next[at[0]] != messages[at[0]];
    }
  }

  /** `compact_results`, which also tells whether any result changed. */
  method CompactResults(w: World, messages: seq<Message>, tools: bool, budget: nat)
    returns (out: seq<Message>, changed: bool)
    ensures out == Compacted(w, messages, tools, budget, ResultsAt(messages, 0))
    ensures changed == (out != messages)
  {
    out := messages;
    changed := false;
    var results := ResultsAt(messages, 0);
    ghost var goal := Compacted(w, messages, tools, budget, results);
    while |results| > 4 && w.size(out, tools) > budget
      invariant ResultsIn(out, results) && Compacted(w, out, tools, budget, results) == goal
      invariant Ahead(messages, out, results)
      invariant changed == (out != messages)
    {
      CompactedStep(w, out, tools, budget, results);
      AheadStep(w, messages, out, results);
      var i := results[0];
      ghost var next := ShortenAt(w, out, i);
      var raw := out[i].content;
      if |raw| >= 1500 {
        var short := w.shorten(raw);
        if short.Some? {
          out := out[i := ToolResult(out[i].id, short.value)];
          changed := changed || short.value != raw;
        }
      }
      assert out == next;
      results := results[1..];
    }
  }

  lemma {:induction false} CompactedShape(w: World, messages: seq<Message>, tools: bool, budget: nat)
    ensures SameShape(messages, Compacted(w, messages, tools, budget, ResultsAt(messages, 0)))
  {
    var at := ResultsAt(messages, 0);
    if |at| > 4 {
      CompactionIsLocal(w, messages, tools, budget, at);
      var out := Compacted(w, messages, tools, budget, at);
      forall i | 0 <= i < |out| ensures SameButContent(messages[i], out[i]) {
        assert KeptOrShortened(w, messages, out, at, i);
      }
    }
  }

  lemma {:induction false} SameShapePaired(a: seq<Message>, b: seq<Message>)
    requires SameShape(a, b) && Paired(a)
    ensures Paired(b)
    decreases |a|
  {
    if a != [] {
      OpensAlike(a, b);
      var n := Span(a[0]);
      forall i | 0 <= i < |a| - n ensures SameButContent(a[n..][i], b[n..][i]) {
        assert SameButContent(a[n + i], b[n + i]);
      }
      SameShapePaired(a[n..], b[n..]);
    }
  }

  lemma OpensAlike(a: seq<Message>, b: seq<Message>)
    requires SameShape(a, b) && a != [] && Opens(a)
    ensures Opens(b) && Span(b[0]) == Span(a[0]) <= |a|
  {
    assert SameButContent(a[0], b[0]);
    if a[0].Turn? {
      forall k | 0 <= k < |a[0].calls| ensures Answers(b[1..][k], a[0].calls[k]) {
        assert Answers(a[1..][k], a[0].calls[k]) && SameButContent(a[1 + k], b[1 + k]);
      }
    }
  }

  // ----- ids -----

  function Digit(d: nat): char
    requires d < 10
  {
    "0123456789"[d]
  }

  function Decimal(n: nat): string {
    if n < 10 then [Digit(n)] else Decimal(n / 10) + [Digit(n % 10)]
  }

  /** The id the loop makes up for a call without a usable one. */
  function MadeId(round: nat, index: nat): string {
    "call-" + (Decimal(round) + "-" + Decimal(index))
  }

  /** Ids for `calls[index..]`: a missing or repeated id is replaced. */
  function AssignIds(calls: seq<Call>, seen: set<string>, round: nat, index: nat): (named: seq<Call>)
    requires index <= |calls|
    ensures |named| == |calls| - index
    ensures forall k :: 0 <= k < |named| ==>
      named[k].name == calls[index + k].name && named[k].arguments == calls[index + k].arguments
    ensures forall k :: 0 <= k < |named| ==> named[k].id != ""
    decreases |calls| - index
  {
    if index == |calls| then []
    else
      var call := calls[index];
      var id := if call.id == "" || call.id in seen then MadeId(round, index) else call.id;
      [call.(id := id)] + AssignIds(calls, seen + {id}, round, index + 1)
  }

  function IdsOf(calls: seq<Call>): set<string> {
    set k | 0 <= k < |calls| :: calls[k].id
  }

  // ----- batches -----

  /** How many calls run together from `offset` on: parallel-safe ones up to four, otherwise one. */
  function BatchLength(w: World, calls: seq<Call>, offset: nat, taken: nat): (n: nat)
    requires offset + taken <= |calls| && 1 <= taken <= 4
    ensures taken <= n <= 4 && offset + n <= |calls|
    decreases 4 - taken
  {
    if taken < 4 && offset + taken < |calls| && w.parallelSafe(calls[offset].name)
      && w.parallelSafe(calls[offset + taken].name)
      then BatchLength(w, calls, offset, taken + 1) else taken
  }

  predicate Safe(w: World, calls: seq<Call>, i: nat)
    requires i < |calls|
  {
    w.parallelSafe(calls[i].name)
  }

  /** A batch is as long as it may be: several calls only when all are parallel-safe, and it stops
      only at four calls, at the end, or next to a call that is not safe beside it. */
  lemma {:induction false} BatchIsMaximal(w: World, calls: seq<Call>, offset: nat, taken: nat)
    requires offset + taken <= |calls| && 1 <= taken <= 4
    requires taken > 1 ==> forall k :: offset <= k < offset + taken ==> Safe(w, calls, k)
    ensures var n := BatchLength(w, calls, offset, taken);
      && (n > 1 ==> forall k :: offset <= k < offset + n ==> Safe(w, calls, k))
      && (n == 4 || offset + n == |calls| || !Safe(w, calls, offset) || !Safe(w, calls, offset + n))
    decreases 4 - taken
  {
    if taken < 4 && offset + taken < |calls| && Safe(w, calls, offset) && Safe(w, calls, offset + taken) {
      BatchIsMaximal(w, calls, offset, taken + 1);
    }
  }

  /** The batches of `calls[offset..]` after those already run. */
  function BatchesAfter(w: World, calls: seq<Call>, offset: nat, done: seq<seq<Call>>): seq<seq<Call>>
    requires offset <= |calls|
    decreases |calls| - offset
  {
    if offset == |calls| then done
    else
      var n := BatchLength(w, calls, offset, 1);
      BatchesAfter(w, calls, offset + n, done + [calls[offset..offset + n]])
  }

  method NextBatch(w: World, calls: seq<Call>, offset: nat) returns (batch: seq<Call>)
    requires offset < |calls|
    ensures batch == calls[offset..offset + BatchLength(w, calls, offset, 1)]
  {
    batch := [calls[offset]];
    if w.parallelSafe(batch[0].name) {
      var i := offset + 1;
      while i < offset + 4 && i < |calls| && w.parallelSafe(calls[i].name)
        invariant offset + 1 <= i <= |calls| && i <= offset + 4
        invariant batch == calls[offset..i]
        invariant BatchLength(w, calls, offset, i - offset) == BatchLength(w, calls, offset, 1)
      {
        batch := batch + [calls[i]];
        i := i + 1;
      }
    }
  }

  /** Batches partition the calls; a batch of several holds only parallel-safe calls. */
  predicate Batches(w: World, calls: seq<Call>, batches: seq<seq<Call>>) {
    && Concat(batches) == calls
    && forall b :: 0 <= b < |batches| ==> GoodBatch(w, batches[b])
  }

  predicate GoodBatch(w: World, batch: seq<Call>) {
    1 <= |batch| <= 4 && (|batch| > 1 ==> forall k :: 0 <= k < |batch| ==> w.parallelSafe(batch[k].name))
  }

  lemma {:induction false} ConcatAppend(batches: seq<seq<Call>>, batch: seq<Call>)
    ensures Concat(batches + [batch]) == Concat(batches) + batch
  {
    ConcatSplit(batches, [batch]);
    ConcatOne(batch);
  }

  predicate Batched(w: World, calls: seq<Call>, offset: nat, batches: seq<seq<Call>>)
    requires offset <= |calls|
  {
    Concat(batches) == calls[..offset] && forall b :: 0 <= b < |batches| ==> GoodBatch(w, batches[b])
  }

  lemma {:induction false} BatchIsGood(w: World, calls: seq<Call>, offset: nat)
    requires offset < |calls|
    ensures GoodBatch(w, calls[offset..offset + BatchLength(w, calls, offset, 1)])
  {
    BatchIsMaximal(w, calls, offset, 1);
    var n := BatchLength(w, calls, offset, 1);
    var batch := calls[offset..offset + n];
    forall k | n > 1 && 0 <= k < n ensures w.parallelSafe(batch[k].name) {
      assert Safe(w, calls, offset + k) && batch[k] == calls[offset + k];
    }
  }

  lemma BatchJoins(w: World, calls: seq<Call>, offset: nat, done: seq<seq<Call>>, batch: seq<Call>)
    requires offset + |batch| <= |calls| && batch == calls[offset..offset + |batch|]
    requires Batched(w, calls, offset, done) && GoodBatch(w, batch)
    ensures Batched(w, calls, offset + |batch|, done + [batch])
  {
    ConcatAppend(done, batch);
  }

  lemma {:induction false} BatchesPartition(w: World, calls: seq<Call>, offset: nat, done: seq<seq<Call>>)
    requires offset <= |calls| && Batched(w, calls, offset, done)
    ensures Batched(w, calls, |calls|, BatchesAfter(w, calls, offset, done))
    decreases |calls| - offset
  {
    if offset < |calls| {
      var batch := calls[offset..offset + BatchLength(w, calls, offset, 1)];
      BatchIsGood(w, calls, offset);
      BatchJoins(w, calls, offset, done, batch);
      BatchesPartition(w, calls, offset + |batch|, done + [batch]);
    }
  }

  /** The batches of a turn. */
  function BatchesOf(w: World, calls: seq<Call>): seq<seq<Call>> {
    BatchesAfter(w, calls, 0, [])
  }

  lemma BatchesHold(w: World, calls: seq<Call>)
    ensures Batches(w, calls, BatchesOf(w, calls))
  {
    BatchesPartition(w, calls, 0, []);
    assert calls[..|calls|] == calls;
  }

  /** The results of a round's calls, as they enter the log. */
  function ResultsOf(w: World, calls: seq<Call>, round: nat): seq<Message> {
    seq(|calls|, i requires 0 <= i < |calls| => ToolResult(calls[i].id, w.invoke(round, i).content))
  }

  /** The question that stops the run after call `i` returned, or "". */
  function QuestionAt(w: World, calls: seq<Call>, round: nat, i: nat): string
    requires i < |calls|
  {
    if calls[i].name == CLARIFY then w.invoke(round, i).question else ""
  }

  /** The question of a turn that asks one, or "". */
  function QuestionOf(w: World, calls: seq<Call>, round: nat): string {
    if |calls| == 1 then QuestionAt(w, calls, round, 0) else ""
  }

  /** Runs one batch and records its results; the question stops it at once. */
  method RecordBatch(w: World, calls: seq<Call>, round: nat, offset: nat, batch: seq<Call>, before: seq<Message>)
    returns (messages: seq<Message>, asked: string)
    requires forall k :: 0 <= k < |calls| ==> (calls[k].name == CLARIFY ==> |calls| == 1)
    requires offset + |batch| <= |calls| && batch != [] && batch == calls[offset..offset + |batch|]
    ensures messages == before + ResultsOf(w, calls, round)[offset..offset + |batch|]
    ensures asked == QuestionOf(w, calls, round)
  {
    messages, asked := before, "";
    ghost var results := ResultsOf(w, calls, round);
    for k := 0 to |batch|
      invariant messages == before + results[offset..offset + k]
      invariant k > 0 ==> QuestionOf(w, calls, round) == ""
    {
      assert batch[k] == calls[offset + k];
      var returned := w.invoke(round, offset + k);
      messages := messages + [ToolResult(batch[k].id, returned.content)];
      assert results[offset..offset + k] + [results[offset + k]] == results[offset..offset + k + 1];
      if batch[k].name == CLARIFY && returned.question != "" {
        return messages, returned.question;
      }
    }
  }

  lemma JoinResults(results: seq<Message>, before: seq<Message>, offset: nat, n: nat)
    requires offset + n <= |results|
    ensures before + results[..offset] + results[offset..offset + n] == before + results[..offset + n]
  {
  }

  /** Runs the calls of one turn, batch by batch. A clarification stands alone in its turn. */
  method RunCalls(w: World, calls: seq<Call>, round: nat, before: seq<Message>)
    returns (messages: seq<Message>, batches: seq<seq<Call>>, asked: string)
    requires forall k :: 0 <= k < |calls| ==> (calls[k].name == CLARIFY ==> |calls| == 1)
    ensures messages == before + ResultsOf(w, calls, round)
    ensures batches == BatchesOf(w, calls)
    ensures asked == QuestionOf(w, calls, round)
  {
    messages, batches, asked := before, [], "";
    var offset := 0;
    ghost var results, all, question := ResultsOf(w, calls, round), BatchesOf(w, calls), QuestionOf(w, calls, round);
    while offset < |calls|
      invariant 0 <= offset <= |calls|
      invariant messages == before + results[..offset]
      invariant BatchesAfter(w, calls, offset, batches) == all
      invariant asked == "" && (offset > 0 ==> question == "")
    {
      var batch := NextBatch(w, calls, offset);
      batches := batches + [batch];
      messages, asked := RecordBatch(w, calls, round, offset, batch, messages);
      JoinResults(results, before, offset, |batch|);
      if asked != "" {
        assert |calls| == 1 && results[..1] == results;
        return;
      }
      offset := offset + |batch|;
    }
    assert results[..|calls|] == results;
  }

  // ----- the run -----

  /** One call of the model: what it was shown, and whether tools were offered. */
  datatype ModelCall = ModelCall(messages: seq<Message>, tools: bool)

  /** The tool calls one round executed, in order and by batch. */
  datatype Execution = Execution(round: nat, calls: seq<Call>, batches: seq<seq<Call>>)

  function Rounds(maxRounds: int): nat {
    if maxRounds < 1 then 1 else maxRounds
  }

  /** The calls a reply leads to, before ids: none when it was cut off. */
  function CallsOf(reply: Reply, last: bool): seq<Call> {
    var calls := if reply.calls == [] && !last then reply.recovered else reply.calls;
    if reply.truncated then [] else calls
  }

  function VisibleOf(reply: Reply, last: bool): string {
    var calls := if reply.calls == [] && !last then reply.recovered else reply.calls;
    if reply.truncated && calls != [] then "" else reply.visible
  }

  /** A clarification is asked alone. */
  function Chosen(calls: seq<Call>): (chosen: seq<Call>)
    ensures |chosen| <= |calls| && (calls != [] ==> chosen != [])
    ensures forall k :: 0 <= k < |chosen| ==> (chosen[k].name == CLARIFY ==> |chosen| == 1)
  {
    if exists k :: 0 <= k < |calls| && calls[k].name == CLARIFY then [FirstQuestion(calls)] else calls
  }

  function FirstQuestion(calls: seq<Call>): (call: Call)
    requires exists k :: 0 <= k < |calls| && calls[k].name == CLARIFY
    ensures call in calls && call.name == CLARIFY
  {
    if calls[0].name == CLARIFY then calls[0] else FirstQuestion(calls[1..])
  }

  /** The log a round shows: compacted when a context size is known, and on a closing round with
      the request to finish. */
  function Prepared(w: World, log: seq<Message>, context: Option<(nat, nat)>, last: bool,
      first: bool): (shown: seq<Message>) {
    var kept := if context.Some? && context.value.0 > 0
      then Compacted(w, log, !last, Budget(context.value.0, context.value.1), ResultsAt(log, 0)) else log;
    if last && !first then kept + [Ask(w.finish)] else kept
  }

  lemma {:induction false} PreparedPaired(w: World, log: seq<Message>, context: Option<(nat, nat)>, last: bool,
      first: bool)
    requires Paired(log)
    ensures Paired(Prepared(w, log, context, last, first))
  {
    var kept := Prepared(w, log, context, last, true);
    if kept != log {
      var budget := Budget(context.value.0, context.value.1);
      CompactedShape(w, log, !last, budget);
      SameShapePaired(log, kept);
    }
    PairedPlain(Ask(w.finish));
    PairedJoin(kept, [Ask(w.finish)]);
  }

  method Prepare(w: World, log: seq<Message>, context: Option<(nat, nat)>, last: bool, first: bool)
    returns (messages: seq<Message>)
    ensures messages == Prepared(w, log, context, last, first)
  {
    messages := log;
    if context.Some? && context.value.0 > 0 {
      var changed;
      messages, changed := CompactResults(w, log, !last, Budget(context.value.0, context.value.1));
    }
    if last && !first {
      messages := messages + [Ask(w.finish)];
    }
  }

  /** What a run has done so far. */
  datatype State = State(log: seq<Message>, seen: set<string>, retried: bool, shown: seq<ModelCall>,
    executed: seq<Execution>)

  /** A round ends the run or leads to the next. */
  datatype Step = Go(state: State) | Stop(outcome: Outcome, state: State)

  /** A turn and the results of its calls. */
  function TurnWith(w: World, calls: seq<Call>, text: string, round: nat): seq<Message> {
    [Turn(calls, text)] + ResultsOf(w, calls, round)
  }

  /** Calls that are going to be executed, with the turn that enters the log. */
  function Execute(w: World, s: State, calls: seq<Call>, text: string, round: nat): State {
    s.(log := s.log + TurnWith(w, calls, text, round),
       seen := s.seen + IdsOf(calls),
       executed := s.executed + [Execution(round, calls, BatchesOf(w, calls))])
  }

  /** What a reply without calls leads to. */
  function WithoutCalls(w: World, s: State, visible: string, last: bool): Step {
    if visible != "" then Stop(Answered(visible), s)
    else if !s.retried && !last then Go(s.(retried := true, log := s.log + [Ask(w.retry)]))
    else Stop(NoAnswer, s)
  }

  function Show(w: World, s: State, round: nat, rounds: nat, context: Option<(nat, nat)>): State {
    var log := Prepared(w, s.log, context, round + 1 == rounds, round == 0);
    s.(log := log, shown := s.shown + [ModelCall(log, round + 1 < rounds)])
  }

  /** One round. */
  function RoundStep(w: World, before: State, round: nat, rounds: nat, context: Option<(nat, nat)>): Step {
    var last := round + 1 == rounds;
    var s := Show(w, before, round, rounds, context);
    var calls := CallsOf(w.replies(round), last);
    var visible := VisibleOf(w.replies(round), last);
    if calls == [] then WithoutCalls(w, s, visible, last)
    else if last then Stop(StepLimit, s)
    else if |calls| > MAX_CALLS then Stop(TooManyCalls, s)
    else
      var ordered := AssignIds(Chosen(calls), s.seen, round + 1, 0);
      var next := Execute(w, s, ordered, visible, round);
      var asked := QuestionOf(w, ordered, round);
      if asked != "" then Stop(Asked(asked), next) else Go(next)
  }

  function RunFrom(w: World, s: State, round: nat, rounds: nat, context: Option<(nat, nat)>): (Outcome, State)
    requires round < rounds
    decreases rounds - round
  {
    match RoundStep(w, s, round, rounds, context)
    case Stop(outcome, state) => (outcome, state)
    case Go(state) => if round + 1 < rounds then RunFrom(w, state, round + 1, rounds, context) else (StepLimit, state)
  }

  function Start(log: seq<Message>): State {
    State(log, {}, false, [], [])
  }

  /** `run`: the loop over rounds. */
  method Run(w: World, before: seq<Message>, maxRounds: int, context: Option<(nat, nat)>)
    returns (outcome: Outcome, state: State)
    ensures (outcome, state) == RunFrom(w, Start(before), 0, Rounds(maxRounds), context)
  {
    var rounds := Rounds(maxRounds);
    state := Start(before);
    for round := 0 to rounds
      invariant round < rounds
      invariant RunFrom(w, state, round, rounds, context) == RunFrom(w, Start(before), 0, rounds, context)
    {
      ghost var step := RoundStep(w, state, round, rounds, context);
      var last := round == rounds - 1;
      var log := Prepare(w, state.log, context, last, round == 0);
      state := state.(log := log, shown := state.shown + [ModelCall(log, !last)]);
      var reply := w.replies(round);
      var calls := CallsOf(reply, last);
      var visible := VisibleOf(reply, last);
      if calls == [] {
        if visible != "" { return Answered(visible), state; }
        if !state.retried && !last {
          state := state.(retried := true, log := log + [Ask(w.retry)]);
          assert step == Go(state);
          continue;
        }
        return NoAnswer, state;
      }
      if last { break; }
      if |calls| > MAX_CALLS { return TooManyCalls, state; }
      var ordered := AssignIds(Chosen(calls), state.seen, round + 1, 0);
      var messages, batches, asked := RunCalls(w, ordered, round, log + [Turn(ordered, visible)]);
      state := State(messages, state.seen + IdsOf(ordered), state.retried, state.shown,
        state.executed + [Execution(round, ordered, batches)]);
      TurnJoins(w, log, ordered, visible, round);
      if asked != "" { return Asked(asked), state; }
      assert step == Go(state);
    }
    outcome := StepLimit;
  }

  lemma TurnJoins(w: World, log: seq<Message>, calls: seq<Call>, text: string, round: nat)
    ensures log + [Turn(calls, text)] + ResultsOf(w, calls, round) == log + TurnWith(w, calls, text, round)
  {
  }

  // ----- what holds over every run -----

  /** The reply gives no calls: it makes none and, while tools are offered, its text spells none. */
  predicate NoCalls(reply: Reply, last: bool) {
    reply.calls == [] && (last || reply.recovered == [])
  }

  /** The calls of a reply: those it makes or, without any, those its text spells. */
  function Made(reply: Reply): seq<Call> {
    if |reply.calls| > 0 then reply.calls else reply.recovered
  }

  /** Executed is what was asked, in order and up to the ids, or the first clarification alone. */
  predicate Obeys(asked: seq<Call>, executed: seq<Call>) {
    if forall k :: 0 <= k < |asked| ==> asked[k].name != CLARIFY then SameCalls(executed, asked)
    else |executed| == 1 && exists k :: 0 <= k < |asked| && FirstAsked(asked, k) && SameCalls(executed, [asked[k]])
  }

  predicate FirstAsked(asked: seq<Call>, k: nat)
    requires k < |asked|
  {
    asked[k].name == CLARIFY && forall j :: 0 <= j < k ==> asked[j].name != CLARIFY
  }

  /** The calls of a complete reply of an earlier round, in batches that partition them; calls run side
      by side only when all of them may. */
  predicate GoodExecution(w: World, execution: Execution, rounds: nat) {
    var reply := w.replies(execution.round);
    && execution.round + 1 < rounds
    && !reply.truncated && 1 <= |Made(reply)| <= MAX_CALLS && Obeys(Made(reply), execution.calls)
    && Batches(w, execution.calls, execution.batches)
  }

  /** The same calls up to the ids. */
  predicate SameCalls(a: seq<Call>, b: seq<Call>) {
    |a| == |b| && forall k :: 0 <= k < |a| ==> a[k].name == b[k].name && a[k].arguments == b[k].arguments
  }

  /** `b` continues `a`: nothing is dropped, moved or rewritten but the content of tool results. */
  predicate Continues(a: seq<Message>, b: seq<Message>) {
    |a| <= |b| && SameShape(a, b[..|a|])
  }

  predicate Linked(shown: seq<ModelCall>, k: nat)
    requires k + 1 < |shown|
  {
    Continues(shown[k].messages, shown[k + 1].messages)
  }

  /** What the model was shown: paired logs, each continuing the one before, tools in all but the
      last round. */
  predicate GoodShown(shown: seq<ModelCall>, rounds: nat) {
    && (forall k :: 0 <= k < |shown| ==> Paired(shown[k].messages))
    && (forall k :: 0 <= k < |shown| ==> (shown[k].tools <==> k + 1 < rounds))
    && (forall k :: 0 <= k < |shown| - 1 ==> Linked(shown, k))
  }

  predicate GoodExecutions(w: World, executed: seq<Execution>, rounds: nat) {
    && (forall k :: 0 <= k < |executed| ==> GoodExecution(w, executed[k], rounds))
    && (forall j, k :: 0 <= j < k < |executed| ==> executed[j].round < executed[k].round)
  }

  /** The turns with tool calls in a log. */
  function Turns(log: seq<Message>): seq<seq<Call>> {
    if log == [] then []
    else Turns(log[..|log| - 1]) + if log[|log| - 1].Turn? then [log[|log| - 1].calls] else []
  }

  function CallsExecuted(executed: seq<Execution>): seq<seq<Call>> {
    seq(|executed|, k requires 0 <= k < |executed| => executed[k].calls)
  }

  /** The log is paired, continues what was last shown, and gained exactly the executed turns. */
  predicate LogSound(before: seq<Message>, s: State) {
    && Paired(s.log)
    && (s.shown != [] ==> Continues(s.shown[|s.shown| - 1].messages, s.log))
    && Turns(s.log) == Turns(before) + CallsExecuted(s.executed)
  }

  /** Every round so far showed the log once, and executed calls or was the retry at most. */
  predicate RoundsSpent(s: State, round: nat) {
    && |s.shown| == round
    && (forall k :: 0 <= k < |s.executed| ==> s.executed[k].round < round)
    && |s.executed| + (if s.retried then 1 else 0) <= round
  }

  /** What every round keeps; `round` is the next one. */
  predicate Sound(w: World, before: seq<Message>, s: State, round: nat, rounds: nat) {
    RoundsSpent(s, round) && LogSound(before, s) && GoodShown(s.shown, rounds) && GoodExecutions(w, s.executed, rounds)
  }

  lemma {:induction false} TurnsJoin(a: seq<Message>, b: seq<Message>)
    ensures Turns(a + b) == Turns(a) + Turns(b)
  {
    if b == [] {
      assert a + b == a;
    } else {
      var b0 := b[..|b| - 1];
      assert (a + b)[..|a + b| - 1] == a + b0;
      TurnsJoin(a, b0);
    }
  }

  lemma {:induction false} TurnsOfShape(a: seq<Message>, b: seq<Message>)
    requires SameShape(a, b)
    ensures Turns(a) == Turns(b)
  {
    if a != [] {
      assert SameButContent(a[|a| - 1], b[|b| - 1]);
      TurnsOfShape(a[..|a| - 1], b[..|b| - 1]);
    }
  }

  lemma {:induction false} ResultsAreNoTurns(w: World, calls: seq<Call>, round: nat, n: nat)
    requires n <= |calls|
    ensures Turns(ResultsOf(w, calls, round)[..n]) == []
  {
    if n > 0 {
      var some := ResultsOf(w, calls, round)[..n];
      assert some[..|some| - 1] == ResultsOf(w, calls, round)[..n - 1];
      ResultsAreNoTurns(w, calls, round, n - 1);
    }
  }

  lemma ContinuesPlus(a: seq<Message>, b: seq<Message>, more: seq<Message>)
    requires Continues(a, b)
    ensures Continues(a, b + more)
  {
    assert (b + more)[..|a|] == b[..|a|];
  }

  /** Preparing a log keeps its shape and adds no turn. */
  lemma {:induction false} PreparedContinues(w: World, log: seq<Message>, context: Option<(nat, nat)>, last: bool,
      first: bool)
    ensures Continues(log, Prepared(w, log, context, last, first))
    ensures Turns(Prepared(w, log, context, last, first)) == Turns(log)
  {
    var kept := Prepared(w, log, context, last, true);
    if context.Some? && context.value.0 > 0 {
      CompactedShape(w, log, !last, Budget(context.value.0, context.value.1));
    }
    assert SameShape(log, kept);
    TurnsOfShape(log, kept);
    assert kept[..|log|] == kept;
    ContinuesPlus(log, kept, [Ask(w.finish)]);
    TurnsJoin(kept, [Ask(w.finish)]);
    assert [Ask(w.finish)][..0] == [];
  }

  lemma ContinuesTrans(a: seq<Message>, b: seq<Message>, c: seq<Message>)
    requires Continues(a, b) && Continues(b, c)
    ensures Continues(a, c)
  {
    forall i | 0 <= i < |a| ensures SameButContent(a[i], c[..|a|][i]) {
      assert SameButContent(a[i], b[..|a|][i]);
      assert SameButContent(b[i], c[..|b|][i]);
    }
  }

  lemma {:induction false} ShownGrows(shown: seq<ModelCall>, log: seq<Message>, rounds: nat)
    requires GoodShown(shown, rounds) && Paired(log)
    requires shown != [] ==> Continues(shown[|shown| - 1].messages, log)
    ensures GoodShown(shown + [ModelCall(log, |shown| + 1 < rounds)], rounds)
  {
    var next := shown + [ModelCall(log, |shown| + 1 < rounds)];
    forall k | 0 <= k < |shown| ensures Linked(next, k) {
      if k + 1 < |shown| { assert Linked(shown, k); }
    }
  }

  lemma PreparedStays(w: World, before: seq<Message>, s: State, context: Option<(nat, nat)>, last: bool, first: bool)
    requires LogSound(before, s)
    ensures var log := Prepared(w, s.log, context, last, first);
      && Paired(log) && Continues(log, log) && Turns(log) == Turns(s.log)
      && (s.shown != [] ==> Continues(s.shown[|s.shown| - 1].messages, log))
  {
    PreparedPaired(w, s.log, context, last, first);
    PreparedContinues(w, s.log, context, last, first);
    var log := Prepared(w, s.log, context, last, first);
    if s.shown != [] {
      ContinuesTrans(s.shown[|s.shown| - 1].messages, s.log, log);
    }
    SameShapeSelf(log);
  }

  lemma ShowKeeps(w: World, before: seq<Message>, s: State, round: nat, rounds: nat, context: Option<(nat, nat)>)
    requires Sound(w, before, s, round, rounds)
    ensures var next := Show(w, s, round, rounds, context);
      Sound(w, before, next, round + 1, rounds) && RoundsSpent(next.(shown := next.shown[..round]), round)
  {
    PreparedStays(w, before, s, context, round + 1 == rounds, round == 0);
    var next := Show(w, s, round, rounds, context);
    ShownGrows(s.shown, next.log, rounds);
    assert next.shown[..round] == s.shown;
  }

  lemma SameShapeSelf(log: seq<Message>)
    ensures Continues(log, log)
  {
    assert log[..|log|] == log;
  }

  lemma TurnPaired(w: World, calls: seq<Call>, text: string, round: nat)
    ensures Paired(TurnWith(w, calls, text, round))
  {
    var turn := [Turn(calls, text)] + ResultsOf(w, calls, round);
    assert turn[1 + |calls|..] == [];
    assert turn[1..] == ResultsOf(w, calls, round);
  }

  lemma TurnCounts(w: World, calls: seq<Call>, text: string, round: nat)
    ensures Turns(TurnWith(w, calls, text, round)) == [calls]
  {
    var results := ResultsOf(w, calls, round);
    TurnsJoin([Turn(calls, text)], results);
    assert [Turn(calls, text)][..0] == [];
    assert results[..|calls|] == results;
    ResultsAreNoTurns(w, calls, round, |calls|);
  }

  /** A turn with calls and its results: the log stays paired and gains exactly that turn. */
  lemma {:induction false} TurnKeeps(w: World, log: seq<Message>, calls: seq<Call>, text: string, round: nat)
    requires Paired(log)
    ensures Paired(log + TurnWith(w, calls, text, round)) && Continues(log, log + TurnWith(w, calls, text, round))
    ensures Turns(log + TurnWith(w, calls, text, round)) == Turns(log) + [calls]
  {
    var turn := TurnWith(w, calls, text, round);
    TurnPaired(w, calls, text, round);
    TurnCounts(w, calls, text, round);
    PairedJoin(log, turn);
    TurnsJoin(log, turn);
    assert log[..|log|] == log;
    ContinuesPlus(log, log, turn);
  }

  lemma ExecutionsGrow(w: World, executed: seq<Execution>, next: Execution, rounds: nat)
    requires GoodExecutions(w, executed, rounds) && GoodExecution(w, next, rounds)
    requires forall k :: 0 <= k < |executed| ==> executed[k].round < next.round
    ensures GoodExecutions(w, executed + [next], rounds)
    ensures CallsExecuted(executed + [next]) == CallsExecuted(executed) + [next.calls]
  {
  }

  lemma NamedExecution(w: World, seen: set<string>, round: nat, rounds: nat)
    requires round + 1 < rounds && 0 < |CallsOf(w.replies(round), false)| <= MAX_CALLS
    ensures var ordered := AssignIds(Chosen(CallsOf(w.replies(round), false)), seen, round + 1, 0);
      GoodExecution(w, Execution(round, ordered, BatchesOf(w, ordered)), rounds)
  {
    var ordered := AssignIds(Chosen(CallsOf(w.replies(round), false)), seen, round + 1, 0);
    BatchesHold(w, ordered);
    ChosenObeys(Made(w.replies(round)));
  }

  lemma {:induction false} ChosenObeys(asked: seq<Call>)
    ensures Obeys(asked, Chosen(asked))
    ensures forall named: seq<Call> :: SameCalls(named, Chosen(asked)) ==> Obeys(asked, named)
  {
    if exists k :: 0 <= k < |asked| && asked[k].name == CLARIFY { var k := FirstIsFirst(asked); }
  }

  lemma {:induction false} FirstIsFirst(asked: seq<Call>) returns (k: nat)
    requires exists k :: 0 <= k < |asked| && asked[k].name == CLARIFY
    ensures k < |asked| && FirstAsked(asked, k) && FirstQuestion(asked) == asked[k]
    decreases |asked|
  {
    if asked[0].name == CLARIFY {
      k := 0;
    } else {
      k := FirstIsFirst(asked[1..]);
      k := k + 1;
    }
  }

  /** Executing the calls of a complete reply keeps everything; only the round is spent. */
  lemma ExecuteKeeps(w: World, before: seq<Message>, s: State, calls: seq<Call>, text: string, round: nat, rounds: nat)
    requires Sound(w, before, s, round + 1, rounds) && RoundsSpent(s.(shown := s.shown[..round]), round)
    requires GoodExecution(w, Execution(round, calls, BatchesOf(w, calls)), rounds)
    ensures Sound(w, before, Execute(w, s, calls, text, round), round + 1, rounds)
  {
    var next := Execute(w, s, calls, text, round);
    ExecutionsGrow(w, s.executed, Execution(round, calls, BatchesOf(w, calls)), rounds);
    TurnKeeps(w, s.log, calls, text, round);
    ContinuesTrans(s.shown[round].messages, s.log, next.log);
    assert Turns(next.log) == Turns(before) + (CallsExecuted(s.executed) + [calls]);
  }

  /** The retry adds one plain message. */
  lemma RetryKeeps(w: World, before: seq<Message>, s: State, round: nat, rounds: nat)
    requires Sound(w, before, s, round + 1, rounds) && !s.retried && |s.executed| <= round
    ensures Sound(w, before, s.(retried := true, log := s.log + [Ask(w.retry)]), round + 1, rounds)
  {
    var more := [Ask(w.retry)];
    PairedPlain(Ask(w.retry));
    PairedJoin(s.log, more);
    TurnsJoin(s.log, more);
    assert more[..0] == [];
    ContinuesPlus(s.shown[round].messages, s.log, more);
  }

  /** A round whose reply has calls to execute. */
  predicate Executes(w: World, round: nat, rounds: nat) {
    round + 1 < rounds && 0 < |CallsOf(w.replies(round), false)| <= MAX_CALLS
  }

  lemma RoundKeepsExecuting(w: World, before: seq<Message>, s: State, round: nat, rounds: nat,
      context: Option<(nat, nat)>)
    requires Sound(w, before, s, round, rounds) && Executes(w, round, rounds)
    ensures Sound(w, before, RoundStep(w, s, round, rounds, context).state, round + 1, rounds)
  {
    ShowKeeps(w, before, s, round, rounds, context);
    var next := Show(w, s, round, rounds, context);
    var ordered := AssignIds(Chosen(CallsOf(w.replies(round), false)), next.seen, round + 1, 0);
    NamedExecution(w, next.seen, round, rounds);
    ExecuteKeeps(w, before, next, ordered, VisibleOf(w.replies(round), false), round, rounds);
  }

  lemma RoundKeeps(w: World, before: seq<Message>, s: State, round: nat, rounds: nat, context: Option<(nat, nat)>)
    requires Sound(w, before, s, round, rounds) && round < rounds
    ensures Sound(w, before, RoundStep(w, s, round, rounds, context).state, round + 1, rounds)
  {
    if Executes(w, round, rounds) {
      RoundKeepsExecuting(w, before, s, round, rounds, context);
    } else {
      var shown := Show(w, s, round, rounds, context);
      ShowKeeps(w, before, s, round, rounds, context);
      QuietStep(w, s, shown, RoundStep(w, s, round, rounds, context).state, round, rounds, context);
      if RoundStep(w, s, round, rounds, context).state != shown { RetryKeeps(w, before, shown, round, rounds); }
    }
  }

  /** A round without calls to execute leaves the log as shown, or asks once more. */
  lemma QuietStep(w: World, s: State, shown: State, next: State, round: nat, rounds: nat, context: Option<(nat, nat)>)
    requires round < rounds && !Executes(w, round, rounds)
    requires shown == Show(w, s, round, rounds, context) && next == RoundStep(w, s, round, rounds, context).state
    ensures next == shown || (!s.retried && next == shown.(retried := true, log := shown.log + [Ask(w.retry)]))
  {}

  /** Why a run ended, read off the reply it ended on. */
  predicate EndsFor(w: World, outcome: Outcome, s: State, rounds: nat) {
    && s.shown != []
    && var round := |s.shown| - 1;
    var last := round + 1 == rounds;
    var reply := w.replies(round);
    match outcome
    case Answered(text) => NoCalls(reply, last) && text == reply.visible != ""
    case NoAnswer => Useless(reply, last) && (last || s.retried)
    case StepLimit => last && !reply.truncated && reply.calls != []
    case TooManyCalls => !last && !reply.truncated && |Made(reply)| > MAX_CALLS
    case Asked(question) =>
      && !last && s.executed != [] && s.executed[|s.executed| - 1].round == round
      && AsksAlone(w, s.executed[|s.executed| - 1].calls, round, question)
  }

  /** The reply has neither calls nor text to show, or calls that were cut off. */
  predicate Useless(reply: Reply, last: bool) {
    if NoCalls(reply, last) then reply.visible == "" else reply.truncated
  }

  predicate AsksAlone(w: World, calls: seq<Call>, round: nat, question: string) {
    |calls| == 1 && calls[0].name == CLARIFY && question == w.invoke(round, 0).question != ""
  }

  lemma RoundEnds(w: World, s: State, round: nat, rounds: nat, context: Option<(nat, nat)>)
    requires |s.shown| == round < rounds
    ensures var step := RoundStep(w, s, round, rounds, context);
      |step.state.shown| == round + 1
        && if step.Stop? then EndsFor(w, step.outcome, step.state, rounds) else round + 1 < rounds
  {
    var next := Show(w, s, round, rounds, context);
    var last := round + 1 == rounds;
    var calls := CallsOf(w.replies(round), last);
    if calls != [] && !last && |calls| <= MAX_CALLS {
      assert CallsOf(w.replies(round), false) == calls;
      var ordered := AssignIds(Chosen(calls), next.seen, round + 1, 0);
      var state := Execute(w, next, ordered, VisibleOf(w.replies(round), last), round);
      assert state.executed[|state.executed| - 1].calls == ordered;
    }
  }

  /** `kept` survives each round of the run. */
  ghost predicate RoundsKeep(w: World, rounds: nat, context: Option<(nat, nat)>, kept: (State, nat) -> bool) {
    forall s: State, round: nat | kept(s, round) && round < rounds ::
      kept(RoundStep(w, s, round, rounds, context).state, round + 1)
  }

  /** What every round keeps holds at the end of the run. */
  lemma {:induction false} RunKeeps(w: World, s: State, round: nat, rounds: nat, context: Option<(nat, nat)>,
      kept: (State, nat) -> bool)
    returns (last: nat)
    requires round < rounds && kept(s, round) && RoundsKeep(w, rounds, context, kept)
    ensures kept(RunFrom(w, s, round, rounds, context).1, last)
    decreases rounds - round
  {
    var step := RoundStep(w, s, round, rounds, context);
    last := round + 1;
    if step.Go? && round + 1 < rounds { last := RunKeeps(w, step.state, round + 1, rounds, context, kept); }
  }

  lemma {:induction false} RunEnds(w: World, s: State, round: nat, rounds: nat, context: Option<(nat, nat)>)
    requires |s.shown| == round < rounds
    ensures var (outcome, end) := RunFrom(w, s, round, rounds, context);
      |end.shown| <= rounds && EndsFor(w, outcome, end, rounds)
    decreases rounds - round
  {
    RoundEnds(w, s, round, rounds, context);
    var step := RoundStep(w, s, round, rounds, context);
    if step.Go? { RunEnds(w, step.state, round + 1, rounds, context); }
  }

  /** Every run on a paired log: each model call is shown a paired log that continues the previous
      one, there are at most `max_rounds` calls, the last without tools, at most one retry; tools
      run only for complete replies of earlier rounds, batch by batch, and the turns the log gained
      are exactly the executed ones. */
  lemma {:induction false} ProtocolHolds(w: World, before: seq<Message>, maxRounds: int, context: Option<(nat, nat)>)
    requires Paired(before)
    ensures var rounds := Rounds(maxRounds);
      var (outcome, end) := RunFrom(w, Start(before), 0, rounds, context);
      && 1 <= |end.shown| <= rounds && GoodShown(end.shown, rounds) && Paired(end.log)
      && GoodExecutions(w, end.executed, rounds)
      && |end.executed| + (if end.retried then 1 else 0) <= |end.shown|
      && Turns(end.log) == Turns(before) + CallsExecuted(end.executed)
      && EndsFor(w, outcome, end, rounds)
  {
    assert CallsExecuted([]) == [];
    var rounds := Rounds(maxRounds);
    var kept := (s: State, round: nat) => Sound(w, before, s, round, rounds);
    forall s: State, round: nat | kept(s, round) && round < rounds
      ensures kept(RoundStep(w, s, round, rounds, context).state, round + 1)
    {
      RoundKeeps(w, before, s, round, rounds, context);
    }
    assert Sound(w, before, Start(before), 0, rounds);
    var last := RunKeeps(w, Start(before), 0, rounds, context, kept);
    var end := RunFrom(w, Start(before), 0, rounds, context).1;
    assert Sound(w, before, end, last, rounds);
    RunEnds(w, Start(before), 0, Rounds(maxRounds), context);
  }
}
