/** The ids the loop gives to calls: when they tell the calls of a run apart. */
module AgentIds {
  import opened Common
  import opened AgentLoop

  /** Made-up ids can repeat an id the model gave: two calls of one turn then share an id. */
  lemma MadeIdCanRepeat(name: string, arguments: string)
    ensures var named := AssignIds([Call("call-1-1", name, arguments), Call("", name, arguments)], {}, 1, 0);
      named[0].id == named[1].id
  {
    var calls := [Call("call-1-1", name, arguments), Call("", name, arguments)];
    assert Decimal(1) == "1";
    assert MadeId(1, 1) == "call-1-1";
    var rest := AssignIds(calls, {} + {"call-1-1"}, 1, 1);
    assert rest[0].id == MadeId(1, 1);
  }

  function Value(digits: string): nat
    requires forall k :: 0 <= k < |digits| ==> '0' <= digits[k] <= '9'
  {
    if digits == "" then 0 else 10 * Value(digits[..|digits| - 1]) + (digits[|digits| - 1] as nat - '0' as nat)
  }

  lemma {:induction false} DecimalReads(n: nat)
    ensures forall k :: 0 <= k < |Decimal(n)| ==> '0' <= Decimal(n)[k] <= '9'
    ensures Value(Decimal(n)) == n
  {
    if n >= 10 {
      DecimalReads(n / 10);
      assert Decimal(n)[..|Decimal(n)| - 1] == Decimal(n / 10);
    } else {
      assert Decimal(n)[..0] == "";
    }
  }

  /** Two texts without dashes, joined by a dash, can be told apart. */
  lemma DashSplits(a: string, b: string, c: string, d: string)
    requires '-' !in a && '-' !in c && a + "-" + b == c + "-" + d
    ensures a == c && b == d
  {
    var s := a + "-" + b;
    assert s[|a|] == '-' && s[|c|] == '-';
    assert s[..|a|] == a && s[..|c|] == c && s[|a| + 1..] == b && s[|c| + 1..] == d;
  }

  lemma PrefixCancels(p: string, x: string, y: string)
    requires p + x == p + y
    ensures x == y
  {
    assert (p + x)[|p|..] == x && (p + y)[|p|..] == y;
  }

  /** A made-up id tells its round and its place. */
  lemma MadeIdsDiffer(r: nat, i: nat, r': nat, i': nat)
    requires MadeId(r, i) == MadeId(r', i')
    ensures r == r' && i == i'
  {
    DecimalReads(r);
    DecimalReads(i);
    DecimalReads(r');
    DecimalReads(i');
    PrefixCancels("call-", Decimal(r) + "-" + Decimal(i), Decimal(r') + "-" + Decimal(i'));
    DashSplits(Decimal(r), Decimal(i), Decimal(r'), Decimal(i'));
  }

  // ----- the ids of a turn -----

  function Ids(calls: seq<Call>): seq<string> {
    seq(|calls|, k requires 0 <= k < |calls| => calls[k].id)
  }

  predicate AllDifferent(ids: seq<string>) {
    forall j, k :: 0 <= j < k < |ids| ==> ids[j] != ids[k]
  }

  predicate AllNew(ids: seq<string>, seen: set<string>) {
    forall k :: 0 <= k < |ids| ==> ids[k] !in seen
  }

  /** The id of call `j` is missing, seen before, or used by an earlier call of the turn. */
  predicate Replaced(calls: seq<Call>, seen: set<string>, round: nat, j: nat)
    requires j < |calls|
    decreases j
  {
    || calls[j].id == "" || calls[j].id in seen
    || exists i :: 0 <= i < j &&
         (calls[i].id == calls[j].id || (Replaced(calls, seen, round, i) && MadeId(round, i) == calls[j].id))
  }

  function GivenId(calls: seq<Call>, seen: set<string>, round: nat, j: nat): string
    requires j < |calls|
  {
    if Replaced(calls, seen, round, j) then MadeId(round, j) else calls[j].id
  }

  function GivenBefore(calls: seq<Call>, seen: set<string>, round: nat, j: nat): set<string>
    requires j <= |calls|
  {
    set i | 0 <= i < j :: GivenId(calls, seen, round, i)
  }

  /** The test of the loop, on the ids given so far, says what is replaced. */
  lemma {:induction false} ReplacedIsTested(calls: seq<Call>, seen: set<string>, round: nat, j: nat)
    requires j < |calls|
    ensures Replaced(calls, seen, round, j) <==>
      calls[j].id == "" || calls[j].id in seen + GivenBefore(calls, seen, round, j)
    decreases j
  {
    if i :| 0 <= i < j && calls[i].id == calls[j].id && Replaced(calls, seen, round, i) {
      ReplacedIsTested(calls, seen, round, i);
    }
    if i :| 0 <= i < j && calls[i].id == calls[j].id && !Replaced(calls, seen, round, i) {
      assert GivenId(calls, seen, round, i) in GivenBefore(calls, seen, round, j);
    }
    if i :| 0 <= i < j && Replaced(calls, seen, round, i) && MadeId(round, i) == calls[j].id {
      assert GivenId(calls, seen, round, i) in GivenBefore(calls, seen, round, j);
    }
  }

  predicate GivenFrom(calls: seq<Call>, seen: set<string>, round: nat, named: seq<Call>, index: nat) {
    index + |named| == |calls| &&
    forall j :: index <= j < |calls| ==> named[j - index].id == GivenId(calls, seen, round, j)
  }

  lemma {:induction false} AssignedAre(calls: seq<Call>, seen: set<string>, round: nat, now: set<string>, index: nat)
    requires index <= |calls| && now == seen + GivenBefore(calls, seen, round, index)
    ensures GivenFrom(calls, seen, round, AssignIds(calls, now, round, index), index)
    decreases |calls| - index
  {
    if index < |calls| {
      ReplacedIsTested(calls, seen, round, index);
      var id := GivenId(calls, seen, round, index);
      assert GivenBefore(calls, seen, round, index + 1) == GivenBefore(calls, seen, round, index) + {id};
      AssignedAre(calls, seen, round, now + {id}, index + 1);
      GivenJoins(calls, seen, round, calls[index].(id := id), AssignIds(calls, now + {id}, round, index + 1), index);
    }
  }

  lemma GivenJoins(calls: seq<Call>, seen: set<string>, round: nat, call: Call, rest: seq<Call>, index: nat)
    requires index < |calls| && GivenFrom(calls, seen, round, rest, index + 1)
    requires call.id == GivenId(calls, seen, round, index)
    ensures GivenFrom(calls, seen, round, [call] + rest, index)
  {
    forall j | index <= j < |calls| ensures ([call] + rest)[j - index].id == GivenId(calls, seen, round, j) {
      if j > index { assert ([call] + rest)[j - index] == rest[j - (index + 1)]; }
    }
  }

  /** Nobody else has the id that replaces the one of call `j`. */
  predicate Free(calls: seq<Call>, seen: set<string>, round: nat, j: nat)
    requires j < |calls|
  {
    MadeId(round, j) !in seen && forall i :: 0 <= i < j ==> calls[i].id != MadeId(round, j)
  }

  /** Every made-up id the turn needs is free. */
  predicate Clear(calls: seq<Call>, seen: set<string>, round: nat) {
    forall j :: 0 <= j < |calls| && Replaced(calls, seen, round, j) ==> Free(calls, seen, round, j)
  }

  lemma MadeIdSome(round: nat, j: nat)
    ensures MadeId(round, j) != ""
  {
    assert |MadeId(round, j)| >= |"call-"|;
  }

  /** An earlier call that came with the made-up id of `j` has it given, seen, or has a twin. */
  lemma {:induction false} TakenIsGiven(calls: seq<Call>, seen: set<string>, round: nat, i: nat, j: nat)
    requires i < j < |calls| && calls[i].id == MadeId(round, j) && MadeId(round, j) !in seen
    ensures MadeId(round, j) in GivenBefore(calls, seen, round, j)
    decreases i
  {
    if Replaced(calls, seen, round, i) {
      MadeIdSome(round, j);
      var k :| 0 <= k < i &&
        (calls[k].id == calls[i].id || (Replaced(calls, seen, round, k) && MadeId(round, k) == calls[i].id));
      if calls[k].id == calls[i].id {
        TakenIsGiven(calls, seen, round, k, j);
      } else {
        MadeIdsDiffer(round, k, round, j);
      }
    } else {
      assert GivenId(calls, seen, round, i) in GivenBefore(calls, seen, round, j);
    }
  }

  lemma {:induction false} ClearGivesNew(calls: seq<Call>, seen: set<string>, round: nat, i: nat, j: nat)
    requires Clear(calls, seen, round) && i < j < |calls|
    ensures GivenId(calls, seen, round, i) != GivenId(calls, seen, round, j)
  {
    if Replaced(calls, seen, round, i) && Replaced(calls, seen, round, j) {
      if MadeId(round, i) == MadeId(round, j) { MadeIdsDiffer(round, i, round, j); }
    }
  }

  /** The ids of a turn are new and all different exactly when every made-up id it needs is free: not
      seen before, and not the id an earlier call of the turn came with. */
  lemma {:induction false} AssignedIdsDiffer(calls: seq<Call>, seen: set<string>, round: nat)
    ensures var ids := Ids(AssignIds(calls, seen, round, 0));
      AllDifferent(ids) && AllNew(ids, seen) <==> Clear(calls, seen, round)
  {
    assert seen + GivenBefore(calls, seen, round, 0) == seen;
    AssignedAre(calls, seen, round, seen, 0);
    var named := AssignIds(calls, seen, round, 0);
    var ids := Ids(named);
    forall k | 0 <= k < |ids| ensures ids[k] == GivenId(calls, seen, round, k) {
      assert named[k - 0].id == GivenId(calls, seen, round, k);
    }
    if Clear(calls, seen, round) {
      forall i, j | 0 <= i < j < |ids| ensures ids[i] != ids[j] {
        ClearGivesNew(calls, seen, round, i, j);
      }
    }
    if AllDifferent(ids) && AllNew(ids, seen) {
      forall j | 0 <= j < |calls| && Replaced(calls, seen, round, j) ensures Free(calls, seen, round, j) {
        DifferentIsFree(calls, seen, round, j, ids);
      }
    }
  }

  lemma {:induction false} DifferentIsFree(calls: seq<Call>, seen: set<string>, round: nat, j: nat, ids: seq<string>)
    requires |ids| == |calls| && forall k :: 0 <= k < |ids| ==> ids[k] == GivenId(calls, seen, round, k)
    requires AllDifferent(ids) && AllNew(ids, seen) && j < |calls| && Replaced(calls, seen, round, j)
    ensures Free(calls, seen, round, j)
  {
    assert ids[j] == MadeId(round, j);
    forall k | 0 <= k < j ensures GivenId(calls, seen, round, k) != MadeId(round, j) {
      assert ids[k] != ids[j];
    }
    forall i | 0 <= i < j ensures calls[i].id != MadeId(round, j) {
      if calls[i].id == MadeId(round, j) { TakenIsGiven(calls, seen, round, i, j); }
    }
  }

  // ----- the ids of a run -----

  /** The ids of all executed calls, in order. */
  function ExecutedIds(executed: seq<Execution>): seq<string> {
    if executed == [] then [] else ExecutedIds(executed[..|executed| - 1]) + Ids(executed[|executed| - 1].calls)
  }

  function SetOf(ids: seq<string>): set<string> {
    set k | 0 <= k < |ids| :: ids[k]
  }

  /** The calls the reply of a round asked for. */
  function Asked(w: World, round: nat): seq<Call> {
    Chosen(CallsOf(w.replies(round), false))
  }

  /** In every executed turn the made-up ids it needs are free, given the ids executed before. */
  predicate TurnsClear(w: World, executed: seq<Execution>) {
    forall k :: 0 <= k < |executed| ==> TurnClear(w, executed[..k], executed[k])
  }

  predicate TurnClear(w: World, before: seq<Execution>, next: Execution) {
    Clear(Asked(w, next.round), SetOf(ExecutedIds(before)), next.round + 1)
  }

  predicate IdsKnown(w: World, s: State) {
    && s.seen == SetOf(ExecutedIds(s.executed))
    && (AllDifferent(ExecutedIds(s.executed)) <==> TurnsClear(w, s.executed))
  }

  lemma DifferentJoin(a: seq<string>, b: seq<string>)
    ensures AllDifferent(a + b) <==> AllDifferent(a) && AllDifferent(b) && AllNew(b, SetOf(a))
  {
    var all := a + b;
    assert forall k :: 0 <= k < |b| ==> all[|a| + k] == b[k];
    if AllDifferent(all) {
      forall j, k | 0 <= j < k < |a| ensures a[j] != a[k] { assert all[j] != all[k]; }
      forall j, k | 0 <= j < k < |b| ensures b[j] != b[k] { assert all[|a| + j] != all[|a| + k]; }
      forall k | 0 <= k < |b| ensures b[k] !in SetOf(a) {
        forall j | 0 <= j < |a| ensures a[j] != b[k] { assert all[j] != all[|a| + k]; }
      }
    }
    if AllDifferent(a) && AllDifferent(b) && AllNew(b, SetOf(a)) {
      forall j, k | 0 <= j < k < |all| ensures all[j] != all[k] {
        if j < |a| <= k {
          assert a[j] in SetOf(a) && all[k] == b[k - |a|];
        } else if |a| <= j {
          assert all[j] == b[j - |a|] && all[k] == b[k - |a|];
        }
      }
    }
  }

  lemma SetOfJoin(a: seq<string>, b: seq<string>)
    ensures SetOf(a + b) == SetOf(a) + SetOf(b)
  {
    assert forall k :: 0 <= k < |b| ==> (a + b)[|a| + k] == b[k];
    forall id | id in SetOf(a) + SetOf(b) ensures id in SetOf(a + b) {
      if id in SetOf(a) {
        var k :| 0 <= k < |a| && a[k] == id;
        assert (a + b)[k] == id;
      } else {
        var k :| 0 <= k < |b| && b[k] == id;
        assert (a + b)[|a| + k] == id;
      }
    }
  }

  lemma IdsAsSet(calls: seq<Call>)
    ensures SetOf(Ids(calls)) == IdsOf(calls)
  {
    assert forall k :: 0 <= k < |calls| ==> Ids(calls)[k] == calls[k].id;
  }

  lemma {:induction false} TurnsClearJoin(w: World, executed: seq<Execution>, next: Execution)
    ensures TurnsClear(w, executed + [next]) <==> TurnsClear(w, executed) && TurnClear(w, executed, next)
  {
    var all := executed + [next];
    assert all[..|executed|] == executed && all[|executed|] == next;
    forall k | 0 <= k < |executed| ensures all[..k] == executed[..k] && all[k] == executed[k] {}
    if TurnsClear(w, all) {
      forall k | 0 <= k < |executed| ensures TurnClear(w, executed[..k], executed[k]) {
        assert TurnClear(w, all[..k], all[k]);
      }
      assert TurnClear(w, all[..|executed|], all[|executed|]);
    }
  }

  /** The turn a round executes: its calls under their new ids. */
  function TurnOf(w: World, s: State, round: nat): Execution {
    var ordered := AssignIds(Asked(w, round), s.seen, round + 1, 0);
    Execution(round, ordered, BatchesOf(w, ordered))
  }

  predicate Takes(w: World, s: State, turn: Execution, next: State) {
    && turn.calls == AssignIds(Asked(w, turn.round), s.seen, turn.round + 1, 0)
    && next.seen == s.seen + IdsOf(turn.calls) && next.executed == s.executed + [turn]
  }

  /** A round either executes its turn or leaves ids alone. */
  predicate Renames(w: World, s: State, next: State, round: nat, rounds: nat) {
    if Executes(w, round, rounds) then Takes(w, s, TurnOf(w, s, round), next)
    else next.seen == s.seen && next.executed == s.executed
  }

  lemma {:induction false} RoundRenames(
    w: World, s: State, next: State, round: nat, rounds: nat, context: Option<(nat, nat)>)
    requires round < rounds && next == RoundStep(w, s, round, rounds, context).state
    ensures Renames(w, s, next, round, rounds)
  {
    if Executes(w, round, rounds) {
      var ordered := AssignIds(Asked(w, round), s.seen, round + 1, 0);
      assert next.seen == s.seen + IdsOf(ordered);
      assert next.executed == s.executed + [Execution(round, ordered, BatchesOf(w, ordered))];
    }
  }

  lemma {:induction false} ExecutedJoin(executed: seq<Execution>, next: Execution)
    ensures ExecutedIds(executed + [next]) == ExecutedIds(executed) + Ids(next.calls)
  {
    assert (executed + [next])[..|executed|] == executed;
  }

  lemma {:induction false} ExecutionKeepsIds(
    w: World, s: State, next: Execution, after: State, before: seq<string>, added: seq<string>)
    requires IdsKnown(w, s) && before == ExecutedIds(s.executed) && added == Ids(next.calls)
    requires AllDifferent(added) && AllNew(added, s.seen) <==> TurnClear(w, s.executed, next)
    requires after.seen == s.seen + IdsOf(next.calls) && after.executed == s.executed + [next]
    ensures IdsKnown(w, after)
  {
    ExecutedJoin(s.executed, next);
    DifferentJoin(before, added);
    SetOfJoin(before, added);
    IdsAsSet(next.calls);
    TurnsClearJoin(w, s.executed, next);
  }

  lemma {:induction false} TurnIds(w: World, s: State, turn: Execution)
    requires turn.calls == AssignIds(Asked(w, turn.round), s.seen, turn.round + 1, 0)
    requires s.seen == SetOf(ExecutedIds(s.executed))
    ensures AllDifferent(Ids(turn.calls)) && AllNew(Ids(turn.calls), s.seen) <==> TurnClear(w, s.executed, turn)
  {
    AssignedIdsDiffer(Asked(w, turn.round), s.seen, turn.round + 1);
  }

  lemma {:induction false} TurnKeepsIds(w: World, s: State, turn: Execution, next: State)
    requires IdsKnown(w, s) && Takes(w, s, turn, next)
    ensures IdsKnown(w, next)
  {
    TurnIds(w, s, turn);
    ExecutionKeepsIds(w, s, turn, next, ExecutedIds(s.executed), Ids(turn.calls));
  }

  lemma {:induction false} RoundKeepsIds(w: World, s: State, next: State, round: nat, rounds: nat)
    requires IdsKnown(w, s) && Renames(w, s, next, round, rounds)
    ensures IdsKnown(w, next)
  {
    if Executes(w, round, rounds) { TurnKeepsIds(w, s, TurnOf(w, s, round), next); }
  }

  /** Over a whole run no two executed calls share an id exactly when every executed turn was clear. */
  lemma {:induction false} IdsNeverRepeat(w: World, before: seq<Message>, maxRounds: int, context: Option<(nat, nat)>)
    ensures var executed := RunFrom(w, Start(before), 0, Rounds(maxRounds), context).1.executed;
      AllDifferent(ExecutedIds(executed)) <==> TurnsClear(w, executed)
  {
    var rounds := Rounds(maxRounds);
    var kept := (s: State, round: nat) => IdsKnown(w, s);
    forall s: State, round: nat | kept(s, round) && round < rounds
      ensures kept(RoundStep(w, s, round, rounds, context).state, round + 1)
    {
      var next := RoundStep(w, s, round, rounds, context).state;
      RoundRenames(w, s, next, round, rounds, context);
      RoundKeepsIds(w, s, next, round, rounds);
    }
    assert IdsKnown(w, Start(before));
    var last := RunKeeps(w, Start(before), 0, rounds, context, kept);
    assert IdsKnown(w, RunFrom(w, Start(before), 0, rounds, context).1);
  }

  // ----- a model that leaves such ids alone -----

  /** No call the model asks for in any round carries an id the loop could make up. */
  ghost predicate OwnIds(w: World) {
    forall round: nat :: OwnCalls(Asked(w, round))
  }

  ghost predicate OwnCalls(calls: seq<Call>) {
    forall k, r: nat, i: nat :: 0 <= k < |calls| ==> calls[k].id != MadeId(r, i)
  }

  /** No id the loop could make up in this round or later has been seen. */
  ghost predicate Unmade(seen: set<string>, round: nat) {
    forall r: nat, i: nat :: r >= round ==> MadeId(r, i) !in seen
  }

  ghost predicate OwnSound(w: World, s: State, round: nat) {
    Unmade(s.seen, round + 1) && IdsKnown(w, s) && TurnsClear(w, s.executed)
  }

  lemma {:induction false} TurnKeepsUnmade(
    calls: seq<Call>, named: seq<Call>, seen: set<string>, after: set<string>, round: nat)
    requires OwnCalls(calls) && Unmade(seen, round)
    requires named == AssignIds(calls, seen, round, 0) && after == seen + IdsOf(named)
    ensures Unmade(after, round + 1)
  {
    assert seen + GivenBefore(calls, seen, round, 0) == seen;
    AssignedAre(calls, seen, round, seen, 0);
    forall r: nat, i: nat | r >= round + 1 ensures MadeId(r, i) !in after {
      if k :| 0 <= k < |named| && named[k].id == MadeId(r, i) {
        assert named[k - 0].id == GivenId(calls, seen, round, k);
        if Replaced(calls, seen, round, k) { MadeIdsDiffer(r, i, round, k); }
      }
    }
  }

  lemma {:induction false} TurnKeepsClear(w: World, s: State, turn: Execution, next: State)
    requires OwnCalls(Asked(w, turn.round)) && Unmade(s.seen, turn.round + 1)
    requires s.seen == SetOf(ExecutedIds(s.executed))
    requires TurnsClear(w, s.executed) && next.executed == s.executed + [turn]
    ensures TurnsClear(w, next.executed)
  {
    OwnTurnClear(Asked(w, turn.round), s.seen, turn.round + 1);
    TurnsClearJoin(w, s.executed, turn);
  }

  lemma {:induction false} TakenKeepsUnmade(w: World, s: State, turn: Execution, next: State)
    requires OwnCalls(Asked(w, turn.round)) && Unmade(s.seen, turn.round + 1) && Takes(w, s, turn, next)
    ensures Unmade(next.seen, turn.round + 2)
  {
    TurnKeepsUnmade(Asked(w, turn.round), turn.calls, s.seen, next.seen, turn.round + 1);
  }

  lemma AskedOwn(w: World, round: nat)
    requires OwnIds(w)
    ensures OwnCalls(Asked(w, round))
  {}

  lemma {:induction false} TurnKeepsOwn(w: World, s: State, turn: Execution, next: State)
    requires OwnIds(w) && OwnSound(w, s, turn.round) && Takes(w, s, turn, next)
    ensures OwnSound(w, next, turn.round + 1)
  {
    AskedOwn(w, turn.round);
    TurnKeepsIds(w, s, turn, next);
    TakenKeepsUnmade(w, s, turn, next);
    TurnKeepsClear(w, s, turn, next);
  }

  lemma {:induction false} RoundKeepsOwn(w: World, s: State, next: State, round: nat, rounds: nat)
    requires OwnIds(w) && OwnSound(w, s, round) && Renames(w, s, next, round, rounds)
    ensures OwnSound(w, next, round + 1)
  {
    if Executes(w, round, rounds) { TurnKeepsOwn(w, s, TurnOf(w, s, round), next); }
  }

  lemma OwnTurnClear(calls: seq<Call>, seen: set<string>, round: nat)
    requires OwnCalls(calls) && Unmade(seen, round)
    ensures Clear(calls, seen, round)
  {}

  /** A model none of whose ids looks made up never has an id repeat. */
  lemma {:induction false} OwnIdsNeverRepeat(w: World, before: seq<Message>, maxRounds: int,
      context: Option<(nat, nat)>)
    requires OwnIds(w)
    ensures AllDifferent(ExecutedIds(RunFrom(w, Start(before), 0, Rounds(maxRounds), context).1.executed))
  {
    var rounds := Rounds(maxRounds);
    var kept := (s: State, round: nat) => OwnSound(w, s, round);
    forall s: State, round: nat | kept(s, round) && round < rounds
      ensures kept(RoundStep(w, s, round, rounds, context).state, round + 1)
    {
      var next := RoundStep(w, s, round, rounds, context).state;
      RoundRenames(w, s, next, round, rounds, context);
      RoundKeepsOwn(w, s, next, round, rounds);
    }
    assert OwnSound(w, Start(before), 0);
    var last := RunKeeps(w, Start(before), 0, rounds, context, kept);
    assert OwnSound(w, RunFrom(w, Start(before), 0, rounds, context).1, last);
  }
}
