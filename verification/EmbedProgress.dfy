/** The loop over batches makes progress: with one model and dimension nothing that is marked is ever
    taken back, and every batch nobody disturbs takes its rows off the pending ones for good. */
module EmbedProgress {
  import opened Common
  import opened EmbedSpec
  import opened EmbedProofs

  // ----- marks stay -----

  function PendingSet(ix: Index): set<nat> {
    set id | id in ix.chunks && ix.chunks[id].embedded.None?
  }

  /** The chunk is marked and has its vector. */
  predicate Marked(ix: Index, id: nat) {
    id in ix.chunks && ix.chunks[id].embedded.Some? && ix.table.Some? && id in ix.table.value.rows
  }

  /** The row and its vector are what they were. */
  predicate SameMark(ix: Index, v: Index, id: nat)
    requires Marked(ix, id)
  {
    Marked(v, id) && v.chunks[id] == ix.chunks[id] && v.table.value.rows[id] == ix.table.value.rows[id]
  }

  ghost predicate MarksStay(ix: Index, v: Index) {
    v.chunks.Keys == ix.chunks.Keys && forall id :: Marked(ix, id) ==> SameMark(ix, v, id)
  }

  lemma MarksStayOn(ix: Index, v: Index, w: Index)
    requires MarksStay(ix, v) && MarksStay(v, w)
    ensures MarksStay(ix, w)
  {
    forall id | Marked(ix, id) ensures SameMark(ix, w, id) {
      assert SameMark(ix, v, id);
      assert SameMark(v, w, id);
    }
  }

  /** A right table is not touched. */
  lemma EnsureIdle(ix: Index, model: string, dim: nat)
    requires ix.table.Some? && ix.model == Some(model) && ix.dim == Some(dim)
    ensures EnsureVecTable(ix, model, dim) == ix
  {}

  /** The table is right for `model` and `dim`, and so are the vectors about to be written. */
  ghost predicate OneModel(s: System, model: string, dim: nat) {
    && TableIsFor(s.index, model, dim) && s.index.table.value.dim == dim
    && (forall slot :: slot in s.inFlight ==> s.inFlight[slot].model == model)
    && (s.writing.Some? ==>
          var (batch, vectors) := s.writing.value;
          batch.model == model && |vectors| == |batch.rows| && forall i :: 0 <= i < |vectors| ==> vectors[i].dim == dim)
  }

  /** A step of the embedder for that model, none of the indexer. */
  predicate Uses(step: Step, model: string, dim: nat) {
    match step
    case Read(_, m, _) => m == model
    case Probe(m, n) => m == model && n == dim
    case Answer(_, n) => n == dim
    case Write => true
    case _ => false
  }

  lemma {:induction false} WriteRowsStay(ix: Index, model: string, dim: nat, rows: seq<BatchRow>, vectors: seq<Vector>)
    requires |rows| == |vectors| && ix.table.Some? && ix.table.value.dim == dim
    requires forall i :: 0 <= i < |vectors| ==> vectors[i].dim == dim
    ensures var r := WriteRows(ix, model, rows, vectors);
      && r.Ok? && MarksStay(ix, r.value.0) && r.value.0.model == ix.model && r.value.0.dim == ix.dim
      && r.value.0.table.Some? && r.value.0.table.value.dim == dim
    decreases |rows|
  {
    if rows != [] {
      var next := WriteRow(ix, model, rows[0], vectors[0]).value.0;
      WriteRowsStay(next, model, dim, rows[1..], vectors[1..]);
      MarksStayOn(ix, next, WriteRows(next, model, rows[1..], vectors[1..]).value.0);
    }
  }

  lemma {:induction false} WriteStays(ix: Index, model: string, dim: nat, rows: seq<BatchRow>, vectors: seq<Vector>)
    requires |rows| == |vectors| && TableIsFor(ix, model, dim) && ix.table.value.dim == dim
    requires forall i :: 0 <= i < |vectors| ==> vectors[i].dim == dim
    ensures var r := WriteBatch(ix, model, rows, vectors);
      && r.Ok? && MarksStay(ix, r.value.0) && TableIsFor(r.value.0, model, dim) && r.value.0.table.value.dim == dim
  {
    WriteRowsStay(ix, model, dim, rows, vectors);
    var written := WriteRows(ix, model, rows, vectors).value.0;
    forall id | Marked(ix, id) ensures SameMark(ix, DropOrphans(written), id) {
      assert SameMark(ix, written, id);
    }
  }

  lemma {:induction false} StepStays(gemma: set<string>, s: System, step: Step, model: string, dim: nat)
    requires OneModel(s, model, dim) && Enabled(s, step) && Uses(step, model, dim)
    ensures OneModel(Apply(gemma, s, step), model, dim) && MarksStay(s.index, Apply(gemma, s, step).index)
  {
    match step
    case Read(_, _, _) =>
    case Probe(_, _) => EnsureIdle(s.index, model, dim);
    case Answer(slot, _) => EnsureIdle(s.index, model, dim);
    case Write =>
      var (batch, vectors) := s.writing.value;
      WriteStays(s.index, model, dim, batch.rows, vectors);
  }

  predicate AllUse(steps: seq<Step>, model: string, dim: nat) {
    forall i :: 0 <= i < |steps| ==> Uses(steps[i], model, dim)
  }

  /** Through any run of reads, probes, answers and writes of one model and dimension, in any
      interleaving, every marked chunk keeps its mark and its very vector. */
  lemma {:induction false} RunStays(gemma: set<string>, s: System, steps: seq<Step>, model: string, dim: nat)
    requires OneModel(s, model, dim) && Runs(gemma, s, steps) && AllUse(steps, model, dim)
    ensures OneModel(After(gemma, s, steps), model, dim) && MarksStay(s.index, After(gemma, s, steps).index)
    decreases |steps|
  {
    if steps != [] {
      var next := Apply(gemma, s, steps[0]);
      assert Uses(steps[0], model, dim);
      StepStays(gemma, s, steps[0], model, dim);
      forall i | 0 <= i < |steps[1..]| ensures Uses(steps[1..][i], model, dim) {
        assert steps[1..][i] == steps[i + 1];
      }
      RunStays(gemma, next, steps[1..], model, dim);
      MarksStayOn(s.index, next.index, After(gemma, next, steps[1..]).index);
    }
  }

  // ----- batches drain what is pending -----

  function IdSet(ids: seq<nat>): set<nat> {
    set i | 0 <= i < |ids| :: ids[i]
  }

  /** A batch nobody disturbs: its rows are read, answered and written. */
  function Round(slot: nat, model: string, ids: seq<nat>, dim: nat): seq<Step> {
    [Read(slot, model, ids), Answer(slot, dim), Write]
  }

  /** Nothing is in flight and the table is right. */
  ghost predicate Idle(s: System, model: string, dim: nat) {
    OneModel(s, model, dim) && s.inFlight == map[] && s.writing.None?
  }

  lemma {:induction false} RoundDrains(gemma: set<string>, s: System, slot: nat, model: string, ids: seq<nat>, dim: nat)
    requires Idle(s, model, dim) && ids != [] && Distinct(ids) && RowsRead(s.index, ids)
    ensures Runs(gemma, s, Round(slot, model, ids, dim))
    ensures var v := After(gemma, s, Round(slot, model, ids, dim));
      && Idle(v, model, dim) && MarksStay(s.index, v.index)
      && PendingSet(v.index) == PendingSet(s.index) - IdSet(ids) && IdSet(ids) <= PendingSet(s.index)
  {
    var read, answer := Read(slot, model, ids), Answer(slot, dim);
    var s1 := Apply(gemma, s, read);
    var s2 := Apply(gemma, s1, answer);
    var s3 := Apply(gemma, s2, Write);
    RunOne(gemma, s2, Write);
    RunOne(gemma, s1, answer);
    RunOne(gemma, s, read);
    RunJoin(gemma, s1, [answer], [Write]);
    RunJoin(gemma, s, [read], [answer] + [Write]);
    assert Round(slot, model, ids, dim) == [read] + ([answer] + [Write]);
    StepStays(gemma, s, read, model, dim);
    StepStays(gemma, s1, answer, model, dim);
    StepStays(gemma, s2, Write, model, dim);
    EnsureIdle(s.index, model, dim);
    assert s1.inFlight - {slot} == map[];
    RoundMarks(gemma, s.index, model, ids, dim);
  }

  /** What such a batch writes: its rows, and no other. */
  lemma {:induction false} RoundMarks(gemma: set<string>, ix: Index, model: string, ids: seq<nat>, dim: nat)
    requires TableIsFor(ix, model, dim) && ix.table.value.dim == dim && RowsRead(ix, ids) && Distinct(ids)
    ensures var batch := Batch(model, ReadRows(ix, ids));
      var r := WriteBatch(ix, model, batch.rows, Answers(gemma, batch, dim));
      r.Ok? && PendingSet(r.value.0) == PendingSet(ix) - IdSet(ids)
  {
    var batch := Batch(model, ReadRows(ix, ids));
    var vectors := Answers(gemma, batch, dim);
    forall i | 0 <= i < |ids| ensures StillPending(ix, batch.rows[i]) && batch.rows[i].id == ids[i] {}
    UndisturbedWrite(ix, model, dim, batch.rows, vectors);
    var written := WriteRows(ix, model, batch.rows, vectors).value.0;
    forall id | id in ix.chunks
      ensures written.chunks[id].embedded.None? <==> ix.chunks[id].embedded.None? && id !in IdSet(ids)
    {
      if id in IdSet(ids) {
        var i :| 0 <= i < |ids| && ids[i] == id;
        assert batch.rows[i].id == id;
      } else {
        assert forall i :: 0 <= i < |ids| ==> batch.rows[i].id == ids[i] != id;
      }
    }
  }

  /** Batches one after the other, each of rows that are pending when it is read. */
  function Rounds(model: string, plan: seq<seq<nat>>, dim: nat): seq<Step> {
    if plan == [] then [] else Round(0, model, plan[0], dim) + Rounds(model, plan[1..], dim)
  }

  /** Each batch holds pending rows, and no row twice. */
  predicate Fits(left: set<nat>, plan: seq<seq<nat>>)
    decreases |plan|
  {
    plan == [] ||
    (plan[0] != [] && Distinct(plan[0]) && IdSet(plan[0]) <= left && Fits(left - IdSet(plan[0]), plan[1..]))
  }

  function Planned(plan: seq<seq<nat>>): set<nat> {
    if plan == [] then {} else IdSet(plan[0]) + Planned(plan[1..])
  }

  /** The steps take exactly `taken` off what is pending, at least `n` rows, and leave marks alone. */
  ghost predicate Drains(
    gemma: set<string>, s: System, steps: seq<Step>, taken: set<nat>, n: nat, model: string, dim: nat)
  {
    && Runs(gemma, s, steps)
    && var v := After(gemma, s, steps);
    && Idle(v, model, dim) && MarksStay(s.index, v.index)
    && PendingSet(v.index) == PendingSet(s.index) - taken && |PendingSet(v.index)| + n <= |PendingSet(s.index)|
  }

  lemma {:induction false} DrainsOn(
    gemma: set<string>, s: System, first: seq<Step>, later: seq<Step>, a: set<nat>, b: set<nat>, n: nat,
    model: string, dim: nat)
    requires Drains(gemma, s, first, a, 1, model, dim)
    requires Drains(gemma, After(gemma, s, first), later, b, n, model, dim)
    ensures Drains(gemma, s, first + later, a + b, n + 1, model, dim)
  {
    RunJoin(gemma, s, first, later);
    var next := After(gemma, s, first);
    MarksStayOn(s.index, next.index, After(gemma, next, later).index);
  }

  /** Undisturbed batches strictly shrink what is pending: after any such batches exactly their rows are
      no longer pending, so there are no more batches than pending rows, and once they cover all of
      them the vault is done. */
  lemma {:induction false} BatchesDrain(gemma: set<string>, s: System, model: string, plan: seq<seq<nat>>, dim: nat)
    requires Idle(s, model, dim) && Fits(PendingSet(s.index), plan)
    ensures Drains(gemma, s, Rounds(model, plan, dim), Planned(plan), |plan|, model, dim)
    decreases |plan|
  {
    if plan != [] {
      var ids := plan[0];
      forall i | 0 <= i < |ids| ensures Pending(s.index, ids[i]) { assert ids[i] in IdSet(ids); }
      RoundDrains(gemma, s, 0, model, ids, dim);
      var next := After(gemma, s, Round(0, model, ids, dim));
      Shrinks(PendingSet(s.index), PendingSet(next.index), ids);
      BatchesDrain(gemma, next, model, plan[1..], dim);
      DrainsOn(gemma, s, Round(0, model, ids, dim), Rounds(model, plan[1..], dim), IdSet(ids), Planned(plan[1..]),
               |plan| - 1, model, dim);
    }
  }

  lemma Shrinks(before: set<nat>, after: set<nat>, ids: seq<nat>)
    requires ids != [] && IdSet(ids) <= before && after == before - IdSet(ids)
    ensures |after| < |before|
  {
    assert ids[0] in IdSet(ids);
    assert after <= before - {ids[0]};
    Smaller(after, before - {ids[0]});
  }

  lemma Smaller(a: set<nat>, b: set<nat>)
    requires a <= b
    ensures |a| <= |b|
  {
    assert b == a + (b - a);
  }
}
