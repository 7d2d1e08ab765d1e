/** Every run keeps the marks honest: a chunk marked as embedded has the vector of its own text. */
module EmbedProofs {
  import opened Common
  import opened PythonText
  import opened EmbedSpec

  // ----- hashes and inputs -----

  predicate OneLine(s: string) {
    '\n' !in s
  }

  function Joined(head: string, body: string): string {
    if body == "" then head else head + "\n" + body
  }

  lemma NewlineAt(head: string, body: string)
    requires OneLine(head)
    ensures '\n' in Joined(head, body) <==> body != ""
    ensures body != "" ==> Joined(head, body)[|head|] == '\n'
    ensures forall i :: 0 <= i < |head| ==> Joined(head, body)[i] != '\n'
  {
    if body != "" { assert Joined(head, body)[|head|] == '\n'; }
  }

  /** Of two one-line heads in front of the same hashed text neither reaches into the other's body. */
  lemma SameHeadLength(h1: string, t1: string, h2: string, t2: string)
    requires OneLine(h1) && OneLine(h2) && Joined(h1, t1) == Joined(h2, t2)
    ensures |h1| == |h2|
  {
    NewlineAt(h1, t1);
    NewlineAt(h2, t2);
  }

  predicate OneLiners(headings: seq<string>) {
    forall i :: 0 <= i < |headings| ==> OneLine(headings[i])
  }

  lemma {:induction false} JoinOneLine(parts: seq<string>)
    requires OneLiners(parts)
    ensures OneLine(JoinWith(parts, " > "))
    decreases |parts|
  {
    if |parts| > 1 { JoinOneLine(parts[1..]); }
  }

  /** What the headings add to the title. */
  function Tail(headings: seq<string>): string {
    if headings == [] then "" else " > " + JoinWith(headings, " > ")
  }

  lemma HeadIsTitleAndTail(title: string, headings: seq<string>)
    ensures Head(title, headings) == title + Tail(headings)
  {
    assert ([title] + headings)[1..] == headings;
    if headings != [] {
      assert title + " > " + JoinWith(headings, " > ") == title + (" > " + JoinWith(headings, " > "));
    }
  }

  lemma TailOneLine(headings: seq<string>)
    requires OneLiners(headings)
    ensures OneLine(Tail(headings))
  {
    JoinOneLine(headings);
  }

  lemma JoinedAfter(title: string, tail: string, body: string)
    ensures Joined(title + tail, body) == title + Joined(tail, body)
  {
    assert (title + tail) + "\n" + body == title + (tail + "\n" + body);
  }

  lemma Stripped(title: string, a: string, b: string)
    requires title + a == title + b
    ensures a == b
  {
    assert a == (title + a)[|title|..] && b == (title + b)[|title|..];
  }

  /** Under one title, whatever it contains, equal hashed texts mean equal heads and equal texts. */
  lemma SameTitleSameHead(title: string, headings1: seq<string>, text1: string, headings2: seq<string>, text2: string)
    requires OneLiners(headings1) && OneLiners(headings2)
    requires EmbeddingText(title, headings1, text1) == EmbeddingText(title, headings2, text2)
    ensures Head(title, headings1) == Head(title, headings2) && text1 == text2
  {
    var tail1, tail2 := Tail(headings1), Tail(headings2);
    HeadIsTitleAndTail(title, headings1);
    HeadIsTitleAndTail(title, headings2);
    JoinedAfter(title, tail1, text1);
    JoinedAfter(title, tail2, text2);
    Stripped(title, Joined(tail1, text1), Joined(tail2, text2));
    TailOneLine(headings1);
    TailOneLine(headings2);
    SameHeadLength(tail1, text1, tail2, text2);
    SameParts(tail1, text1, tail2, text2);
  }

  lemma SameParts(h1: string, t1: string, h2: string, t2: string)
    requires Joined(h1, t1) == Joined(h2, t2) && |h1| == |h2|
    ensures h1 == h2 && t1 == t2
  {
    assert |t1| == |t2|;
    assert h1 == Joined(h1, t1)[..|h1|] == h2;
    if t1 != "" { assert t1 == Joined(h1, t1)[|h1| + 1..] == t2; }
  }

  /** Of two rows with the same hashed text the model sees the same exactly when no body is cut or
      the heads are equally long. */
  lemma EqualHashEqualInput(title1: string, headings1: seq<string>, text1: string,
                            title2: string, headings2: seq<string>, text2: string)
    requires EmbeddingText(title1, headings1, text1) == EmbeddingText(title2, headings2, text2)
    ensures Input(title1, headings1, text1) == Input(title2, headings2, text2) <==>
      (|text1| <= MAX_CHARS && |text2| <= MAX_CHARS) || |Head(title1, headings1)| == |Head(title2, headings2)|
  {
    CutsAlike(Head(title1, headings1), text1, Head(title2, headings2), text2);
  }

  function Cut(text: string): string {
    if |text| > MAX_CHARS then text[..MAX_CHARS] else text
  }

  lemma CutsAlike(h1: string, t1: string, h2: string, t2: string)
    requires Joined(h1, t1) == Joined(h2, t2)
    ensures Joined(h1, Cut(t1)) == Joined(h2, Cut(t2)) <==>
      (|t1| <= MAX_CHARS && |t2| <= MAX_CHARS) || |h1| == |h2|
  {
    if |h1| == |h2| {
      SameParts(h1, t1, h2, t2);
    } else {
      assert |Cut(t1)| == if |t1| > MAX_CHARS then MAX_CHARS else |t1|;
      assert |Cut(t2)| == if |t2| > MAX_CHARS then MAX_CHARS else |t2|;
    }
  }

  /** With a newline in a title two rows can share a hash and differ in what the model sees, since
      only the body is cut. */
  lemma NewlineTitleDiffers(body: string)
    requires |body| == MAX_CHARS
    ensures EmbeddingText("a\nb", [], body) == EmbeddingText("a", [], "b\n" + body)
    ensures Input("a\nb", [], body) != Input("a", [], "b\n" + body)
  {
    assert Head("a\nb", []) == "a\nb" && Head("a", []) == "a";
    assert "a\nb" + "\n" + body == "a" + "\n" + ("b\n" + body);
    EqualHashEqualInput("a\nb", [], body, "a", [], "b\n" + body);
  }

  /** Two ways to rule such rows out: no text is long enough to be cut, or no title has a newline.
      A heading never has one, since it is one line of its page. */
  datatype Custom = ShortTexts | OneLineTitles

  predicate Follows(custom: Custom, title: string, text: string) {
    match custom
    case ShortTexts => |text| <= MAX_CHARS
    case OneLineTitles => OneLine(title)
  }

  lemma CustomGivesEqualInput(custom: Custom, title1: string, headings1: seq<string>, text1: string,
                              title2: string, headings2: seq<string>, text2: string)
    requires Follows(custom, title1, text1) && Follows(custom, title2, text2)
    requires OneLiners(headings1) && OneLiners(headings2)
    requires EmbeddingText(title1, headings1, text1) == EmbeddingText(title2, headings2, text2)
    ensures Input(title1, headings1, text1) == Input(title2, headings2, text2)
  {
    EqualHashEqualInput(title1, headings1, text1, title2, headings2, text2);
    if custom.OneLineTitles? {
      HeadIsTitleAndTail(title1, headings1);
      HeadIsTitleAndTail(title2, headings2);
      TailOneLine(headings1);
      TailOneLine(headings2);
      SameHeadLength(Head(title1, headings1), text1, Head(title2, headings2), text2);
    }
  }

  // ----- the invariant -----

  /** The row's hash is that of its own title, headings and text. */
  predicate OwnHash(chunk: Chunk) {
    chunk.hash == EmbeddingText(chunk.title, chunk.headings, chunk.text)
  }

  function OwnInput(gemma: set<string>, model: string, chunk: Chunk): string {
    Prefix(model in gemma) + Input(chunk.title, chunk.headings, chunk.text)
  }

  /** A marked chunk has a vector of the current model and dimension, computed from its own text. */
  predicate Honest(gemma: set<string>, ix: Index, id: nat)
    requires id in ix.chunks
  {
    var chunk := ix.chunks[id];
    chunk.embedded.Some? ==>
      && ix.model == chunk.embedded && ix.table.Some? && id in ix.table.value.rows
      && ix.table.value.rows[id]
        == Vector(chunk.embedded.value, ix.table.value.dim, OwnInput(gemma, chunk.embedded.value, chunk))
  }

  predicate TableKnown(ix: Index) {
    ix.table.Some? ==> ix.model.Some? && ix.dim == Some(ix.table.value.dim)
  }

  predicate SoundChunk(gemma: set<string>, custom: Custom, ix: Index, id: nat)
    requires id in ix.chunks
  {
    var chunk := ix.chunks[id];
    && OwnHash(chunk) && OneLiners(chunk.headings) && Follows(custom, chunk.title, chunk.text)
    && Honest(gemma, ix, id)
  }

  predicate Sound(gemma: set<string>, custom: Custom, ix: Index) {
    TableKnown(ix) && forall id :: id in ix.chunks ==> SoundChunk(gemma, custom, ix, id)
  }

  // ----- the protocol -----

  /** A batch between reading and writing. `vectors` is empty until the model answered. */
  datatype Batch = Batch(model: string, rows: seq<BatchRow>)

  /** `writing`: the table was ensured for this batch and its write-back comes next. Only the
      indexer, on another thread, can step in between. */
  datatype System = System(index: Index, inFlight: map<nat, Batch>, writing: Option<(Batch, seq<Vector>)>)

  /** `Relabeled`: re-chunking a page gave a chunk of this title, headings and text whose hash is
      that of the row `id`; the row takes over the headings and keeps its own title and text. */
  datatype Step =
    | Read(slot: nat, model: string, ids: seq<nat>)
    | Probe(model: string, dim: nat)
    | Answer(slot: nat, dim: nat)
    | Write
    | Inserted(id: nat, page: string, title: string, headings: seq<string>, text: string)
    | Deleted(gone: set<nat>, vectors: bool)
    | Relabeled(id: nat, title: string, headings: seq<string>, text: string)
    | Reindexed

  predicate RowsRead(ix: Index, ids: seq<nat>) {
    forall i :: 0 <= i < |ids| ==> Pending(ix, ids[i])
  }

  function ReadRows(ix: Index, ids: seq<nat>): seq<BatchRow>
    requires RowsRead(ix, ids)
  {
    seq(|ids|, i requires 0 <= i < |ids| => RowOf(ix, ids[i]))
  }

  /** What the model answers to a batch: one vector per text, all of one dimension. */
  function Answers(gemma: set<string>, batch: Batch, dim: nat): seq<Vector> {
    seq(|batch.rows|, i requires 0 <= i < |batch.rows| =>
      Vector(batch.model, dim, Prefix(batch.model in gemma)
        + Input(batch.rows[i].title, batch.rows[i].headings, batch.rows[i].text)))
  }

  predicate Enabled(s: System, step: Step) {
    match step
    case Read(slot, _, ids) => s.writing.None? && slot !in s.inFlight && ids != [] && RowsRead(s.index, ids)
    case Probe(_, _) => s.writing.None?
    case Answer(slot, _) => s.writing.None? && slot in s.inFlight
    case Write => s.writing.Some?
    case Inserted(id, _, _, headings, _) => id !in s.index.chunks && OneLiners(headings)
    case Deleted(_, _) => true
    case Relabeled(id, title, headings, text) =>
      id in s.index.chunks && OneLiners(headings) && EmbeddingText(title, headings, text) == s.index.chunks[id].hash
    case Reindexed => true
  }

  function Apply(gemma: set<string>, s: System, step: Step): System
    requires Enabled(s, step)
  {
    match step
    case Read(slot, model, ids) => s.(inFlight := s.inFlight[slot := Batch(model, ReadRows(s.index, ids))])
    case Probe(model, dim) => s.(index := EnsureVecTable(s.index, model, dim))
    case Answer(slot, dim) =>
      var batch := s.inFlight[slot];
      System(EnsureVecTable(s.index, batch.model, dim), s.inFlight - {slot}, Some((batch, Answers(gemma, batch, dim))))
    case Write =>
      var (batch, vectors) := s.writing.value;
      var r := WriteBatch(s.index, batch.model, batch.rows, vectors);
      s.(index := if r.Ok? then r.value.0 else s.index, writing := None)
    case Inserted(id, page, title, headings, text) => s.(index := Insert(s.index, id, page, title, headings, text))
    case Deleted(ids, vectors) => s.(index := Delete(s.index, ids, vectors))
    case Relabeled(id, _, headings, _) => s.(index := Relabel(s.index, id, headings))
    case Reindexed => s.(index := Reindex(s.index))
  }

  predicate HonestRow(custom: Custom, row: BatchRow) {
    && row.hash == EmbeddingText(row.title, row.headings, row.text)
    && OneLiners(row.headings) && Follows(custom, row.title, row.text)
  }

  predicate HonestRows(custom: Custom, rows: seq<BatchRow>) {
    forall i :: 0 <= i < |rows| ==> HonestRow(custom, rows[i])
  }

  predicate AnswersTo(gemma: set<string>, model: string, dim: nat, rows: seq<BatchRow>, vectors: seq<Vector>) {
    |vectors| == |rows| && forall i :: 0 <= i < |rows| ==>
      vectors[i] == Vector(model, dim, Prefix(model in gemma) + Input(rows[i].title, rows[i].headings, rows[i].text))
  }

  ghost predicate SystemInv(gemma: set<string>, custom: Custom, s: System) {
    && Sound(gemma, custom, s.index)
    && (forall slot :: slot in s.inFlight ==> HonestRows(custom, s.inFlight[slot].rows))
    && (s.writing.Some? ==>
          var (batch, vectors) := s.writing.value;
          HonestRows(custom, batch.rows) && exists dim :: WritesUnder(gemma, s.index, batch, vectors, dim))
  }

  /** The table is the one that was ensured for the batch, unless a reindex dropped it. */
  predicate WritesUnder(gemma: set<string>, ix: Index, batch: Batch, vectors: seq<Vector>, dim: nat) {
    AnswersTo(gemma, batch.model, dim, batch.rows, vectors) &&
    (ix.table.Some? ==> ix.model == Some(batch.model) && ix.table.value.dim == dim)
  }

  lemma EnsureKeepsSound(gemma: set<string>, custom: Custom, ix: Index, model: string, dim: nat)
    requires Sound(gemma, custom, ix)
    ensures var v := EnsureVecTable(ix, model, dim);
      Sound(gemma, custom, v) && v.table.Some? && v.model == Some(model) && v.table.value.dim == dim
  {
    var v := EnsureVecTable(ix, model, dim);
    forall id | id in v.chunks ensures SoundChunk(gemma, custom, v, id) {
      assert SoundChunk(gemma, custom, ix, id);
    }
  }

  /** What a write leaves: the row is honest exactly when the model saw what the row holds now. */
  lemma WriteHonestExactly(gemma: set<string>, ix: Index, model: string, dim: nat, row: BatchRow, vector: Vector)
    requires StillPending(ix, row) && ix.table.Some? && ix.model == Some(model) && ix.table.value.dim == dim
    requires vector == Vector(model, dim, Prefix(model in gemma) + Input(row.title, row.headings, row.text))
    ensures WriteRow(ix, model, row, vector).Ok?
    ensures var chunk := ix.chunks[row.id];
      Honest(gemma, WriteRow(ix, model, row, vector).value.0, row.id) <==>
        Input(row.title, row.headings, row.text) == Input(chunk.title, chunk.headings, chunk.text)
  {
    var chunk, prefix := ix.chunks[row.id], Prefix(model in gemma);
    var seen, own := Input(row.title, row.headings, row.text), Input(chunk.title, chunk.headings, chunk.text);
    assert (prefix + seen)[|prefix|..] == seen && (prefix + own)[|prefix|..] == own;
  }

  /** The guarded write of one row keeps every mark honest, whatever happened to the row meanwhile. */
  lemma WriteRowKeepsSound(
    gemma: set<string>, custom: Custom, ix: Index, model: string, dim: nat, row: BatchRow, vector: Vector)
    requires Sound(gemma, custom, ix) && HonestRow(custom, row)
    requires vector == Vector(model, dim, Prefix(model in gemma) + Input(row.title, row.headings, row.text))
    requires ix.table.Some? ==> ix.model == Some(model) && ix.table.value.dim == dim
    ensures var r := WriteRow(ix, model, row, vector);
      r.Ok? ==>
        Sound(gemma, custom, r.value.0) &&
        (r.value.0.table.Some? ==> r.value.0.model == Some(model) && r.value.0.table.value.dim == dim)
  {
    if StillPending(ix, row) && ix.table.Some? {
      var chunk := ix.chunks[row.id];
      assert SoundChunk(gemma, custom, ix, row.id);
      CustomGivesEqualInput(custom, chunk.title, chunk.headings, chunk.text, row.title, row.headings, row.text);
      WriteHonestExactly(gemma, ix, model, dim, row, vector);
      var v := WriteRow(ix, model, row, vector).value.0;
      forall id | id in v.chunks ensures SoundChunk(gemma, custom, v, id) {
        assert SoundChunk(gemma, custom, ix, id);
      }
    }
  }

  lemma {:induction false} WriteRowsKeepSound(
    gemma: set<string>, custom: Custom, ix: Index, model: string, dim: nat, rows: seq<BatchRow>, vectors: seq<Vector>)
    requires Sound(gemma, custom, ix) && HonestRows(custom, rows) && AnswersTo(gemma, model, dim, rows, vectors)
    requires ix.table.Some? ==> ix.model == Some(model) && ix.table.value.dim == dim
    ensures var r := WriteRows(ix, model, rows, vectors);
      r.Ok? ==> Sound(gemma, custom, r.value.0)
    decreases |rows|
  {
    if rows != [] {
      assert HonestRow(custom, rows[0]);
      WriteRowKeepsSound(gemma, custom, ix, model, dim, rows[0], vectors[0]);
      var first := WriteRow(ix, model, rows[0], vectors[0]);
      if first.Ok? { WriteRowsKeepSound(gemma, custom, first.value.0, model, dim, rows[1..], vectors[1..]); }
    }
  }

  predicate NoOrphans(ix: Index) {
    ix.table.Some? ==> ix.table.value.rows.Keys <= ix.chunks.Keys
  }

  lemma DropKeepsSound(gemma: set<string>, custom: Custom, ix: Index)
    requires Sound(gemma, custom, ix)
    ensures Sound(gemma, custom, DropOrphans(ix))
  {
    var v := DropOrphans(ix);
    forall id | id in v.chunks ensures SoundChunk(gemma, custom, v, id) {
      assert SoundChunk(gemma, custom, ix, id);
    }
  }

  lemma WriteBatchKeepsSound(
    gemma: set<string>, custom: Custom, ix: Index, batch: Batch, vectors: seq<Vector>, dim: nat)
    requires Sound(gemma, custom, ix) && HonestRows(custom, batch.rows) && WritesUnder(gemma, ix, batch, vectors, dim)
    ensures var r := WriteBatch(ix, batch.model, batch.rows, vectors);
      r.Ok? ==> Sound(gemma, custom, r.value.0)
  {
    WriteRowsKeepSound(gemma, custom, ix, batch.model, dim, batch.rows, vectors);
    var r := WriteRows(ix, batch.model, batch.rows, vectors);
    if r.Ok? { DropKeepsSound(gemma, custom, r.value.0); }
  }

  /** What the indexer must not do for the marks to stay honest: insert rows outside the custom, or
      relabel a row for a page of another title. */
  predicate Careful(custom: Custom, s: System, step: Step) {
    match step
    case Inserted(_, _, title, _, text) => Follows(custom, title, text)
    case Relabeled(id, title, _, _) => id in s.index.chunks && title == s.index.chunks[id].title
    case _ => true
  }

  /** Equal hashes under one title and text mean equal heads. */
  lemma SameHead(title: string, headings1: seq<string>, headings2: seq<string>, text: string)
    ensures EmbeddingText(title, headings1, text) == EmbeddingText(title, headings2, text) <==>
      Head(title, headings1) == Head(title, headings2)
  {
    var h1, h2 := Head(title, headings1), Head(title, headings2);
    if EmbeddingText(title, headings1, text) == EmbeddingText(title, headings2, text) {
      assert h1 == EmbeddingText(title, headings1, text)[..|h1|];
      assert h2 == EmbeddingText(title, headings2, text)[..|h2|];
    }
  }

  lemma {:induction false} RelabelKeepsSound(gemma: set<string>, custom: Custom, s: System, step: Step)
    requires Sound(gemma, custom, s.index) && Enabled(s, step) && step.Relabeled? && Careful(custom, s, step)
    ensures Sound(gemma, custom, Relabel(s.index, step.id, step.headings))
  {
    var chunk, v := s.index.chunks[step.id], Relabel(s.index, step.id, step.headings);
    assert SoundChunk(gemma, custom, s.index, step.id);
    SameTitleSameHead(chunk.title, step.headings, step.text, chunk.headings, chunk.text);
    forall id | id in v.chunks ensures SoundChunk(gemma, custom, v, id) {
      assert SoundChunk(gemma, custom, s.index, id);
    }
  }

  lemma {:induction false} EnvironmentKeepsSound(gemma: set<string>, custom: Custom, s: System, step: Step)
    requires Sound(gemma, custom, s.index) && Enabled(s, step) && Careful(custom, s, step)
    requires step.Inserted? || step.Deleted? || step.Relabeled? || step.Reindexed?
    ensures Sound(gemma, custom, Apply(gemma, s, step).index)
  {
    var v := Apply(gemma, s, step).index;
    if step.Relabeled? {
      RelabelKeepsSound(gemma, custom, s, step);
    } else {
      forall id | id in v.chunks ensures SoundChunk(gemma, custom, v, id) {
        if id in s.index.chunks { assert SoundChunk(gemma, custom, s.index, id); }
      }
    }
  }

  /** The indexer leaves batches and table header alone. */
  lemma EnvironmentKeepsTable(gemma: set<string>, s: System, step: Step)
    requires Enabled(s, step)
    requires step.Inserted? || step.Deleted? || step.Relabeled? || step.Reindexed?
    ensures var v := Apply(gemma, s, step);
      && v.inFlight == s.inFlight && v.writing == s.writing
      && (v.index.table.Some? ==>
            s.index.table.Some? && v.index.table.value.dim == s.index.table.value.dim && v.index.model == s.index.model)
  {}

  lemma {:induction false} StepKeeps(gemma: set<string>, custom: Custom, s: System, step: Step)
    requires SystemInv(gemma, custom, s) && Enabled(s, step) && Careful(custom, s, step)
    ensures SystemInv(gemma, custom, Apply(gemma, s, step))
  {
    var v := Apply(gemma, s, step);
    match step
    case Read(slot, model, ids) =>
      forall i | 0 <= i < |ids| ensures HonestRow(custom, v.inFlight[slot].rows[i]) {
        assert SoundChunk(gemma, custom, s.index, ids[i]);
      }
    case Probe(model, dim) => EnsureKeepsSound(gemma, custom, s.index, model, dim);
    case Answer(slot, dim) =>
      var batch := s.inFlight[slot];
      EnsureKeepsSound(gemma, custom, s.index, batch.model, dim);
      assert WritesUnder(gemma, v.index, batch, Answers(gemma, batch, dim), dim);
    case Write =>
      var (batch, vectors) := s.writing.value;
      var dim :| WritesUnder(gemma, s.index, batch, vectors, dim);
      WriteBatchKeepsSound(gemma, custom, s.index, batch, vectors, dim);
    case _ =>
      EnvironmentKeepsSound(gemma, custom, s, step);
      EnvironmentKeepsTable(gemma, s, step);
      if s.writing.Some? {
        var (batch, vectors) := s.writing.value;
        var dim :| WritesUnder(gemma, s.index, batch, vectors, dim);
        assert WritesUnder(gemma, v.index, batch, vectors, dim);
      }
  }

  predicate Runs(gemma: set<string>, s: System, steps: seq<Step>)
    decreases |steps|
  {
    steps == [] || (Enabled(s, steps[0]) && Runs(gemma, Apply(gemma, s, steps[0]), steps[1..]))
  }

  function After(gemma: set<string>, s: System, steps: seq<Step>): System
    requires Runs(gemma, s, steps)
    decreases |steps|
  {
    if steps == [] then s else After(gemma, Apply(gemma, s, steps[0]), steps[1..])
  }

  function Start(): System {
    System(Index(map[], None, None, None), map[], None)
  }

  /** Every step of the run is careful where it is taken. */
  predicate CarefulRun(gemma: set<string>, custom: Custom, s: System, steps: seq<Step>)
    requires Runs(gemma, s, steps)
    decreases |steps|
  {
    steps == [] ||
    (Careful(custom, s, steps[0]) && CarefulRun(gemma, custom, Apply(gemma, s, steps[0]), steps[1..]))
  }

  lemma {:induction false} RunKeeps(gemma: set<string>, custom: Custom, s: System, steps: seq<Step>)
    requires SystemInv(gemma, custom, s) && Runs(gemma, s, steps) && CarefulRun(gemma, custom, s, steps)
    ensures SystemInv(gemma, custom, After(gemma, s, steps))
    decreases |steps|
  {
    if steps != [] {
      StepKeeps(gemma, custom, s, steps[0]);
      RunKeeps(gemma, custom, Apply(gemma, s, steps[0]), steps[1..]);
    }
  }

  /** In every careful run, with any number of batches of any models in flight while pages are
      re-chunked and row ids reused: every chunk marked as embedded has a vector of the current model
      and dimension, computed from exactly its own title, headings and text. */
  lemma {:induction false} MarksAreHonest(gemma: set<string>, custom: Custom, steps: seq<Step>, id: nat)
    requires Runs(gemma, Start(), steps) && CarefulRun(gemma, custom, Start(), steps)
    requires id in After(gemma, Start(), steps).index.chunks
    ensures Honest(gemma, After(gemma, Start(), steps).index, id)
      && OwnHash(After(gemma, Start(), steps).index.chunks[id])
  {
    RunKeeps(gemma, custom, Start(), steps);
    assert SoundChunk(gemma, custom, After(gemma, Start(), steps).index, id);
  }

  /** Right after a batch was written no vector lacks its chunk, whatever the indexer did. */
  lemma WrittenLeavesNoOrphans(ix: Index, model: string, rows: seq<BatchRow>, vectors: seq<Vector>)
    ensures WriteBatch(ix, model, rows, vectors).Ok? ==> NoOrphans(WriteBatch(ix, model, rows, vectors).value.0)
  {
    if |rows| == |vectors| {
      var written := WriteRows(ix, model, rows, vectors);
      if written.Ok? { assert NoOrphans(DropOrphans(written.value.0)); }
    }
  }

  // ----- an undisturbed batch -----

  predicate Distinct(ids: seq<nat>) {
    forall i, j :: 0 <= i < j < |ids| ==> ids[i] != ids[j]
  }

  predicate DifferentRows(rows: seq<BatchRow>) {
    forall i, j :: 0 <= i < j < |rows| ==> rows[i].id != rows[j].id
  }

  /** How many rows pass the guard of the write. */
  function Hits(ix: Index, rows: seq<BatchRow>): nat {
    if rows == [] then 0 else (if StillPending(ix, rows[0]) then 1 else 0) + Hits(ix, rows[1..])
  }

  predicate Hit(ix: Index, rows: seq<BatchRow>, id: nat) {
    exists i :: 0 <= i < |rows| && rows[i].id == id && StillPending(ix, rows[i])
  }

  predicate CanWrite(ix: Index, row: BatchRow, vector: Vector) {
    StillPending(ix, row) ==> ix.table.Some? && vector.dim == ix.table.value.dim
  }

  /** Rows that passed the guard are marked and have their vector; everything else is as it was. */
  ghost predicate Wrote(ix: Index, after: Index, model: string, rows: seq<BatchRow>, vectors: seq<Vector>)
    requires |rows| == |vectors|
  {
    && after.chunks.Keys == ix.chunks.Keys && after.model == ix.model && after.dim == ix.dim
    && (forall id :: id in ix.chunks && !Hit(ix, rows, id) ==> after.chunks[id] == ix.chunks[id])
    && (forall i :: 0 <= i < |rows| && StillPending(ix, rows[i]) ==>
         after.chunks[rows[i].id] == ix.chunks[rows[i].id].(embedded := Some(model)))
    && if ix.table.None? then after.table.None? else after.table.Some? && RowsWrote(ix, after, rows, vectors)
  }

  ghost predicate RowsWrote(ix: Index, after: Index, rows: seq<BatchRow>, vectors: seq<Vector>)
    requires |rows| == |vectors| && ix.table.Some? && after.table.Some?
  {
    var was, now := ix.table.value.rows, after.table.value.rows;
    && after.table.value.dim == ix.table.value.dim
    && (forall id :: !Hit(ix, rows, id) ==> (id in now <==> id in was) && (id in was ==> now[id] == was[id]))
    && (forall i :: 0 <= i < |rows| && StillPending(ix, rows[i]) ==>
         rows[i].id in now && now[rows[i].id] == vectors[i])
  }

  /** Writing one row leaves the guard of the others as it was. */
  lemma {:induction false} OthersStillPending(ix: Index, next: Index, row: BatchRow, rows: seq<BatchRow>)
    requires forall i :: 0 <= i < |rows| ==> rows[i].id != row.id
    requires next.chunks.Keys == ix.chunks.Keys
    requires forall id :: id in ix.chunks && id != row.id ==> next.chunks[id] == ix.chunks[id]
    ensures forall i :: 0 <= i < |rows| ==> (StillPending(next, rows[i]) <==> StillPending(ix, rows[i]))
    ensures Hits(next, rows) == Hits(ix, rows)
    ensures forall id :: Hit(next, rows, id) <==> Hit(ix, rows, id)
    decreases |rows|
  {
    if rows != [] { OthersStillPending(ix, next, row, rows[1..]); }
    forall id ensures Hit(next, rows, id) <==> Hit(ix, rows, id) {}
  }

  lemma HitFirst(ix: Index, rows: seq<BatchRow>, id: nat)
    requires rows != []
    ensures Hit(ix, rows, id) <==> (rows[0].id == id && StillPending(ix, rows[0])) || Hit(ix, rows[1..], id)
  {
    if Hit(ix, rows, id) && !(rows[0].id == id && StillPending(ix, rows[0])) {
      var i :| 0 <= i < |rows| && rows[i].id == id && StillPending(ix, rows[i]);
      assert rows[1..][i - 1] == rows[i];
    }
    if Hit(ix, rows[1..], id) {
      var i :| 0 <= i < |rows[1..]| && rows[1..][i].id == id && StillPending(ix, rows[1..][i]);
      assert rows[i + 1] == rows[1..][i];
    }
  }

  lemma {:induction false} WroteFirst(ix: Index, next: Index, after: Index, model: string, rows: seq<BatchRow>,
      vectors: seq<Vector>)
    requires rows != [] && |rows| == |vectors| && DifferentRows(rows)
    requires CanWrite(ix, rows[0], vectors[0]) && next == WriteRow(ix, model, rows[0], vectors[0]).value.0
    requires Wrote(next, after, model, rows[1..], vectors[1..])
    ensures Wrote(ix, after, model, rows, vectors)
  {
    OthersStillPending(ix, next, rows[0], rows[1..]);
    forall id ensures Hit(ix, rows, id) <==>
        (rows[0].id == id && StillPending(ix, rows[0])) || Hit(next, rows[1..], id) {
      HitFirst(ix, rows, id);
    }
    forall i | 0 <= i < |rows| && StillPending(ix, rows[i])
      ensures after.chunks[rows[i].id] == ix.chunks[rows[i].id].(embedded := Some(model))
      ensures ix.table.Some? ==>
        rows[i].id in after.table.value.rows && after.table.value.rows[rows[i].id] == vectors[i]
    {
      if i > 0 {
        assert rows[1..][i - 1] == rows[i] && vectors[1..][i - 1] == vectors[i];
      } else {
        assert !Hit(next, rows[1..], rows[0].id);
      }
    }
  }

  /** What a write of a batch does, whatever happened meanwhile: it fails exactly when a row that passes the
      guard finds no table or one of another dimension; otherwise it marks exactly the rows that pass,
      gives them their vectors, counts them, and leaves everything else as it was. */
  lemma {:induction false} WriteExactly(ix: Index, model: string, rows: seq<BatchRow>, vectors: seq<Vector>)
    requires |rows| == |vectors| && DifferentRows(rows)
    ensures var r := WriteRows(ix, model, rows, vectors);
      && (r.Ok? <==> forall i :: 0 <= i < |rows| ==> CanWrite(ix, rows[i], vectors[i]))
      && (r.Ok? ==> Wrote(ix, r.value.0, model, rows, vectors) && r.value.1 == Hits(ix, rows))
    decreases |rows|
  {
    if rows != [] && CanWrite(ix, rows[0], vectors[0]) {
      var next := WriteRow(ix, model, rows[0], vectors[0]).value.0;
      WriteExactly(next, model, rows[1..], vectors[1..]);
      OthersStillPending(ix, next, rows[0], rows[1..]);
      var r := WriteRows(next, model, rows[1..], vectors[1..]);
      CanWriteFirst(ix, next, rows, vectors);
      if r.Ok? { WroteFirst(ix, next, r.value.0, model, rows, vectors); }
    }
  }

  lemma CanWriteFirst(ix: Index, next: Index, rows: seq<BatchRow>, vectors: seq<Vector>)
    requires rows != [] && |rows| == |vectors| && CanWrite(ix, rows[0], vectors[0])
    requires forall i :: 0 <= i < |rows[1..]| ==> (StillPending(next, rows[1..][i]) <==> StillPending(ix, rows[1..][i]))
    requires next.table.Some? == ix.table.Some?
    requires next.table.Some? ==> next.table.value.dim == ix.table.value.dim
    ensures (forall i :: 0 <= i < |rows[1..]| ==> CanWrite(next, rows[1..][i], vectors[1..][i])) <==>
      (forall i :: 0 <= i < |rows| ==> CanWrite(ix, rows[i], vectors[i]))
  {
    if forall i :: 0 <= i < |rows[1..]| ==> CanWrite(next, rows[1..][i], vectors[1..][i]) {
      forall i | 0 <= i < |rows| ensures CanWrite(ix, rows[i], vectors[i]) {
        if i > 0 { assert CanWrite(next, rows[1..][i - 1], vectors[1..][i - 1]); }
      }
    }
    if forall i :: 0 <= i < |rows| ==> CanWrite(ix, rows[i], vectors[i]) {
      forall i | 0 <= i < |rows[1..]| ensures CanWrite(next, rows[1..][i], vectors[1..][i]) {
        assert CanWrite(ix, rows[i + 1], vectors[i + 1]);
      }
    }
  }

  /** Deleting rows leaves vectors behind exactly when the indexer did not know of the table and some of
      them had one. */
  lemma DeleteLeavesOrphansExactly(ix: Index, gone: set<nat>, vectors: bool)
    requires NoOrphans(ix)
    ensures NoOrphans(Delete(ix, gone, vectors)) <==>
      vectors || ix.table.None? || forall id :: id in gone ==> id !in ix.table.value.rows
  {
    if !vectors && ix.table.Some? {
      var after := Delete(ix, gone, vectors);
      assert after.table == ix.table;
      forall id | id in gone && id in ix.table.value.rows ensures !NoOrphans(after) {
        assert id in after.table.value.rows && id !in after.chunks;
      }
    }
  }

  /** What the indexer's steps leave of the other rows, and of the row they touch. */
  lemma IndexerTouchesItsRows(gemma: set<string>, s: System, step: Step, id: nat)
    requires Enabled(s, step)
    ensures var was, now := s.index.chunks, Apply(gemma, s, step).index.chunks;
      match step
      case Inserted(added, page, title, headings, text) =>
        && now.Keys == was.Keys + {added} && (id in was ==> now[id] == was[id])
        && now[added] == Chunk(page, title, headings, text, EmbeddingText(title, headings, text), None)
      case Deleted(gone, _) => now.Keys == was.Keys - gone && (id in now ==> now[id] == was[id])
      case Relabeled(row, _, headings, _) =>
        && now.Keys == was.Keys && (id in was && id != row ==> now[id] == was[id])
        && now[row].headings == headings && now[row] == was[row].(headings := now[row].headings)
      case Reindexed => now.Keys == {}
      case _ => now.Keys == was.Keys
  {
    if step.Write? {
      var (batch, vectors) := s.writing.value;
      if |batch.rows| == |vectors| { WriteKeepsRows(s.index, batch.model, batch.rows, vectors); }
    }
  }

  lemma {:induction false} WriteKeepsRows(ix: Index, model: string, rows: seq<BatchRow>, vectors: seq<Vector>)
    requires |rows| == |vectors|
    ensures var r := WriteRows(ix, model, rows, vectors); r.Ok? ==> r.value.0.chunks.Keys == ix.chunks.Keys
    decreases |rows|
  {
    if rows != [] {
      var first := WriteRow(ix, model, rows[0], vectors[0]);
      if first.Ok? { WriteKeepsRows(first.value.0, model, rows[1..], vectors[1..]); }
    }
  }

  lemma {:induction false} UndisturbedWrite(ix: Index, model: string, dim: nat, rows: seq<BatchRow>,
      vectors: seq<Vector>)
    requires |rows| == |vectors| && ix.table.Some? && ix.table.value.dim == dim
    requires forall i :: 0 <= i < |rows| ==> StillPending(ix, rows[i]) && vectors[i].dim == dim
    requires forall i, j :: 0 <= i < j < |rows| ==> rows[i].id != rows[j].id
    ensures var r := WriteRows(ix, model, rows, vectors);
      && r.Ok? && r.value.1 == |rows| && r.value.0.chunks.Keys == ix.chunks.Keys
      && (forall i :: 0 <= i < |rows| ==>
        rows[i].id in r.value.0.chunks && r.value.0.chunks[rows[i].id].embedded == Some(model))
      && (forall id :: id in ix.chunks && (forall i :: 0 <= i < |rows| ==> rows[i].id != id) ==>
        r.value.0.chunks[id] == ix.chunks[id])
    decreases |rows|
  {
    if rows != [] {
      var next := WriteRow(ix, model, rows[0], vectors[0]).value.0;
      UndisturbedWrite(next, model, dim, rows[1..], vectors[1..]);
    }
  }

  /** A batch nobody interferes with writes all its rows: the loop over batches makes progress. */
  lemma QuietBatchWritesAll(gemma: set<string>, ix: Index, model: string, ids: seq<nat>, dim: nat)
    requires TableKnown(ix) && RowsRead(ix, ids) && Distinct(ids)
    ensures var batch := Batch(model, ReadRows(ix, ids));
      var r := WriteBatch(EnsureVecTable(ix, model, dim), model, batch.rows, Answers(gemma, batch, dim));
      && r.Ok? && r.value.1 == |ids| && r.value.0.chunks.Keys == ix.chunks.Keys
      && forall i :: 0 <= i < |ids| ==> ids[i] in r.value.0.chunks && r.value.0.chunks[ids[i]].embedded == Some(model)
  {
    var batch := Batch(model, ReadRows(ix, ids));
    var ready := EnsureVecTable(ix, model, dim);
    forall i | 0 <= i < |ids|
      ensures StillPending(ready, batch.rows[i]) && batch.rows[i].id == ids[i]
    {}
    UndisturbedWrite(ready, model, dim, batch.rows, Answers(gemma, batch, dim));
  }

  // ----- a row the indexer relabels after a rename -----

  /** A marked row that is honest stays so exactly when the new headings join to the old head under
      the row's own title, which the indexer does not update. */
  lemma RelabelHonestExactly(gemma: set<string>, ix: Index, id: nat, headings: seq<string>)
    requires id in ix.chunks && ix.chunks[id].embedded.Some? && Honest(gemma, ix, id)
    ensures var chunk := ix.chunks[id];
      Honest(gemma, Relabel(ix, id, headings), id) <==> Head(chunk.title, headings) == Head(chunk.title, chunk.headings)
  {
    var chunk := ix.chunks[id];
    var h1, h2 := Head(chunk.title, headings), Head(chunk.title, chunk.headings);
    var prefix := Prefix(chunk.embedded.value in gemma);
    var now, was := Input(chunk.title, headings, chunk.text), Input(chunk.title, chunk.headings, chunk.text);
    assert (prefix + now)[|prefix|..] == now && (prefix + was)[|prefix|..] == was;
    if now == was { assert h1 == now[..|h1|] && h2 == was[..|h2|]; }
  }

  /** And its hash stays its own exactly then, marked or not. */
  lemma RelabelKeepsOwnHashExactly(ix: Index, id: nat, headings: seq<string>)
    requires id in ix.chunks && OwnHash(ix.chunks[id])
    ensures var chunk := ix.chunks[id];
      OwnHash(Relabel(ix, id, headings).chunks[id]) <==>
        Head(chunk.title, headings) == Head(chunk.title, chunk.headings)
  {
    SameHead(ix.chunks[id].title, headings, ix.chunks[id].headings, ix.chunks[id].text);
  }

  lemma RenamedHeads()
    ensures Head("A", ["B"]) == "A > B" && Head("A > B", []) == "A > B" && Head("A", []) == "A"
  {
    assert ["A"] + ["B"] == ["A", "B"] && ["A", "B"][1..] == ["B"];
    assert "A" + " > " + "B" == "A > B";
  }

  /** A page "A" with a heading "B" is embedded. */
  function EmbedRun(model: string, dim: nat, text: string): seq<Step> {
    [Inserted(0, "p", "A", ["B"], text), Read(0, model, [0]), Answer(0, dim), Write]
  }

  lemma {:induction false} RunJoin(gemma: set<string>, s: System, a: seq<Step>, b: seq<Step>)
    requires Runs(gemma, s, a) && Runs(gemma, After(gemma, s, a), b)
    ensures Runs(gemma, s, a + b) && After(gemma, s, a + b) == After(gemma, After(gemma, s, a), b)
    decreases |a|
  {
    if a == [] {
      assert a + b == b;
    } else {
      assert (a + b)[1..] == a[1..] + b;
      RunJoin(gemma, Apply(gemma, s, a[0]), a[1..], b);
    }
  }

  lemma {:induction false} RunOne(gemma: set<string>, s: System, step: Step)
    requires Enabled(s, step)
    ensures Runs(gemma, s, [step]) && After(gemma, s, [step]) == Apply(gemma, s, step)
  {
    assert [step][1..] == [];
  }

  lemma {:induction false} OneRowWrites(
    ix: Index, model: string, row: BatchRow, vector: Vector, rows: seq<BatchRow>, vectors: seq<Vector>)
    requires rows == [row] && vectors == [vector]
    ensures WriteBatch(ix, model, rows, vectors) ==
      var first := WriteRow(ix, model, row, vector);
      if first.Ok? then Ok((DropOrphans(first.value.0), first.value.1)) else first
  {
    assert rows[1..] == [] && vectors[1..] == [];
    var first := WriteRow(ix, model, row, vector);
    if first.Ok? {
      assert WriteRows(first.value.0, model, rows[1..], vectors[1..]) == Ok((first.value.0, 0));
      assert WriteRows(ix, model, rows, vectors) == Ok((first.value.0, first.value.1 + 0));
    }
  }

  lemma {:induction false} RowIsEmbedded(gemma: set<string>, model: string, dim: nat, text: string)
    ensures Runs(gemma, Start(), EmbedRun(model, dim, text))
    ensures var ix := After(gemma, Start(), EmbedRun(model, dim, text)).index;
      && 0 in ix.chunks && Honest(gemma, ix, 0)
      && ix.chunks[0] == Chunk("p", "A", ["B"], text, EmbeddingText("A", ["B"], text), Some(model))
  {
    var inserted, read, answer := Inserted(0, "p", "A", ["B"], text), Read(0, model, [0]), Answer(0, dim);
    var s1 := Apply(gemma, Start(), inserted);
    assert RowsRead(s1.index, [0]);
    var s2 := Apply(gemma, s1, read);
    var batch := s2.inFlight[0];
    assert batch.rows == [RowOf(s1.index, 0)];
    var s3 := Apply(gemma, s2, answer);
    var vectors := Answers(gemma, batch, dim);
    assert s3.writing == Some((batch, vectors));
    assert StillPending(s3.index, batch.rows[0]);
    WriteHonestExactly(gemma, s3.index, model, dim, batch.rows[0], vectors[0]);
    OneRowWrites(s3.index, model, batch.rows[0], vectors[0], batch.rows, vectors);
    RunOne(gemma, s3, Write);
    RunOne(gemma, s2, answer);
    RunOne(gemma, s1, read);
    RunOne(gemma, Start(), inserted);
    RunJoin(gemma, s2, [answer], [Write]);
    RunJoin(gemma, s1, [read], [answer] + [Write]);
    RunJoin(gemma, Start(), [inserted], [read] + ([answer] + [Write]));
    assert EmbedRun(model, dim, text) == [inserted] + ([read] + ([answer] + [Write]));
  }

  /** Renamed to "A > B" without the heading, the page hashes the same: the row takes over the empty
      heading path, keeps the title "A", and stays marked with a vector of another text. */
  lemma {:induction false} RenamedPageDrifts(gemma: set<string>, model: string, dim: nat, text: string)
    ensures var renamed := Relabeled(0, "A > B", [], text);
      && Runs(gemma, Start(), EmbedRun(model, dim, text) + [renamed])
      && var ix := After(gemma, Start(), EmbedRun(model, dim, text) + [renamed]).index;
      0 in ix.chunks && ix.chunks[0].embedded == Some(model) && !Honest(gemma, ix, 0)
  {
    var renamed := Relabeled(0, "A > B", [], text);
    RowIsEmbedded(gemma, model, dim, text);
    RenamedHeads();
    var s := After(gemma, Start(), EmbedRun(model, dim, text));
    RunOne(gemma, s, renamed);
    RunJoin(gemma, Start(), EmbedRun(model, dim, text), [renamed]);
    RelabelHonestExactly(gemma, s.index, 0, []);
  }
}
