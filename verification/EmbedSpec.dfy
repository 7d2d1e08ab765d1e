/** The vector table against the chunks (apps/daemon/graite/index/embedder.py), with the indexer
    (apps/daemon/graite/vault/indexer.py:134-181) as the environment that re-chunks pages.

    A vector is symbolic: which model computed it, its dimension, and from which text. Hashes are
    taken as collision-free: a chunk's hash is the text that is hashed. */
module EmbedSpec {
  import opened Common
  import opened PythonText

  const MAX_CHARS := 6000

  datatype Chunk = Chunk(page: string, title: string, headings: seq<string>, text: string, hash: string,
    embedded: Option<string>)

  datatype Vector = Vector(model: string, dim: nat, input: string)

  datatype VecTable = VecTable(dim: nat, rows: map<nat, Vector>)

  /** The chunks table, `chunk_vec` if it exists, and the two `meta` values. */
  datatype Index = Index(chunks: map<nat, Chunk>, table: Option<VecTable>, model: Option<string>, dim: Option<nat>)

  /** A pending row as a batch read it. */
  datatype BatchRow = BatchRow(id: nat, title: string, headings: seq<string>, text: string, hash: string)

  datatype DbError = NoTable | BadDimension | LengthMismatch

  function Head(title: string, headings: seq<string>): string {
    JoinWith([title] + headings, " > ")
  }

  /** `embedding_text`, which `text_hash` hashes (chunker.py:70-76). */
  function EmbeddingText(title: string, headings: seq<string>, text: string): string {
    if text == "" then Head(title, headings) else Head(title, headings) + "\n" + text
  }

  /** The text a batch sends to the model for a row: the body is cut at `MAX_CHARS`. */
  function Input(title: string, headings: seq<string>, text: string): string {
    var body := if |text| > MAX_CHARS then text[..MAX_CHARS] else text;
    if body == "" then Head(title, headings) else Head(title, headings) + "\n" + body
  }

  /** `prefix(item, "document")`. */
  function Prefix(gemma: bool): string {
    if gemma then "title: none | text: " else ""
  }

  predicate Pending(ix: Index, id: nat) {
    id in ix.chunks && ix.chunks[id].embedded.None?
  }

  function RowOf(ix: Index, id: nat): BatchRow
    requires id in ix.chunks
  {
    var c := ix.chunks[id];
    BatchRow(id, c.title, c.headings, c.text, c.hash)
  }

  // ----- the embedder's transactions -----

  predicate TableIsFor(ix: Index, model: string, dim: nat) {
    ix.table.Some? && ix.model == Some(model) && ix.dim == Some(dim)
  }

  function Unmarked(chunks: map<nat, Chunk>): map<nat, Chunk> {
    map id | id in chunks :: chunks[id].(embedded := None)
  }

  /** `ensure_vec_table`. */
  function EnsureVecTable(ix: Index, model: string, dim: nat): Index {
    if TableIsFor(ix, model, dim) then ix
    else Index(Unmarked(ix.chunks), Some(VecTable(dim, map[])), Some(model), Some(dim))
  }

  /** The guard of the write: the row still holds the text that was embedded, and nobody marked it. */
  predicate StillPending(ix: Index, row: BatchRow) {
    row.id in ix.chunks && ix.chunks[row.id].hash == row.hash && ix.chunks[row.id].embedded.None?
  }

  function WriteRow(ix: Index, model: string, row: BatchRow, vector: Vector): Result<(Index, nat), DbError> {
    if !StillPending(ix, row) then Ok((ix, 0))
    else if ix.table.None? then Err(NoTable)
    else if vector.dim != ix.table.value.dim then Err(BadDimension)
    else
      Ok((ix.(chunks := ix.chunks[row.id := ix.chunks[row.id].(embedded := Some(model))],
              table := Some(ix.table.value.(rows := ix.table.value.rows[row.id := vector]))), 1))
  }

  function WriteRows(ix: Index, model: string, rows: seq<BatchRow>, vectors: seq<Vector>): Result<(Index, nat), DbError>
    requires |rows| == |vectors|
    decreases |rows|
  {
    if rows == [] then Ok((ix, 0))
    else
      var first := WriteRow(ix, model, rows[0], vectors[0]);
      if first.Err? then first
      else
        var rest := WriteRows(first.value.0, model, rows[1..], vectors[1..]);
        if rest.Err? then rest else Ok((rest.value.0, first.value.1 + rest.value.1))
  }

  /** `_drop_orphan_vectors`. */
  function DropOrphans(ix: Index): Index {
    if ix.table.None? then ix
    else
      var rows := ix.table.value.rows;
      ix.(table := Some(ix.table.value.(rows := map id | id in rows && id in ix.chunks :: rows[id])))
  }

  /** The transaction that writes a batch back; any error rolls it back. */
  function WriteBatch(ix: Index, model: string, rows: seq<BatchRow>, vectors: seq<Vector>)
    : Result<(Index, nat), DbError>
  {
    if |rows| != |vectors| then Err(LengthMismatch)
    else
      var written := WriteRows(ix, model, rows, vectors);
      if written.Err? then written else Ok((DropOrphans(written.value.0), written.value.1))
  }

  // ----- the indexer's transactions -----

  /** `INSERT INTO chunks`: a free row id, possibly one that was used before; no marker. */
  function Insert(ix: Index, id: nat, page: string, title: string, headings: seq<string>, text: string): Index {
    ix.(chunks := ix.chunks[id := Chunk(page, title, headings, text, EmbeddingText(title, headings, text), None)])
  }

  /** `_delete_chunks`; `vectors` says whether the indexer knew of the vector table. */
  function Delete(ix: Index, ids: set<nat>, vectors: bool): Index {
    var chunks := map id | id in ix.chunks && id !in ids :: ix.chunks[id];
    var table := if vectors && ix.table.Some? then
                   var rows := ix.table.value.rows;
                   Some(ix.table.value.(rows := map id | id in rows && id !in ids :: rows[id]))
                 else ix.table;
    ix.(chunks := chunks, table := table)
  }

  /** The in-place update of a row whose hash a new chunk has: headings change, title and text do not. */
  function Relabel(ix: Index, id: nat, headings: seq<string>): Index
    requires id in ix.chunks
  {
    ix.(chunks := ix.chunks[id := ix.chunks[id].(headings := headings)])
  }

  /** The reindex job (jobs/handlers.py:22-31): vectors and chunks are dropped, `meta` stays. */
  function Reindex(ix: Index): Index {
    ix.(chunks := map[], table := None)
  }
}
