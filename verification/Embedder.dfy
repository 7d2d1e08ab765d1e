/** The embedder object: its transactions, and the query that picks a batch. */
module Embedder {
  import opened Common
  import opened EmbedSpec

  predicate InRoot(path: string, root: string) {
    path == root || root + "/" <= path
  }

  /** Pending chunks under one of the roots. */
  function HotIds(ix: Index, roots: seq<string>): set<nat> {
    set id, i | id in ix.chunks && Pending(ix, id) && 0 <= i < |roots| && InRoot(ix.chunks[id].page, roots[i]) :: id
  }

  function PendingIds(ix: Index): set<nat> {
    set id | id in ix.chunks && Pending(ix, id)
  }

  predicate Reads(ix: Index, rows: seq<BatchRow>) {
    forall i :: 0 <= i < |rows| ==> Pending(ix, rows[i].id) && rows[i] == RowOf(ix, rows[i].id)
  }

  function Ids(rows: seq<BatchRow>): set<nat> {
    set i | 0 <= i < |rows| :: rows[i].id
  }

  /** The first `k` rows are under hot roots, the others are not; others come only after all hot ones. */
  predicate HotFirst(ix: Index, roots: seq<string>, rows: seq<BatchRow>, k: nat)
    requires k <= |rows|
  {
    && Ids(rows[..k]) <= HotIds(ix, roots) && Ids(rows[k..]) !! HotIds(ix, roots)
    && (k < |rows| ==> Ids(rows[..k]) == HotIds(ix, roots))
  }

  /** The rows of the smallest of `ids`, in order, as many as there is room for. */
  predicate Selected(ix: Index, rows: seq<BatchRow>, ids: set<nat>, room: nat) {
    && Reads(ix, rows) && Ids(rows) <= ids && |rows| <= room
    && (|rows| < room ==> Ids(rows) == ids)
    && (forall i, j :: 0 <= i < j < |rows| ==> rows[i].id < rows[j].id)
    && (forall id :: id in ids && id !in Ids(rows) ==> forall i :: 0 <= i < |rows| ==> rows[i].id < id)
  }

  function Under(ix: Index, root: string): set<nat> {
    set id | id in ix.chunks && Pending(ix, id) && InRoot(ix.chunks[id].page, root)
  }

  /** The rows from `ends[i]` to `ends[i + 1]` are those of root `i`, with the room left before them. */
  predicate RootServed(ix: Index, roots: seq<string>, limit: nat, rows: seq<BatchRow>, ends: seq<nat>, i: nat)
    requires i < |roots| && i + 1 < |ends|
  {
    ends[i] <= ends[i + 1] <= |rows| && ends[i] <= limit &&
    Selected(ix, rows[ends[i]..ends[i + 1]], Under(ix, roots[i]), limit - ends[i])
  }

  predicate RootsServed(ix: Index, roots: seq<string>, limit: nat, rows: seq<BatchRow>, ends: seq<nat>, n: nat)
    requires n <= |roots| && n < |ends|
  {
    ends[0] == 0 && forall i :: 0 <= i < n ==> RootServed(ix, roots, limit, rows, ends, i)
  }

  /** Root by root in the order of the roots, and then the pending rows not yet picked. */
  predicate RootByRoot(ix: Index, roots: seq<string>, limit: nat, rows: seq<BatchRow>, ends: seq<nat>) {
    && |ends| == |roots| + 1 && RootsServed(ix, roots, limit, rows, ends, |roots|)
    && var hot := ends[|roots|];
       hot <= |rows| && hot <= limit &&
       Selected(ix, rows[hot..], PendingIds(ix) - Ids(rows[..hot]), limit - hot)
  }

  /** Rows that follow change nothing for the roots served before them. */
  lemma ServedStays(ix: Index, roots: seq<string>, limit: nat, rows: seq<BatchRow>, ends: seq<nat>, n: nat,
                    more: seq<BatchRow>, next: nat)
    requires n <= |roots| && |ends| == n + 1 && RootsServed(ix, roots, limit, rows, ends, n)
    ensures RootsServed(ix, roots, limit, rows + more, ends + [next], n)
  {
    forall i | 0 <= i < n ensures RootServed(ix, roots, limit, rows + more, ends + [next], i) {
      assert RootServed(ix, roots, limit, rows, ends, i);
      assert (rows + more)[ends[i]..ends[i + 1]] == rows[ends[i]..ends[i + 1]];
    }
  }

  lemma ServedMore(
    ix: Index, roots: seq<string>, limit: nat, rows: seq<BatchRow>, ends: seq<nat>, n: nat, more: seq<BatchRow>)
    requires n < |roots| && |ends| == n + 1 && RootsServed(ix, roots, limit, rows, ends, n)
    requires ends[n] == |rows| <= limit && Selected(ix, more, Under(ix, roots[n]), limit - |rows|)
    ensures RootsServed(ix, roots, limit, rows + more, ends + [|rows + more|], n + 1)
  {
    ServedStays(ix, roots, limit, rows, ends, n, more, |rows + more|);
    assert (rows + more)[|rows|..|rows + more|] == more;
    assert RootServed(ix, roots, limit, rows + more, ends + [|rows + more|], n);
  }

  lemma ServedThenOthers(
    ix: Index, roots: seq<string>, limit: nat, rows: seq<BatchRow>, ends: seq<nat>, others: seq<BatchRow>)
    requires |ends| == |roots| + 1 && RootsServed(ix, roots, limit, rows, ends, |roots|)
    requires ends[|roots|] == |rows| <= limit
    requires Selected(ix, others, PendingIds(ix) - Ids(rows), limit - |rows|)
    ensures RootByRoot(ix, roots, limit, rows + others, ends)
  {
    ServedStays(ix, roots, limit, rows, ends, |roots|, others, 0);
    forall i | 0 <= i < |roots| ensures RootServed(ix, roots, limit, rows + others, ends, i) {
      assert RootServed(ix, roots, limit, rows + others, ends + [0], i);
    }
    assert (rows + others)[..|rows|] == rows && (rows + others)[|rows|..] == others;
  }

  /** With no room left the other roots get nothing. */
  lemma {:induction false} FullServed(
    ix: Index, roots: seq<string>, limit: nat, rows: seq<BatchRow>, ends: seq<nat>, n: nat) returns (all: seq<nat>)
    requires n <= |roots| && |ends| == n + 1 && RootsServed(ix, roots, limit, rows, ends, n)
    requires |rows| == limit && ends[n] == limit
    ensures RootByRoot(ix, roots, limit, rows, all)
    decreases |roots| - n
  {
    if n == |roots| {
      all := ends;
      assert rows[limit..] == [];
    } else {
      ServedStays(ix, roots, limit, rows, ends, n, [], limit);
      assert rows + [] == rows;
      assert rows[limit..limit] == [];
      assert RootServed(ix, roots, limit, rows, ends + [limit], n);
      all := FullServed(ix, roots, limit, rows, ends + [limit], n + 1);
    }
  }

  class IndexEmbedder {
    var index: Index

    constructor ()
      ensures index == Index(map[], None, None, None)
    {
      index := Index(map[], None, None, None);
    }

    /** `ensure_vec_table`; true when the table was rebuilt. */
    method EnsureTable(model: string, dim: nat) returns (rebuilt: bool)
      modifies this
      ensures index == EnsureVecTable(old(index), model, dim)
      ensures !rebuilt <==> old(index).table.Some? && old(index).model == Some(model) && old(index).dim == Some(dim)
      ensures !rebuilt ==> index == old(index)
      ensures rebuilt ==>
        index.table == Some(VecTable(dim, map[])) && index.model == Some(model) && index.dim == Some(dim)
      ensures rebuilt ==> index.chunks.Keys == old(index).chunks.Keys && forall id :: id in index.chunks ==>
        index.chunks[id] == old(index).chunks[id].(embedded := None)
    {
      if index.table.Some? && index.model == Some(model) && index.dim == Some(dim) { return false; }
      index := index.(table := None);
      index := index.(table := Some(VecTable(dim, map[])));
      index := index.(chunks := Unmarked(index.chunks));
      index := index.(model := Some(model), dim := Some(dim));
      rebuilt := true;
    }

    /** The smallest pending ids among `ids`, in order: `ORDER BY id LIMIT`. */
    method Select(ids: set<nat>, limit: nat) returns (rows: seq<BatchRow>)
      requires forall id :: id in ids ==> Pending(index, id)
      ensures Selected(index, rows, ids, limit)
    {
      rows := [];
      var left := ids;
      while left != {} && |rows| < limit
        invariant left <= ids && Reads(index, rows) && |rows| <= limit
        invariant Ids(rows) + left == ids && Ids(rows) !! left
        invariant forall i, j :: 0 <= i < j < |rows| ==> rows[i].id < rows[j].id
        invariant forall id :: id in left ==> forall i :: 0 <= i < |rows| ==> rows[i].id < id
        decreases left
      {
        var least := Least(left);
        ghost var before := rows;
        rows := rows + [RowOf(index, least)];
        assert Ids(rows) == Ids(before) + {least} by { IdsAppend(before, rows[|before|]); }
        left := left - {least};
      }
    }

    /** `_pending`: chunks under the hot roots first, root by root, then any others, each by id. */
    method PickBatch(roots: seq<string>, limit: nat) returns (rows: seq<BatchRow>)
      ensures Reads(index, rows) && |rows| <= limit
      ensures |rows| < limit ==> Ids(rows) == PendingIds(index)
      ensures exists k :: 0 <= k <= |rows| && HotFirst(index, roots, rows, k)
      ensures exists ends :: RootByRoot(index, roots, limit, rows, ends)
    {
      rows := [];
      ghost var ends: seq<nat> := [0];
      for i := 0 to |roots|
        invariant Reads(index, rows) && (|rows| < limit || limit == 0 || i == 0)
        invariant |rows| <= limit
        invariant Ids(rows) == HotIds(index, roots[..i])
        invariant |ends| == i + 1 && ends[i] == |rows| && RootsServed(index, roots, limit, rows, ends, i)
      {
        ghost var before := rows;
        var under := set id | id in index.chunks && Pending(index, id) && InRoot(index.chunks[id].page, roots[i]);
        var more := Select(under, limit - |rows|);
        HotGrows(index, roots, i, under);
        IdsConcat(rows, more);
        rows := rows + more;
        ServedMore(index, roots, limit, before, ends, i, more);
        ends := ends + [|rows|];
        if |rows| >= limit {
          assert rows[..|rows|] == rows;
          HotSubset(index, roots, i + 1);
          assert HotFirst(index, roots, rows, |rows|);
          ghost var all := FullServed(index, roots, limit, rows, ends, i + 1);
          return;
        }
      }
      assert roots[..|roots|] == roots;
      var seen := Ids(rows);
      ghost var hot := rows;
      var others := Select(PendingIds(index) - seen, limit - |rows|);
      IdsConcat(rows, others);
      ServedThenOthers(index, roots, limit, hot, ends, others);
      rows := rows + others;
      assert rows[..|hot|] == hot && rows[|hot|..] == others;
      assert HotFirst(index, roots, rows, |hot|);
    }

    /** The write-back transaction of `embed_batch`. */
    method WriteBack(model: string, rows: seq<BatchRow>, vectors: seq<Vector>) returns (written: Result<nat, DbError>)
      modifies this
      ensures var spec := WriteBatch(old(index), model, rows, vectors);
        if spec.Ok? then index == spec.value.0 && written == Ok(spec.value.1)
        else index == old(index) && written == Err(spec.error)
    {
      if |rows| != |vectors| { return Err(LengthMismatch); }
      var ix := index;
      var count := 0;
      ghost var all := WriteRows(index, model, rows, vectors);
      assert rows[0..] == rows && vectors[0..] == vectors;
      for i := 0 to |rows|
        invariant var rest := WriteRows(ix, model, rows[i..], vectors[i..]);
          if all.Err? then rest == all else rest.Ok? && all == Ok((rest.value.0, count + rest.value.1))
      {
        assert rows[i..][1..] == rows[i + 1..] && vectors[i..][1..] == vectors[i + 1..];
        var step := WriteRow(ix, model, rows[i], vectors[i]);
        if step.Err? { return Err(step.error); }
        ix := step.value.0;
        count := count + step.value.1;
      }
      index := DropOrphans(ix);
      written := Ok(count);
    }
  }

  method Least(ids: set<nat>) returns (least: nat)
    requires ids != {}
    ensures least in ids && forall id :: id in ids ==> least <= id
  {
    least :| least in ids;
    var left := ids - {least};
    while left != {}
      invariant least in ids && left <= ids && (forall id :: id in ids && id !in left ==> least <= id)
      decreases left
    {
      var id :| id in left;
      if id < least { least := id; }
      left := left - {id};
    }
  }

  lemma IdsAppend(rows: seq<BatchRow>, row: BatchRow)
    ensures Ids(rows + [row]) == Ids(rows) + {row.id}
  {
    assert (rows + [row])[|rows|] == row;
    forall id | id in Ids(rows)
      ensures id in Ids(rows + [row])
    {
      var i :| 0 <= i < |rows| && rows[i].id == id;
      assert (rows + [row])[i].id == id;
    }
  }

  lemma IdsConcat(a: seq<BatchRow>, b: seq<BatchRow>)
    ensures Ids(a + b) == Ids(a) + Ids(b)
  {
    forall id | id in Ids(a) + Ids(b)
      ensures id in Ids(a + b)
    {
      if id in Ids(a) {
        var i :| 0 <= i < |a| && a[i].id == id;
        assert (a + b)[i].id == id;
      } else {
        var i :| 0 <= i < |b| && b[i].id == id;
        assert (a + b)[|a| + i].id == id;
      }
    }
  }

  lemma HotGrows(ix: Index, roots: seq<string>, i: nat, under: set<nat>)
    requires i < |roots|
    requires under == set id | id in ix.chunks && Pending(ix, id) && InRoot(ix.chunks[id].page, roots[i])
    ensures HotIds(ix, roots[..i + 1]) == HotIds(ix, roots[..i]) + under
  {
    assert roots[..i + 1][i] == roots[i];
    forall id | id in HotIds(ix, roots[..i]) + under
      ensures id in HotIds(ix, roots[..i + 1])
    {
      if id in HotIds(ix, roots[..i]) {
        var k :| 0 <= k < i && InRoot(ix.chunks[id].page, roots[..i][k]);
        assert roots[..i + 1][k] == roots[..i][k];
      }
    }
    forall id | id in HotIds(ix, roots[..i + 1])
      ensures id in HotIds(ix, roots[..i]) + under
    {
      var k :| 0 <= k < i + 1 && InRoot(ix.chunks[id].page, roots[..i + 1][k]);
      if k < i { assert roots[..i][k] == roots[..i + 1][k]; }
    }
  }

  lemma HotSubset(ix: Index, roots: seq<string>, i: nat)
    requires i <= |roots|
    ensures HotIds(ix, roots[..i]) <= HotIds(ix, roots)
  {
    forall id | id in HotIds(ix, roots[..i])
      ensures id in HotIds(ix, roots)
    {
      var k :| 0 <= k < i && InRoot(ix.chunks[id].page, roots[..i][k]);
      assert roots[k] == roots[..i][k];
    }
  }
}
