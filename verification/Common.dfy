/** What several of the models share: result types, powers of two, sequences of sequences. */
module Common {

  datatype Option<+T> = None | Some(value: T)

  datatype Result<+T, +E> = Ok(value: T) | Err(error: E)

  function Pow2(n: nat): nat {
    if n == 0 then 1 else 2 * Pow2(n - 1)
  }

  function Concat<T>(groups: seq<seq<T>>): seq<T> {
    if groups == [] then [] else groups[0] + Concat(groups[1..])
  }

  lemma {:induction false} ConcatSplit<T>(a: seq<seq<T>>, b: seq<seq<T>>)
    ensures Concat(a + b) == Concat(a) + Concat(b)
    decreases |a|
  {
    if a == [] {
      assert a + b == b;
    } else {
      assert (a + b)[1..] == a[1..] + b;
      ConcatSplit(a[1..], b);
    }
  }

  lemma {:induction false} ConcatOne<T>(group: seq<T>)
    ensures Concat([group]) == group
  {
    assert [group][1..] == [];
  }

  /** The members of the groups are what the concatenation holds. */
  lemma {:induction false} ConcatHolds<T>(groups: seq<seq<T>>, x: T)
    ensures x in Concat(groups) <==> exists k :: 0 <= k < |groups| && x in groups[k]
  {
    if groups != [] {
      ConcatHolds(groups[1..], x);
      if k :| 0 <= k < |groups| && x in groups[k] {
        if k > 0 { assert groups[1..][k - 1] == groups[k]; }
      }
      if k :| 0 <= k < |groups[1..]| && x in groups[1..][k] { assert groups[k + 1] == groups[1..][k]; }
    }
  }
}
