/**
 * Row-level table operations: concatenation of a list of tables, as
 * `pd.concat(frames, ignore_index=True)` does it (the rows of the first frame,
 * then those of the second, and so on), and boolean-mask selection
 * `df[mask]`, which keeps the selected rows in their order.
 */
module Seqs {
  import opened Wrappers

  lemma {:induction false} AppendAssoc<T>(a: seq<T>, b: seq<T>, c: seq<T>)
    ensures a + (b + c) == (a + b) + c
  {
  }

  /** Number of rows over all blocks. */
  function TotalLength<T>(blocks: seq<seq<T>>): nat {
    if |blocks| == 0 then 0 else TotalLength(blocks[..|blocks| - 1]) + |blocks[|blocks| - 1]|
  }

  /** Blocks of at least one row each hold at least one row per block between them. */
  lemma {:induction false} TotalLengthAtLeast<T>(blocks: seq<seq<T>>)
    requires forall i :: 0 <= i < |blocks| ==> |blocks[i]| >= 1
    ensures TotalLength(blocks) >= |blocks|
    decreases |blocks|
  {
    if |blocks| > 0 {
      TotalLengthAtLeast(blocks[..|blocks| - 1]);
    }
  }

  function Concat<T>(blocks: seq<seq<T>>): (r: seq<T>)
    ensures |r| == TotalLength(blocks)
  {
    if |blocks| == 0 then [] else Concat(blocks[..|blocks| - 1]) + blocks[|blocks| - 1]
  }

  lemma {:induction false} ConcatAppend<T>(a: seq<seq<T>>, b: seq<seq<T>>)
    ensures Concat(a + b) == Concat(a) + Concat(b)
    ensures TotalLength(a + b) == TotalLength(a) + TotalLength(b)
    decreases |b|
  {
    if |b| == 0 {
      assert a + b == a;
    } else {
      var b', x := b[..|b| - 1], b[|b| - 1];
      assert (a + b)[..|a + b| - 1] == a + b';
      assert (a + b)[|a + b| - 1] == x;
      ConcatAppend(a, b');
      AppendAssoc(Concat(a), Concat(b'), x);
    }
  }

  /**
   * Block `i` sits, unchanged, right after the rows of blocks 0..i-1: the
   * blocks appear in their original order.
   */
  lemma {:induction false} BlockPosition<T>(blocks: seq<seq<T>>, i: int)
    requires 0 <= i < |blocks|
    ensures TotalLength(blocks[..i]) + |blocks[i]| == TotalLength(blocks[..i + 1]) <= TotalLength(blocks)
    ensures Concat(blocks)[TotalLength(blocks[..i])..TotalLength(blocks[..i + 1])] == blocks[i]
  {
    var front, back := blocks[..i + 1], blocks[i + 1..];
    assert blocks == front + back;
    ConcatAppend(front, back);
    assert front[..i] == blocks[..i];
  }

  /** Every row of the concatenation comes from some block. */
  lemma {:induction false} ConcatMember<T>(blocks: seq<seq<T>>, x: T)
    ensures x in Concat(blocks) <==> exists i :: 0 <= i < |blocks| && x in blocks[i]
    decreases |blocks|
  {
    if |blocks| > 0 {
      var front := blocks[..|blocks| - 1];
      ConcatMember(front, x);
      if x in Concat(blocks) && x !in blocks[|blocks| - 1] {
        var i :| 0 <= i < |front| && x in front[i];
        assert x in blocks[i];
      }
      if exists i :: 0 <= i < |blocks| && x in blocks[i] {
        var i :| 0 <= i < |blocks| && x in blocks[i];
        if i < |front| {
          assert x in front[i];
        }
      }
    }
  }

  /** `df[df.apply(keep)]`: the rows satisfying `keep`, in their original order. */
  function Filter<T>(s: seq<T>, keep: T -> bool): (r: seq<T>)
    ensures |r| <= |s|
    ensures forall x :: x in r ==> x in s && keep(x)
  {
    if |s| == 0 then []
    else Filter(s[..|s| - 1], keep) + (if keep(s[|s| - 1]) then [s[|s| - 1]] else [])
  }

  /** A single row is kept exactly when `keep` holds. */
  lemma {:induction false} FilterSingle<T>(x: T, keep: T -> bool)
    ensures Filter([x], keep) == if keep(x) then [x] else []
  {
    assert [x][..0] == [];
  }

  /**
   * Selection distributes over concatenation, and on one row keeps it exactly
   * when `keep` holds: the kept rows stay in their original relative order.
   */
  lemma {:induction false} FilterAppend<T>(a: seq<T>, b: seq<T>, keep: T -> bool)
    ensures Filter(a + b, keep) == Filter(a, keep) + Filter(b, keep)
    ensures Filter([], keep) == []
    ensures |b| == 1 ==> Filter(b, keep) == if keep(b[0]) then b else []
    decreases |b|
  {
    if |b| == 0 {
      assert a + b == a;
    } else {
      var front, x := b[..|b| - 1], b[|b| - 1];
      var last := if keep(x) then [x] else [];
      assert (a + b)[..|a + b| - 1] == a + front;
      assert (a + b)[|a + b| - 1] == x;
      FilterAppend(a, front, keep);
      AppendAssoc(Filter(a, keep), Filter(front, keep), last);
      if |b| == 1 {
        assert b == [x];
        FilterSingle(x, keep);
      }
    }
  }

  /** A row is selected exactly when it is a row of the input that satisfies `keep`. */
  lemma {:induction false} FilterMember<T>(s: seq<T>, keep: T -> bool, x: T)
    ensures x in Filter(s, keep) <==> x in s && keep(x)
    decreases |s|
  {
    if |s| > 0 {
      FilterMember(s[..|s| - 1], keep, x);
      assert s == s[..|s| - 1] + [s[|s| - 1]];
    }
  }

  /**
   * Converting a column with `f`, which raises on a bad cell: all cells
   * converted in order, or an error as soon as one cell fails.
   */
  function MapAll<A, B>(s: seq<A>, f: A -> Result<B>): (r: Result<seq<B>>)
    ensures r.Ok? ==> |r.value| == |s| && forall k :: 0 <= k < |s| ==> f(s[k]) == Ok(r.value[k])
    ensures r.Err? <==> exists k :: 0 <= k < |s| && f(s[k]).Err?
  {
    if |s| == 0 then Ok([])
    else
      var front := s[..|s| - 1];
      match (MapAll(front, f), f(s[|s| - 1]))
      case (Ok(vs), Ok(v)) => Ok(vs + [v])
      case (Err(e), _) =>
        assert forall k :: 0 <= k < |front| ==> front[k] == s[k];
        Err(e)
      case (_, Err(e)) => Err(e)
  }

  /** Converting one more cell after a prefix that converted appends its value. */
  lemma {:induction false} MapAllSnoc<A, B>(s: seq<A>, f: A -> Result<B>, i: int, vs: seq<B>)
    requires 0 <= i < |s| && MapAll(s[..i], f) == Ok(vs) && f(s[i]).Ok?
    ensures MapAll(s[..i + 1], f) == Ok(vs + [f(s[i]).value])
  {
    assert s[..i + 1][..i] == s[..i];
  }

  /** One element that fails to convert makes the whole conversion fail. */
  lemma {:induction false} MapAllFails<A, B>(s: seq<A>, f: A -> Result<B>, x: A)
    requires x in s && f(x).Err?
    ensures MapAll(s, f).Err?
  {
    var k :| 0 <= k < |s| && s[k] == x;
    assert f(s[k]).Err?;
  }

  /** `Series.unique()`: every value once, in order of first occurrence. */
  function Distinct<T(==)>(s: seq<T>): (r: seq<T>)
    ensures forall k :: 0 <= k < |r| ==> r[k] in s
    ensures forall k :: 0 <= k < |s| ==> s[k] in r
    ensures forall i, j :: 0 <= i < j < |r| ==> r[i] != r[j]
  {
    if |s| == 0 then []
    else
      var front := s[..|s| - 1];
      var d := Distinct(front);
      assert s == front + [s[|s| - 1]];
      if s[|s| - 1] in d then d else d + [s[|s| - 1]]
  }

  /** `unique()` keeps exactly the values that occur. */
  lemma {:induction false} DistinctMember<T>(s: seq<T>, x: T)
    ensures x in Distinct(s) <==> x in s
  {
    if x in s {
      var k :| 0 <= k < |s| && s[k] == x;
    }
  }

  /** Position of the first occurrence of `x`. */
  function FirstIndex<T(==)>(s: seq<T>, x: T): (i: nat)
    requires x in s
    ensures i < |s| && s[i] == x && x !in s[..i]
  {
    if s[0] == x then 0
    else
      var i := FirstIndex(s[1..], x) + 1;
      assert s[..i] == [s[0]] + s[1..][..i - 1];
      i
  }

  lemma {:induction false} FirstIndexUnique<T>(s: seq<T>, x: T, i: int)
    requires 0 <= i < |s| && s[i] == x && x !in s[..i]
    ensures FirstIndex(s, x) == i
  {
  }

  /** A value occurring in a prefix first occurs at the same place in the whole sequence. */
  lemma {:induction false} FirstIndexPrefix<T>(s: seq<T>, m: int, x: T)
    requires 0 <= m <= |s| && x in s[..m]
    ensures x in s && FirstIndex(s, x) == FirstIndex(s[..m], x) < m
  {
    var i := FirstIndex(s[..m], x);
    assert s[..m][..i] == s[..i];
    FirstIndexUnique(s, x, i);
  }

  /** Two distinct values are listed in the order of their first occurrences. */
  lemma {:induction false} DistinctOrderPair<T>(s: seq<T>, i: int, j: int)
    requires 0 <= i < j < |Distinct(s)|
    ensures FirstIndex(s, Distinct(s)[i]) < FirstIndex(s, Distinct(s)[j])
    decreases |s|
  {
    var n := |s|;
    var front, last := s[..n - 1], s[n - 1];
    var d, r := Distinct(front), Distinct(s);
    assert r[i] == d[i] && d[i] in front;
    FirstIndexPrefix(s, n - 1, d[i]);
    if j < |d| {
      assert r[j] == d[j] && d[j] in front;
      DistinctOrderPair(front, i, j);
      FirstIndexPrefix(s, n - 1, d[j]);
    } else {
      assert last !in front && r[j] == last;
      FirstIndexUnique(s, last, n - 1);
    }
  }

  /** The distinct values are listed in the order of their first occurrences. */
  lemma {:induction false} DistinctOrder<T>(s: seq<T>)
    ensures forall i, j :: 0 <= i < j < |Distinct(s)| ==>
      FirstIndex(s, Distinct(s)[i]) < FirstIndex(s, Distinct(s)[j])
  {
    forall i, j | 0 <= i < j < |Distinct(s)|
      ensures FirstIndex(s, Distinct(s)[i]) < FirstIndex(s, Distinct(s)[j])
    {
      DistinctOrderPair(s, i, j);
    }
  }
}
