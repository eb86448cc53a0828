/**
 Batched embedding: batches run concurrently and finish in any order; sorting by
 batch index and flattening restores chunk order.
 */
module Embedding {
  import opened Options

  /** The chunks in slices of `size`. */
  function Slices<T>(chunks: seq<T>, size: nat): seq<seq<T>>
    requires size >= 1
  {
    if chunks == [] then []
    else if |chunks| <= size then [chunks]
    else [chunks[..size]] + Slices(chunks[size..], size)
  }

  /** The batches of range(0, len, size): a zero step is an error, a negative one yields nothing. */
  function Batches<T>(chunks: seq<T>, size: int): Option<seq<seq<T>>> {
    if size == 0 then None else if size < 0 then Some([]) else Some(Slices(chunks, size))
  }

  function Map<T, V>(f: T -> V, s: seq<T>): (r: seq<V>)
    ensures |r| == |s| && forall i :: 0 <= i < |s| ==> r[i] == f(s[i])
  {
    seq(|s|, i requires 0 <= i < |s| => f(s[i]))
  }

  /** What the embedding requests return, numbered from `first`, in batch order. */
  function Results<T, V>(f: T -> V, batches: seq<seq<T>>, first: nat): seq<(nat, seq<V>)> {
    if batches == [] then [] else [(first, Map(f, batches[0]))] + Results(f, batches[1..], first + 1)
  }

  // ---------------------------------------------------------------- sort

  function Insert<V>(x: (nat, V), s: seq<(nat, V)>): seq<(nat, V)> {
    if s == [] || x.0 <= s[0].0 then [x] + s else [s[0]] + Insert(x, s[1..])
  }

  /** The stable sort by batch index. */
  function SortByIndex<V>(s: seq<(nat, V)>): seq<(nat, V)> {
    if s == [] then [] else Insert(s[0], SortByIndex(s[1..]))
  }

  function Flatten<V>(s: seq<(nat, seq<V>)>): seq<V> {
    if s == [] then [] else s[0].1 + Flatten(s[1..])
  }

  predicate Sorted<V>(s: seq<(nat, V)>) {
    forall i, j :: 0 <= i < j < |s| ==> s[i].0 <= s[j].0
  }

  predicate StrictlySorted<V>(s: seq<(nat, V)>) {
    forall i, j :: 0 <= i < j < |s| ==> s[i].0 < s[j].0
  }

  lemma InsertedAreLarger<V>(low: (nat, V), x: (nat, V), s: seq<(nat, V)>, rest: seq<(nat, V)>)
    requires low.0 <= x.0 && forall j :: 0 <= j < |s| ==> low.0 <= s[j].0
    requires multiset(rest) == multiset{x} + multiset(s)
    ensures forall j :: 0 <= j < |rest| ==> low.0 <= rest[j].0
  {
    forall j | 0 <= j < |rest| ensures low.0 <= rest[j].0 {
      assert rest[j] in multiset(rest);
      assert rest[j] == x || rest[j] in s;
    }
  }

  lemma {:induction false} InsertSorts<V>(x: (nat, V), s: seq<(nat, V)>)
    requires Sorted(s)
    ensures Sorted(Insert(x, s)) && multiset(Insert(x, s)) == multiset{x} + multiset(s)
  {
    if s != [] && s[0].0 < x.0 {
      InsertSorts(x, s[1..]);
      InsertedAreLarger(s[0], x, s[1..], Insert(x, s[1..]));
      PrependSorts(s[0], Insert(x, s[1..]));
      assert s == [s[0]] + s[1..];
    } else {
      PrependSorts(x, s);
    }
  }

  lemma PrependSorts<V>(low: (nat, V), rest: seq<(nat, V)>)
    requires Sorted(rest) && forall j :: 0 <= j < |rest| ==> low.0 <= rest[j].0
    ensures Sorted([low] + rest) && multiset([low] + rest) == multiset{low} + multiset(rest)
  {
  }

  lemma {:induction false} SortSorts<V>(s: seq<(nat, V)>)
    ensures Sorted(SortByIndex(s)) && multiset(SortByIndex(s)) == multiset(s)
  {
    if s != [] {
      SortSorts(s[1..]);
      InsertSorts(s[0], SortByIndex(s[1..]));
      assert s == [s[0]] + s[1..];
    }
  }

  lemma SameSmallest<V>(a: seq<(nat, V)>, b: seq<(nat, V)>)
    requires Sorted(a) && StrictlySorted(b) && multiset(a) == multiset(b) && a != [] && b != []
    ensures a[0] == b[0]
  {
    assert a[0] in multiset(b) && b[0] in multiset(a);
    var i :| 0 <= i < |b| && b[i] == a[0];
    var j :| 0 <= j < |a| && a[j] == b[0];
  }

  lemma TailsOf<T>(a: seq<T>)
    requires a != []
    ensures a == [a[0]] + a[1..] && multiset(a[1..]) == multiset(a) - multiset{a[0]}
  {
    assert a == [a[0]] + a[1..];
  }

  /** A sorted arrangement of distinctly numbered results is the numbered list. */
  lemma {:induction false} SortedIsUnique<V>(a: seq<(nat, V)>, b: seq<(nat, V)>)
    requires Sorted(a) && StrictlySorted(b) && multiset(a) == multiset(b)
    ensures a == b
    decreases |b|
  {
    assert |a| == |multiset(a)| == |multiset(b)| == |b|;
    if b != [] {
      SameSmallest(a, b);
      TailsOf(a);
      TailsOf(b);
      SortedIsUnique(a[1..], b[1..]);
    }
  }

  lemma {:induction false} ResultsAreNumbered<T, V>(f: T -> V, batches: seq<seq<T>>, first: nat)
    ensures var r := Results(f, batches, first); |r| == |batches| && forall i :: 0 <= i < |r| ==> r[i].0 == first + i
  {
    if batches != [] {
      ResultsAreNumbered(f, batches[1..], first + 1);
    }
  }

  lemma FlattenOne<V>(index: nat, vectors: seq<V>)
    ensures Flatten([(index, vectors)]) == vectors
  {
    var s := [(index, vectors)];
    assert s[1..] == [];
    assert Flatten(s) == vectors + Flatten(s[1..]);
  }

  lemma {:induction false} ResultsFlatten<T, V>(f: T -> V, chunks: seq<T>, size: nat, first: nat)
    requires size >= 1
    ensures Flatten(Results(f, Slices(chunks, size), first)) == Map(f, chunks)
    decreases |chunks|
  {
    if chunks != [] {
      var batches := Slices(chunks, size);
      var r := Results(f, batches, first);
      if |chunks| <= size {
        assert batches == [chunks];
        assert Results(f, batches[1..], first + 1) == [];
        assert r == [(first, Map(f, batches[0]))] + [];
        assert r == [(first, Map(f, chunks))];
        FlattenOne(first, Map(f, chunks));
      } else {
        assert batches[1..] == Slices(chunks[size..], size);
        ResultsFlatten(f, chunks[size..], size, first + 1);
        assert r[1..] == Results(f, batches[1..], first + 1);
        assert Map(f, chunks[..size]) + Map(f, chunks[size..]) == Map(f, chunks);
      }
    }
  }

  /** One vector per chunk, vector i the embedding of chunk i, for any batch size
      of at least one and any completion order of the batches. */
  lemma EmbeddingOrder<T, V>(f: T -> V, chunks: seq<T>, size: int, completed: seq<(nat, seq<V>)>)
    requires size >= 1
    requires multiset(completed) == multiset(Results(f, Batches(chunks, size).value, 0))
    ensures Flatten(SortByIndex(completed)) == Map(f, chunks)
  {
    var numbered := Results(f, Slices(chunks, size), 0);
    SortSorts(completed);
    ResultsAreNumbered(f, Slices(chunks, size), 0);
    SortedIsUnique(SortByIndex(completed), numbered);
    ResultsFlatten(f, chunks, size, 0);
  }

  /** No batch exceeds the size limit of a request, and none is empty. */
  lemma {:induction false} SlicesFit<T>(chunks: seq<T>, size: nat)
    requires size >= 1
    ensures forall i :: 0 <= i < |Slices(chunks, size)| ==> 1 <= |Slices(chunks, size)[i]| <= size
    decreases |chunks|
  {
    if size < |chunks| {
      SlicesFit(chunks[size..], size);
    }
  }

  /** Batch sizes that make no sense: zero is refused, a negative one embeds nothing. */
  lemma MeaninglessBatchSizes<T, V>(f: T -> V, chunks: seq<T>, size: int)
    requires size <= 0
    ensures size == 0 ==> Batches(chunks, size) == None
    ensures size < 0 ==> Batches(chunks, size).Some? && Flatten(Results(f, Batches(chunks, size).value, 0)) == []
  {
  }
}
