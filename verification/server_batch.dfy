/** `processBatch` of the status backend: the items are cut into consecutive
    chunks of `concurrency`, every item of a chunk is looked up, a lookup
    that fails or yields nothing is dropped, and the survivors are collected
    in input order. The lookups of one chunk run concurrently in the source
    and the next chunk waits for all of them; that does not change the
    result, so here they run one after another. Every chunk is followed by a
    short pause when there is more than one chunk; the pause is counted. */
module Batch {
  import opened Wrappers
  import Arith

  /** The results of `process` that are not `None`, in input order. `None`
      stands both for a `null` result and for a rejected lookup. */
  function Survivors<T, U>(items: seq<T>, process: T -> Option<U>): seq<U>
    decreases |items|
  {
    if items == [] then []
    else (match process(items[0]) case Some(u) => [u] case None => []) + Survivors(items[1..], process)
  }

  lemma {:induction false} SurvivorsAppend<T, U>(a: seq<T>, b: seq<T>, process: T -> Option<U>)
    ensures Survivors(a + b, process) == Survivors(a, process) + Survivors(b, process)
    decreases |a|
  {
    if a != [] {
      assert (a + b)[0] == a[0];
      assert (a + b)[1..] == a[1..] + b;
      SurvivorsAppend(a[1..], b, process);
    } else {
      assert a + b == b;
    }
  }

  /** A single item survives exactly when its lookup yields something. */
  lemma SurvivorsOne<T, U>(x: T, process: T -> Option<U>)
    ensures Survivors([x], process) == match process(x) case Some(u) => [u] case None => []
  {
    assert [x][1..] == [];
  }

  /** Never more results than items; exactly one per item when no lookup
      fails, in the items' order; none at all when every lookup fails. */
  lemma {:induction false} SurvivorsBounds<T, U>(items: seq<T>, process: T -> Option<U>)
    ensures |Survivors(items, process)| <= |items|
    ensures (forall i :: 0 <= i < |items| ==> process(items[i]).Some?) ==>
              |Survivors(items, process)| == |items| &&
              forall i :: 0 <= i < |items| ==> Survivors(items, process)[i] == process(items[i]).value
    ensures (forall i :: 0 <= i < |items| ==> process(items[i]).None?) ==> Survivors(items, process) == []
    decreases |items|
  {
    if items != [] {
      SurvivorsBounds(items[1..], process);
      assert forall i :: 1 <= i < |items| ==> items[1..][i - 1] == items[i];
    }
  }

  /** Every result is the result of looking up some item. */
  lemma {:induction false} SurvivorsComeFromItems<T, U>(items: seq<T>, process: T -> Option<U>, k: nat)
    requires k < |Survivors(items, process)|
    ensures exists i :: 0 <= i < |items| && process(items[i]) == Some(Survivors(items, process)[k])
    decreases |items|
  {
    var head := match process(items[0]) case Some(u) => [u] case None => [];
    if k < |head| {
      assert process(items[0]) == Some(Survivors(items, process)[k]);
    } else {
      SurvivorsComeFromItems(items[1..], process, k - |head|);
      var i :| 0 <= i < |items[1..]| && process(items[1..][i]) == Some(Survivors(items[1..], process)[k - |head|]);
      assert process(items[i + 1]) == Some(Survivors(items, process)[k]);
    }
  }

  /** The concatenation of the chunks, in order. */
  function Flatten<T>(chunks: seq<seq<T>>): seq<T>
    decreases |chunks|
  {
    if chunks == [] then [] else Flatten(chunks[..|chunks| - 1]) + chunks[|chunks| - 1]
  }

  /** The number of chunks of size `c` needed for `n` items. */
  function CeilDiv(n: nat, c: nat): nat
    requires c >= 1
  {
    (n + c - 1) / c
  }

  lemma CeilDivCharacterised(n: nat, c: nat, k: nat)
    requires c >= 1
    requires (k == 0 && n == 0) || (k >= 1 && (k - 1) * c < n <= k * c)
    ensures CeilDiv(n, c) == k
  {
    if k >= 1 {
      var a := n + c - 1;
      assert k * c <= a < (k + 1) * c;
      Arith.DivFromBounds(a, c, k);
    }
  }

  /** The first loop of `processBatch`: slices of `concurrency` items. The
      chunks concatenate to the input, there are ceil(n / concurrency) of
      them, none is empty, none is larger than `concurrency`, and only the
      last may be smaller. */
  method Chunk<T>(items: seq<T>, concurrency: nat) returns (batches: seq<seq<T>>)
    requires concurrency >= 1
    ensures Flatten(batches) == items
    ensures |batches| == CeilDiv(|items|, concurrency)
    ensures forall j :: 0 <= j < |batches| ==> 1 <= |batches[j]| <= concurrency
    ensures forall j :: 0 <= j < |batches| - 1 ==> |batches[j]| == concurrency
  {
    batches := [];
    var i: nat := 0;
    while i < |items|
      invariant ChunkedUpTo(items, concurrency, batches, i)
    {
      var end := Min(i + concurrency, |items|);
      var slice := items[i..end];
      ChunkStep(items, concurrency, batches, i);
      batches := batches + [slice];
      i := i + concurrency;
    }
    ChunkDone(items, concurrency, batches, i);
  }

  /** The invariant of the chunking loop: the first `i` items (all of them
      once `i` passes the end) are cut into full chunks, the last of which
      may be short only when the input is used up. */
  ghost predicate ChunkedUpTo<T>(items: seq<T>, c: nat, batches: seq<seq<T>>, i: nat)
  {
    && c >= 1
    && i == |batches| * c
    && Flatten(batches) == items[..Min(i, |items|)]
    && (|batches| > 0 ==> i - c < |items|)
    && (forall j :: 0 <= j < |batches| ==> 1 <= |batches[j]| <= c)
    && (forall j :: 0 <= j < |batches| - 1 ==> |batches[j]| == c)
    && (|batches| > 0 && i <= |items| ==> |batches[|batches| - 1]| == c)
  }

  lemma ChunkStep<T>(items: seq<T>, c: nat, batches: seq<seq<T>>, i: nat)
    requires ChunkedUpTo(items, c, batches, i) && i < |items|
    ensures ChunkedUpTo(items, c, batches + [items[i..Min(i + c, |items|)]], i + c)
  {
    var end := Min(i + c, |items|);
    var slice := items[i..end];
    FlattenStep(batches, slice, items, i, end);
    assert Min(i, |items|) == i;
    Arith.MulSucc(|batches|, c);
    SizesStep(batches, slice, c);
  }

  /** Appending a chunk of between 1 and `c` elements after full chunks. */
  lemma SizesStep<T>(batches: seq<seq<T>>, slice: seq<T>, c: nat)
    requires forall j :: 0 <= j < |batches| ==> |batches[j]| == c
    requires 1 <= |slice| <= c
    ensures var next := batches + [slice];
            (forall j :: 0 <= j < |next| ==> 1 <= |next[j]| <= c) &&
            (forall j :: 0 <= j < |next| - 1 ==> |next[j]| == c)
  {
    var next := batches + [slice];
    forall j | 0 <= j < |next| - 1 ensures |next[j]| == c {
      assert next[j] == batches[j];
    }
  }

  lemma ChunkDone<T>(items: seq<T>, c: nat, batches: seq<seq<T>>, i: nat)
    requires ChunkedUpTo(items, c, batches, i) && i >= |items|
    ensures Flatten(batches) == items
    ensures |batches| == CeilDiv(|items|, c)
  {
    assert items[..|items|] == items;
    var k := |batches|;
    if k > 0 {
      assert (k - 1) * c == i - c;
    }
    CeilDivCharacterised(|items|, c, k);
  }

  function Min(a: nat, b: nat): nat
  {
    if a <= b then a else b
  }

  lemma FlattenStep<T>(chunks: seq<seq<T>>, slice: seq<T>, items: seq<T>, i: nat, end: nat)
    requires i <= end <= |items| && Flatten(chunks) == items[..i] && slice == items[i..end]
    ensures Flatten(chunks + [slice]) == items[..end]
  {
    assert (chunks + [slice])[..|chunks|] == chunks;
    assert items[..end] == items[..i] + items[i..end];
  }

  /** `processBatch`: the survivors of the whole input, in order, and one
      pause per chunk whenever there is more than one chunk (that is, when
      there are more items than `concurrency`). */
  method ProcessBatch<T, U>(items: seq<T>, process: T -> Option<U>, concurrency: nat)
    returns (results: seq<U>, pauses: nat)
    requires concurrency >= 1
    ensures results == Survivors(items, process)
    ensures pauses == if |items| > concurrency then CeilDiv(|items|, concurrency) else 0
  {
    var batches := Chunk(items, concurrency);
    results := [];
    pauses := 0;
    var j := 0;
    while j < |batches|
      invariant 0 <= j <= |batches|
      invariant results == Survivors(Flatten(batches[..j]), process)
      invariant pauses == if |batches| > 1 then j else 0
    {
      assert batches[..j + 1][..j] == batches[..j];
      SurvivorsAppend(Flatten(batches[..j]), batches[j], process);
      results := results + Survivors(batches[j], process);
      if |batches| > 1 {
        pauses := pauses + 1;
      }
      j := j + 1;
    }
    assert batches[..|batches|] == batches;
    MoreThanOneChunk(|items|, concurrency);
  }

  lemma MoreThanOneChunk(n: nat, c: nat)
    requires c >= 1
    ensures CeilDiv(n, c) > 1 <==> n > c
  {
    if n > c {
      assert n + c - 1 >= 2 * c;
      Arith.DivMonotone(2 * c, n + c - 1, c);
      Arith.DivFromBounds(2 * c, c, 2);
    } else {
      assert n + c - 1 < 2 * c;
      if n == 0 {
        Arith.DivFromBounds(n + c - 1, c, 0);
      } else {
        Arith.DivFromBounds(n + c - 1, c, 1);
      }
    }
  }
}
