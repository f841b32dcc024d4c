/**
 * The chunked gather loop both checkpoint-aware clients run over their repositories:
 * the repositories are taken in consecutive chunks of a fixed size, every repository of a
 * chunk contributes its pull requests (a failing one contributes none), the contributions
 * are pushed in repository order, and the client pauses between chunks but not after the
 * last one. The requests inside a chunk run concurrently in the extension; their results
 * are pushed in chunk order, which is what this model keeps.
 */
module Chunked {

  /** Every item's contribution, concatenated in item order. */
  function Gather<T, R>(items: seq<T>, contribution: T -> seq<R>): seq<R> {
    if items == [] then []
    else Gather(items[..|items| - 1], contribution) + contribution(items[|items| - 1])
  }

  /** The chunks laid end to end. */
  function Flatten<T>(chunks: seq<seq<T>>): seq<T> {
    if chunks == [] then []
    else Flatten(chunks[..|chunks| - 1]) + chunks[|chunks| - 1]
  }

  /** Gathering distributes over concatenation of the item list. */
  lemma {:induction false} GatherConcat<T, R>(a: seq<T>, b: seq<T>, contribution: T -> seq<R>)
    ensures Gather(a + b, contribution) == Gather(a, contribution) + Gather(b, contribution)
    decreases |b|
  {
    if b == [] {
      assert a + b == a;
    } else {
      var b' := b[..|b| - 1];
      assert (a + b)[..|a + b| - 1] == a + b';
      GatherConcat(a, b', contribution);
    }
  }

  /** Items that all contribute nothing gather to nothing. */
  lemma {:induction false} GatherOfNothing<T, R>(items: seq<T>, contribution: T -> seq<R>)
    requires forall k :: 0 <= k < |items| ==> contribution(items[k]) == []
    ensures Gather(items, contribution) == []
  {
    if items != [] {
      GatherOfNothing(items[..|items| - 1], contribution);
    }
  }

  /** The contribution of the item at position `k` sits in the gathered result where its predecessors end. */
  lemma {:induction false} GatherAt<T, R>(items: seq<T>, k: nat, contribution: T -> seq<R>)
    requires k < |items|
    ensures Gather(items, contribution)
      == Gather(items[..k], contribution) + contribution(items[k]) + Gather(items[k + 1..], contribution)
  {
    var single, before, after := [items[k]], items[..k], items[k + 1..];
    assert single[..0] == [];
    assert Gather(single, contribution) == contribution(items[k]);
    assert items == before + (single + after);
    GatherConcat(single, after, contribution);
    GatherConcat(before, single + after, contribution);
    calc {
      Gather(items, contribution);
      Gather(before, contribution) + Gather(single + after, contribution);
      Gather(before, contribution) + (contribution(items[k]) + Gather(after, contribution));
    }
  }

  /** An item that contributes nothing leaves no trace in the gathered result. */
  lemma {:induction false} GatherSkipsEmpty<T, R>(items: seq<T>, k: nat, contribution: T -> seq<R>)
    requires k < |items| && contribution(items[k]) == []
    ensures Gather(items, contribution) == Gather(items[..k], contribution) + Gather(items[k + 1..], contribution)
  {
    GatherAt(items, k, contribution);
  }

  lemma {:induction false} FlattenFullLength<T>(chunks: seq<seq<T>>, size: nat)
    requires forall k :: 0 <= k < |chunks| ==> |chunks[k]| == size
    ensures |Flatten(chunks)| == |chunks| * size
  {
    if chunks != [] {
      var init := chunks[..|chunks| - 1];
      FlattenFullLength(init, size);
      assert |chunks| * size == |init| * size + size;
    }
  }

  /** Chunks that are all full but the last, which is non-empty, pin down how many there are. */
  lemma FlattenLength<T>(chunks: seq<seq<T>>, size: nat)
    requires chunks != []
    requires forall k :: 0 <= k < |chunks| ==> 0 < |chunks[k]| <= size
    requires forall k :: 0 <= k < |chunks| - 1 ==> |chunks[k]| == size
    ensures (|chunks| - 1) * size < |Flatten(chunks)| <= |chunks| * size
  {
    var init := chunks[..|chunks| - 1];
    FlattenFullLength(init, size);
    assert |chunks| * size == |init| * size + size;
  }

  function Min(a: int, b: int): int {
    if a < b then a else b
  }

  /** `results.forEach(prs => all.push(...prs))` over the chunk's results, in chunk order. */
  method PushContributions<T, R>(all: seq<R>, chunk: seq<T>, contribution: T -> seq<R>) returns (gathered: seq<R>)
    ensures gathered == all + Gather(chunk, contribution)
  {
    gathered := all;
    var j := 0;
    while j < |chunk|
      invariant 0 <= j <= |chunk|
      invariant gathered == all + Gather(chunk[..j], contribution)
    {
      assert chunk[..j + 1][..j] == chunk[..j];
      gathered := gathered + contribution(chunk[j]);
      j := j + 1;
    }
    assert chunk[..|chunk|] == chunk;
  }

  /** Every chunk is non-empty and at most `size` long, and all but the last are full. */
  predicate SizedChunks<T>(chunks: seq<seq<T>>, size: nat) {
    && (forall k :: 0 <= k < |chunks| ==> 0 < |chunks[k]| <= size)
    && (forall k :: 0 <= k < |chunks| - 1 ==> |chunks[k]| == size)
  }

  predicate FullChunks<T>(chunks: seq<seq<T>>, size: nat) {
    forall k :: 0 <= k < |chunks| ==> |chunks[k]| == size
  }

  /** A non-empty chunk of at most `size` after full ones keeps the chunks sized, and full when it is full. */
  lemma {:induction false} AppendChunk<T>(chunks: seq<seq<T>>, chunk: seq<T>, size: nat)
    requires FullChunks(chunks, size) && 0 < |chunk| <= size
    ensures SizedChunks(chunks + [chunk], size)
    ensures |chunk| == size ==> FullChunks(chunks + [chunk], size)
  {
    var r := chunks + [chunk];
    forall k | 0 <= k < |r| ensures r[k] == (if k < |chunks| then chunks[k] else chunk) {
    }
  }

  /** Taking the next slice extends both the laid-out chunks and the gathered prefix. */
  lemma {:induction false} TakeChunk<T, R>(items: seq<T>, i: nat, end: nat, chunks: seq<seq<T>>, contribution: T -> seq<R>)
    requires i <= end <= |items| && Flatten(chunks) == items[..i]
    ensures Flatten(chunks + [items[i..end]]) == items[..end]
    ensures Gather(items[..i], contribution) + Gather(items[i..end], contribution) == Gather(items[..end], contribution)
  {
    assert items[..end] == items[..i] + items[i..end];
    GatherConcat(items[..i], items[i..end], contribution);
    assert (chunks + [items[i..end]])[..|chunks|] == chunks;
  }

  /**
   * The loop `for (i = 0; i < items.length; i += size)`: gathers chunk `items[i..i+size]`,
   * pushing each contribution, and pauses when `i + size < items.length`. `chunks` records
   * the slices taken and `pauses` the number of pauses.
   */
  method ChunkedGather<T, R>(items: seq<T>, size: nat, contribution: T -> seq<R>)
    returns (all: seq<R>, chunks: seq<seq<T>>, pauses: nat)
    requires size > 0
    ensures all == Gather(items, contribution)
    ensures Flatten(chunks) == items
    ensures forall k :: 0 <= k < |chunks| ==> 0 < |chunks[k]| <= size
    ensures forall k :: 0 <= k < |chunks| - 1 ==> |chunks[k]| == size
    ensures pauses == if chunks == [] then 0 else |chunks| - 1
    ensures items != [] ==> pauses * size < |items| <= (pauses + 1) * size
  {
    all, chunks, pauses := [], [], 0;
    var i := 0;
    while i < |items|
      invariant i == 0 <==> chunks == []
      invariant Flatten(chunks) == items[..Min(i, |items|)]
      invariant all == Gather(items[..Min(i, |items|)], contribution)
      invariant SizedChunks(chunks, size)
      invariant i < |items| ==> FullChunks(chunks, size)
      invariant pauses == if i < |items| then |chunks| else if chunks == [] then 0 else |chunks| - 1
      decreases |items| - i
    {
      var end := Min(i + size, |items|);
      var chunk := items[i..end];
      var gathered := PushContributions(all, chunk, contribution);
      TakeChunk(items, i, end, chunks, contribution);
      AppendChunk(chunks, chunk, size);
      all := gathered;
      chunks := chunks + [chunk];
      if i + size < |items| {
        pauses := pauses + 1;
      }
      i := i + size;
    }
    assert items[..Min(i, |items|)] == items;
    if chunks != [] {
      FlattenLength(chunks, size);
    }
  }
}
