/** `chunkArray`: cuts the descriptor list into consecutive request batches. */
module Chunker {
  import opened Seqs

  /** The batches of `a` of at most `n` elements each, front to back. */
  function Chunks<T>(a: seq<T>, n: nat): seq<seq<T>>
    requires n > 0
    decreases |a|
  {
    if |a| == 0 then []
    else
      var cut := Min(n, |a|);
      [a[..cut]] + Chunks(a[cut..], n)
  }

  /** The `for` loop of `chunkArray`, pushing `array.slice(i, i + chunkSize)`. */
  method ChunkArray<T>(items: seq<T>, chunkSize: nat) returns (result: seq<seq<T>>)
    requires chunkSize > 0
    ensures result == Chunks(items, chunkSize)
    ensures Flatten(result) == items
    ensures forall k :: 0 <= k < |result| ==> 0 < |result[k]| <= chunkSize
    ensures forall k :: 0 <= k < |result| - 1 ==> |result[k]| == chunkSize
    ensures |result| == (|items| + chunkSize - 1) / chunkSize
  {
    result := [];
    var i := 0;
    while i < |items|
      invariant 0 <= i
      invariant result + Chunks(items[Min(i, |items|)..], chunkSize) == Chunks(items, chunkSize)
    {
      var end := Min(i + chunkSize, |items|);
      assert items[i..][..Min(chunkSize, |items| - i)] == items[i..end];
      assert items[i..][Min(chunkSize, |items| - i)..] == items[end..];
      result := result + [items[i..end]];
      i := i + chunkSize;
    }
    assert items[Min(i, |items|)..] == [];
    FlattenChunks(items, chunkSize);
    ChunkSizes(items, chunkSize);
    ChunkCount(items, chunkSize);
  }

  /** Concatenating the batches in order reproduces the input exactly. */
  lemma {:induction false} FlattenChunks<T>(a: seq<T>, n: nat)
    requires n > 0
    ensures Flatten(Chunks(a, n)) == a
    decreases |a|
  {
    if |a| > 0 {
      var cut := Min(n, |a|);
      FlattenChunks(a[cut..], n);
      assert ([a[..cut]] + Chunks(a[cut..], n))[1..] == Chunks(a[cut..], n);
      assert a[..cut] + a[cut..] == a;
    }
  }

  /** Every batch is non-empty and holds at most `n` elements; all but the last hold exactly `n`. */
  lemma {:induction false} ChunkSizes<T>(a: seq<T>, n: nat)
    requires n > 0
    ensures forall k :: 0 <= k < |Chunks(a, n)| ==> 0 < |Chunks(a, n)[k]| <= n
    ensures forall k :: 0 <= k < |Chunks(a, n)| - 1 ==> |Chunks(a, n)[k]| == n
    decreases |a|
  {
    if |a| > 0 {
      var cut := Min(n, |a|);
      var rest := Chunks(a[cut..], n);
      ChunkSizes(a[cut..], n);
      assert Chunks(a, n) == [a[..cut]] + rest;
      assert |rest| > 0 ==> cut == n;
      forall k | 0 <= k < |Chunks(a, n)|
        ensures 0 < |Chunks(a, n)[k]| <= n
        ensures k < |Chunks(a, n)| - 1 ==> |Chunks(a, n)[k]| == n
      {
        if k > 0 {
          assert Chunks(a, n)[k] == rest[k - 1];
        }
      }
    }
  }

  /** There are ceil(|a| / n) batches. */
  lemma {:induction false} ChunkCount<T>(a: seq<T>, n: nat)
    requires n > 0
    ensures |Chunks(a, n)| == (|a| + n - 1) / n
    decreases |a|
  {
    if |a| == 0 {
      DivUnique(n - 1, n, 0, n - 1);
    } else if |a| <= n {
      assert a[|a|..] == [];
      DivIsOne(|a| + n - 1, n);
    } else {
      assert Chunks(a, n) == [a[..n]] + Chunks(a[n..], n);
      ChunkCount(a[n..], n);
      assert |a[n..]| + n - 1 == |a| + n - 1 - n;
      DivShift(|a| + n - 1, n);
    }
  }

  lemma DivIsOne(x: nat, n: nat)
    requires n > 0 && n <= x < 2 * n
    ensures x / n == 1
  {
  }

  lemma DivShift(x: nat, n: nat)
    requires n > 0 && x >= n
    ensures x / n == (x - n) / n + 1
  {
    var q, r := (x - n) / n, (x - n) % n;
    assert x - n == q * n + r;
    assert x == (q + 1) * n + r;
    DivUnique(x, n, q + 1, r);
  }

  /** Euclidean division is determined by quotient and remainder. */
  lemma DivUnique(x: int, n: int, q: int, r: int)
    requires n > 0 && 0 <= r < n && x == q * n + r
    ensures x / n == q
  {
    var q', r' := x / n, x % n;
    assert x == q' * n + r';
    assert (q - q') * n == r' - r;
    if q > q' {
      MulAtLeast(q - q', n);
    } else if q < q' {
      MulAtLeast(q' - q, n);
    }
  }

  lemma MulAtLeast(d: int, n: int)
    requires d >= 1 && n > 0
    ensures d * n >= n
  {
  }

  /** 450 descriptors go out as three requests of 200, 200 and 50. */
  lemma ChunkExample<T>(a: seq<T>)
    requires |a| == 450
    ensures |Chunks(a, 200)| == 3
    ensures |Chunks(a, 200)[0]| == 200 && |Chunks(a, 200)[1]| == 200 && |Chunks(a, 200)[2]| == 50
  {
    ChunkCount(a, 200);
    ChunkSizes(a, 200);
    FlattenChunks(a, 200);
    var c := Chunks(a, 200);
    assert c == [c[0]] + [c[1]] + [c[2]];
    FlattenAppend([c[0]] + [c[1]], [c[2]]);
    FlattenAppend([c[0]], [c[1]]);
    assert Flatten([c[2]]) == c[2] + Flatten([]);
    assert Flatten([c[1]]) == c[1] + Flatten([]);
    assert Flatten([c[0]]) == c[0] + Flatten([]);
  }
}
