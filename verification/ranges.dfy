/** The batch range splitter the batch generators fan out over: `[0, total)`
    cut into consecutive half-open ranges of `size` elements, the last one
    possibly shorter. */
module Ranges {
  import opened Seqs

  /** The half-open index range `[offset, limit)`. */
  datatype Range = Range(offset: nat, limit: nat)

  /** `r` tiles `[start, total)`: it starts at `start`, ends at `total`, its
      ranges are non-empty and follow each other without gap or overlap,
      every range holds at most `size` elements and all but the last exactly
      `size`. */
  predicate TilesFrom(r: seq<Range>, start: nat, total: nat, size: nat) {
    && start <= total
    && (r == [] <==> start == total)
    && (r != [] ==> r[0].offset == start && r[|r| - 1].limit == total)
    && (forall i :: 0 <= i < |r| ==> start <= r[i].offset < r[i].limit <= r[i].offset + size && r[i].limit <= total)
    && (forall i :: 0 <= i < |r| - 1 ==> r[i].limit == r[i + 1].offset && r[i].limit == r[i].offset + size)
  }

  predicate Tiles(r: seq<Range>, total: nat, size: nat) {
    TilesFrom(r, 0, total, size)
  }

  lemma TilesTail(r: seq<Range>, start: nat, total: nat, size: nat)
    requires TilesFrom(r, start, total, size)
    requires r != []
    ensures TilesFrom(r[1..], r[0].limit, total, size)
  {
    forall i | 0 < i < |r|
      ensures r[0].limit <= r[i].offset
    {
      LaterRangesFollow(r, start, total, size, i);
    }
  }

  /** A range of a tiling starts no earlier than any earlier range ends. */
  lemma {:induction false} LaterRangesFollow(r: seq<Range>, start: nat, total: nat, size: nat, i: nat)
    requires TilesFrom(r, start, total, size)
    requires 0 < i < |r|
    ensures r[0].limit <= r[i].offset
  {
    if i > 1 {
      LaterRangesFollow(r, start, total, size, i - 1);
      assert r[i - 1].limit == r[i].offset;
    }
  }

  /** Where the first range of a tiling ends is forced by the bounds. */
  lemma FirstLimit(r: seq<Range>, start: nat, total: nat, size: nat)
    requires TilesFrom(r, start, total, size)
    requires r != []
    ensures r[0].limit == if total - start <= size then total else start + size
  {
    if |r| > 1 {
      assert r[1].offset < r[1].limit <= total;
    }
  }

  function RangesFrom(start: nat, total: nat, size: nat): (r: seq<Range>)
    requires size > 0
    requires start <= total
    ensures TilesFrom(r, start, total, size)
    decreases total - start
  {
    if start == total then []
    else
      var limit := if total - start <= size then total else start + size;
      [Range(start, limit)] + RangesFrom(limit, total, size)
  }

  /** The ranges a batch of `total` elements is processed in, `size` at a
      time. A zero batch size is a caller error. */
  function MakeRanges(total: nat, size: nat): (r: seq<Range>)
    requires size > 0
    ensures Tiles(r, total, size)
    ensures total == 0 ==> r == []
    ensures 0 < total <= size ==> r == [Range(0, total)]
  {
    RangesFrom(0, total, size)
  }

  /** There is only one tiling of `[start, total)` for a given size, so
      `MakeRanges` is fully determined by the tiling contract. */
  lemma {:induction false} TilingIsUnique(a: seq<Range>, b: seq<Range>, start: nat, total: nat, size: nat)
    requires TilesFrom(a, start, total, size)
    requires TilesFrom(b, start, total, size)
    ensures a == b
  {
    if a != [] {
      assert b != [];
      FirstLimit(a, start, total, size);
      FirstLimit(b, start, total, size);
      assert a[0] == b[0];
      TilesTail(a, start, total, size);
      TilesTail(b, start, total, size);
      TilingIsUnique(a[1..], b[1..], a[0].limit, total, size);
      SameHeadAndTail(a, b);
    }
  }

  /** The i-th range of a tiling is `[start + i*size, min(start + (i+1)*size, total))`. */
  lemma {:induction false} RangeBounds(r: seq<Range>, start: nat, total: nat, size: nat, i: nat)
    requires TilesFrom(r, start, total, size)
    requires i < |r|
    ensures r[i].offset == start + i * size
    ensures r[i].limit == if start + (i + 1) * size <= total then start + (i + 1) * size else total
  {
    if i > 0 {
      TilesTail(r, start, total, size);
      RangeBounds(r[1..], r[0].limit, total, size, i - 1);
      FirstLimit(r, start, total, size);
      assert r[0].limit == start + size;
      assert (i - 1) * size + size == i * size;
      assert i * size + size == (i + 1) * size;
    } else {
      FirstLimit(r, start, total, size);
    }
  }

  /** Every range lies inside a sequence of length `n`. */
  predicate Within(r: seq<Range>, n: nat) {
    forall i :: 0 <= i < |r| ==> r[i].offset <= r[i].limit <= n
  }

  /** The slices `xs[offset..limit]`, one per range. */
  function Slices<X>(xs: seq<X>, r: seq<Range>): (ss: seq<seq<X>>)
    requires Within(r, |xs|)
    ensures |ss| == |r|
    ensures forall i :: 0 <= i < |r| ==> ss[i] == xs[r[i].offset..r[i].limit]
  {
    seq(|r|, i requires 0 <= i < |r| => xs[r[i].offset..r[i].limit])
  }

  lemma SlicesTail<X>(xs: seq<X>, r: seq<Range>)
    requires Within(r, |xs|) && r != []
    ensures Slices(xs, r)[1..] == Slices(xs, r[1..])
  {
    var a, b := Slices(xs, r)[1..], Slices(xs, r[1..]);
    forall i | 0 <= i < |a|
      ensures a[i] == b[i]
    {
      assert r[1..][i] == r[i + 1];
    }
  }

  function Flatten<X>(xss: seq<seq<X>>): seq<X> {
    if xss == [] then [] else xss[0] + Flatten(xss[1..])
  }

  /** Cutting a sequence along a tiling and gluing the pieces back together
      gives the sequence back: every element lands in exactly one slice, in
      order. */
  lemma {:induction false} SlicesFlatten<X>(xs: seq<X>, r: seq<Range>, start: nat, size: nat)
    requires TilesFrom(r, start, |xs|, size)
    ensures Within(r, |xs|)
    ensures Flatten(Slices(xs, r)) == xs[start..]
  {
    if r == [] {
      assert xs[start..] == [];
    } else {
      TilesTail(r, start, |xs|, size);
      SlicesFlatten(xs, r[1..], r[0].limit, size);
      SlicesTail(xs, r);
      SplitSlice(xs, start, r[0].limit);
    }
  }
}
