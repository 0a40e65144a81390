/**
 State diffs: lists of key updates in which the last write to a key wins, and the merges of them that
 the batch prover performs per block, per commitment and per partition.
 */
module StateDiffs {
  import opened Wrappers

  /** Storage keys and values are byte strings; only equality of keys matters. */
  type Key = string
  type Value = Option<string>

  /** What the ledger stores per L2 block. */
  type Diff = seq<(Key, Value)>

  /** What a diff does to each key it mentions. */
  function Effect(d: Diff): map<Key, Value> {
    if d == [] then map[] else Effect(d[..|d| - 1])[d[|d| - 1].0 := d[|d| - 1].1]
  }

  lemma {:induction false} EffectConcat(a: Diff, b: Diff)
    ensures Effect(a + b) == Effect(a) + Effect(b)
    decreases |b|
  {
    if b == [] {
      assert a + b == a;
    } else {
      assert (a + b)[..|a + b| - 1] == a + b[..|b| - 1];
      EffectConcat(a, b[..|b| - 1]);
    }
  }

  lemma EffectSnoc(d: Diff, e: (Key, Value))
    ensures Effect(d + [e]) == Effect(d)[e.0 := e.1]
  {
    assert (d + [e])[..|d|] == d;
  }

  /** A diff sets the keys it mentions, each to what its last entry for that key says. */
  lemma {:induction false} EffectIsLastEntry(d: Diff, k: Key)
    ensures k in Effect(d) <==> exists i :: 0 <= i < |d| && d[i].0 == k
    ensures forall i :: 0 <= i < |d| && d[i].0 == k && (forall j :: i < j < |d| ==> d[j].0 != k) ==>
      k in Effect(d) && Effect(d)[k] == d[i].1
    decreases |d|
  {
    if d == [] {
    } else {
      var front := d[..|d| - 1];
      EffectIsLastEntry(front, k);
      assert forall i :: 0 <= i < |front| ==> front[i] == d[i];
      assert d[|d| - 1].0 == k ==> k in Effect(d);
    }
  }

  ghost predicate DistinctKeys(d: Diff) {
    forall i, j :: 0 <= i < j < |d| ==> d[i].0 != d[j].0
  }

  method ToHashMap(base: map<Key, Value>, d: Diff) returns (m: map<Key, Value>)
    ensures m == base + Effect(d)
  {
    m := base;
    for i := 0 to |d|
      invariant m == base + Effect(d[..i])
    {
      assert d[..i + 1] == d[..i] + [d[i]];
      EffectSnoc(d[..i], d[i]);
      m := m[d[i].0 := d[i].1];
    }
    assert d[..|d|] == d;
  }

  /** Lists the entries of a map in whatever order its iterator yields. */
  method FromHashMap(m: map<Key, Value>) returns (d: Diff)
    ensures Effect(d) == m && DistinctKeys(d)
  {
    d := [];
    var rest := m.Keys;
    while rest != {}
      invariant rest <= m.Keys
      invariant Effect(d).Keys == m.Keys - rest
      invariant forall k :: k in Effect(d) ==> Effect(d)[k] == m[k]
      invariant forall i :: 0 <= i < |d| ==> d[i].0 !in rest
      invariant DistinctKeys(d)
      decreases |rest|
    {
      var k :| k in rest;
      EffectSnoc(d, (k, m[k]));
      d := d + [(k, m[k])];
      rest := rest - {k};
    }
  }

  /** Merging keeps, for every key, the newer write if there is one and the older otherwise. */
  method MergeStateDiffs(older: Diff, newer: Diff) returns (merged: Diff)
    ensures Effect(merged) == Effect(older) + Effect(newer)
    ensures DistinctKeys(merged)
  {
    var m := ToHashMap(map[], older);
    m := ToHashMap(m, newer);
    assert map[] + Effect(older) == Effect(older);
    merged := FromHashMap(m);
  }

  // ----- ranges of L2 blocks

  /** One flat last-write-wins pass over the blocks of heights `lo` to `hi`; the block of height `h`
      is `blocks[h - 1]`. */
  function FlatPass(blocks: seq<Diff>, lo: nat, hi: nat): map<Key, Value>
    requires 1 <= lo && hi <= |blocks|
    decreases hi
  {
    if lo > hi then map[] else FlatPass(blocks, lo, hi - 1) + Effect(blocks[hi - 1])
  }

  /** The block of height `h` sets the key. */
  ghost predicate Sets(blocks: seq<Diff>, h: nat, k: Key) {
    1 <= h <= |blocks| && k in Effect(blocks[h - 1])
  }

  /** The map has the keys set in the blocks `lo` to `hi`, each with the value the highest of them gives it. */
  ghost predicate LastWrites(m: map<Key, Value>, blocks: seq<Diff>, lo: nat, hi: nat) {
    && (forall k :: k in m <==> SetWithin(blocks, lo, hi, k))
    && (forall k, h: nat :: lo <= h && LastSet(blocks, h, hi, k) ==> k in m && m[k] == Effect(blocks[h - 1])[k])
  }

  ghost predicate SetWithin(blocks: seq<Diff>, lo: nat, hi: nat, k: Key) {
    exists h :: lo <= h <= hi && Sets(blocks, h, k)
  }

  ghost predicate LastSet(blocks: seq<Diff>, h: nat, hi: nat, k: Key) {
    h <= hi && Sets(blocks, h, k) && forall g :: h < g <= hi ==> !Sets(blocks, g, k)
  }

  lemma SetWithinStep(blocks: seq<Diff>, lo: nat, hi: nat, k: Key)
    requires 1 <= lo <= hi
    ensures SetWithin(blocks, lo, hi, k) <==> SetWithin(blocks, lo, hi - 1, k) || Sets(blocks, hi, k)
  {
    hide Sets;
    if SetWithin(blocks, lo, hi - 1, k) {
      var h :| lo <= h <= hi - 1 && Sets(blocks, h, k);
      assert lo <= h <= hi;
    }
  }

  lemma LastSetStep(blocks: seq<Diff>, h: nat, hi: nat, k: Key)
    requires 1 <= h <= hi && LastSet(blocks, h, hi, k)
    ensures h < hi ==> !Sets(blocks, hi, k) && LastSet(blocks, h, hi - 1, k)
  {
    hide Sets;
  }

  lemma LastWritesStep(before: map<Key, Value>, blocks: seq<Diff>, lo: nat, hi: nat)
    requires 1 <= lo <= hi <= |blocks| && LastWrites(before, blocks, lo, hi - 1)
    ensures LastWrites(before + Effect(blocks[hi - 1]), blocks, lo, hi)
  {
    hide Effect, SetWithin;
    var top := Effect(blocks[hi - 1]);
    var m := before + top;
    forall k
      ensures k in m <==> SetWithin(blocks, lo, hi, k)
    {
      SetWithinStep(blocks, lo, hi, k);
      assert k in top <==> Sets(blocks, hi, k);
    }
    forall k, h: nat | LastSet(blocks, h, hi, k) && lo <= h
      ensures k in m && m[k] == Effect(blocks[h - 1])[k]
    {
      LastSetStep(blocks, h, hi, k);
      if h == hi {
        LastSetSets(blocks, h, hi, k);
      }
    }
  }

  lemma LastSetSets(blocks: seq<Diff>, h: nat, hi: nat, k: Key)
    requires LastSet(blocks, h, hi, k)
    ensures h <= hi && Sets(blocks, h, k)
  {
  }

  /** The pass, key by key. */
  lemma {:induction false} FlatPassIsLastWrites(blocks: seq<Diff>, lo: nat, hi: nat)
    requires 1 <= lo && hi <= |blocks|
    ensures LastWrites(FlatPass(blocks, lo, hi), blocks, lo, hi)
    decreases hi
  {
    if lo > hi {
    } else {
      hide LastWrites, Effect;
      FlatPassIsLastWrites(blocks, lo, hi - 1);
      LastWritesStep(FlatPass(blocks, lo, hi - 1), blocks, lo, hi);
    }
  }

  /** Passing over two adjacent ranges and merging is one pass over both. */
  lemma {:induction false} FlatPassSplits(blocks: seq<Diff>, a: nat, b: nat, c: nat)
    requires 1 <= a <= b + 1 && b <= c <= |blocks|
    ensures FlatPass(blocks, a, c) == FlatPass(blocks, a, b) + FlatPass(blocks, b + 1, c)
    decreases c
  {
    if b == c {
    } else {
      FlatPassSplits(blocks, a, b, c - 1);
      MergeAssociates(FlatPass(blocks, a, b), FlatPass(blocks, b + 1, c - 1), Effect(blocks[c - 1]));
    }
  }

  lemma MergeAssociates(a: map<Key, Value>, b: map<Key, Value>, c: map<Key, Value>)
    ensures a + b + c == a + (b + c)
  {
  }

  /** The merged diff of a commitment's blocks. */
  method GetStateDiff(blocks: seq<Diff>, start: nat, end: nat) returns (d: Diff)
    requires 1 <= start && end <= |blocks|
    ensures Effect(d) == FlatPass(blocks, start, end) && LastWrites(Effect(d), blocks, start, end)
  {
    hide LastWrites;
    d := [];
    var h := start;
    while h <= end
      invariant start <= h && (h <= end + 1 || h == start)
      invariant h > end + 1 ==> d == []
      invariant h <= end + 1 ==> Effect(d) == FlatPass(blocks, start, h - 1)
    {
      d := MergeStateDiffs(d, blocks[h - 1]);
      h := h + 1;
    }
    FlatPassIsLastWrites(blocks, start, end);
  }

  ghost predicate AscendingEnds(start: nat, ends: seq<nat>) {
    && (ends != [] ==> start <= ends[0] + 1)
    && (forall i, j :: 0 <= i < j < |ends| ==> ends[i] <= ends[j])
  }

  /** Extends a map by the diffs of the blocks from `next` to `end`. */
  method ExtendDiff(blocks: seq<Diff>, base: map<Key, Value>, ghost start: nat, next: nat, end: nat)
      returns (m: map<Key, Value>)
    requires 1 <= start <= next <= end + 1 && end <= |blocks|
    requires base == FlatPass(blocks, start, next - 1)
    ensures m == FlatPass(blocks, start, end)
  {
    m := base;
    var h := next;
    while h <= end
      invariant next <= h <= end + 1
      invariant m == FlatPass(blocks, start, h - 1)
    {
      m := ToHashMap(m, blocks[h - 1]);
      h := h + 1;
    }
  }

  /** The cumulative diff of consecutive commitments, accumulated block by block in one ordered map,
      is the flat pass from the first block to the last end. */
  method CumulativeDiff(blocks: seq<Diff>, start: nat, ends: seq<nat>) returns (m: map<Key, Value>)
    requires 1 <= start && AscendingEnds(start, ends)
    requires forall i :: 0 <= i < |ends| ==> ends[i] <= |blocks|
    ensures ends != [] ==> m == FlatPass(blocks, start, ends[|ends| - 1])
    ensures ends != [] ==> LastWrites(m, blocks, start, ends[|ends| - 1])
    ensures ends == [] ==> m == map[]
  {
    hide LastWrites;
    m := map[];
    var next := start;
    for i := 0 to |ends|
      invariant next == if i == 0 then start else ends[i - 1] + 1
      invariant start <= next <= |blocks| + 1 || i == 0
      invariant m == if i == 0 then map[] else FlatPass(blocks, start, ends[i - 1])
    {
      assert i > 0 ==> ends[i - 1] <= ends[i];
      m := ExtendDiff(blocks, m, start, next, ends[i]);
      next := ends[i] + 1;
    }
    if ends != [] {
      FlatPassIsLastWrites(blocks, start, ends[|ends| - 1]);
    }
  }
}
