/** The key-range sharder of the mapper: split the keys a query matches into at most `shardCount`
    ranges by sampling and then bisecting the widest range. */
module Sharding {
  import opened Wrappers
  import opened Keys
  import opened Seqs

  /** `shard_query` asks the store for `shardCount * OversamplingMultiplier` scatter-ordered keys. */
  const OversamplingMultiplier: nat := 32

  /** A shard `[low, high]`; closed while the shards are built, half-open `[low, high)` once returned. */
  datatype Shard = Shard(low: Key, high: Key)

  datatype ShardError =
    | KeyFailure(cause: KeyError)   // raised by key arithmetic on key names
    | NoShardToSplit                // `_find_largest_shard` found nothing: Python indexes `None`

  /** Python compares two shards `[low, high]` as lists: by low key, then by high key. */
  predicate ShardLt(a: Shard, b: Shard) {
    KeyLt(a.low, b.low) || (a.low == b.low && KeyLt(a.high, b.high))
  }

  lemma ShardLtIsStrictTotalOrder()
    ensures StrictTotalOrder(ShardLt)
  {
    forall a: Shard, b: Shard, c: Shard
      ensures !ShardLt(a, a)
      ensures ShardLt(a, b) && ShardLt(b, c) ==> ShardLt(a, c)
      ensures a != b ==> ShardLt(a, b) || ShardLt(b, a)
    {
      KeyLtFacts(a.low, b.low, c.low);
      KeyLtFacts(a.high, b.high, c.high);
      KeyLtFacts(b.low, a.low, c.low);
    }
  }

  /** The low end does not exceed the high end, and both ends lie in one kind and namespace. */
  predicate WellFormed(s: Shard) {
    && KeyLe(s.low, s.high)
    && s.low.kind == s.high.kind && s.low.namespace == s.high.namespace
  }

  predicate AllWellFormed(shards: seq<Shard>) {
    forall i :: 0 <= i < |shards| ==> WellFormed(shards[i])
  }

  predicate IsIdShard(s: Shard) {
    s.low.idOrName.Id? && s.high.idOrName.Id?
  }

  predicate AllIdShards(shards: seq<Shard>) {
    forall i :: 0 <= i < |shards| ==> IsIdShard(shards[i])
  }

  /** `shard[1].id_or_name() - shard[0].id_or_name()`, defined when both ends are integer ids. */
  function IdRange(s: Shard): int
    requires IsIdShard(s)
  {
    s.high.idOrName.id - s.low.idOrName.id
  }

  /** The number of ids a well-formed integer shard spans beyond its low end; zero otherwise. */
  function Width(s: Shard): nat {
    if IsIdShard(s) && IdRange(s) >= 0 then IdRange(s) else 0
  }

  lemma WellFormedIdShard(s: Shard)
    requires WellFormed(s) && IsIdShard(s)
    ensures IdRange(s) >= 0
    ensures s.low != s.high ==> IdRange(s) > 0
  {
    StrLtIrreflexive(s.low.namespace);
    StrLtIrreflexive(s.low.kind);
  }

  // ---------------------------------------------------------------------------------------------
  // _generate_shards

  /** `int(round(len(keys) / float(shardCount) * i))`, rounded as an exact fraction: halves go away
      from zero, as Python 2 rounds them, and every operand is positive. Python computes the product
      in floating point, so when `shardCount` is not a power of two this can be one above its index. */
  function SubsampleIndex(len: nat, count: nat, i: nat): nat
    requires count > 0
  {
    (2 * len * i + count) / (2 * count)
  }

  lemma MulMono(d: nat, x: nat, y: nat)
    requires x <= y
    ensures d * x <= d * y
  {
  }

  /** Euclidean division is determined by quotient and remainder. */
  lemma DivUnique(x: nat, d: nat, q: nat, r: nat)
    requires d > 0 && x == d * q + r && r < d
    ensures x / d == q
  {
    var q', r' := x / d, x % d;
    assert x == d * q' + r';
    assert d * (q + 1) == d * q + d;
    assert d * (q' + 1) == d * q' + d;
    MulLessCancel(d, q', q + 1);
    MulLessCancel(d, q, q' + 1);
  }

  lemma DivLess(a: nat, d: nat, c: nat)
    requires d > 0 && a < d * c
    ensures a / d < c
  {
    var q, r := a / d, a % d;
    assert a == d * q + r;
    MulLessCancel(d, q, c);
  }

  lemma MulLessCancel(d: nat, q: nat, c: nat)
    requires d > 0 && d * q < d * c
    ensures q < c
  {
    if c <= q {
      MulMono(d, c, q);
    }
  }

  lemma DivMono(a: nat, b: nat, d: nat)
    requires d > 0 && a <= b
    ensures a / d <= b / d
  {
    var qa, ra := a / d, a % d;
    var qb, rb := b / d, b % d;
    assert a == d * qa + ra && b == d * qb + rb;
    assert d * qa < d * (qb + 1);
    MulLessCancel(d, qa, qb + 1);
  }

  lemma DivShift(a: nat, b: nat, d: nat)
    requires d > 0 && a + d <= b
    ensures a / d < b / d
  {
    var q, r := a / d, a % d;
    assert a == d * q + r;
    assert a + d == d * (q + 1) + r;
    DivUnique(a + d, d, q + 1, r);
    DivMono(a + d, b, d);
  }

  /** Every index of the subsample addresses a key: `round(stride * i) < len(keys)`. */
  lemma SubsampleIndexInBounds(len: nat, count: nat, i: nat)
    requires 1 <= i < count < len
    ensures SubsampleIndex(len, count, i) < len
  {
    assert 2 * len * i <= 2 * len * (count - 1) by { MulMono(2 * len, i, count - 1); }
    assert 2 * len * (count - 1) == (2 * count) * len - 2 * len;
    DivLess(2 * len * i + count, 2 * count, len);
  }

  /** The stride exceeds one, so the subsample indices strictly increase. */
  lemma SubsampleIndexIncreasing(len: nat, count: nat, i: nat, j: nat)
    requires 1 <= count < len && i < j
    ensures SubsampleIndex(len, count, i) < SubsampleIndex(len, count, j)
  {
    assert 2 * len * j >= 2 * len * (i + 1) by { MulMono(2 * len, i + 1, j); }
    DivShift(2 * len * i + count, 2 * len * j + count, 2 * count);
  }

  /** `[keys[int(round(index_stride * i))] for i in range(1, shard_count)]`. */
  function Subsample(keys: seq<Key>, count: nat): (r: seq<Key>)
    requires 2 <= count < |keys|
    ensures |r| == count - 1
    ensures forall j :: 0 <= j < count - 1 ==> r[j] == SubsampleAt(keys, count, j)
  {
    seq(count - 1, j requires 0 <= j < count - 1 => SubsampleAt(keys, count, j))
  }

  function SubsampleAt(keys: seq<Key>, count: nat, j: nat): (k: Key)
    requires 2 <= count < |keys| && j < count - 1
    ensures SubsampleIndex(|keys|, count, j + 1) < |keys|
    ensures k == keys[SubsampleIndex(|keys|, count, j + 1)]
  {
    SubsampleIndexInBounds(|keys|, count, j + 1);
    keys[SubsampleIndex(|keys|, count, j + 1)]
  }

  /** Consecutive pairs `[keys[i], keys[i + 1]]`. */
  function Pairs(keys: seq<Key>): (r: seq<Shard>)
    ensures |r| == if |keys| == 0 then 0 else |keys| - 1
    ensures forall i :: 0 <= i < |r| ==> r[i] == Shard(keys[i], keys[i + 1])
  {
    if |keys| == 0 then [] else seq(|keys| - 1, i requires 0 <= i < |keys| - 1 => Shard(keys[i], keys[i + 1]))
  }

  /** `_generate_shards`: one shard over the whole sorted sample when one shard is asked for,
      otherwise consecutive pairs of the sorted keys, subsampled to `shardCount - 1` keys first when
      there are more keys than shards asked for. */
  function GenerateShards(keys: seq<Key>, shardCount: nat): seq<Shard>
    requires shardCount >= 1
    requires shardCount == 1 ==> |keys| > 0
  {
    var sorted := Sort(keys, KeyLt);
    if shardCount == 1 then [Shard(sorted[0], sorted[|sorted| - 1])]
    else if shardCount < |sorted| then Pairs(Subsample(sorted, shardCount))
    else Pairs(sorted)
  }

  predicate SameScope(keys: seq<Key>, kind: string, namespace: string) {
    forall i :: 0 <= i < |keys| ==> InScope(keys[i], kind, namespace)
  }

  lemma SortedKeyLe(s: seq<Key>, i: nat, j: nat)
    requires Sorted(s, KeyLt) && i <= j < |s|
    ensures KeyLe(s[i], s[j])
  {
    KeyLtFacts(s[i], s[j], s[j]);
  }

  /** Consecutive pairs of sorted keys of one scope are well-formed and sorted. */
  lemma PairsOfSorted(keys: seq<Key>, kind: string, namespace: string)
    requires Sorted(keys, KeyLt) && SameScope(keys, kind, namespace)
    ensures AllWellFormed(Pairs(keys)) && Sorted(Pairs(keys), ShardLt)
  {
    var p := Pairs(keys);
    forall i | 0 <= i < |p| ensures WellFormed(p[i]) {
      SortedKeyLe(keys, i, i + 1);
    }
    forall i, j | 0 <= i < j < |p| ensures !ShardLt(p[j], p[i]) {
      KeyLtFacts(keys[j], keys[i], keys[i]);
      KeyLtFacts(keys[j + 1], keys[i + 1], keys[i + 1]);
    }
  }

  lemma SubsampleSorted(keys: seq<Key>, count: nat, kind: string, namespace: string)
    requires 2 <= count < |keys|
    requires Sorted(keys, KeyLt) && SameScope(keys, kind, namespace)
    ensures Sorted(Subsample(keys, count), KeyLt) && SameScope(Subsample(keys, count), kind, namespace)
  {
    var r := Subsample(keys, count);
    forall i, j | 0 <= i < j < |r| ensures !KeyLt(r[j], r[i]) {
      SubsampleIndexIncreasing(|keys|, count, i + 1, j + 1);
      SubsampleIndexInBounds(|keys|, count, j + 1);
    }
    forall i | 0 <= i < |r| ensures InScope(r[i], kind, namespace) {
      SubsampleIndexInBounds(|keys|, count, i + 1);
    }
  }

  lemma SortSameScope(keys: seq<Key>, kind: string, namespace: string)
    requires SameScope(keys, kind, namespace)
    ensures SameScope(Sort(keys, KeyLt), kind, namespace)
  {
    var s := Sort(keys, KeyLt);
    forall i | 0 <= i < |s| ensures InScope(s[i], kind, namespace) {
      SortMembership(keys, KeyLt, s[i]);
    }
  }

  /** How many shards `_generate_shards` returns: one when one is asked for; otherwise
      `shardCount - 2` after subsampling, or `len(keys) - 1` without; never more than `shardCount`. */
  lemma GenerateShardsCount(keys: seq<Key>, shardCount: nat)
    requires shardCount >= 1 && (shardCount == 1 ==> |keys| > 0)
    ensures var r := GenerateShards(keys, shardCount);
      && (shardCount == 1 ==> |r| == 1)
      && (1 < shardCount < |keys| ==> |r| == shardCount - 2)
      && (1 < shardCount && |keys| <= shardCount ==> |r| == if keys == [] then 0 else |keys| - 1)
      && |r| <= shardCount
  {
  }

  /** With one shard asked for, the shard runs from the least to the greatest key. */
  lemma GenerateOneShard(keys: seq<Key>)
    requires |keys| > 0
    ensures var sorted := Sort(keys, KeyLt);
      GenerateShards(keys, 1) == [Shard(sorted[0], sorted[|sorted| - 1])]
      && forall i :: 0 <= i < |keys| ==> KeyLe(sorted[0], keys[i]) && KeyLe(keys[i], sorted[|sorted| - 1])
  {
    var sorted := Sort(keys, KeyLt);
    KeyLtIsStrictTotalOrder();
    SortSorted(keys, KeyLt);
    forall i | 0 <= i < |keys| ensures KeyLe(sorted[0], keys[i]) && KeyLe(keys[i], sorted[|sorted| - 1]) {
      SortMembership(keys, KeyLt, keys[i]);
      var j :| 0 <= j < |sorted| && sorted[j] == keys[i];
      SortedKeyLe(sorted, 0, j);
      SortedKeyLe(sorted, j, |sorted| - 1);
    }
  }

  /** Each shard `_generate_shards` returns is well-formed and in the keys' scope, the list is
      sorted, and each shard's high key is the next shard's low key. */
  lemma GenerateShardsShape(keys: seq<Key>, shardCount: nat, kind: string, namespace: string)
    requires shardCount >= 1 && (shardCount == 1 ==> |keys| > 0)
    requires SameScope(keys, kind, namespace)
    ensures var r := GenerateShards(keys, shardCount);
      && AllWellFormed(r) && Sorted(r, ShardLt)
      && (shardCount > 1 ==> forall i :: 0 <= i < |r| - 1 ==> r[i].high == r[i + 1].low)
      && (forall i :: 0 <= i < |r| ==> InScope(r[i].low, kind, namespace) && InScope(r[i].high, kind, namespace))
  {
    var sorted := Sort(keys, KeyLt);
    KeyLtIsStrictTotalOrder();
    SortSorted(keys, KeyLt);
    SortSameScope(keys, kind, namespace);
    if shardCount == 1 {
      SortedKeyLe(sorted, 0, |sorted| - 1);
      ShardLtIsStrictTotalOrder();
    } else if shardCount < |sorted| {
      var sub := Subsample(sorted, shardCount);
      SubsampleSorted(sorted, shardCount, kind, namespace);
      PairsOfSorted(sub, kind, namespace);
      PairsInScope(sub, kind, namespace);
    } else {
      PairsOfSorted(sorted, kind, namespace);
      PairsInScope(sorted, kind, namespace);
    }
  }

  lemma PairsInScope(keys: seq<Key>, kind: string, namespace: string)
    requires SameScope(keys, kind, namespace)
    ensures var r := Pairs(keys);
      forall i :: 0 <= i < |r| ==> InScope(r[i].low, kind, namespace) && InScope(r[i].high, kind, namespace)
  {
  }

  /** With two shards asked for and more than two keys, the subsample keeps a single key and
      `_generate_shards` returns no shard at all, so `shard_query` fails on its first bisection. */
  lemma GenerateTwoShardsFromManyKeys(keys: seq<Key>)
    requires |keys| > 2
    ensures GenerateShards(keys, 2) == []
  {
  }

  /** `low <= k < high`: the key lies in the half-open range of a shifted shard. */
  predicate InRange(k: Key, s: Shard) {
    KeyLe(s.low, k) && KeyLt(k, s.high)
  }

  /** Consecutive generated shards share their boundary key, so once the end keys are shifted that
      key lies in both ranges: the shards are not disjoint. */
  lemma SharedBoundaries(keys: seq<Key>, shardCount: nat, kind: string, namespace: string)
    requires shardCount > 1 && SameScope(keys, kind, namespace)
    ensures var g := GenerateShards(keys, shardCount);
      var r := ShiftEnds(g);
      forall i :: 0 <= i < |g| - 1 ==> InRange(g[i].high, r[i]) && InRange(g[i].high, r[i + 1])
  {
    var g := GenerateShards(keys, shardCount);
    var r := ShiftEnds(g);
    GenerateShardsShape(keys, shardCount, kind, namespace);
    forall i | 0 <= i < |g| - 1 ensures InRange(g[i].high, r[i]) && InRange(g[i].high, r[i + 1]) {
      var k := g[i].high;
      assert WellFormed(g[i]) && WellFormed(g[i + 1]);
      KeyLtFacts(k, g[i + 1].high, NextKey(g[i + 1].high));
    }
  }

  /** Subsampling never picks the first of the sorted keys: with more distinct keys than shards asked
      for, the least key is below the low end of every generated shard, so no initial shard holds it. */
  lemma SubsampleSkipsLeastKey(keys: seq<Key>, shardCount: nat)
    requires 2 <= shardCount < |keys|
    requires forall i, j :: 0 <= i < j < |keys| ==> KeyLt(keys[i], keys[j])
    ensures var g := GenerateShards(keys, shardCount);
      forall i :: 0 <= i < |g| ==> KeyLt(keys[0], g[i].low)
  {
    assert GenerateShards(keys, shardCount) == Pairs(Subsample(keys, shardCount)) by {
      KeyLtIsStrictTotalOrder();
      SortOfAscending(keys, KeyLt);
    }
    var sub := Subsample(keys, shardCount);
    forall i | 0 <= i < |sub| - 1 ensures KeyLt(keys[0], sub[i]) {
      SubsampleIndexPositive(|keys|, shardCount, i + 1);
      SubsampleIndexInBounds(|keys|, shardCount, i + 1);
      assert sub[i] == keys[SubsampleIndex(|keys|, shardCount, i + 1)];
    }
  }

  lemma SubsampleIndexPositive(len: nat, count: nat, i: nat)
    requires 1 <= i && 1 <= count < len
    ensures SubsampleIndex(len, count, i) >= 1
  {
    var x := 2 * len * i + count;
    assert x >= 2 * count by { MulMono(2 * len, 1, i); }
    DivMono(2 * count, x, 2 * count);
  }

  // ---------------------------------------------------------------------------------------------
  // _find_largest_shard

  /** The index the accumulator loop of `_find_largest_shard` settles on: a later shard replaces the
      current one only when its id range is strictly larger. */
  function WidestIndex(shards: seq<Shard>): (i: nat)
    requires |shards| > 0 && AllIdShards(shards)
    ensures i < |shards|
  {
    if |shards| == 1 then 0
    else
      var i := WidestIndex(shards[..|shards| - 1]);
      if IdRange(shards[|shards| - 1]) > IdRange(shards[i]) then |shards| - 1 else i
  }

  /** The chosen shard has the largest id range, and every shard before it a strictly smaller one:
      on ties the first widest shard wins. */
  lemma {:induction false} WidestIndexIsFirstMaximal(shards: seq<Shard>)
    requires |shards| > 0 && AllIdShards(shards)
    ensures forall j :: 0 <= j < |shards| ==> IdRange(shards[j]) <= IdRange(shards[WidestIndex(shards)])
    ensures forall j :: 0 <= j < WidestIndex(shards) ==> IdRange(shards[j]) < IdRange(shards[WidestIndex(shards)])
  {
    if |shards| > 1 {
      var init := shards[..|shards| - 1];
      WidestIndexIsFirstMaximal(init);
      assert forall j :: 0 <= j < |init| ==> init[j] == shards[j];
    }
  }

  /** `_find_largest_shard` as a value: `None` for no shards, the only shard of a one-shard list
      (whose range is never computed), and otherwise the first shard of largest id range; with two or
      more shards every range is computed, so one key name anywhere makes the subtraction fail. */
  function Widest(shards: seq<Shard>): (r: Result<Option<Shard>, ShardError>)
    ensures r.Success? ==> (r.value.None? <==> shards == [])
    ensures r.Success? && r.value.Some? ==> r.value.value in shards
    ensures r.Failure? ==> r.error == KeyFailure(TypeError)
    ensures r.Failure? <==> |shards| >= 2 && !AllIdShards(shards)
    ensures |shards| == 1 ==> r == Success(Some(shards[0]))
    ensures |shards| >= 2 && AllIdShards(shards) ==> r == Success(Some(shards[WidestIndex(shards)]))
    ensures r.Success? && r.value.Some? && AllIdShards(shards) ==>
              forall j :: 0 <= j < |shards| ==> IdRange(shards[j]) <= IdRange(r.value.value)
  {
    if |shards| == 0 then Success(None)
    else if |shards| == 1 then Success(Some(shards[0]))
    else if !AllIdShards(shards) then Failure(KeyFailure(TypeError))
    else
      WidestIndexIsFirstMaximal(shards);
      Success(Some(shards[WidestIndex(shards)]))
  }

  /** `_find_largest_shard`: the accumulator loop over the shards. */
  method FindLargestShard(shards: seq<Shard>) returns (r: Result<Option<Shard>, ShardError>)
    ensures r == Widest(shards)
  {
    var largest: Option<Shard> := None;
    var i := 0;
    while i < |shards|
      invariant 0 <= i <= |shards|
      invariant i == 0 ==> largest == None
      invariant i == 1 ==> largest == Some(shards[0])
      invariant i >= 2 ==> AllIdShards(shards[..i]) && largest == Some(shards[WidestIndex(shards[..i])])
    {
      var shard := shards[i];
      if largest.None? {
        largest := Some(shard);
      } else {
        if !IsIdShard(largest.value) || !IsIdShard(shard) {
          assert !AllIdShards(shards) by {
            if i >= 2 { assert largest.value == shards[WidestIndex(shards[..i])]; }
          }
          return Failure(KeyFailure(TypeError));
        }
        var currentRange := IdRange(largest.value);
        var thisRange := IdRange(shard);
        assert shards[..i + 1][..i] == shards[..i];
        if thisRange > currentRange {
          largest := Some(shard);
        }
      }
      i := i + 1;
    }
    assert shards[..|shards|] == shards;
    return Success(largest);
  }

  // ---------------------------------------------------------------------------------------------
  // The refinement loop of shard_query

  predicate ShardsInScope(shards: seq<Shard>, kind: string, namespace: string) {
    forall i :: 0 <= i < |shards| ==> InScope(shards[i].low, kind, namespace) && InScope(shards[i].high, kind, namespace)
  }

  /** `if x not in shards: shards.append(x)`. */
  function AppendIfMissing(shards: seq<Shard>, x: Shard): (r: seq<Shard>)
    ensures x in r
    ensures multiset(r) == multiset(shards) + (if x in shards then multiset{} else multiset{x})
  {
    if x in shards then shards else shards + [x]
  }

  /** What one pass of the `while True` loop decides once the shard count is still too small. */
  datatype Step =
    | Stop                        // a `break`
    | Crash(error: ShardError)    // an exception escapes
    | Split(next: seq<Shard>)     // the shards after the bisection and the sort

  /** The two halves `_mid_key` cuts a shard into: `[low, mid]` and `[_next_key(mid), high]`. */
  function Halves(w: Shard): Result<(Shard, Shard), ShardError> {
    match MidKey(w.low, w.high)
    case Failure(e) => Failure(KeyFailure(e))
    case Success(mid) => Success((Shard(w.low, mid), Shard(NextKey(mid), w.high)))
  }

  /** `shards.remove(w)`, then each half appended unless already present, then `shards.sort()`. */
  function Bisect(shards: seq<Shard>, w: Shard, left: Shard, right: Shard): seq<Shard>
    requires w in shards
  {
    Sort(AppendIfMissing(AppendIfMissing(RemoveFirst(shards, w), left), right), ShardLt)
  }

  /** One pass of the loop: find the widest shard, stop when it is a single key or both of its halves
      are already present, and otherwise replace it by the halves that are new and sort. */
  function RefineStep(shards: seq<Shard>): Step {
    match Widest(shards)
    case Failure(e) => Crash(e)
    case Success(None) => Crash(NoShardToSplit)
    case Success(Some(w)) =>
      if w.low == w.high then Stop
      else
        match Halves(w)
        case Failure(e) => Crash(e)
        case Success((left, right)) =>
          if left in shards && right in shards then Stop
          else Split(Bisect(shards, w, left, right))
  }

  /** The halves of a well-formed shard with distinct ends, when `_mid_key` computes them, are
      well-formed, distinct from each other and from the shard, stay in its scope, and are together
      narrower than the shard. */
  lemma HalvesFacts(w: Shard)
    requires WellFormed(w) && w.low != w.high && Halves(w).Success?
    ensures var (left, right) := Halves(w).value;
      && IsIdShard(w) && WellFormed(left) && WellFormed(right)
      && left.low == w.low && right.high == w.high
      && left.high.kind == w.low.kind && left.high.namespace == w.low.namespace
      && Width(left) + Width(right) < Width(w)
      && left != w && right != w && left != right
  {
    var mid := MidKey(w.low, w.high).value;
    assert IsIdShard(w);
    WellFormedIdShard(w);
    var (left, right) := Halves(w).value;
    IdKeyLt(w.low, mid);
    IdKeyLt(right.low, w.high);
  }

  /** A bisection removes one copy of the widest shard and adds exactly the halves that were missing. */
  lemma BisectContents(shards: seq<Shard>, w: Shard, left: Shard, right: Shard)
    requires w in shards && left != w && right != w && left != right
    ensures multiset(Bisect(shards, w, left, right)) == multiset(shards) - multiset{w}
      + (if left in shards then multiset{} else multiset{left})
      + (if right in shards then multiset{} else multiset{right})
  {
    var removed := RemoveFirst(shards, w);
    var withLeft := AppendIfMissing(removed, left);
    assert left in removed <==> left in shards by {
      assert left in multiset(removed) <==> left in multiset(shards);
    }
    assert right in withLeft <==> right in shards by {
      assert right in multiset(withLeft) <==> right in multiset(removed);
      assert right in multiset(removed) <==> right in multiset(shards);
    }
  }

  lemma SumOfAppendIfMissing(shards: seq<Shard>, x: Shard)
    ensures SumOf(AppendIfMissing(shards, x), Width) == SumOf(shards, Width) + (if x in shards then 0 else Width(x))
  {
    if x !in shards {
      SumOfConcat(shards, [x], Width);
    }
  }

  /** A bisection narrows the total id range by at least one. */
  lemma BisectNarrows(shards: seq<Shard>, w: Shard, left: Shard, right: Shard)
    requires w in shards && Width(left) + Width(right) < Width(w)
    ensures SumOf(Bisect(shards, w, left, right), Width) < SumOf(shards, Width)
  {
    var removed := RemoveFirst(shards, w);
    var withLeft := AppendIfMissing(removed, left);
    var withRight := AppendIfMissing(withLeft, right);
    SumOfRemoveFirst(shards, w, Width);
    SumOfAppendIfMissing(removed, left);
    SumOfAppendIfMissing(withLeft, right);
    SumOfSort(withRight, ShardLt, Width);
  }

  /** The shards after a bisection are well-formed, in scope and sorted. */
  lemma BisectShape(shards: seq<Shard>, w: Shard, left: Shard, right: Shard, kind: string, namespace: string)
    requires w in shards && left != w && right != w && left != right
    requires AllWellFormed(shards) && ShardsInScope(shards, kind, namespace)
    requires WellFormed(left) && InScope(left.low, kind, namespace) && InScope(left.high, kind, namespace)
    requires WellFormed(right) && InScope(right.low, kind, namespace) && InScope(right.high, kind, namespace)
    ensures var next := Bisect(shards, w, left, right);
      AllWellFormed(next) && ShardsInScope(next, kind, namespace) && Sorted(next, ShardLt)
  {
    var next := Bisect(shards, w, left, right);
    BisectContents(shards, w, left, right);
    ShardLtIsStrictTotalOrder();
    SortSorted(AppendIfMissing(AppendIfMissing(RemoveFirst(shards, w), left), right), ShardLt);
    forall i | 0 <= i < |next|
      ensures WellFormed(next[i]) && InScope(next[i].low, kind, namespace) && InScope(next[i].high, kind, namespace)
    {
      assert next[i] in multiset(next);
      assert next[i] in multiset(shards) || next[i] == left || next[i] == right;
    }
  }

  /** A bisection that is not abandoned grows the list by at most one shard and shrinks it never. */
  lemma BisectSize(shards: seq<Shard>, w: Shard, left: Shard, right: Shard)
    requires w in shards && left != w && right != w && left != right
    requires !(left in shards && right in shards)
    ensures |shards| <= |Bisect(shards, w, left, right)| <= |shards| + 1
  {
    var removed := RemoveFirst(shards, w);
    var withLeft := AppendIfMissing(removed, left);
    var withRight := AppendIfMissing(withLeft, right);
    BisectContents(shards, w, left, right);
    assert left in removed <==> left in shards by {
      assert left in multiset(removed) <==> left in multiset(shards);
    }
    assert right in withLeft <==> right in shards by {
      assert right in multiset(withLeft) <==> right in multiset(removed);
      assert right in multiset(removed) <==> right in multiset(shards);
    }
  }

  /** A split keeps the shards well-formed, in scope and sorted, grows the list by at most one shard,
      and strictly narrows the total id range, so the loop terminates. */
  lemma RefineStepSplit(shards: seq<Shard>, kind: string, namespace: string)
    requires AllWellFormed(shards) && ShardsInScope(shards, kind, namespace)
    requires RefineStep(shards).Split?
    ensures var next := RefineStep(shards).next;
      && AllWellFormed(next) && ShardsInScope(next, kind, namespace)
      && Sorted(next, ShardLt)
      && |shards| <= |next| <= |shards| + 1
      && SumOf(next, Width) < SumOf(shards, Width)
  {
    var w := Widest(shards).value.value;
    var (left, right) := Halves(w).value;
    HalvesFacts(w);
    BisectShape(shards, w, left, right, kind, namespace);
    BisectSize(shards, w, left, right);
    BisectNarrows(shards, w, left, right);
  }

  /** A split removes one copy of the widest shard and adds exactly those of its halves that were
      missing. */
  lemma RefineStepContents(shards: seq<Shard>)
    requires AllWellFormed(shards) && RefineStep(shards).Split?
    ensures var w := Widest(shards).value.value;
      && Halves(w).Success?
      && var (left, right) := Halves(w).value;
      multiset(RefineStep(shards).next) == multiset(shards) - multiset{w}
        + (if left in shards then multiset{} else multiset{left})
        + (if right in shards then multiset{} else multiset{right})
  {
    var w := Widest(shards).value.value;
    var (left, right) := Halves(w).value;
    HalvesFacts(w);
    BisectContents(shards, w, left, right);
  }

  /** The `while True` loop of `shard_query`, run to its end: keep splitting while there are fewer
      shards than asked for. Termination is by the total id range, which every split narrows. */
  function Refine(shards: seq<Shard>, count: nat, kind: string, namespace: string): Result<seq<Shard>, ShardError>
    requires AllWellFormed(shards) && ShardsInScope(shards, kind, namespace)
    decreases SumOf(shards, Width)
  {
    if |shards| >= count then Success(shards)
    else
      match RefineStep(shards)
      case Stop => Success(shards)
      case Crash(e) => Failure(e)
      case Split(next) =>
        RefineStepSplit(shards, kind, namespace);
        Refine(next, count, kind, namespace)
  }

  /** The loop ends well-formed, in scope and sorted (when it starts sorted), with no fewer shards than
      it started with and, starting from at most `count` shards, with at most `count`; when it ends
      short of `count` it ended on a `break`. */
  lemma {:induction false} RefineFacts(shards: seq<Shard>, count: nat, kind: string, namespace: string)
    requires AllWellFormed(shards) && ShardsInScope(shards, kind, namespace)
    decreases SumOf(shards, Width)
    ensures var r := Refine(shards, count, kind, namespace);
      r.Success? ==>
        && AllWellFormed(r.value) && ShardsInScope(r.value, kind, namespace)
        && (Sorted(shards, ShardLt) ==> Sorted(r.value, ShardLt))
        && |shards| <= |r.value|
        && (|shards| <= count ==> |r.value| <= count)
        && (|r.value| < count ==> RefineStep(r.value) == Stop)
  {
    if |shards| < count && RefineStep(shards).Split? {
      RefineStepSplit(shards, kind, namespace);
      RefineFacts(RefineStep(shards).next, count, kind, namespace);
    }
  }

  /** On integer shards the widest shard is always found and always bisected: no pass crashes. */
  lemma IdStepNeverCrashes(shards: seq<Shard>)
    requires AllIdShards(shards) && shards != []
    ensures !RefineStep(shards).Crash?
  {
    var w := Widest(shards).value.value;
    assert IsIdShard(w);
  }

  /** A split of integer shards leaves integer shards: both halves of an integer shard are. */
  lemma SplitKeepsIdShards(shards: seq<Shard>)
    requires AllWellFormed(shards) && AllIdShards(shards) && RefineStep(shards).Split?
    ensures AllIdShards(RefineStep(shards).next)
  {
    var next := RefineStep(shards).next;
    RefineStepContents(shards);
    var w := Widest(shards).value.value;
    var (left, right) := Halves(w).value;
    forall i | 0 <= i < |next| ensures IsIdShard(next[i]) {
      assert next[i] in multiset(next);
      assert next[i] in multiset(shards) || next[i] == left || next[i] == right;
    }
  }

  /** The loop cannot fail on shards whose ends are all integer ids, unless there is no shard at all. */
  lemma {:induction false} RefineIdShards(shards: seq<Shard>, count: nat, kind: string, namespace: string)
    requires AllWellFormed(shards) && ShardsInScope(shards, kind, namespace)
    requires AllIdShards(shards) && shards != []
    decreases SumOf(shards, Width)
    ensures Refine(shards, count, kind, namespace).Success?
  {
    if |shards| < count {
      IdStepNeverCrashes(shards);
      if RefineStep(shards).Split? {
        RefineStepSplit(shards, kind, namespace);
        SplitKeepsIdShards(shards);
        RefineIdShards(RefineStep(shards).next, count, kind, namespace);
      }
    }
  }

  // ---------------------------------------------------------------------------------------------
  // shard_query

  /** The part of a datastore query the sharder depends on: the kind and namespace it ranges over. */
  datatype Query = Query(kind: string, namespace: string)

  /** What the datastore answers `shard_query`: the least and the greatest key the query matches
      (`None` when it matches nothing), and the matching keys in `__scatter__` order. */
  datatype StoreAnswers = StoreAnswers(bounds: Option<(Key, Key)>, scatterOrder: seq<Key>)

  /** What a datastore answers about one query: every key lies in the query's kind and namespace,
      the scatter-ordered keys are distinct entities, and each lies between the least and the
      greatest key. */
  predicate Consistent(q: Query, a: StoreAnswers) {
    && (a.bounds.Some? ==> InScope(a.bounds.value.0, q.kind, q.namespace) && InScope(a.bounds.value.1, q.kind, q.namespace))
    && SameScope(a.scatterOrder, q.kind, q.namespace)
    && NoDuplicates(a.scatterOrder)
    && (a.bounds.Some? ==> forall i :: 0 <= i < |a.scatterOrder| ==>
          KeyLe(a.bounds.value.0, a.scatterOrder[i]) && KeyLe(a.scatterOrder[i], a.bounds.value.1))
  }

  function Min(a: nat, b: nat): nat { if a <= b then a else b }

  /** `query.Get(limit)`, sorted, with the least and greatest keys added at the ends when missing;
      `[minKey, maxKey]` when the scatter sample is empty. */
  function SampleKeys(minKey: Key, maxKey: Key, scatterOrder: seq<Key>, limit: nat): (keys: seq<Key>)
    ensures |keys| > 0 && minKey in keys && maxKey in keys
    ensures forall k :: k in keys ==> k == minKey || k == maxKey || k in scatterOrder[..Min(|scatterOrder|, limit)]
  {
    var taken := scatterOrder[..Min(|scatterOrder|, limit)];
    var sample := Sort(taken, KeyLt);
    assert forall k :: k in sample ==> k in taken by {
      forall k | k in sample ensures k in taken { SortMembership(taken, KeyLt, k); }
    }
    if sample == [] then [minKey, maxKey]
    else
      var withMin := if sample[0] != minKey then [minKey] + sample else sample;
      if withMin[|withMin| - 1] != maxKey then withMin + [maxKey] else withMin
  }

  lemma SampleKeysInScope(q: Query, a: StoreAnswers, limit: nat)
    requires Consistent(q, a) && a.bounds.Some?
    ensures SameScope(SampleKeys(a.bounds.value.0, a.bounds.value.1, a.scatterOrder, limit), q.kind, q.namespace)
  {
    var keys := SampleKeys(a.bounds.value.0, a.bounds.value.1, a.scatterOrder, limit);
    forall i | 0 <= i < |keys| ensures InScope(keys[i], q.kind, q.namespace) {
      assert keys[i] in keys;
    }
  }

  /** The closing loop `shard[1] = _next_key(shard[1])`: every end key moves to its successor, so the
      shards become half-open ranges `[low, high)`. */
  function ShiftEnds(shards: seq<Shard>): (r: seq<Shard>)
    ensures |r| == |shards|
    ensures forall i :: 0 <= i < |r| ==> r[i] == Shard(shards[i].low, NextKey(shards[i].high))
  {
    if shards == [] then []
    else [Shard(shards[0].low, NextKey(shards[0].high))] + ShiftEnds(shards[1..])
  }

  /** The shards `_generate_shards` makes from the sampled keys of a query with entities. */
  function InitialShards(a: StoreAnswers, count: nat): seq<Shard>
    requires count >= 1 && a.bounds.Some?
  {
    GenerateShards(SampleKeys(a.bounds.value.0, a.bounds.value.1, a.scatterOrder, count * OversamplingMultiplier), count)
  }

  lemma InitialShardsFacts(q: Query, a: StoreAnswers, count: nat)
    requires count >= 1 && Consistent(q, a) && a.bounds.Some?
    ensures var s := InitialShards(a, count);
      && AllWellFormed(s) && ShardsInScope(s, q.kind, q.namespace) && Sorted(s, ShardLt) && |s| <= count
  {
    var keys := SampleKeys(a.bounds.value.0, a.bounds.value.1, a.scatterOrder, count * OversamplingMultiplier);
    SampleKeysInScope(q, a, count * OversamplingMultiplier);
    GenerateShardsShape(keys, count, q.kind, q.namespace);
    GenerateShardsCount(keys, count);
  }

  /** `shard_query(query, shard_count)` as a value over the store's answers. */
  function ShardQuerySpec(q: Query, a: StoreAnswers, count: nat): Result<seq<Shard>, ShardError>
    requires count >= 1 && Consistent(q, a)
  {
    if a.bounds.None? then Success([])
    else
      InitialShardsFacts(q, a, count);
      match Refine(InitialShards(a, count), count, q.kind, q.namespace)
      case Failure(e) => Failure(e)
      case Success(shards) => Success(ShiftEnds(shards))
  }

  /** One pass of the `while True` loop body once the count is still short: `_find_largest_shard`,
      the zero-width check, the two `_mid_key` halves, the already-present check, and the
      remove/append/sort. */
  method BisectLargest(shards: seq<Shard>) returns (step: Step)
    ensures step == RefineStep(shards)
  {
    var largest := FindLargestShard(shards);
    if largest.Failure? {
      return Crash(largest.error);
    }
    if largest.value.None? {
      return Crash(NoShardToSplit);
    }
    var w := largest.value.value;
    if w.low == w.high {
      return Stop;
    }
    var mid := MidKey(w.low, w.high);
    if mid.Failure? {
      return Crash(KeyFailure(mid.error));
    }
    var left := Shard(w.low, mid.value);
    var right := Shard(NextKey(mid.value), w.high);
    if left in shards && right in shards {
      return Stop;
    }
    var next := RemoveFirst(shards, w);
    if left !in next {
      next := next + [left];
    }
    if right !in next {
      next := next + [right];
    }
    return Split(Sort(next, ShardLt));
  }

  /** The closing `for shard in shards: shard[1] = _next_key(shard[1])`, updating each shard in turn. */
  method ShiftEndKeys(shards: seq<Shard>) returns (r: seq<Shard>)
    ensures r == ShiftEnds(shards)
  {
    r := shards;
    var i := 0;
    while i < |r|
      invariant 0 <= i <= |r| == |shards|
      invariant forall j :: 0 <= j < i ==> r[j] == Shard(shards[j].low, NextKey(shards[j].high))
      invariant forall j :: i <= j < |r| ==> r[j] == shards[j]
    {
      r := r[i := Shard(r[i].low, NextKey(r[i].high))];
      i := i + 1;
    }
  }

  /** `shard_query`: sample the keys, generate the first shards, bisect the widest shard in a loop
      until there are enough or no more can be made, then shift every end key to its successor. */
  method ShardQuery(q: Query, a: StoreAnswers, count: nat) returns (r: Result<seq<Shard>, ShardError>)
    requires count >= 1 && Consistent(q, a)
    ensures r == ShardQuerySpec(q, a, count)
  {
    if a.bounds.None? {
      return Success([]);
    }
    var (minKey, maxKey) := a.bounds.value;
    var keys := SampleKeys(minKey, maxKey, a.scatterOrder, count * OversamplingMultiplier);
    var initial := GenerateShards(keys, count);
    InitialShardsFacts(q, a, count);
    var shards := initial;
    while |shards| < count
      invariant AllWellFormed(shards) && ShardsInScope(shards, q.kind, q.namespace)
      invariant Refine(shards, count, q.kind, q.namespace) == Refine(initial, count, q.kind, q.namespace)
      decreases SumOf(shards, Width)
    {
      var step := BisectLargest(shards);
      if step.Crash? {
        return Failure(step.error);
      }
      if step.Stop? {
        break;
      }
      RefineStepSplit(shards, q.kind, q.namespace);
      shards := step.next;
    }
    var shifted := ShiftEndKeys(shards);
    return Success(shifted);
  }

  /** After the shift every shard is a non-empty half-open range `low < high` in its scope, and the
      low keys keep their order. */
  lemma ShiftEndsFacts(shards: seq<Shard>, kind: string, namespace: string)
    requires AllWellFormed(shards) && ShardsInScope(shards, kind, namespace) && Sorted(shards, ShardLt)
    ensures var r := ShiftEnds(shards);
      && (forall i :: 0 <= i < |r| ==> KeyLt(r[i].low, r[i].high))
      && ShardsInScope(r, kind, namespace)
      && (forall i, j :: 0 <= i < j < |r| ==> KeyLe(r[i].low, r[j].low))
  {
    var r := ShiftEnds(shards);
    forall i | 0 <= i < |r| ensures KeyLt(r[i].low, r[i].high) {
      KeyLtFacts(shards[i].low, shards[i].high, r[i].high);
    }
    forall i, j | 0 <= i < j < |r| ensures KeyLe(r[i].low, r[j].low) {
      KeyLtFacts(shards[i].low, shards[j].low, shards[i].low);
    }
  }

  /** What `shard_query` promises: no shards for a query with no entities; otherwise, when it
      returns, at least one and at most `shard_count` shards (the `assert` before the shift never
      fails), each a non-empty half-open key range of the query's kind and namespace, in order of
      their low keys, and no shard twice. */
  lemma ShardQueryFacts(q: Query, a: StoreAnswers, count: nat)
    requires count >= 1 && Consistent(q, a)
    ensures var r := ShardQuerySpec(q, a, count);
      && (a.bounds.None? ==> r == Success([]))
      && (a.bounds.Some? && r.Success? ==> |r.value| >= 1)
      && (r.Success? ==>
            && |r.value| <= count
            && (forall i :: 0 <= i < |r.value| ==> KeyLt(r.value[i].low, r.value[i].high))
            && ShardsInScope(r.value, q.kind, q.namespace)
            && (forall i, j :: 0 <= i < j < |r.value| ==> KeyLe(r.value[i].low, r.value[j].low))
            && NoDuplicates(r.value))
  {
    ShardQueryNoDuplicates(q, a, count);
    if a.bounds.Some? {
      InitialShardsFacts(q, a, count);
      var initial := InitialShards(a, count);
      RefineFacts(initial, count, q.kind, q.namespace);
      var refined := Refine(initial, count, q.kind, q.namespace);
      if refined.Success? {
        ShiftEndsFacts(refined.value, q.kind, q.namespace);
        if initial == [] {
          assert RefineStep(initial) == Crash(NoShardToSplit);
        }
      }
    }
  }

  /** Every end of every generated shard is one of the keys. */
  lemma GenerateShardsEnds(keys: seq<Key>, shardCount: nat)
    requires shardCount >= 1 && (shardCount == 1 ==> |keys| > 0)
    ensures var r := GenerateShards(keys, shardCount);
      forall i :: 0 <= i < |r| ==> r[i].low in keys && r[i].high in keys
  {
    var sorted := Sort(keys, KeyLt);
    var r := GenerateShards(keys, shardCount);
    assert forall k :: k in sorted ==> k in keys by {
      forall k | k in sorted ensures k in keys { SortMembership(keys, KeyLt, k); }
    }
    if 1 < shardCount < |sorted| {
      var sub := Subsample(sorted, shardCount);
      forall j | 0 <= j < |sub| ensures sub[j] in sorted {
        SubsampleIndexInBounds(|sorted|, shardCount, j + 1);
      }
    }
  }

  /** The single generated shard, once its end key is shifted, holds every key half-open. */
  lemma OneShardHoldsAllKeys(keys: seq<Key>)
    requires |keys| > 0
    ensures var g := GenerateShards(keys, 1);
      |g| == 1 && forall k :: k in keys ==> KeyLe(g[0].low, k) && KeyLt(k, NextKey(g[0].high))
  {
    GenerateOneShard(keys);
    var g := GenerateShards(keys, 1)[0];
    forall k | k in keys ensures KeyLe(g.low, k) && KeyLt(k, NextKey(g.high)) {
      var i :| 0 <= i < |keys| && keys[i] == k;
      KeyLtFacts(k, g.high, NextKey(g.high));
    }
  }

  /** With one shard asked for, `shard_query` returns a single half-open range that holds the least
      and the greatest key and every key of the scatter sample. */
  lemma ShardQueryOneShard(q: Query, a: StoreAnswers)
    requires Consistent(q, a) && a.bounds.Some?
    ensures var r := ShardQuerySpec(q, a, 1);
      && r.Success? && |r.value| == 1
      && var s := r.value[0];
      && (forall k :: k in SampleKeys(a.bounds.value.0, a.bounds.value.1, a.scatterOrder, OversamplingMultiplier) ==>
            KeyLe(s.low, k) && KeyLt(k, s.high))
  {
    var keys := SampleKeys(a.bounds.value.0, a.bounds.value.1, a.scatterOrder, OversamplingMultiplier);
    InitialShardsFacts(q, a, 1);
    OneShardHoldsAllKeys(keys);
    var initial := InitialShards(a, 1);
    assert |initial| == 1;
    assert Refine(initial, 1, q.kind, q.namespace) == Success(initial);
    assert ShardQuerySpec(q, a, 1) == Success(ShiftEnds(initial));
    assert ShiftEnds(initial)[0] == Shard(initial[0].low, NextKey(initial[0].high));
  }

  lemma GenerateShardsIds(keys: seq<Key>, shardCount: nat)
    requires shardCount >= 1 && (shardCount == 1 ==> |keys| > 0)
    requires forall i :: 0 <= i < |keys| ==> keys[i].idOrName.Id?
    ensures AllIdShards(GenerateShards(keys, shardCount))
  {
    GenerateShardsEnds(keys, shardCount);
    var r := GenerateShards(keys, shardCount);
    forall i | 0 <= i < |r| ensures IsIdShard(r[i]) {
      assert r[i].low in keys && r[i].high in keys;
    }
  }

  lemma SampleKeysIds(minKey: Key, maxKey: Key, scatterOrder: seq<Key>, limit: nat)
    requires minKey.idOrName.Id? && maxKey.idOrName.Id?
    requires forall i :: 0 <= i < |scatterOrder| ==> scatterOrder[i].idOrName.Id?
    ensures var keys := SampleKeys(minKey, maxKey, scatterOrder, limit);
      forall i :: 0 <= i < |keys| ==> keys[i].idOrName.Id?
  {
    var keys := SampleKeys(minKey, maxKey, scatterOrder, limit);
    forall i | 0 <= i < |keys| ensures keys[i].idOrName.Id? {
      assert keys[i] in keys;
    }
  }

  /** The bisection loop started from the shards of integer-id keys fails only when there are none. */
  lemma RefineInitialIds(q: Query, a: StoreAnswers, count: nat)
    requires count >= 1 && Consistent(q, a) && a.bounds.Some?
    requires a.bounds.value.0.idOrName.Id? && a.bounds.value.1.idOrName.Id?
    requires forall i :: 0 <= i < |a.scatterOrder| ==> a.scatterOrder[i].idOrName.Id?
    requires AllWellFormed(InitialShards(a, count)) && ShardsInScope(InitialShards(a, count), q.kind, q.namespace)
    ensures var r := Refine(InitialShards(a, count), count, q.kind, q.namespace);
      r.Success? || r == Failure(NoShardToSplit)
  {
    var keys := SampleKeys(a.bounds.value.0, a.bounds.value.1, a.scatterOrder, count * OversamplingMultiplier);
    SampleKeysIds(a.bounds.value.0, a.bounds.value.1, a.scatterOrder, count * OversamplingMultiplier);
    GenerateShardsIds(keys, count);
    var initial := InitialShards(a, count);
    if initial != [] {
      RefineIdShards(initial, count, q.kind, q.namespace);
    } else {
      assert RefineStep(initial) == Crash(NoShardToSplit);
    }
  }

  /** When every key is an integer id, `shard_query` can fail only by finding no shard to bisect. */
  lemma ShardQueryIdKeys(q: Query, a: StoreAnswers, count: nat)
    requires count >= 1 && Consistent(q, a)
    requires a.bounds.Some? ==> a.bounds.value.0.idOrName.Id? && a.bounds.value.1.idOrName.Id?
    requires forall i :: 0 <= i < |a.scatterOrder| ==> a.scatterOrder[i].idOrName.Id?
    ensures var r := ShardQuerySpec(q, a, count);
      r.Success? || r == Failure(NoShardToSplit)
  {
    if a.bounds.Some? {
      InitialShardsFacts(q, a, count);
      RefineInitialIds(q, a, count);
    }
  }

  // ---------------------------------------------------------------------------------------------
  // No shard twice

  /** A key at most the first of a sorted list, and different from it, is not in the list. */
  lemma LeastNotInside(m: Key, s: seq<Key>)
    requires Sorted(s, KeyLt) && s != [] && s[0] != m && KeyLe(m, s[0])
    ensures m !in s
  {
    forall i | 0 <= i < |s| ensures s[i] != m {
      if i > 0 { assert !KeyLt(s[i], s[0]); }
    }
  }

  /** A key at least the last of a sorted list, and different from it, is not in the list. */
  lemma GreatestNotInside(s: seq<Key>, m: Key)
    requires Sorted(s, KeyLt) && s != [] && s[|s| - 1] != m && KeyLe(s[|s| - 1], m)
    ensures m !in s
  {
    forall i | 0 <= i < |s| ensures s[i] != m {
      if i < |s| - 1 { assert !KeyLt(s[|s| - 1], s[i]); }
    }
  }

  /** The sorted scatter sample: distinct keys, in order, each between the least and the greatest. */
  lemma SortedSampleFacts(minKey: Key, maxKey: Key, scatterOrder: seq<Key>, limit: nat)
    requires NoDuplicates(scatterOrder)
    requires forall i :: 0 <= i < |scatterOrder| ==> KeyLe(minKey, scatterOrder[i]) && KeyLe(scatterOrder[i], maxKey)
    ensures var sample := Sort(scatterOrder[..Min(|scatterOrder|, limit)], KeyLt);
      && NoDuplicates(sample) && Sorted(sample, KeyLt)
      && forall i :: 0 <= i < |sample| ==> KeyLe(minKey, sample[i]) && KeyLe(sample[i], maxKey)
  {
    var taken := scatterOrder[..Min(|scatterOrder|, limit)];
    var sample := Sort(taken, KeyLt);
    assert NoDuplicates(taken) by {
      forall i, j | 0 <= i < j < |taken| ensures taken[i] != taken[j] {
        assert taken[i] == scatterOrder[i] && taken[j] == scatterOrder[j];
      }
    }
    NoDuplicatesMultiset(taken);
    NoDuplicatesMultiset(sample);
    KeyLtIsStrictTotalOrder();
    SortSorted(taken, KeyLt);
    forall i | 0 <= i < |sample| ensures KeyLe(minKey, sample[i]) && KeyLe(sample[i], maxKey) {
      SortMembership(taken, KeyLt, sample[i]);
      var k :| 0 <= k < |taken| && taken[k] == sample[i];
      assert taken[k] == scatterOrder[k];
    }
  }

  /** The sampled keys are distinct, except for `[minKey, maxKey]` when the scatter sample is empty
      (the two coincide for a query with one entity). */
  lemma SampleKeysNoDuplicates(minKey: Key, maxKey: Key, scatterOrder: seq<Key>, limit: nat)
    requires NoDuplicates(scatterOrder)
    requires forall i :: 0 <= i < |scatterOrder| ==> KeyLe(minKey, scatterOrder[i]) && KeyLe(scatterOrder[i], maxKey)
    ensures var keys := SampleKeys(minKey, maxKey, scatterOrder, limit);
      NoDuplicates(keys) || keys == [minKey, maxKey]
  {
    var sample := Sort(scatterOrder[..Min(|scatterOrder|, limit)], KeyLt);
    SortedSampleFacts(minKey, maxKey, scatterOrder, limit);
    if sample != [] {
      var last := |sample| - 1;
      var withMin := if sample[0] != minKey then [minKey] + sample else sample;
      if sample[0] != minKey {
        LeastNotInside(minKey, sample);
        NoDuplicatesExtend(minKey, sample);
      }
      assert withMin[|withMin| - 1] == sample[last];
      if sample[last] != maxKey {
        GreatestNotInside(sample, maxKey);
        KeyLtFacts(minKey, sample[0], minKey);
        NoDuplicatesExtend(maxKey, withMin);
      }
    }
  }

  /** Consecutive pairs of distinct keys are distinct shards, their low keys already being distinct. */
  lemma PairsNoDuplicates(keys: seq<Key>)
    requires NoDuplicates(keys) || |keys| <= 2
    ensures NoDuplicates(Pairs(keys))
  {
  }

  /** The rounded stride indices differ, so a subsample of distinct keys has distinct keys. */
  lemma SubsampleNoDuplicates(keys: seq<Key>, count: nat)
    requires 2 <= count < |keys| && NoDuplicates(keys)
    ensures NoDuplicates(Subsample(keys, count))
  {
    var r := Subsample(keys, count);
    forall i, j | 0 <= i < j < |r| ensures r[i] != r[j] {
      SubsampleIndexIncreasing(|keys|, count, i + 1, j + 1);
      SubsampleIndexInBounds(|keys|, count, j + 1);
    }
  }

  /** `_generate_shards` never makes the same shard twice. */
  lemma GenerateShardsNoDuplicates(keys: seq<Key>, shardCount: nat)
    requires shardCount >= 1 && (shardCount == 1 ==> |keys| > 0)
    requires NoDuplicates(keys) || |keys| == 2
    ensures NoDuplicates(GenerateShards(keys, shardCount))
  {
    var sorted := Sort(keys, KeyLt);
    NoDuplicatesMultiset(keys);
    NoDuplicatesMultiset(sorted);
    if 1 < shardCount < |sorted| {
      SubsampleNoDuplicates(sorted, shardCount);
      PairsNoDuplicates(Subsample(sorted, shardCount));
    } else if shardCount > 1 {
      PairsNoDuplicates(sorted);
    }
  }

  /** A bisection of distinct shards leaves distinct shards: one copy goes, and a half is added only
      when it is missing. */
  lemma RefineStepNoDuplicates(shards: seq<Shard>)
    requires AllWellFormed(shards) && RefineStep(shards).Split? && NoDuplicates(shards)
    ensures NoDuplicates(RefineStep(shards).next)
  {
    var next := RefineStep(shards).next;
    RefineStepContents(shards);
    NoDuplicatesMultiset(shards);
    NoDuplicatesMultiset(next);
  }

  /** The refinement loop, started on distinct shards, ends on distinct shards. */
  lemma {:induction false} RefineNoDuplicates(shards: seq<Shard>, count: nat, kind: string, namespace: string)
    requires AllWellFormed(shards) && ShardsInScope(shards, kind, namespace) && NoDuplicates(shards)
    decreases SumOf(shards, Width)
    ensures var r := Refine(shards, count, kind, namespace);
      r.Success? ==> NoDuplicates(r.value)
  {
    if |shards| < count && RefineStep(shards).Split? {
      RefineStepSplit(shards, kind, namespace);
      RefineStepNoDuplicates(shards);
      RefineNoDuplicates(RefineStep(shards).next, count, kind, namespace);
    }
  }

  /** Shifting the end keys keeps distinct shards distinct, since `_next_key` is injective. */
  lemma ShiftEndsNoDuplicates(shards: seq<Shard>)
    requires NoDuplicates(shards)
    ensures NoDuplicates(ShiftEnds(shards))
  {
    var r := ShiftEnds(shards);
    forall i, j | 0 <= i < j < |r| ensures r[i] != r[j] {
      if r[i] == r[j] {
        NextKeyInjective(shards[i].high, shards[j].high);
      }
    }
  }

  /** The shards `shard_query` starts its loop with are distinct. */
  lemma InitialShardsNoDuplicates(q: Query, a: StoreAnswers, count: nat)
    requires count >= 1 && Consistent(q, a) && a.bounds.Some?
    ensures NoDuplicates(InitialShards(a, count))
  {
    var (minKey, maxKey) := a.bounds.value;
    var keys := SampleKeys(minKey, maxKey, a.scatterOrder, count * OversamplingMultiplier);
    SampleKeysNoDuplicates(minKey, maxKey, a.scatterOrder, count * OversamplingMultiplier);
    GenerateShardsNoDuplicates(keys, count);
  }

  /** `shard_query` never returns the same shard twice, so a job's marker queues each shard once. */
  lemma ShardQueryNoDuplicates(q: Query, a: StoreAnswers, count: nat)
    requires count >= 1 && Consistent(q, a)
    ensures var r := ShardQuerySpec(q, a, count);
      r.Success? ==> NoDuplicates(r.value)
  {
    if a.bounds.Some? {
      InitialShardsNoDuplicates(q, a, count);
      InitialShardsFacts(q, a, count);
      var initial := InitialShards(a, count);
      RefineNoDuplicates(initial, count, q.kind, q.namespace);
      var refined := Refine(initial, count, q.kind, q.namespace);
      if refined.Success? {
        ShiftEndsNoDuplicates(refined.value);
      }
    }
  }

  /** A query with one entity, which the scatter sample returns, yields no initial shard when more
      than one shard is asked for, so `shard_query` fails on `_find_largest_shard`'s `None`. */
  lemma ShardQuerySingleEntity(q: Query, k: Key, count: nat)
    requires count >= 2 && InScope(k, q.kind, q.namespace)
    ensures ShardQuerySpec(q, StoreAnswers(Some((k, k)), [k]), count) == Failure(NoShardToSplit)
  {
    var a := StoreAnswers(Some((k, k)), [k]);
    var limit := count * OversamplingMultiplier;
    assert Min(1, limit) == 1;
    assert a.scatterOrder[..1] == [k];
    assert Sort([k], KeyLt) == [k];
    var keys := SampleKeys(k, k, a.scatterOrder, limit);
    assert keys == [k];
    assert GenerateShards(keys, count) == [];
    assert RefineStep([]) == Crash(NoShardToSplit);
  }

  /** A query with one entity that the scatter sample does not return is sampled as `[k, k]`, which
      yields the single shard `[k, k]`; the loop stops on its zero width, so `shard_query` returns one
      shard whatever count is asked for. */
  lemma ShardQuerySingleEntityUnsampled(q: Query, k: Key, count: nat)
    requires count >= 1 && InScope(k, q.kind, q.namespace)
    ensures ShardQuerySpec(q, StoreAnswers(Some((k, k)), []), count) == Success([Shard(k, NextKey(k))])
  {
    var a := StoreAnswers(Some((k, k)), []);
    var keys := SampleKeys(k, k, a.scatterOrder, count * OversamplingMultiplier);
    assert keys == [k, k];
    KeyLtFacts(k, k, k);
    assert Sort([k, k], KeyLt) == [k, k];
    var initial := [Shard(k, k)];
    assert GenerateShards(keys, count) == initial;
    assert RefineStep(initial) == Stop;
    assert ShiftEnds(initial) == [Shard(k, NextKey(k))];
  }

  /** With two shards asked for and more than two sampled keys, `shard_query` fails: the subsample
      keeps one key and there is no shard to bisect. */
  lemma ShardQueryTwoShards(q: Query, a: StoreAnswers)
    requires Consistent(q, a) && a.bounds.Some?
    requires |SampleKeys(a.bounds.value.0, a.bounds.value.1, a.scatterOrder, 2 * OversamplingMultiplier)| > 2
    ensures ShardQuerySpec(q, a, 2) == Failure(NoShardToSplit)
  {
    var keys := SampleKeys(a.bounds.value.0, a.bounds.value.1, a.scatterOrder, 2 * OversamplingMultiplier);
    GenerateTwoShardsFromManyKeys(keys);
    assert RefineStep([]) == Crash(NoShardToSplit);
  }
}
