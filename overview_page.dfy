/**
 * The overview page's analytics: the ten nodes with the most storage for the bar
 * chart, and how many nodes fall into each of five storage ranges.
 */
module OverviewPage {

  import Seqs
  import Sorting
  import Route

  /** `n.storageCapacity || 0`; a record always carries its capacity, zero when
      missing. */
  function Capacity(n: Route.PNode): int {
    n.record.storageCapacity
  }

  const ChartSize: nat := 10

  /** The chart label of a node: "Unknown" when it has no pubkey; the first four and
      the last four characters of a pubkey of four or more; and a shorter pubkey,
      whose two pieces overlap, shown whole twice. */
  function Label(pubkey: string): (r: string)
    ensures pubkey == [] ==> r == "Unknown"
    ensures |pubkey| >= 4 ==> r == pubkey[..4] + ".." + pubkey[|pubkey| - 4..]
    ensures 0 < |pubkey| <= 4 ==> r == pubkey + ".." + pubkey
  {
    if pubkey == [] then "Unknown"
    else
      Seqs.SliceFacts(pubkey, 0, 4, 4);
      Seqs.Slice(pubkey, 0, 4) + ".." + Seqs.Slice(pubkey, -4, |pubkey|)
  }

  /** One bar of the chart. `storage` is the byte count its gigabyte height is
      computed from. */
  datatype Bar = Bar(name: string, storage: int)

  /** The nodes by storage, most first: `[...pnodes].sort(...)`. */
  function ByStorage(pnodes: seq<Route.PNode>): (r: seq<Route.PNode>)
    ensures |r| == |pnodes|
  {
    Sorting.SortDesc(Capacity, pnodes)
  }

  /** `topStorage`: one bar for each of the first min(10, n) nodes by storage. */
  function TopStorage(pnodes: seq<Route.PNode>): (r: seq<Bar>)
    ensures |r| == if |pnodes| < ChartSize then |pnodes| else ChartSize
  {
    if pnodes == [] then []
    else
      var top := Seqs.Slice(ByStorage(pnodes), 0, ChartSize);
      seq(|top|, i requires 0 <= i < |top| => Bar(Label(top[i].record.pubkey), Capacity(top[i])))
  }

  /* ---------- Storage ranges ---------- */

  const Gb100: int := 100_000_000_000
  const Gb500: int := 500_000_000_000
  const Tb1: int := 1_000_000_000_000
  const Tb10: int := 10_000_000_000_000

  const BucketCount: nat := 5

  /** The five ranges in the order they are charted. */
  const RangeNames: seq<string> := ["0-100G", "100-500G", "500G-1T", "1T-10T", "10T+"]

  /** The test of range `k`, as written for each of the five filters. */
  predicate InBucket(k: nat, c: int) {
    if k == 0 then c < Gb100
    else if k == 1 then c >= Gb100 && c < Gb500
    else if k == 2 then c >= Gb500 && c < Tb1
    else if k == 3 then c >= Tb1 && c < Tb10
    else if k == 4 then c >= Tb10
    else false
  }

  /** `pnodes.filter(...).length` for range `k`. */
  function BucketSize(pnodes: seq<Route.PNode>, k: nat): nat {
    |Seqs.Filter(n => InBucket(k, Capacity(n)), pnodes)|
  }

  datatype Bucket = Bucket(range: string, count: nat)

  /** `distribution`: nothing for no nodes, otherwise the five ranges in their
      charted order. */
  function Distribution(pnodes: seq<Route.PNode>): (r: seq<Bucket>)
    ensures |r| == if pnodes == [] then 0 else BucketCount
    ensures forall k :: 0 <= k < |r| ==> r[k].range == RangeNames[k]
  {
    if pnodes == [] then []
    else seq(BucketCount, k requires 0 <= k < BucketCount => Bucket(RangeNames[k], BucketSize(pnodes, k)))
  }

  /** The range a capacity falls into. */
  function RangeOf(c: int): (k: nat)
    ensures k < BucketCount && InBucket(k, c)
  {
    if c < Gb100 then 0 else if c < Gb500 then 1 else if c < Tb1 then 2 else if c < Tb10 then 3 else 4
  }

  /* ---------- Properties ---------- */

  /** With no nodes there is nothing to chart. */
  lemma EmptyAnalytics()
    ensures TopStorage([]) == [] && Distribution([]) == []
  {
  }

  /** Bar `i` of the chart shows the label and storage of node `i` by storage. */
  lemma TopStorageBars(pnodes: seq<Route.PNode>)
    ensures forall i :: 0 <= i < |TopStorage(pnodes)| ==>
      TopStorage(pnodes)[i] == Bar(Label(ByStorage(pnodes)[i].record.pubkey), Capacity(ByStorage(pnodes)[i]))
  {
    if pnodes != [] {
      var sorted := ByStorage(pnodes);
      var n := if |pnodes| < ChartSize then |pnodes| else ChartSize;
      assert Seqs.Slice(sorted, 0, ChartSize) == sorted[..n];
    }
  }

  /** The chart shows its nodes most storage first, and no node left off the chart
      has more storage than one on it. */
  lemma TopStorageFacts(pnodes: seq<Route.PNode>)
    ensures forall i, j :: 0 <= i < j < |TopStorage(pnodes)| ==> TopStorage(pnodes)[i].storage >= TopStorage(pnodes)[j].storage
    ensures forall i, j :: 0 <= i < |TopStorage(pnodes)| <= j < |pnodes| ==>
      Capacity(ByStorage(pnodes)[j]) <= TopStorage(pnodes)[i].storage
    ensures multiset(ByStorage(pnodes)) == multiset(pnodes)
  {
    Sorting.SortDescCorrect(Capacity, pnodes);
    TopStorageBars(pnodes);
    var sorted, top := ByStorage(pnodes), TopStorage(pnodes);
    forall i, j | 0 <= i < j < |pnodes| ensures Capacity(sorted[i]) >= Capacity(sorted[j]) {
    }
    forall i, j | 0 <= i < j < |top| ensures top[i].storage >= top[j].storage {
      assert top[i].storage == Capacity(sorted[i]) && top[j].storage == Capacity(sorted[j]);
    }
    forall i, j | 0 <= i < |top| <= j < |pnodes| ensures Capacity(sorted[j]) <= top[i].storage {
      assert top[i].storage == Capacity(sorted[i]);
    }
  }

  /** Every capacity falls into exactly one range, and the ranges are in ascending
      order. */
  lemma RangesPartition(c: int)
    ensures forall k :: 0 <= k < BucketCount ==> (InBucket(k, c) <==> k == RangeOf(c))
    ensures forall k, l :: 0 <= k < l < BucketCount && InBucket(k, c) ==> !InBucket(l, c)
  {
  }

  /** Sums the range sizes 0 to k - 1. */
  function SumSizes(pnodes: seq<Route.PNode>, k: nat): int
    requires k <= BucketCount
  {
    if k == 0 then 0 else SumSizes(pnodes, k - 1) + BucketSize(pnodes, k - 1)
  }

  lemma {:induction false} SumSizesSnoc(pnodes: seq<Route.PNode>, x: Route.PNode, k: nat)
    requires k <= BucketCount
    ensures SumSizes(pnodes + [x], k) == SumSizes(pnodes, k) + (if RangeOf(Capacity(x)) < k then 1 else 0)
  {
    if k > 0 {
      SumSizesSnoc(pnodes, x, k - 1);
      assert (pnodes + [x])[..|pnodes|] == pnodes;
      RangesPartition(Capacity(x));
    }
  }

  lemma {:induction false} SumSizesEmpty(k: nat)
    requires k <= BucketCount
    ensures SumSizes([], k) == 0
  {
    if k > 0 {
      SumSizesEmpty(k - 1);
    }
  }

  /** The range sizes add up to the number of nodes. */
  lemma {:induction false} RangesCoverAll(pnodes: seq<Route.PNode>)
    ensures SumSizes(pnodes, BucketCount) == |pnodes|
  {
    if pnodes == [] {
      SumSizesEmpty(BucketCount);
    } else {
      var init := pnodes[..|pnodes| - 1];
      RangesCoverAll(init);
      assert pnodes == init + [pnodes[|pnodes| - 1]];
      SumSizesSnoc(init, pnodes[|pnodes| - 1], BucketCount);
    }
  }

  /** For a non-empty list the counts of the five ranges add up to the number of
      nodes. */
  lemma DistributionFacts(pnodes: seq<Route.PNode>)
    requires pnodes != []
    ensures Distribution(pnodes)[0].count + Distribution(pnodes)[1].count + Distribution(pnodes)[2].count
          + Distribution(pnodes)[3].count + Distribution(pnodes)[4].count == |pnodes|
  {
    RangesCoverAll(pnodes);
    assert SumSizes(pnodes, 1) == BucketSize(pnodes, 0);
    assert SumSizes(pnodes, 2) == SumSizes(pnodes, 1) + BucketSize(pnodes, 1);
    assert SumSizes(pnodes, 3) == SumSizes(pnodes, 2) + BucketSize(pnodes, 2);
    assert SumSizes(pnodes, 4) == SumSizes(pnodes, 3) + BucketSize(pnodes, 3);
  }
}
