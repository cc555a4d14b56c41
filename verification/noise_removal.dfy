/**
 * Background suppression by a threshold on the quantised green channel, and
 * selection of the largest density clusters from a DBSCAN labelling.
 */
module NoiseRemoval {
  import opened PointClouds
  import opened Argsort
  import opened Wrappers

  /** The default `green_threshold` of remove_background_color_from_file. */
  const DefaultGreenThreshold: int := 30

  // ---------------------------------------------------------------------
  // Background removal
  // ---------------------------------------------------------------------

  predicate GreenInUnitRange(colors: seq<Rgb>) {
    forall k :: 0 <= k < |colors| ==> 0.0 <= colors[k].g <= 1.0
  }

  /**
   * `(g * 255).astype(np.uint8)` for a channel in [0, 1]: the cast truncates,
   * which for a non-negative value is the floor, and lands in 0 .. 255.
   */
  function QuantisedGreen(c: Rgb): (v: int)
    requires 0.0 <= c.g <= 1.0
    ensures 0 <= v <= 255
    ensures v as real <= c.g * 255.0 < v as real + 1.0
  {
    (c.g * 255.0).Floor
  }

  predicate IsBackground(c: Rgb, threshold: int)
    requires 0.0 <= c.g <= 1.0
  {
    QuantisedGreen(c) > threshold
  }

  /**
   * On the channel itself: a colour is background exactly when g * 255
   * reaches threshold + 1, so with the default threshold 30 the background
   * is every green of at least 31/255.
   */
  lemma BackgroundInChannelTerms(c: Rgb, threshold: int)
    requires 0.0 <= c.g <= 1.0
    ensures IsBackground(c, threshold) <==> c.g * 255.0 >= (threshold + 1) as real
    ensures IsBackground(c, DefaultGreenThreshold) <==> c.g >= 31.0 / 255.0
  {
  }

  /** `~(rgb_255[:, 1] > green_threshold)`. */
  function ForegroundMask(colors: seq<Rgb>, threshold: int): (mask: seq<bool>)
    requires GreenInUnitRange(colors)
    ensures |mask| == |colors|
    ensures forall i :: 0 <= i < |colors| ==> (mask[i] <==> QuantisedGreen(colors[i]) <= threshold)
  {
    seq(|colors|, i requires 0 <= i < |colors| => !IsBackground(colors[i], threshold))
  }

  /**
   * remove_background_color_from_file on an already loaded cloud: the points
   * whose quantised green is at most the threshold, with their colours,
   * selected by one mask and kept in order.
   */
  function RemoveBackgroundColor(pc: PointCloud, greenThreshold: int): (r: PointCloud)
    requires |pc.colors| == |pc.points|
    requires GreenInUnitRange(pc.colors)
    ensures |r.colors| == |r.points| <= |pc.points|
    ensures forall k :: 0 <= k < |r.colors| ==>
      0.0 <= r.colors[k].g <= 1.0 && QuantisedGreen(r.colors[k]) <= greenThreshold
    ensures var idx := TrueIndices(ForegroundMask(pc.colors, greenThreshold));
      && |r.points| == |idx|
      && (forall k :: 0 <= k < |idx| ==> r.points[k] == pc.points[idx[k]] && r.colors[k] == pc.colors[idx[k]])
  {
    var mask := ForegroundMask(pc.colors, greenThreshold);
    PointCloud(Select(pc.points, mask), Select(pc.colors, mask))
  }

  /**
   * A point is kept exactly when its quantised green is at most the
   * threshold; the kept and the removed points together are all the points,
   * and every removed point is background.
   */
  lemma BackgroundPartition(pc: PointCloud, greenThreshold: int)
    requires |pc.colors| == |pc.points|
    requires GreenInUnitRange(pc.colors)
    ensures var mask := ForegroundMask(pc.colors, greenThreshold);
      var kept := TrueIndices(mask);
      var removed := TrueIndices(Negate(mask));
      && (forall i :: 0 <= i < |pc.points| ==> (i in kept <==> QuantisedGreen(pc.colors[i]) <= greenThreshold))
      && (forall k :: 0 <= k < |removed| ==> IsBackground(pc.colors[removed[k]], greenThreshold))
      && |RemoveBackgroundColor(pc, greenThreshold).points| + |removed| == |pc.points|
  {
    SplitByMask(ForegroundMask(pc.colors, greenThreshold));
  }

  // ---------------------------------------------------------------------
  // Cluster sizes, np.unique(labels[labels != -1], return_counts=True)
  // ---------------------------------------------------------------------

  datatype ClusterSize = ClusterSize(id: int, size: nat)

  /** DBSCAN labels: -1 for noise, otherwise a cluster id. */
  predicate ValidLabels(labels: seq<int>) {
    forall k :: 0 <= k < |labels| ==> labels[k] >= -1
  }

  function Occurrences(labels: seq<int>, v: int): (n: nat)
    ensures n <= |labels|
    ensures n > 0 <==> v in labels
  {
    if labels == [] then 0
    else
      assert v in labels <==> labels[0] == v || v in labels[1..];
      (if labels[0] == v then 1 else 0) + Occurrences(labels[1..], v)
  }

  /** np.max on a non-empty labelling. */
  function MaxLabel(labels: seq<int>): (m: int)
    requires |labels| > 0
    ensures m in labels
    ensures forall k :: 0 <= k < |labels| ==> labels[k] <= m
  {
    if |labels| == 1 then labels[0]
    else
      var rest := MaxLabel(labels[1..]);
      assert forall k :: 1 <= k < |labels| ==> labels[k] == labels[1..][k - 1];
      if labels[0] >= rest then labels[0] else rest
  }

  /** The values lo .. hi that occur, in increasing order, each with its number of occurrences. */
  function HistogramFrom(labels: seq<int>, lo: int, hi: int): (h: seq<ClusterSize>)
    ensures forall k :: 0 <= k < |h| ==>
      lo <= h[k].id <= hi && h[k].size == Occurrences(labels, h[k].id) && h[k].size >= 1
    ensures forall a, b :: 0 <= a < b < |h| ==> h[a].id < h[b].id
    decreases hi - lo
  {
    if lo > hi then []
    else
      var n := Occurrences(labels, lo);
      var rest := HistogramFrom(labels, lo + 1, hi);
      if n > 0 then [ClusterSize(lo, n)] + rest else rest
  }

  /** The cluster ids of a histogram, in its order. */
  function Ids(h: seq<ClusterSize>): (ids: seq<int>)
    ensures |ids| == |h| && forall k :: 0 <= k < |h| ==> ids[k] == h[k].id
  {
    seq(|h|, k requires 0 <= k < |h| => h[k].id)
  }

  /** Every value in lo .. hi that occurs has an entry. */
  lemma {:induction false} HistogramFromComplete(labels: seq<int>, lo: int, hi: int, v: int)
    requires lo <= v <= hi && v in labels
    ensures v in Ids(HistogramFrom(labels, lo, hi))
    decreases hi - lo
  {
    var n := Occurrences(labels, lo);
    var rest := HistogramFrom(labels, lo + 1, hi);
    var h := HistogramFrom(labels, lo, hi);
    if v == lo {
      assert v in Ids(h) by {
        assert h == [ClusterSize(lo, n)] + rest;
        assert Ids(h)[0] == v;
      }
    } else {
      HistogramFromComplete(labels, lo + 1, hi, v);
      var k :| 0 <= k < |rest| && Ids(rest)[k] == v;
      assert v in Ids(h) by {
        if n > 0 {
          assert h[k + 1] == rest[k];
          assert Ids(h)[k + 1] == v;
        } else {
          assert h == rest;
        }
      }
    }
  }

  /**
   * The distinct non-noise labels in increasing order, each with its number
   * of occurrences: every valid label appears exactly once.
   */
  function Histogram(labels: seq<int>): (h: seq<ClusterSize>)
    requires ValidLabels(labels)
    ensures forall k :: 0 <= k < |h| ==>
      h[k].id >= 0 && h[k].id in labels && h[k].size == Occurrences(labels, h[k].id) && h[k].size >= 1
    ensures forall a, b :: 0 <= a < b < |h| ==> h[a].id < h[b].id
    ensures forall l :: l in labels && l != -1 ==> l in Ids(h)
  {
    if labels == [] then []
    else
      var m := MaxLabel(labels);
      var h := HistogramFrom(labels, 0, m);
      assert forall l :: l in labels && l != -1 ==> l in Ids(h) by {
        forall l | l in labels && l != -1
          ensures l in Ids(h)
        {
          HistogramFromComplete(labels, 0, m, l);
        }
      }
      h
  }

  function SumSizes(h: seq<ClusterSize>): nat {
    if h == [] then 0 else h[0].size + SumSizes(h[1..])
  }

  /** The number of labels in lo .. hi. */
  function CountInRange(labels: seq<int>, lo: int, hi: int): nat {
    if labels == [] then 0
    else (if lo <= labels[0] <= hi then 1 else 0) + CountInRange(labels[1..], lo, hi)
  }

  lemma {:induction false} CountInRangeSplit(labels: seq<int>, lo: int, hi: int)
    requires lo <= hi
    ensures CountInRange(labels, lo, hi) == Occurrences(labels, lo) + CountInRange(labels, lo + 1, hi)
  {
    if labels != [] {
      CountInRangeSplit(labels[1..], lo, hi);
    }
  }

  lemma {:induction false} CountInEmptyRange(labels: seq<int>, lo: int, hi: int)
    requires lo > hi
    ensures CountInRange(labels, lo, hi) == 0
  {
    if labels != [] {
      CountInEmptyRange(labels[1..], lo, hi);
    }
  }

  lemma {:induction false} HistogramFromTotal(labels: seq<int>, lo: int, hi: int)
    ensures SumSizes(HistogramFrom(labels, lo, hi)) == CountInRange(labels, lo, hi)
    decreases hi - lo
  {
    if lo > hi {
      CountInEmptyRange(labels, lo, hi);
    } else {
      var n := Occurrences(labels, lo);
      var rest := HistogramFrom(labels, lo + 1, hi);
      HistogramFromTotal(labels, lo + 1, hi);
      CountInRangeSplit(labels, lo, hi);
      if n > 0 {
        assert ([ClusterSize(lo, n)] + rest)[1..] == rest;
      } else {
        assert [] + rest == rest;
      }
    }
  }

  lemma {:induction false} CountAllValid(labels: seq<int>, hi: int)
    requires ValidLabels(labels)
    requires forall k :: 0 <= k < |labels| ==> labels[k] <= hi
    ensures CountInRange(labels, 0, hi) + Occurrences(labels, -1) == |labels|
  {
    if labels != [] {
      CountAllValid(labels[1..], hi);
    }
  }

  /** The cluster sizes add up to the number of points that are not noise. */
  lemma HistogramTotal(labels: seq<int>)
    requires ValidLabels(labels)
    ensures SumSizes(Histogram(labels)) + Occurrences(labels, -1) == |labels|
  {
    if labels != [] {
      var m := MaxLabel(labels);
      HistogramFromTotal(labels, 0, m);
      CountAllValid(labels, m);
    }
  }

  // ---------------------------------------------------------------------
  // Top-K selection, unique[np.argsort(counts)[-top_k:]]
  // ---------------------------------------------------------------------

  function Counts(h: seq<ClusterSize>): (key: seq<nat>)
    ensures |key| == |h| && forall k :: 0 <= k < |h| ==> key[k] == h[k].size
  {
    seq(|h|, k requires 0 <= k < |h| => h[k].size)
  }

  /**
   * Where the slice `a[-top_k:]` of an array of length n starts, by Python's
   * rules: the last min(top_k, n) items for a positive top_k, everything for
   * top_k = 0 (since -0 is 0), and for a negative top_k all but the first -top_k.
   */
  function TailSliceStart(n: nat, topK: int): (s: nat)
    ensures s <= n
    ensures topK >= 1 ==> n - s == (if topK < n then topK else n)
    ensures topK == 0 ==> s == 0
    ensures topK < 0 ==> s == (if -topK < n then -topK else n)
  {
    var start := -topK;
    if start < 0 then (if n + start < 0 then 0 else n + start)
    else if start > n then n
    else start
  }

  /** The ids at the last positions of the argsort, in argsort order. */
  function TopClusters(h: seq<ClusterSize>, order: seq<nat>, topK: int): (sel: seq<int>)
    requires IsArgsort(order, Counts(h))
    ensures |sel| == |h| - TailSliceStart(|h|, topK)
    ensures forall k :: 0 <= k < |sel| ==> sel[k] == h[order[TailSliceStart(|h|, topK) + k]].id
  {
    var start := TailSliceStart(|h|, topK);
    seq(|h| - start, k requires 0 <= k < |h| - start => h[order[start + k]].id)
  }

  datatype Selection = Selection(cloud: PointCloud, topClusters: Option<seq<int>>)

  /** `np.isin(labels, top_clusters)`. */
  function MembershipMask(labels: seq<int>, ids: seq<int>): (mask: seq<bool>)
    ensures |mask| == |labels| && forall i :: 0 <= i < |labels| ==> (mask[i] <==> labels[i] in ids)
  {
    seq(|labels|, i requires 0 <= i < |labels| => labels[i] in ids)
  }

  /**
   * dbscan_largest_clusters, given the labels DBSCAN assigned and the
   * permutation argsort returned for the cluster sizes. With no labels, or
   * only noise, the input comes back with no selection; otherwise the
   * selected clusters' points and colours, in their original order.
   */
  function DbscanLargestClusters(pc: PointCloud, labels: seq<int>, argsort: seq<nat>, topK: int): (r: Selection)
    requires |labels| == |pc.points| && |pc.colors| == |pc.points|
    requires ValidLabels(labels)
    requires IsArgsort(argsort, Counts(Histogram(labels)))
    ensures r.topClusters.None? ==> r.cloud == pc
    ensures r.topClusters.Some? ==> |r.cloud.colors| == |r.cloud.points| <= |pc.points|
  {
    if |labels| == 0 || MaxLabel(labels) < 0 then Selection(pc, None)
    else
      var h := Histogram(labels);
      if |h| == 0 then Selection(pc, None)
      else
        var sel := TopClusters(h, argsort, topK);
        var mask := MembershipMask(labels, sel);
        Selection(PointCloud(Select(pc.points, mask), Select(pc.colors, mask)), Some(sel))
  }

  /** Once the labelling has a non-noise label, at least one valid cluster exists. */
  lemma ValidClusterExists(labels: seq<int>)
    requires ValidLabels(labels) && |labels| > 0 && MaxLabel(labels) >= 0
    ensures |Histogram(labels)| > 0
  {
    var m := MaxLabel(labels);
    assert m in labels && m != -1;
  }

  /** The "no clusters" result comes back exactly when every label is noise, and carries the input cloud. */
  lemma NoClustersSentinel(pc: PointCloud, labels: seq<int>, argsort: seq<nat>, topK: int)
    requires |labels| == |pc.points| && |pc.colors| == |pc.points|
    requires ValidLabels(labels)
    requires IsArgsort(argsort, Counts(Histogram(labels)))
    ensures var r := DbscanLargestClusters(pc, labels, argsort, topK);
      && (r.topClusters.None? <==> forall k :: 0 <= k < |labels| ==> labels[k] == -1)
      && (r.topClusters.None? ==> r.cloud == pc)
  {
    if |labels| > 0 && MaxLabel(labels) >= 0 {
      ValidClusterExists(labels);
      var m := MaxLabel(labels);
      var k :| 0 <= k < |labels| && labels[k] == m;
    }
  }

  /** Distinct sizes lie at distinct histogram positions; distinct positions carry distinct ids. */
  lemma IdsAreInjective(labels: seq<int>, p: nat, q: nat)
    requires ValidLabels(labels)
    requires p < |Histogram(labels)| && q < |Histogram(labels)| && p != q
    ensures Histogram(labels)[p].id != Histogram(labels)[q].id
  {
    var h := Histogram(labels);
    if p < q {
      assert h[p].id < h[q].id;
    } else {
      assert h[q].id < h[p].id;
    }
  }

  /** When a selection is made, it is the tail of the argsort over the cluster histogram. */
  lemma SelectionIsTail(pc: PointCloud, labels: seq<int>, argsort: seq<nat>, topK: int)
    requires |labels| == |pc.points| && |pc.colors| == |pc.points|
    requires ValidLabels(labels)
    requires IsArgsort(argsort, Counts(Histogram(labels)))
    requires DbscanLargestClusters(pc, labels, argsort, topK).topClusters.Some?
    ensures DbscanLargestClusters(pc, labels, argsort, topK).topClusters.value == TopClusters(Histogram(labels), argsort, topK)
  {
  }

  /** The argsort tail over the histogram lists distinct non-noise labels that occur. */
  lemma TopClustersAreDistinctLabels(labels: seq<int>, argsort: seq<nat>, topK: int)
    requires ValidLabels(labels)
    requires IsArgsort(argsort, Counts(Histogram(labels)))
    ensures var sel := TopClusters(Histogram(labels), argsort, topK);
      && (forall k :: 0 <= k < |sel| ==> sel[k] in labels && sel[k] != -1)
      && (forall a, b :: 0 <= a < b < |sel| ==> sel[a] != sel[b])
  {
    var h := Histogram(labels);
    var sel := TopClusters(h, argsort, topK);
    var s := TailSliceStart(|h|, topK);
    forall a, b | 0 <= a < b < |sel|
      ensures sel[a] != sel[b]
    {
      assert argsort[s + a] != argsort[s + b];
      IdsAreInjective(labels, argsort[s + a], argsort[s + b]);
    }
  }

  /**
   * The selection is a set of distinct valid cluster ids; for top_k >= 1
   * there are min(top_k, M) of them and for top_k = 0 all M, where M is the
   * number of valid clusters.
   */
  lemma SelectionIsDistinctValidIds(pc: PointCloud, labels: seq<int>, argsort: seq<nat>, topK: int)
    requires |labels| == |pc.points| && |pc.colors| == |pc.points|
    requires ValidLabels(labels)
    requires IsArgsort(argsort, Counts(Histogram(labels)))
    requires DbscanLargestClusters(pc, labels, argsort, topK).topClusters.Some?
    ensures var sel := DbscanLargestClusters(pc, labels, argsort, topK).topClusters.value;
      var m := |Histogram(labels)|;
      && (forall k :: 0 <= k < |sel| ==> sel[k] in labels && sel[k] != -1)
      && (forall a, b :: 0 <= a < b < |sel| ==> sel[a] != sel[b])
      && (topK >= 1 ==> |sel| == if topK < m then topK else m)
      && (topK == 0 ==> |sel| == m)
  {
    SelectionIsTail(pc, labels, argsort, topK);
    TopClustersAreDistinctLabels(labels, argsort, topK);
  }

  /**
   * In argsort order, the clusters in the tail slice are at least as large
   * as every cluster before it.
   */
  lemma {:induction false} TopClustersDominate(h: seq<ClusterSize>, order: seq<nat>, topK: int, j: nat, p: nat)
    requires IsArgsort(order, Counts(h))
    requires j < |h| && p < |TopClusters(h, order, topK)|
    requires h[j].id !in TopClusters(h, order, topK)
    ensures h[j].size <= h[order[TailSliceStart(|h|, topK) + p]].size
  {
    var sel := TopClusters(h, order, topK);
    var s := TailSliceStart(|h|, topK);
    var key := Counts(h);
    assert j in order;
    var q :| 0 <= q < |order| && order[q] == j;
    assert forall i :: s <= i < |order| ==> order[i] != j by {
      forall i | s <= i < |order|
        ensures order[i] != j
      {
        assert sel[i - s] == h[order[i]].id;
      }
    }
    assert key[order[q]] <= key[order[s + p]];
  }

  /**
   * Every selected cluster has at least as many points as every valid
   * cluster left out.
   */
  lemma SelectionDominates(pc: PointCloud, labels: seq<int>, argsort: seq<nat>, topK: int)
    requires |labels| == |pc.points| && |pc.colors| == |pc.points|
    requires ValidLabels(labels)
    requires IsArgsort(argsort, Counts(Histogram(labels)))
    requires DbscanLargestClusters(pc, labels, argsort, topK).topClusters.Some?
    ensures var sel := DbscanLargestClusters(pc, labels, argsort, topK).topClusters.value;
      forall a, b :: a in sel && b in labels && b != -1 && b !in sel ==>
        Occurrences(labels, b) <= Occurrences(labels, a)
  {
    var h := Histogram(labels);
    var sel := TopClusters(h, argsort, topK);
    SelectionIsTail(pc, labels, argsort, topK);
    forall a, b | a in sel && b in labels && b != -1 && b !in sel
      ensures Occurrences(labels, b) <= Occurrences(labels, a)
    {
      var p :| 0 <= p < |sel| && sel[p] == a;
      var j :| 0 <= j < |h| && Ids(h)[j] == b;
      TopClustersDominate(h, argsort, topK, j, p);
      var i := argsort[TailSliceStart(|h|, topK) + p];
      assert Occurrences(labels, b) == h[j].size;
      assert a == h[i].id;
      assert Occurrences(labels, a) == h[i].size;
    }
  }

  /** The selection lists its clusters in non-decreasing order of size. */
  lemma SelectionAscending(pc: PointCloud, labels: seq<int>, argsort: seq<nat>, topK: int)
    requires |labels| == |pc.points| && |pc.colors| == |pc.points|
    requires ValidLabels(labels)
    requires IsArgsort(argsort, Counts(Histogram(labels)))
    requires DbscanLargestClusters(pc, labels, argsort, topK).topClusters.Some?
    ensures var sel := DbscanLargestClusters(pc, labels, argsort, topK).topClusters.value;
      forall a, b :: 0 <= a < b < |sel| ==> Occurrences(labels, sel[a]) <= Occurrences(labels, sel[b])
  {
    var h := Histogram(labels);
    var key := Counts(h);
    var sel := DbscanLargestClusters(pc, labels, argsort, topK).topClusters.value;
    var s := TailSliceStart(|h|, topK);
    assert sel == TopClusters(h, argsort, topK);
    forall a, b | 0 <= a < b < |sel|
      ensures Occurrences(labels, sel[a]) <= Occurrences(labels, sel[b])
    {
      assert key[argsort[s + a]] <= key[argsort[s + b]];
    }
  }

  /**
   * The output holds exactly the points whose label is a selected id, in
   * their original order and with their own colours; no noise point survives.
   */
  lemma SelectionKeepsExactlyMembers(pc: PointCloud, labels: seq<int>, argsort: seq<nat>, topK: int)
    requires |labels| == |pc.points| && |pc.colors| == |pc.points|
    requires ValidLabels(labels)
    requires IsArgsort(argsort, Counts(Histogram(labels)))
    requires DbscanLargestClusters(pc, labels, argsort, topK).topClusters.Some?
    ensures var r := DbscanLargestClusters(pc, labels, argsort, topK);
      var idx := TrueIndices(MembershipMask(labels, r.topClusters.value));
      && |r.cloud.points| == |idx|
      && (forall k :: 0 <= k < |idx| ==>
            r.cloud.points[k] == pc.points[idx[k]] && r.cloud.colors[k] == pc.colors[idx[k]]
            && labels[idx[k]] in r.topClusters.value && labels[idx[k]] != -1)
      && (forall i :: 0 <= i < |labels| && labels[i] in r.topClusters.value ==> i in idx)
  {
    SelectionIsDistinctValidIds(pc, labels, argsort, topK);
  }
}
