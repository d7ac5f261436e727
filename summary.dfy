// Colour-pair summary: greedy clustering of 8-bit colours, the group-by over
// (foreground cluster, background cluster) and the sort by worst ratio.
module Summary {
  import opened Common
  import opened HexCodes
  import opened Colors
  import opened Resolver

  // ---------------------------------------------------------------------
  // Greedy clustering (`cluster_colors`)
  // ---------------------------------------------------------------------

  /** An 8-bit colour as an integer triple. */
  function AsIntRgb(c: Rgb8): IntRgb
  {
    IntRgb(c.r, c.g, c.b)
  }

  /** `np.linalg.norm(a - b) <= rgb_thresh`, compared on squares. */
  predicate Near(a: Rgb8, b: Rgb8, t: nat)
  {
    Dist2(AsIntRgb(a), AsIntRgb(b)) <= t * t
  }

  /** The representatives so far and one label per colour seen. */
  datatype Clustering = Clustering(reps: seq<Rgb8>, labels: seq<int>)

  /** Index of the first representative near `c`, or `|reps|` when there is none. */
  function FirstNear(reps: seq<Rgb8>, c: Rgb8, t: nat): (j: nat)
    ensures j <= |reps|
    ensures j < |reps| ==> Near(c, reps[j], t)
    ensures forall i :: 0 <= i < j ==> !Near(c, reps[i], t)
  {
    if |reps| == 0 then 0
    else if Near(c, reps[0], t) then 0
    else 1 + FirstNear(reps[1..], c, t)
  }

  /** One iteration of the outer loop: join the first near cluster or open a new one. */
  function Assign(cl: Clustering, c: Rgb8, t: nat): Clustering
  {
    var j := FirstNear(cl.reps, c, t);
    if j < |cl.reps| then Clustering(cl.reps, cl.labels + [j])
    else Clustering(cl.reps + [c], cl.labels + [|cl.reps|])
  }

  /** The clustering of `arr`, colour by colour in input order. */
  function ClusterAll(arr: seq<Rgb8>, t: nat): (cl: Clustering)
    ensures |cl.labels| == |arr|
  {
    if |arr| == 0 then Clustering([], [])
    else Assign(ClusterAll(arr[..|arr| - 1], t), arr[|arr| - 1], t)
  }

  /**
   * What a greedy clustering guarantees: one label per colour, each label a
   * cluster whose representative is near the colour and is the first such
   * representative; representatives pairwise far apart; each representative
   * is the first colour of its own cluster.
   */
  ghost predicate WellClustered(arr: seq<Rgb8>, cl: Clustering, t: nat)
  {
    LabelsNear(arr, cl, t) && RepsApart(cl, t) && RepsFirst(arr, cl)
  }

  ghost predicate LabelsNear(arr: seq<Rgb8>, cl: Clustering, t: nat)
  {
    && |cl.labels| == |arr|
    && (forall i :: 0 <= i < |arr| ==> 0 <= cl.labels[i] < |cl.reps| && Near(arr[i], cl.reps[cl.labels[i]], t))
    && (forall i, j :: 0 <= i < |arr| && 0 <= j < cl.labels[i] ==> !Near(arr[i], cl.reps[j], t))
  }

  ghost predicate RepsApart(cl: Clustering, t: nat)
  {
    forall i, j :: 0 <= i < j < |cl.reps| ==> !Near(cl.reps[j], cl.reps[i], t)
  }

  ghost predicate RepsFirst(arr: seq<Rgb8>, cl: Clustering)
  {
    |cl.labels| == |arr| && forall j :: 0 <= j < |cl.reps| ==> HasFirst(arr, cl, j)
  }

  /** Some colour is the first one labelled `j`, and it is representative `j`. */
  ghost predicate HasFirst(arr: seq<Rgb8>, cl: Clustering, j: int)
    requires |cl.labels| == |arr| && 0 <= j < |cl.reps|
  {
    exists i :: FirstOfCluster(arr, cl, i, j)
  }

  ghost predicate FirstOfCluster(arr: seq<Rgb8>, cl: Clustering, i: int, j: int)
    requires |cl.labels| == |arr| && 0 <= j < |cl.reps|
  {
    0 <= i < |arr| && cl.labels[i] == j && arr[i] == cl.reps[j] && forall k :: 0 <= k < i ==> cl.labels[k] != j
  }

  lemma {:induction false} ClusterAllWellClustered(arr: seq<Rgb8>, t: nat)
    ensures WellClustered(arr, ClusterAll(arr, t), t)
    decreases |arr|
  {
    if |arr| > 0 {
      var n := |arr| - 1;
      ClusterAllWellClustered(arr[..n], t);
      assert arr[..n] + [arr[n]] == arr;
      AssignLabelsNear(arr[..n], arr[n], t);
      AssignRepsApart(arr[..n], arr[n], t);
      AssignRepsFirst(arr[..n], arr[n], t);
    }
  }

  lemma AssignLabelsNear(arr: seq<Rgb8>, c: Rgb8, t: nat)
    requires LabelsNear(arr, ClusterAll(arr, t), t)
    ensures LabelsNear(arr + [c], ClusterAll(arr + [c], t), t)
  {
    var prev, cl, n := ClusterAll(arr, t), ClusterAll(arr + [c], t), |arr|;
    assert (arr + [c])[..n] == arr;
    assert cl == Assign(prev, c, t);
    forall i | 0 <= i < n + 1
      ensures 0 <= cl.labels[i] < |cl.reps| && Near((arr + [c])[i], cl.reps[cl.labels[i]], t)
      ensures forall k :: 0 <= k < cl.labels[i] ==> !Near((arr + [c])[i], cl.reps[k], t)
    {
      if i < n {
        assert cl.labels[i] == prev.labels[i];
        assert cl.reps[cl.labels[i]] == prev.reps[prev.labels[i]];
        forall k | 0 <= k < cl.labels[i]
          ensures !Near((arr + [c])[i], cl.reps[k], t)
        {
          assert cl.reps[k] == prev.reps[k];
        }
      } else {
        assert Dist2(AsIntRgb(c), AsIntRgb(c)) == 0;
      }
    }
  }

  lemma AssignRepsApart(arr: seq<Rgb8>, c: Rgb8, t: nat)
    requires RepsApart(ClusterAll(arr, t), t)
    ensures RepsApart(ClusterAll(arr + [c], t), t)
  {
    var prev, cl, n := ClusterAll(arr, t), ClusterAll(arr + [c], t), |arr|;
    assert (arr + [c])[..n] == arr;
    assert cl == Assign(prev, c, t);
    forall a, b | 0 <= a < b < |cl.reps|
      ensures !Near(cl.reps[b], cl.reps[a], t)
    {
      if b == |prev.reps| {
        assert cl.reps[b] == c && cl.reps[a] == prev.reps[a];
      }
    }
  }

  lemma AssignRepsFirst(arr: seq<Rgb8>, c: Rgb8, t: nat)
    requires LabelsNear(arr, ClusterAll(arr, t), t) && RepsFirst(arr, ClusterAll(arr, t))
    ensures RepsFirst(arr + [c], ClusterAll(arr + [c], t))
  {
    var prev, cl, n, arr' := ClusterAll(arr, t), ClusterAll(arr + [c], t), |arr|, arr + [c];
    assert arr'[..n] == arr;
    assert cl == Assign(prev, c, t);
    forall r | 0 <= r < |cl.reps|
      ensures HasFirst(arr', cl, r)
    {
      if r < |prev.reps| {
        assert HasFirst(arr, prev, r);
        var i :| FirstOfCluster(arr, prev, i, r);
        forall k | 0 <= k < i
          ensures cl.labels[k] != r
        {
          assert cl.labels[k] == prev.labels[k];
        }
        assert FirstOfCluster(arr', cl, i, r);
      } else {
        forall k | 0 <= k < n
          ensures cl.labels[k] != r
        {
          assert cl.labels[k] == prev.labels[k];
        }
        assert FirstOfCluster(arr', cl, n, r);
      }
    }
  }

  /** The inner loop of `cluster_colors`: the first representative near `c`, if any. */
  method NearestCluster(clusters: seq<Rgb8>, c: Rgb8, t: nat) returns (j: nat, found: bool)
    ensures found <==> FirstNear(clusters, c, t) < |clusters|
    ensures found ==> j == FirstNear(clusters, c, t)
  {
    found := false;
    j := 0;
    while j < |clusters|
      invariant 0 <= j <= |clusters|
      invariant forall k :: 0 <= k < j ==> !Near(c, clusters[k], t)
    {
      if Near(c, clusters[j], t) {
        found := true;
        break;
      }
      j := j + 1;
    }
  }

  /** `cluster_colors`: the outer loop over colours, labelling each into the `labels` array. */
  method ClusterColors(arr: seq<Rgb8>, t: nat) returns (clusters: seq<Rgb8>, labels: array<int>)
    ensures fresh(labels)
    ensures Clustering(clusters, labels[..]) == ClusterAll(arr, t)
  {
    clusters := [];
    labels := new int[|arr|](_ => -1);
    var i := 0;
    while i < |arr|
      invariant 0 <= i <= |arr| && labels.Length == |arr|
      invariant Clustering(clusters, labels[..i]) == ClusterAll(arr[..i], t)
    {
      ghost var done := labels[..i];
      var j, found := NearestCluster(clusters, arr[i], t);
      if found {
        labels[i] := j;
      } else {
        clusters := clusters + [arr[i]];
        labels[i] := |clusters| - 1;
      }
      assert labels[..i] == done;
      assert arr[..i + 1][..i] == arr[..i];
      assert labels[..i + 1] == done + [labels[i]];
      i := i + 1;
    }
    assert arr[..i] == arr;
    assert labels[..] == labels[..i];
  }

  // ---------------------------------------------------------------------
  // Group-by over (foreground cluster, background cluster)
  // ---------------------------------------------------------------------

  /** A row with its colours as bytes and the two cluster labels. */
  datatype Labelled = Labelled(fgLabel: int, bgLabel: int, fg: Rgb8, bg: Rgb8, ratio: real, text: string)

  /** The aggregates of one (fg_cluster, bg_cluster) group. */
  datatype Group = Group(
    fgCluster: int,
    bgCluster: int,
    textRgb: Rgb8,    // fg_int of the group's first row
    bgRgb: Rgb8,      // bg_int of the group's first row
    count: nat,
    worst: real,
    best: real,
    sampleText: string)

  function KeyOf(l: Labelled): (int, int) { (l.fgLabel, l.bgLabel) }

  function GroupKey(g: Group): (int, int) { (g.fgCluster, g.bgCluster) }

  /** A group opened by its first row. */
  function Open(l: Labelled): Group
  {
    Group(l.fgLabel, l.bgLabel, l.fg, l.bg, 1, l.ratio, l.ratio, l.text)
  }

  /** A later row of the group: count, min, max, and the first non-empty text. */
  function Absorb(g: Group, l: Labelled): Group
  {
    g.(count := g.count + 1, worst := Min(g.worst, l.ratio), best := Max(g.best, l.ratio),
       sampleText := if g.sampleText == "" then l.text else g.sampleText)
  }

  /** Index of the group with key `k`, or `|gs|` when there is none. */
  function FindGroup(gs: seq<Group>, k: (int, int)): (i: nat)
    ensures i <= |gs|
    ensures i < |gs| ==> GroupKey(gs[i]) == k
    ensures forall j :: 0 <= j < i ==> GroupKey(gs[j]) != k
  {
    if |gs| == 0 then 0
    else if GroupKey(gs[0]) == k then 0
    else 1 + FindGroup(gs[1..], k)
  }

  function AddRow(gs: seq<Group>, l: Labelled): seq<Group>
  {
    var i := FindGroup(gs, KeyOf(l));
    if i < |gs| then gs[i := Absorb(gs[i], l)] else gs + [Open(l)]
  }

  /** The groups of `rows`, in the order their keys first appear. */
  function GroupRows(rows: seq<Labelled>): seq<Group>
  {
    if |rows| == 0 then [] else AddRow(GroupRows(rows[..|rows| - 1]), rows[|rows| - 1])
  }

  /** Number of rows with key `k`. */
  function KeyCount(rows: seq<Labelled>, k: (int, int)): nat
  {
    if |rows| == 0 then 0
    else KeyCount(rows[..|rows| - 1], k) + (if KeyOf(rows[|rows| - 1]) == k then 1 else 0)
  }

  function SumCounts(gs: seq<Group>): nat
  {
    if |gs| == 0 then 0 else gs[0].count + SumCounts(gs[1..])
  }

  /** Row `i` is the first with key `k`. */
  ghost predicate FirstWithKey(rows: seq<Labelled>, k: (int, int), i: int)
  {
    0 <= i < |rows| && KeyOf(rows[i]) == k && forall j :: 0 <= j < i ==> KeyOf(rows[j]) != k
  }

  /**
   * `g` aggregates exactly the rows of its key: their number, their least and
   * greatest ratio, the colours of the first of them, and the first non-empty
   * text among them (or "" when all are empty).
   */
  ghost predicate Aggregates(rows: seq<Labelled>, g: Group)
  {
    var k := GroupKey(g);
    && g.count == KeyCount(rows, k) && g.count > 0
    && Bounded(rows, k, g.worst, g.best)
    && Attained(rows, k, g.worst) && Attained(rows, k, g.best)
    && FirstColours(rows, k, g.textRgb, g.bgRgb)
    && FirstText(rows, k, g.sampleText)
  }

  /** Every ratio of key `k` lies in [lo, hi]. */
  ghost predicate Bounded(rows: seq<Labelled>, k: (int, int), lo: real, hi: real)
  {
    forall i :: 0 <= i < |rows| && KeyOf(rows[i]) == k ==> lo <= rows[i].ratio <= hi
  }

  /** Some row of key `k` has ratio `x`. */
  ghost predicate Attained(rows: seq<Labelled>, k: (int, int), x: real)
  {
    exists i :: 0 <= i < |rows| && KeyOf(rows[i]) == k && rows[i].ratio == x
  }

  /** The first row of key `k` has colours `fg` and `bg`. */
  ghost predicate FirstColours(rows: seq<Labelled>, k: (int, int), fg: Rgb8, bg: Rgb8)
  {
    exists i :: FirstWithKey(rows, k, i) && rows[i].fg == fg && rows[i].bg == bg
  }

  /** `next((t for t in x if t), "")` over the texts of the rows with key `k`. */
  ghost predicate FirstText(rows: seq<Labelled>, k: (int, int), text: string)
  {
    if text == "" then forall i :: 0 <= i < |rows| && KeyOf(rows[i]) == k ==> rows[i].text == ""
    else exists i :: 0 <= i < |rows| && KeyOf(rows[i]) == k && rows[i].text == text && TextsEmptyBefore(rows, k, i)
  }

  ghost predicate TextsEmptyBefore(rows: seq<Labelled>, k: (int, int), i: int)
    requires 0 <= i <= |rows|
  {
    forall j :: 0 <= j < i && KeyOf(rows[j]) == k ==> rows[j].text == ""
  }

  /** The groups have distinct keys, cover every row, and each aggregates its rows. */
  ghost predicate GroupedBy(rows: seq<Labelled>, gs: seq<Group>)
  {
    KeysDistinct(gs) && CoversRows(rows, gs) && AllAggregate(rows, gs)
  }

  ghost predicate KeysDistinct(gs: seq<Group>)
  {
    forall i, j :: 0 <= i < j < |gs| ==> GroupKey(gs[i]) != GroupKey(gs[j])
  }

  ghost predicate CoversRows(rows: seq<Labelled>, gs: seq<Group>)
  {
    forall i :: 0 <= i < |rows| ==> FindGroup(gs, KeyOf(rows[i])) < |gs|
  }

  ghost predicate AllAggregate(rows: seq<Labelled>, gs: seq<Group>)
  {
    forall j :: 0 <= j < |gs| ==> Aggregates(rows, gs[j])
  }

  lemma {:induction false} KeyCountAbsent(rows: seq<Labelled>, k: (int, int))
    requires forall i :: 0 <= i < |rows| ==> KeyOf(rows[i]) != k
    ensures KeyCount(rows, k) == 0
  {
    if |rows| > 0 {
      KeyCountAbsent(rows[..|rows| - 1], k);
    }
  }

  lemma KeyCountSnoc(rows: seq<Labelled>, l: Labelled, k: (int, int))
    ensures KeyCount(rows + [l], k) == KeyCount(rows, k) + (if KeyOf(l) == k then 1 else 0)
  {
    assert (rows + [l])[..|rows|] == rows;
  }

  lemma {:induction false} SumCountsUpdate(gs: seq<Group>, i: int, g: Group)
    requires 0 <= i < |gs|
    ensures SumCounts(gs[i := g]) == SumCounts(gs) - gs[i].count + g.count
  {
    if i > 0 {
      assert gs[i := g][1..] == gs[1..][i - 1 := g];
      SumCountsUpdate(gs[1..], i - 1, g);
    }
  }

  lemma {:induction false} SumCountsSnoc(gs: seq<Group>, g: Group)
    ensures SumCounts(gs + [g]) == SumCounts(gs) + g.count
  {
    if |gs| > 0 {
      assert (gs + [g])[1..] == gs[1..] + [g];
      SumCountsSnoc(gs[1..], g);
    }
  }

  lemma BoundedSnoc(rows: seq<Labelled>, l: Labelled, k: (int, int), lo: real, hi: real)
    requires Bounded(rows, k, lo, hi) && (KeyOf(l) == k ==> lo <= l.ratio <= hi)
    ensures Bounded(rows + [l], k, lo, hi)
  {
    var rows' := rows + [l];
    forall i | 0 <= i < |rows'| && KeyOf(rows'[i]) == k
      ensures lo <= rows'[i].ratio <= hi
    {
      if i < |rows| {
        assert rows'[i] == rows[i];
      }
    }
  }

  lemma AttainedSnoc(rows: seq<Labelled>, l: Labelled, k: (int, int), x: real)
    requires Attained(rows, k, x) || (KeyOf(l) == k && l.ratio == x)
    ensures Attained(rows + [l], k, x)
  {
    if Attained(rows, k, x) {
      var i :| 0 <= i < |rows| && KeyOf(rows[i]) == k && rows[i].ratio == x;
      assert (rows + [l])[i] == rows[i];
    } else {
      assert (rows + [l])[|rows|] == l;
    }
  }

  lemma FirstColoursSnoc(rows: seq<Labelled>, l: Labelled, k: (int, int), fg: Rgb8, bg: Rgb8)
    requires FirstColours(rows, k, fg, bg)
    ensures FirstColours(rows + [l], k, fg, bg)
  {
    var i :| FirstWithKey(rows, k, i) && rows[i].fg == fg && rows[i].bg == bg;
    assert FirstWithKey(rows + [l], k, i) && (rows + [l])[i] == rows[i];
  }

  lemma FirstTextSnoc(rows: seq<Labelled>, l: Labelled, k: (int, int), text: string)
    requires FirstText(rows, k, text)
    ensures KeyOf(l) != k || text != "" ==> FirstText(rows + [l], k, text)
    ensures KeyOf(l) == k && text == "" ==> FirstText(rows + [l], k, l.text)
  {
    var rows' := rows + [l];
    assert rows'[|rows|] == l;
    if text != "" {
      var e :| 0 <= e < |rows| && KeyOf(rows[e]) == k && rows[e].text == text && TextsEmptyBefore(rows, k, e);
      assert rows'[e] == rows[e] && TextsEmptyBefore(rows', k, e);
    } else {
      assert TextsEmptyBefore(rows', k, |rows|);
    }
  }

  /** A row of another key leaves a group's aggregates as they were. */
  lemma AggregatesOther(rows: seq<Labelled>, l: Labelled, g: Group)
    requires Aggregates(rows, g) && GroupKey(g) != KeyOf(l)
    ensures Aggregates(rows + [l], g)
  {
    var k := GroupKey(g);
    KeyCountSnoc(rows, l, k);
    BoundedSnoc(rows, l, k, g.worst, g.best);
    AttainedSnoc(rows, l, k, g.worst);
    AttainedSnoc(rows, l, k, g.best);
    FirstColoursSnoc(rows, l, k, g.textRgb, g.bgRgb);
    FirstTextSnoc(rows, l, k, g.sampleText);
  }

  /** A further row of the group's key updates count, min, max and text as `agg` does. */
  lemma AggregatesAbsorb(rows: seq<Labelled>, l: Labelled, g: Group)
    requires Aggregates(rows, g) && GroupKey(g) == KeyOf(l)
    ensures Aggregates(rows + [l], Absorb(g, l))
  {
    var k, g' := GroupKey(g), Absorb(g, l);
    KeyCountSnoc(rows, l, k);
    BoundedSnoc(rows, l, k, g'.worst, g'.best);
    AttainedSnoc(rows, l, k, g'.worst);
    AttainedSnoc(rows, l, k, g'.best);
    FirstColoursSnoc(rows, l, k, g.textRgb, g.bgRgb);
    FirstTextSnoc(rows, l, k, g.sampleText);
  }

  /** The first row of a key opens its group. */
  lemma AggregatesOpen(rows: seq<Labelled>, l: Labelled)
    requires forall i :: 0 <= i < |rows| ==> KeyOf(rows[i]) != KeyOf(l)
    ensures Aggregates(rows + [l], Open(l))
  {
    var k, rows' := KeyOf(l), rows + [l];
    KeyCountAbsent(rows, k);
    KeyCountSnoc(rows, l, k);
    assert rows'[|rows|] == l;
    assert FirstWithKey(rows', k, |rows|);
    BoundedSnoc(rows, l, k, l.ratio, l.ratio);
    if l.text != "" {
      assert TextsEmptyBefore(rows', k, |rows|);
    }
  }

  /** Adding a row keeps the group keys distinct. */
  lemma AddRowKeysDistinct(gs: seq<Group>, l: Labelled)
    requires KeysDistinct(gs)
    ensures KeysDistinct(AddRow(gs, l))
  {
    var gs' := AddRow(gs, l);
    var i := FindGroup(gs, KeyOf(l));
    forall a, b | 0 <= a < b < |gs'|
      ensures GroupKey(gs'[a]) != GroupKey(gs'[b])
    {
      if i == |gs| && b == |gs| {
        assert gs'[a] == gs[a];
      } else {
        assert GroupKey(gs'[a]) == GroupKey(gs[a]) && GroupKey(gs'[b]) == GroupKey(gs[b]);
      }
    }
  }

  /** After adding a row, every row, old or new, has its group. */
  lemma AddRowCovers(rows: seq<Labelled>, gs: seq<Group>, l: Labelled)
    requires CoversRows(rows, gs)
    ensures CoversRows(rows + [l], AddRow(gs, l))
  {
    var rows', gs', k := rows + [l], AddRow(gs, l), KeyOf(l);
    assert |gs| <= |gs'| && forall j :: 0 <= j < |gs| ==> GroupKey(gs'[j]) == GroupKey(gs[j]);
    assert GroupKey(gs'[FindGroup(gs, k)]) == k;
    forall r | 0 <= r < |rows'|
      ensures FindGroup(gs', KeyOf(rows'[r])) < |gs'|
    {
      if r < |rows| {
        assert rows'[r] == rows[r];
        FindGroupKeys(gs, gs', KeyOf(rows[r]));
      } else {
        FindGroupKeys(gs', gs', k);
      }
    }
  }

  /** Whether some group has key `k` depends only on the keys of the groups, and appending keeps it. */
  lemma FindGroupKeys(gs: seq<Group>, gs': seq<Group>, k: (int, int))
    requires |gs| <= |gs'| && forall j :: 0 <= j < |gs| ==> GroupKey(gs'[j]) == GroupKey(gs[j])
    ensures FindGroup(gs, k) < |gs| ==> FindGroup(gs', k) < |gs'|
    ensures forall j :: 0 <= j < |gs'| && GroupKey(gs'[j]) == k ==> FindGroup(gs', k) < |gs'|
  {
    if FindGroup(gs, k) < |gs| {
      assert GroupKey(gs'[FindGroup(gs, k)]) == k;
    }
  }

  /** After adding a row, every group aggregates its rows. */
  lemma AddRowAggregates(rows: seq<Labelled>, gs: seq<Group>, l: Labelled)
    requires KeysDistinct(gs) && CoversRows(rows, gs) && AllAggregate(rows, gs)
    ensures AllAggregate(rows + [l], AddRow(gs, l))
  {
    var k := KeyOf(l);
    if FindGroup(gs, k) == |gs| {
      forall r | 0 <= r < |rows|
        ensures KeyOf(rows[r]) != k
      {
        assert FindGroup(gs, KeyOf(rows[r])) < |gs|;
      }
    }
    forall j | 0 <= j < |AddRow(gs, l)|
      ensures Aggregates(rows + [l], AddRow(gs, l)[j])
    {
      GroupAfterRow(rows, gs, l, j);
    }
  }

  lemma GroupAfterRow(rows: seq<Labelled>, gs: seq<Group>, l: Labelled, j: int)
    requires 0 <= j < |AddRow(gs, l)| && KeysDistinct(gs)
    requires j < |gs| ==> Aggregates(rows, gs[j])
    requires FindGroup(gs, KeyOf(l)) == |gs| ==> forall r :: 0 <= r < |rows| ==> KeyOf(rows[r]) != KeyOf(l)
    ensures Aggregates(rows + [l], AddRow(gs, l)[j])
  {
    var i, gs' := FindGroup(gs, KeyOf(l)), AddRow(gs, l);
    if j == i && i < |gs| {
      assert gs'[j] == Absorb(gs[i], l);
      AggregatesAbsorb(rows, l, gs[i]);
    } else if j == i {
      assert gs'[j] == Open(l);
      AggregatesOpen(rows, l);
    } else {
      assert gs'[j] == gs[j] && GroupKey(gs[j]) != KeyOf(l);
      AggregatesOther(rows, l, gs[j]);
    }
  }

  lemma {:induction false} GroupRowsGroupedBy(rows: seq<Labelled>)
    ensures GroupedBy(rows, GroupRows(rows))
  {
    if |rows| > 0 {
      var n := |rows| - 1;
      var gs := GroupRows(rows[..n]);
      GroupRowsGroupedBy(rows[..n]);
      SplitLast(rows);
      AddRowKeysDistinct(gs, rows[n]);
      AddRowCovers(rows[..n], gs, rows[n]);
      AddRowAggregates(rows[..n], gs, rows[n]);
    }
  }

  /** The counts of the groups add up to the number of rows. */
  lemma {:induction false} GroupRowsCount(rows: seq<Labelled>)
    ensures SumCounts(GroupRows(rows)) == |rows|
  {
    if |rows| > 0 {
      var n := |rows| - 1;
      var gs := GroupRows(rows[..n]);
      GroupRowsCount(rows[..n]);
      var i := FindGroup(gs, KeyOf(rows[n]));
      if i < |gs| {
        SumCountsUpdate(gs, i, Absorb(gs[i], rows[n]));
      } else {
        SumCountsSnoc(gs, Open(rows[n]));
      }
    }
  }

  // ---------------------------------------------------------------------
  // Summary rows and the sort by worst ratio
  // ---------------------------------------------------------------------

  /** One row of the returned summary table. */
  datatype SummaryRow = SummaryRow(
    fgCluster: int,
    bgCluster: int,
    fgRgb: Rgb8,
    bgRgb: Rgb8,
    count: nat,
    worst: real,
    best: real,
    sampleText: string,
    textHex: string,
    bgHex: string,
    passesAA: bool)

  /** The hex columns and `wcag_aa = worst_ratio >= 4.5` of one group. */
  function Finish(g: Group): SummaryRow
  {
    SummaryRow(g.fgCluster, g.bgCluster, g.textRgb, g.bgRgb, g.count, g.worst, g.best, g.sampleText,
      RgbToHex(AsIntRgb(g.textRgb)), RgbToHex(AsIntRgb(g.bgRgb)), g.worst >= 4.5)
  }

  function Finishes(gs: seq<Group>): seq<SummaryRow>
  {
    seq(|gs|, i requires 0 <= i < |gs| => Finish(gs[i]))
  }

  ghost predicate SortedByWorst(rs: seq<SummaryRow>)
  {
    forall i, j :: 0 <= i < j < |rs| ==> rs[i].worst <= rs[j].worst
  }

  /** Inserts `x` after every row whose worst ratio is not above its own. */
  function Insert(rs: seq<SummaryRow>, x: SummaryRow): (r: seq<SummaryRow>)
    ensures multiset(r) == multiset(rs) + multiset{x}
    ensures SortedByWorst(rs) ==> SortedByWorst(r)
  {
    if |rs| == 0 then [x]
    else if rs[|rs| - 1].worst <= x.worst then
      assert SortedByWorst(rs) ==> SortedByWorst(rs + [x]) by {
        if SortedByWorst(rs) {
          forall i, j | 0 <= i < j < |rs| + 1
            ensures (rs + [x])[i].worst <= (rs + [x])[j].worst
          {
            if j == |rs| && i < |rs| - 1 {
              assert rs[i].worst <= rs[|rs| - 1].worst;
            }
          }
        }
      }
      rs + [x]
    else
      var front, last := rs[..|rs| - 1], rs[|rs| - 1];
      var r := Insert(front, x) + [last];
      assert rs == front + [last];
      assert SortedByWorst(rs) ==> SortedByWorst(r) by {
        if SortedByWorst(rs) {
          InsertBelow(front, Insert(front, x), x, last);
        }
      }
      r
  }

  lemma InsertBelow(front: seq<SummaryRow>, ins: seq<SummaryRow>, x: SummaryRow, last: SummaryRow)
    requires SortedByWorst(front + [last]) && x.worst < last.worst
    requires SortedByWorst(front) ==> SortedByWorst(ins)
    requires multiset(ins) == multiset(front) + multiset{x}
    ensures SortedByWorst(ins + [last])
  {
    var rs := front + [last];
    assert SortedByWorst(front) by {
      forall i, j | 0 <= i < j < |front|
        ensures front[i].worst <= front[j].worst
      {
        assert front[i] == rs[i] && front[j] == rs[j];
      }
    }
    forall i | 0 <= i < |ins|
      ensures ins[i].worst <= last.worst
    {
      assert ins[i] in multiset(ins);
      if ins[i] != x {
        assert ins[i] in multiset(front);
        var k :| 0 <= k < |front| && front[k] == ins[i];
        assert rs[k] == front[k] && rs[|front|] == last;
      }
    }
    var r := ins + [last];
    forall i, j | 0 <= i < j < |r|
      ensures r[i].worst <= r[j].worst
    {
      if j < |ins| {
        assert r[i] == ins[i] && r[j] == ins[j];
      } else {
        assert r[i] == ins[i] && r[j] == last;
      }
    }
  }

  /** A sort by worst ratio; ties keep their order, which pandas leaves unspecified. */
  function SortByWorst(rs: seq<SummaryRow>): (r: seq<SummaryRow>)
    ensures multiset(r) == multiset(rs)
    ensures SortedByWorst(r)
  {
    if |rs| == 0 then [] else
    assert rs == rs[..|rs| - 1] + [rs[|rs| - 1]];
    Insert(SortByWorst(rs[..|rs| - 1]), rs[|rs| - 1])
  }

  // ---------------------------------------------------------------------
  // `summarise_colour_pairs`
  // ---------------------------------------------------------------------

  /** One input record: `color`, `bgcolor`, `contrast_ratio` and `text`. */
  datatype Row = Row(fg: Option<Color>, bg: Option<Color>, ratio: real, text: string)

  /** A graded span as a summary input; it always has both colours. */
  function RowOf(r: SpanResult): Row
  {
    Row(Some(r.color), Some(r.bgcolor), r.ratio, r.text)
  }

  predicate HasBoth(r: Row)
  {
    r.fg.Some? && r.bg.Some?
  }

  /** The records kept by the input loop: those with both colours, in order. */
  function Paired(rows: seq<Row>): (kept: seq<Row>)
    ensures forall i :: 0 <= i < |kept| ==> HasBoth(kept[i])
    ensures |kept| <= |rows|
  {
    if |rows| == 0 then []
    else if HasBoth(rows[|rows| - 1]) then Paired(rows[..|rows| - 1]) + [rows[|rows| - 1]]
    else Paired(rows[..|rows| - 1])
  }

  /** `fg_int` and `bg_int`: the rows' colours as bytes. */
  function FgInts(kept: seq<Row>): (cs: seq<Rgb8>)
    requires forall i :: 0 <= i < |kept| ==> HasBoth(kept[i])
  {
    seq(|kept|, i requires 0 <= i < |kept| && HasBoth(kept[i]) => RgbFloatToInt(kept[i].fg.value))
  }

  function BgInts(kept: seq<Row>): (cs: seq<Rgb8>)
    requires forall i :: 0 <= i < |kept| ==> HasBoth(kept[i])
  {
    seq(|kept|, i requires 0 <= i < |kept| && HasBoth(kept[i]) => RgbFloatToInt(kept[i].bg.value))
  }

  /** The rows with their byte colours and both cluster labels. */
  function LabelRows(kept: seq<Row>, fg: seq<Rgb8>, bg: seq<Rgb8>, fgLabels: seq<int>, bgLabels: seq<int>): seq<Labelled>
    requires |fg| == |bg| == |fgLabels| == |bgLabels| == |kept|
  {
    seq(|kept|, i requires 0 <= i < |kept| => Labelled(fgLabels[i], bgLabels[i], fg[i], bg[i], kept[i].ratio, kept[i].text))
  }

  /** The summary table and the foreground clusters by id. */
  datatype Summary = Summary(table: seq<SummaryRow>, clusters: seq<Rgb8>)

  /** The labelled rows the group-by runs over. */
  function Labels(rows: seq<Row>, t: nat): seq<Labelled>
  {
    var kept := Paired(rows);
    var fg, bg := FgInts(kept), BgInts(kept);
    LabelRows(kept, fg, bg, ClusterAll(fg, t).labels, ClusterAll(bg, t).labels)
  }

  function Summarise(rows: seq<Row>, t: nat): Summary
  {
    var kept := Paired(rows);
    if |kept| == 0 then Summary([], [])
    else Summary(SortByWorst(Finishes(GroupRows(Labels(rows, t)))), ClusterAll(FgInts(kept), t).reps)
  }

  /** The input loop over records: a record without `color` or `bgcolor` is skipped. */
  method CollectRows(data: seq<Row>) returns (rows: seq<Row>)
    ensures rows == Paired(data)
  {
    rows := [];
    var i := 0;
    while i < |data|
      invariant 0 <= i <= |data|
      invariant rows == Paired(data[..i])
    {
      assert data[..i + 1][..i] == data[..i];
      if HasBoth(data[i]) {
        rows := rows + [data[i]];
      }
      i := i + 1;
    }
    assert data[..i] == data;
  }

  /** `summarise_colour_pairs(data, rgb_thresh)` for a list of records. */
  method SummariseColourPairs(data: seq<Row>, rgbThresh: nat) returns (summary: seq<SummaryRow>, clusters: seq<Rgb8>)
    ensures Summary(summary, clusters) == Summarise(data, rgbThresh)
  {
    var rows := CollectRows(data);
    if |rows| == 0 {
      return [], [];
    }
    var fgInt, bgInt := FgInts(rows), BgInts(rows);
    var fgClusters, fgLabels := ClusterColors(fgInt, rgbThresh);
    var _, bgLabels := ClusterColors(bgInt, rgbThresh);
    var labelled := LabelRows(rows, fgInt, bgInt, fgLabels[..], bgLabels[..]);
    summary := SortByWorst(Finishes(GroupRows(labelled)));
    clusters := fgClusters;
  }

  // ---------------------------------------------------------------------
  // Properties of the summary
  // ---------------------------------------------------------------------

  /** The sum of the `count` column. */
  function TableCount(rs: seq<SummaryRow>): nat
  {
    if |rs| == 0 then 0 else rs[0].count + TableCount(rs[1..])
  }

  lemma {:induction false} TableCountAppend(u: seq<SummaryRow>, v: seq<SummaryRow>)
    ensures TableCount(u + v) == TableCount(u) + TableCount(v)
  {
    if |u| == 0 {
      assert u + v == v;
    } else {
      assert (u + v)[1..] == u[1..] + v;
      TableCountAppend(u[1..], v);
    }
  }

  /** The total count does not depend on the order of the rows. */
  lemma {:induction false} TableCountPerm(a: seq<SummaryRow>, b: seq<SummaryRow>)
    requires multiset(a) == multiset(b)
    ensures TableCount(a) == TableCount(b)
    decreases |a|
  {
    if |a| == 0 {
      assert |multiset(b)| == 0;
    } else {
      var n := |a| - 1;
      var x := a[n];
      assert x in multiset(b) by {
        assert a == a[..n] + [x];
      }
      var k :| 0 <= k < |b| && b[k] == x;
      MultisetRemove(a, b, k);
      TableCountPerm(a[..n], b[..k] + b[k + 1..]);
      TableCountMoved(a, b, k);
    }
  }

  /** The last row of `a`, found at `k` in `b`, adds the same count to both totals. */
  lemma TableCountMoved(a: seq<SummaryRow>, b: seq<SummaryRow>, k: int)
    requires |a| > 0 && 0 <= k < |b| && b[k] == a[|a| - 1]
    requires TableCount(a[..|a| - 1]) == TableCount(b[..k] + b[k + 1..])
    ensures TableCount(a) == TableCount(b)
  {
    TableCountRemoveAt(b, k);
    TableCountLast(a);
  }

  lemma TableCountLast(a: seq<SummaryRow>)
    requires |a| > 0
    ensures TableCount(a) == TableCount(a[..|a| - 1]) + a[|a| - 1].count
  {
    SplitLast(a);
    TableCountAppend(a[..|a| - 1], [a[|a| - 1]]);
    TableCountOne(a[|a| - 1]);
  }

  lemma TableCountRemoveAt(b: seq<SummaryRow>, k: int)
    requires 0 <= k < |b|
    ensures TableCount(b) == TableCount(b[..k] + b[k + 1..]) + b[k].count
  {
    SplitAt(b, k);
    TableCountSplit(b[..k], b[k], b[k + 1..]);
  }

  lemma SplitAt<T>(b: seq<T>, k: int)
    requires 0 <= k < |b|
    ensures b == b[..k] + [b[k]] + b[k + 1..]
  {
  }

  lemma TableCountOne(x: SummaryRow)
    ensures TableCount([x]) == x.count
  {
    assert [x][1..] == [];
  }

  /** Removing the element matching the last of `a` from `b` keeps the two multisets equal. */
  lemma MultisetRemove<T>(a: seq<T>, b: seq<T>, k: int)
    requires |a| > 0 && multiset(a) == multiset(b) && 0 <= k < |b| && b[k] == a[|a| - 1]
    ensures multiset(b[..k] + b[k + 1..]) == multiset(a[..|a| - 1])
  {
    var n, x := |a| - 1, a[|a| - 1];
    var lo, hi := b[..k], b[k + 1..];
    assert a == a[..n] + [x];
    assert b == lo + [x] + hi;
    assert multiset(a) == multiset(a[..n]) + multiset{x};
    assert multiset(b) == multiset(lo) + multiset{x} + multiset(hi);
    assert multiset(lo + hi) == multiset(lo) + multiset(hi);
    MultisetCancel(multiset(a[..n]), multiset(lo) + multiset(hi), x);
  }

  lemma TableCountSplit(lo: seq<SummaryRow>, x: SummaryRow, hi: seq<SummaryRow>)
    ensures TableCount(lo + [x] + hi) == TableCount(lo + hi) + x.count
  {
    TableCountOne(x);
    TableCountAppend(lo + [x], hi);
    TableCountAppend(lo, [x]);
    TableCountAppend(lo, hi);
  }

  lemma MultisetCancel<T>(p: multiset<T>, q: multiset<T>, x: T)
    requires p + multiset{x} == q + multiset{x}
    ensures p == q
  {
    forall y
      ensures p[y] == q[y]
    {
      assert (p + multiset{x})[y] == (q + multiset{x})[y];
    }
  }

  lemma TableCountSorted(rs: seq<SummaryRow>)
    ensures TableCount(SortByWorst(rs)) == TableCount(rs)
  {
    TableCountPerm(SortByWorst(rs), rs);
  }

  /** A table whose counts are those of the groups, row by row, sums to the same total. */
  lemma {:induction false} TableCountOfGroups(rs: seq<SummaryRow>, gs: seq<Group>)
    requires |rs| == |gs| && forall i :: 0 <= i < |gs| ==> rs[i].count == gs[i].count
    ensures TableCount(rs) == SumCounts(gs)
  {
    if |gs| > 0 {
      TableCountOfGroups(rs[1..], gs[1..]);
    }
  }

  /**
   * The summary table: sorted ascending by worst ratio; each row has
   * worst <= best, at least one occurrence, and passes AA exactly when its
   * worst ratio is at least 4.5; the counts add up to the records that have
   * both colours.
   */
  lemma SummaryTable(rows: seq<Row>, t: nat)
    ensures var table := Summarise(rows, t).table;
      && SortedByWorst(table)
      && TableCount(table) == |Paired(rows)|
      && forall i :: 0 <= i < |table| ==>
           table[i].worst <= table[i].best && table[i].count > 0 && (table[i].passesAA <==> table[i].worst >= 4.5)
  {
    if |Paired(rows)| > 0 {
      var labelled := Labels(rows, t);
      assert Summarise(rows, t).table == SortByWorst(Finishes(GroupRows(labelled)));
      TableOfRows(labelled);
    }
  }

  /** The same facts for the table built from any labelled rows. */
  lemma TableOfRows(labelled: seq<Labelled>)
    ensures var table := SortByWorst(Finishes(GroupRows(labelled)));
      && TableCount(table) == |labelled|
      && forall i :: 0 <= i < |table| ==>
           table[i].worst <= table[i].best && table[i].count > 0 && (table[i].passesAA <==> table[i].worst >= 4.5)
  {
    var gs := GroupRows(labelled);
    var table := SortByWorst(Finishes(gs));
    GroupRowsGroupedBy(labelled);
    GroupRowsCount(labelled);
    TableCountOfGroups(Finishes(gs), gs);
    TableCountSorted(Finishes(gs));
    forall i | 0 <= i < |table|
      ensures table[i].worst <= table[i].best && table[i].count > 0 && (table[i].passesAA <==> table[i].worst >= 4.5)
    {
      SummaryRowOfGroup(labelled, table, i);
    }
  }

  /** Each row of the table comes from a group that aggregates its rows. */
  lemma SummaryRowOfGroup(labelled: seq<Labelled>, table: seq<SummaryRow>, i: int)
    requires AllAggregate(labelled, GroupRows(labelled))
    requires multiset(table) == multiset(Finishes(GroupRows(labelled))) && 0 <= i < |table|
    ensures table[i].worst <= table[i].best && table[i].count > 0 && (table[i].passesAA <==> table[i].worst >= 4.5)
  {
    var gs := GroupRows(labelled);
    assert table[i] in multiset(Finishes(gs));
    var j :| 0 <= j < |gs| && Finishes(gs)[j] == table[i];
    var g := gs[j];
    assert Aggregates(labelled, g);
    var a :| 0 <= a < |labelled| && KeyOf(labelled[a]) == GroupKey(g) && labelled[a].ratio == g.worst;
  }

  /**
   * The cluster map holds the foreground representatives, and both label
   * columns are greedy clusterings of the byte colours.
   */
  lemma SummaryClusters(rows: seq<Row>, t: nat)
    ensures var kept := Paired(rows);
      && WellClustered(FgInts(kept), ClusterAll(FgInts(kept), t), t)
      && WellClustered(BgInts(kept), ClusterAll(BgInts(kept), t), t)
      && Summarise(rows, t).clusters == (if |kept| == 0 then [] else ClusterAll(FgInts(kept), t).reps)
  {
    var kept := Paired(rows);
    ClusterAllWellClustered(FgInts(kept), t);
    ClusterAllWellClustered(BgInts(kept), t);
  }
}
