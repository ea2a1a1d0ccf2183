/**
 * Objection clustering (judge/clustering.py): rows are read in order and each joins the first
 * cluster whose leader is close enough, or starts a cluster of its own.  The similarity of two
 * embeddings is a parameter; a row stored without an embedding has an empty vector.
 */
module Clustering {
  import opened Sorting
  import opened Wrappers

  datatype Row<V> = Row(text: string, cleared: bool, embedding: Option<V>)

  datatype Cluster = Cluster(representativeText: string, count: nat, clearedCount: nat, examples: seq<string>)
  {
    predicate NeverCleared() { clearedCount == 0 }
  }

  // `_cosine` is 0.0 when a vector is empty.
  predicate Near<V>(v: Option<V>, centroid: Option<V>, similarity: (V, V) -> real, threshold: real)
  {
    v.Some? && (if centroid.Some? then similarity(v.value, centroid.value) else 0.0) >= threshold
  }

  function Started<V>(row: Row<V>): Cluster
  {
    Cluster(row.text, 1, if row.cleared then 1 else 0, [row.text])
  }

  function Joined<V>(c: Cluster, row: Row<V>): Cluster
  {
    Cluster(c.representativeText, c.count + 1, c.clearedCount + (if row.cleared then 1 else 0),
            if |c.examples| < 3 then c.examples + [row.text] else c.examples)
  }

  function ByCount(c: Cluster): Key { (0 - c.count, 0) }

  // ---- Which rows go together: groups of row numbers, each led by its first ----

  type Groups = seq<seq<int>>

  function Leader(group: seq<int>): int
  {
    if group == [] then -1 else group[0]
  }

  // The first group whose leader row n is near; their number when there is none.
  function FirstNear(groups: Groups, n: int, near: (int, int) -> bool): (first: nat)
    ensures first <= |groups|
  {
    if groups == [] || near(n, Leader(groups[0])) then 0 else 1 + FirstNear(groups[1..], n, near)
  }

  lemma {:induction false} FirstNearIs(groups: Groups, n: int, near: (int, int) -> bool, first: nat)
    requires first <= |groups|
    requires forall i | 0 <= i < first :: !near(n, Leader(groups[i]))
    requires first < |groups| ==> near(n, Leader(groups[first]))
    ensures first == FirstNear(groups, n, near)
    decreases |groups|
  {
    if first > 0 {
      assert !near(n, Leader(groups[0]));
      FirstNearIs(groups[1..], n, near, first - 1);
    }
  }

  lemma {:induction false} FirstNearExists(groups: Groups, n: int, near: (int, int) -> bool) returns (first: nat)
    ensures first == FirstNear(groups, n, near)
    ensures forall i | 0 <= i < first :: !near(n, Leader(groups[i]))
    ensures first < |groups| ==> near(n, Leader(groups[first]))
    decreases |groups|
  {
    if groups == [] || near(n, Leader(groups[0])) {
      first := 0;
    } else {
      first := FirstNearExists(groups[1..], n, near);
      first := first + 1;
    }
  }

  function Place(groups: Groups, n: int, c: nat): Groups
  {
    if c < |groups| then groups[c := groups[c] + [n]] else groups + [[n]]
  }

  // The groups after the first n rows.
  function Grouped(n: nat, near: (int, int) -> bool): Groups
  {
    if n == 0 then [] else
    var groups := Grouped(n - 1, near);
    Place(groups, n - 1, FirstNear(groups, n - 1, near))
  }

  // How often each row number occurs in the first c groups.
  ghost function RowsIn(groups: Groups, c: nat): multiset<int>
    requires c <= |groups|
  {
    if c == 0 then multiset{} else RowsIn(groups, c - 1) + multiset(groups[c - 1])
  }

  ghost predicate Increasing(group: seq<int>, n: int)
  {
    && (forall k | 0 <= k < |group| :: 0 <= group[k] < n)
    && (forall k, l | 0 <= k < l < |group| :: group[k] < group[l])
  }

  /** Group c: its rows in order, the followers near their leader, and nobody near an earlier leader. */
  ghost predicate WellLed(groups: Groups, c: nat, n: int, near: (int, int) -> bool)
    requires c < |groups|
  {
    && groups[c] != []
    && Increasing(groups[c], n)
    && (forall k | 0 < k < |groups[c]| :: near(groups[c][k], Leader(groups[c])))
    && (forall d | 0 <= d < c :: Leader(groups[d]) < Leader(groups[c]) && NoneNear(groups[c], Leader(groups[d]), near))
  }

  ghost predicate NoneNear(group: seq<int>, leader: int, near: (int, int) -> bool)
  {
    forall k | 0 <= k < |group| :: !near(group[k], leader)
  }

  lemma PlaceKeepsLead(groups: Groups, n: nat, c: nat, near: (int, int) -> bool, d: nat)
    requires d < |Place(groups, n, c)| && c <= |groups|
    requires forall i | 0 <= i < |groups| :: WellLed(groups, i, n, near)
    requires forall i | 0 <= i < c :: !near(n, Leader(groups[i]))
    requires c < |groups| ==> near(n, Leader(groups[c]))
    ensures WellLed(Place(groups, n, c), d, n + 1, near)
  {
    var after := Place(groups, n, c);
    assert d < |groups| ==> WellLed(groups, d, n, near);
    forall e | 0 <= e < d
      ensures Leader(after[e]) < Leader(after[d]) && NoneNear(after[d], Leader(after[e]), near)
    {
      assert WellLed(groups, e, n, near);
      assert Leader(after[e]) == Leader(groups[e]);
      if d < |groups| {
        assert NoneNear(groups[d], Leader(groups[e]), near);
      }
    }
  }

  lemma {:induction false} SameRows(a: Groups, b: Groups, d: nat)
    requires d <= |a| && d <= |b| && forall i | 0 <= i < d :: a[i] == b[i]
    ensures RowsIn(a, d) == RowsIn(b, d)
  {
    if d > 0 {
      SameRows(a, b, d - 1);
    }
  }

  lemma {:induction false} GrownAddsRow(groups: Groups, n: int, c: nat, d: nat)
    requires c < d <= |groups|
    ensures RowsIn(groups[c := groups[c] + [n]], d) == RowsIn(groups, d) + multiset{n}
  {
    var after := groups[c := groups[c] + [n]];
    if d == c + 1 {
      SameRows(groups, after, c);
    } else {
      GrownAddsRow(groups, n, c, d - 1);
      assert after[d - 1] == groups[d - 1];
    }
  }

  lemma PlaceAddsRow(groups: Groups, n: int, c: nat)
    requires c <= |groups|
    ensures var after := Place(groups, n, c); RowsIn(after, |after|) == RowsIn(groups, |groups|) + multiset{n}
  {
    if c < |groups| {
      GrownAddsRow(groups, n, c, |groups|);
    } else {
      SameRows(groups, groups + [[n]], |groups|);
    }
  }

  ghost function Numbers(n: nat): (ns: multiset<int>)
    ensures forall i: int :: ns[i] == if 0 <= i < n then 1 else 0
  {
    if n == 0 then multiset{} else Numbers(n - 1) + multiset{n - 1}
  }

  /** Every row is in exactly one group, once. */
  lemma {:induction false} EachRowOnce(n: nat, near: (int, int) -> bool, groups: Groups)
    requires groups == Grouped(n, near)
    ensures RowsIn(groups, |groups|) == Numbers(n)
  {
    if n > 0 {
      var before := Grouped(n - 1, near);
      EachRowOnce(n - 1, near, before);
      PlaceAddsRow(before, n - 1, FirstNear(before, n - 1, near));
    }
  }

  /** All groups are well led. */
  lemma {:induction false} GroupsAreWellLed(n: nat, near: (int, int) -> bool, groups: Groups)
    requires groups == Grouped(n, near)
    ensures forall c | 0 <= c < |groups| :: WellLed(groups, c, n, near)
  {
    if n > 0 {
      var before := Grouped(n - 1, near);
      GroupsAreWellLed(n - 1, near, before);
      var c := FirstNearExists(before, n - 1, near);
      forall d | 0 <= d < |groups|
        ensures WellLed(groups, d, n, near)
      {
        PlaceKeepsLead(before, n - 1, c, near, d);
      }
    }
  }

  // ---- The clusters of the groups ----

  // Some row of the table, by number.
  ghost predicate IsRow<V>(rows: seq<Row<V>>, i: int) { 0 <= i < |rows| }

  ghost function ClusterOf<V>(rows: seq<Row<V>>, group: seq<int>): Cluster
    requires group != [] && forall k | 0 <= k < |group| :: IsRow(rows, group[k])
  {
    var last := |group| - 1;
    assert IsRow(rows, group[0]) && IsRow(rows, group[last]);
    if last == 0 then Started(rows[group[0]]) else Joined(ClusterOf(rows, group[..last]), rows[group[last]])
  }

  /** A cluster reports its leader's text, its size, and whether any of its rows was cleared. */
  lemma {:induction false} ClusterSummarises<V>(rows: seq<Row<V>>, group: seq<int>)
    requires group != [] && forall k | 0 <= k < |group| :: IsRow(rows, group[k])
    ensures var c := ClusterOf(rows, group);
      && c.representativeText == rows[group[0]].text
      && c.count == |group|
      && c.clearedCount <= c.count
      && (c.NeverCleared() <==> (forall i | i in group :: !rows[i].cleared))
    decreases |group|
  {
    var last := |group| - 1;
    assert group == group[..last] + [group[last]];
    if last > 0 {
      ClusterSummarises(rows, group[..last]);
    }
  }

  /** The examples are the texts of the first three rows. */
  lemma {:induction false} ExamplesAreFirst<V>(rows: seq<Row<V>>, group: seq<int>)
    requires group != [] && forall k | 0 <= k < |group| :: IsRow(rows, group[k])
    ensures var examples := ClusterOf(rows, group).examples;
      && |examples| == (if |group| < 3 then |group| else 3)
      && (forall k | 0 <= k < |examples| :: examples[k] == rows[group[k]].text)
    decreases |group|
  {
    if |group| > 1 {
      ExamplesAreFirst(rows, group[..|group| - 1]);
    }
  }

  ghost predicate AllRows<V>(rows: seq<Row<V>>, groups: Groups)
  {
    forall c | 0 <= c < |groups| :: groups[c] != [] && forall k | 0 <= k < |groups[c]| :: IsRow(rows, groups[c][k])
  }

  ghost function ClustersOf<V>(rows: seq<Row<V>>, groups: Groups): (cs: seq<Cluster>)
    requires AllRows(rows, groups)
    ensures |cs| == |groups|
  {
    seq(|groups|, c requires 0 <= c < |groups| => ClusterOf(rows, groups[c]))
  }

  function NearRows<V>(rows: seq<Row<V>>, similarity: (V, V) -> real, threshold: real): (int, int) -> bool
  {
    (i: int, j: int) =>
      0 <= i < |rows| && 0 <= j < |rows| && Near(rows[i].embedding, rows[j].embedding, similarity, threshold)
  }

  lemma GroupsAreRows<V>(rows: seq<Row<V>>, n: nat, near: (int, int) -> bool)
    requires n <= |rows|
    ensures AllRows(rows, Grouped(n, near))
  {
    var groups := Grouped(n, near);
    GroupsAreWellLed(n, near, groups);
    forall c | 0 <= c < |groups|
      ensures groups[c] != [] && forall k | 0 <= k < |groups[c]| :: IsRow(rows, groups[c][k])
    {
      assert WellLed(groups, c, n, near);
    }
  }

  // Placing the next row in a group joins it to that group's cluster, or starts a cluster.
  lemma PlacedInClusters<V>(rows: seq<Row<V>>, groups: Groups, n: nat, c: nat)
    requires AllRows(rows, groups) && IsRow(rows, n)
    ensures AllRows(rows, Place(groups, n, c))
    ensures var cs := ClustersOf(rows, groups);
      ClustersOf(rows, Place(groups, n, c))
      == if c < |cs| then cs[c := Joined(cs[c], rows[n])] else cs + [Started(rows[n])]
  {
    if c < |groups| {
      assert (groups[c] + [n])[..|groups[c]|] == groups[c];
    }
  }

  ghost function Expected<V>(rows: seq<Row<V>>, similarity: (V, V) -> real, threshold: real): seq<Cluster>
  {
    var groups := Grouped(|rows|, NearRows(rows, similarity, threshold));
    GroupsAreRows(rows, |rows|, NearRows(rows, similarity, threshold));
    Sort(ClustersOf(rows, groups), ByCount)
  }

  // The centroids kept beside the clusters are the embeddings of the leaders.
  ghost predicate Centred<V>(rows: seq<Row<V>>, groups: Groups, centroids: seq<Option<V>>)
    requires AllRows(rows, groups)
  {
    && |centroids| == |groups|
    && forall c | 0 <= c < |groups| :: IsRow(rows, groups[c][0]) && centroids[c] == rows[groups[c][0]].embedding
  }

  lemma CentroidFound<V>(rows: seq<Row<V>>, n: nat, similarity: (V, V) -> real, threshold: real,
                         centroids: seq<Option<V>>, groups: Groups, i: nat)
    requires n < |rows| && AllRows(rows, groups) && Centred(rows, groups, centroids)
    requires groups == Grouped(n, NearRows(rows, similarity, threshold)) && i <= |centroids|
    requires forall k | 0 <= k < i :: !Near(rows[n].embedding, centroids[k], similarity, threshold)
    requires i < |centroids| ==> Near(rows[n].embedding, centroids[i], similarity, threshold)
    ensures Place(groups, n, i) == Grouped(n + 1, NearRows(rows, similarity, threshold))
    ensures AllRows(rows, Place(groups, n, i))
    ensures Centred(rows, Place(groups, n, i),
                    if i < |centroids| then centroids else centroids + [rows[n].embedding])
  {
    FirstNearIs(groups, n, NearRows(rows, similarity, threshold), i);
    assert IsRow(rows, n);
    PlacedInClusters(rows, groups, n, i);
  }

  // ---- What the groups are, said of the similarity alone ----

  // A row may join a leader: it has an embedding, near enough to the leader's (0.0 where that has none).
  ghost predicate Follows<V>(rows: seq<Row<V>>, similarity: (V, V) -> real, threshold: real, row: int, leader: int)
  {
    && 0 <= row < |rows| && 0 <= leader < |rows| && rows[row].embedding.Some?
    && if rows[leader].embedding.Some?
       then similarity(rows[row].embedding.value, rows[leader].embedding.value) >= threshold
       else 0.0 >= threshold
  }

  // A row that was not put with an earlier leader is not near it.
  ghost predicate StaysAway<V>(rows: seq<Row<V>>, similarity: (V, V) -> real, threshold: real, row: int, leader: int)
  {
    && 0 <= row < |rows| && 0 <= leader < |rows|
    && (rows[row].embedding.Some? ==>
          if rows[leader].embedding.Some?
          then similarity(rows[row].embedding.value, rows[leader].embedding.value) < threshold
          else 0.0 < threshold)
  }

  ghost predicate Placed(groups: Groups, i: int)
  {
    exists c | 0 <= c < |groups| :: i in groups[c]
  }

  // Every row in one group, groups in the order they were started, rows in the order they were read.
  ghost predicate Partition(groups: Groups, n: nat)
  {
    && (forall c | 0 <= c < |groups| :: groups[c] != [] && Increasing(groups[c], n))
    && (forall i | 0 <= i < n :: Placed(groups, i))
    && (forall c, d | 0 <= d < c < |groups| :: groups[d][0] < groups[c][0] && Disjoint(groups[d], groups[c]))
  }

  // Followers near their leader, and nobody near the leader of an earlier group.
  ghost predicate WellClustered<V>(rows: seq<Row<V>>, similarity: (V, V) -> real, threshold: real, groups: Groups)
  {
    && (forall c | 0 <= c < |groups| :: groups[c] != [])
    && (forall c, k | 0 <= c < |groups| && 0 < k < |groups[c]| ::
          Follows(rows, similarity, threshold, groups[c][k], groups[c][0]))
    && (forall c, d, k | 0 <= d < c < |groups| && 0 <= k < |groups[c]| ::
          StaysAway(rows, similarity, threshold, groups[c][k], groups[d][0]))
  }

  ghost predicate Disjoint(a: seq<int>, b: seq<int>)
  {
    forall i <- a :: i !in b
  }

  // The clusters of one size, in order.
  function OfSize(cs: seq<Cluster>, size: nat): seq<Cluster>
  {
    With(cs, ByCount, (0 - size, 0))
  }

  // The same clusters, bigger ones first, and those of one size in the order they were started.
  ghost predicate SortedBySize(started: seq<Cluster>, result: seq<Cluster>)
  {
    && multiset(result) == multiset(started)
    && (forall i, j | 0 <= i < j < |result| :: result[i].count >= result[j].count)
    && forall size: nat :: OfSize(result, size) == OfSize(started, size)
  }

  lemma SortSortsBySize(cs: seq<Cluster>)
    ensures SortedBySize(cs, Sort(cs, ByCount))
  {
    var result := Sort(cs, ByCount);
    forall i, j | 0 <= i < j < |result|
      ensures result[i].count >= result[j].count
    {
      assert Leq(ByCount(result[i]), ByCount(result[j]));
    }
    forall size: nat
      ensures OfSize(result, size) == OfSize(cs, size)
    {
      SortIsStable(cs, ByCount, (0 - size, 0));
    }
  }

  ghost function ClearedAmong<V>(rows: seq<Row<V>>, group: seq<int>): set<int>
  {
    set i | i in group && 0 <= i < |rows| && rows[i].cleared
  }

  // A cluster tells of its group: the leader's text, how many rows and how many cleared ones, and the
  // texts of the first three.
  ghost predicate Reports<V>(rows: seq<Row<V>>, group: seq<int>, c: Cluster)
  {
    && group != [] && (forall k | 0 <= k < |group| :: 0 <= group[k] < |rows|)
    && c.representativeText == rows[group[0]].text && c.count == |group|
    && c.clearedCount == |ClearedAmong(rows, group)|
    && |c.examples| == (if |group| < 3 then |group| else 3)
    && forall k | 0 <= k < |c.examples| :: c.examples[k] == rows[group[k]].text
  }

  lemma ClearedGrows<V>(rows: seq<Row<V>>, group: seq<int>, x: int)
    requires IsRow(rows, x) && x !in group
    ensures |ClearedAmong(rows, group + [x])| == |ClearedAmong(rows, group)| + if rows[x].cleared then 1 else 0
  {
    var before := ClearedAmong(rows, group);
    assert ClearedAmong(rows, group + [x]) == if rows[x].cleared then before + {x} else before;
  }

  lemma {:induction false} ClearedIsCounted<V>(rows: seq<Row<V>>, group: seq<int>)
    requires group != [] && Increasing(group, |rows|) && forall k | 0 <= k < |group| :: IsRow(rows, group[k])
    ensures ClusterOf(rows, group).clearedCount == |ClearedAmong(rows, group)|
    decreases |group|
  {
    var last := |group| - 1;
    var init, x := group[..last], group[last];
    assert IsRow(rows, x) && group == init + [x] && x !in init;
    ClearedGrows(rows, init, x);
    if last == 0 {
      assert ClearedAmong(rows, init) == {};
    } else {
      ClearedIsCounted(rows, init);
    }
  }

  lemma {:induction false} CountedTwice(groups: Groups, n: nat, d: nat, c: nat, i: int)
    requires d < c < n <= |groups| && i in groups[d] && i in groups[c]
    ensures RowsIn(groups, n)[i] >= 2
    decreases n
  {
    if c == n - 1 {
      CountedOnce(groups, c, d, i);
    } else {
      CountedTwice(groups, n - 1, d, c, i);
    }
  }

  lemma {:induction false} CountedOnce(groups: Groups, n: nat, d: nat, i: int)
    requires d < n <= |groups| && i in groups[d]
    ensures RowsIn(groups, n)[i] >= 1
    decreases n
  {
    if d < n - 1 { CountedOnce(groups, n - 1, d, i); }
  }

  lemma {:induction false} SomeGroupHas(groups: Groups, n: nat, i: int) returns (c: nat)
    requires n <= |groups| && RowsIn(groups, n)[i] >= 1
    ensures c < n && i in groups[c]
    decreases n
  {
    if i in groups[n - 1] { c := n - 1; } else { c := SomeGroupHas(groups, n - 1, i); }
  }

  lemma GroupsPartition(n: nat, near: (int, int) -> bool, groups: Groups)
    requires groups == Grouped(n, near)
    ensures Partition(groups, n)
  {
    EachRowOnce(n, near, groups);
    GroupsAreWellLed(n, near, groups);
    forall i | 0 <= i < n
      ensures Placed(groups, i)
    {
      var c := SomeGroupHas(groups, |groups|, i);
    }
    forall c, d | 0 <= d < c < |groups|
      ensures Leader(groups[d]) < Leader(groups[c]) && Disjoint(groups[d], groups[c])
    {
      assert WellLed(groups, c, n, near);
      GroupsAreDisjoint(groups, n, d, c);
    }
    assert forall c | 0 <= c < |groups| :: WellLed(groups, c, n, near) && Leader(groups[c]) == groups[c][0];
  }

  lemma GroupsAreDisjoint(groups: Groups, n: nat, d: nat, c: nat)
    requires RowsIn(groups, |groups|) == Numbers(n) && d < c < |groups|
    ensures Disjoint(groups[d], groups[c])
  {
    forall i | i in groups[d]
      ensures i !in groups[c]
    {
      if i in groups[c] { CountedTwice(groups, |groups|, d, c, i); }
    }
  }

  lemma LedFollows<V>(rows: seq<Row<V>>, similarity: (V, V) -> real, threshold: real, groups: Groups, c: nat, k: nat)
    requires c < |groups| && WellLed(groups, c, |rows|, NearRows(rows, similarity, threshold)) && 0 < k < |groups[c]|
    ensures Follows(rows, similarity, threshold, groups[c][k], groups[c][0])
  {
    assert NearRows(rows, similarity, threshold)(groups[c][k], Leader(groups[c]));
  }

  lemma LedStaysAway<V>(rows: seq<Row<V>>, similarity: (V, V) -> real, threshold: real, groups: Groups, c: nat, d: nat,
                        k: nat)
    requires d < c < |groups| && groups[d] != [] && Increasing(groups[d], |rows|) && k < |groups[c]|
    requires WellLed(groups, c, |rows|, NearRows(rows, similarity, threshold))
    ensures StaysAway(rows, similarity, threshold, groups[c][k], groups[d][0])
  {
    assert NoneNear(groups[c], Leader(groups[d]), NearRows(rows, similarity, threshold));
    assert !NearRows(rows, similarity, threshold)(groups[c][k], groups[d][0]);
  }

  lemma GroupsAreWellClustered<V>(rows: seq<Row<V>>, similarity: (V, V) -> real, threshold: real, groups: Groups)
    requires groups == Grouped(|rows|, NearRows(rows, similarity, threshold))
    ensures WellClustered(rows, similarity, threshold, groups)
  {
    var near := NearRows(rows, similarity, threshold);
    GroupsAreWellLed(|rows|, near, groups);
    forall c | 0 <= c < |groups|
      ensures groups[c] != []
    {
      assert WellLed(groups, c, |rows|, near);
    }
    forall c, k | 0 <= c < |groups| && 0 < k < |groups[c]|
      ensures Follows(rows, similarity, threshold, groups[c][k], groups[c][0])
    {
      assert WellLed(groups, c, |rows|, near);
      LedFollows(rows, similarity, threshold, groups, c, k);
    }
    forall c, d, k | 0 <= d < c < |groups| && 0 <= k < |groups[c]|
      ensures StaysAway(rows, similarity, threshold, groups[c][k], groups[d][0])
    {
      assert WellLed(groups, c, |rows|, near) && WellLed(groups, d, |rows|, near);
      LedStaysAway(rows, similarity, threshold, groups, c, d, k);
    }
  }

  lemma ClustersReport<V>(rows: seq<Row<V>>, groups: Groups)
    requires AllRows(rows, groups) && forall c | 0 <= c < |groups| :: Increasing(groups[c], |rows|)
    ensures forall c | 0 <= c < |groups| :: Reports(rows, groups[c], ClustersOf(rows, groups)[c])
  {
    forall c | 0 <= c < |groups|
      ensures Reports(rows, groups[c], ClustersOf(rows, groups)[c])
    {
      assert forall k | 0 <= k < |groups[c]| :: IsRow(rows, groups[c][k]);
      ClusterSummarises(rows, groups[c]);
      ExamplesAreFirst(rows, groups[c]);
      ClearedIsCounted(rows, groups[c]);
    }
  }

  /** One cluster per group, busiest first, clusters of one size in the order they were started. */
  method ClusterObjections<V>(rows: seq<Row<V>>, similarity: (V, V) -> real, threshold: real)
    returns (result: seq<Cluster>, ghost groups: Groups, ghost started: seq<Cluster>)
    ensures result == Expected(rows, similarity, threshold)
    ensures Partition(groups, |rows|) && WellClustered(rows, similarity, threshold, groups)
    ensures |started| == |groups| && forall c | 0 <= c < |groups| :: Reports(rows, groups[c], started[c])
    ensures SortedBySize(started, result)
  {
    var clusters: seq<Cluster>, centroids: seq<Option<V>> := [], [];
    groups := [];
    for n := 0 to |rows|
      invariant groups == Grouped(n, NearRows(rows, similarity, threshold))
      invariant AllRows(rows, groups) && Centred(rows, groups, centroids)
      invariant clusters == ClustersOf(rows, groups)
    {
      var row := rows[n];
      var i := 0;
      while i < |centroids| && !Near(row.embedding, centroids[i], similarity, threshold)
        invariant 0 <= i <= |centroids|
        invariant forall k | 0 <= k < i :: !Near(row.embedding, centroids[k], similarity, threshold)
      {
        i := i + 1;
      }
      CentroidFound(rows, n, similarity, threshold, centroids, groups, i);
      assert IsRow(rows, n);
      PlacedInClusters(rows, groups, n, i);
      groups := Place(groups, n, i);
      if i < |centroids| {
        clusters := clusters[i := Joined(clusters[i], row)];
      } else {
        clusters := clusters + [Started(row)];
        centroids := centroids + [row.embedding];
      }
    }
    started := clusters;
    result := Sort(clusters, ByCount);
    GroupsPartition(|rows|, NearRows(rows, similarity, threshold), groups);
    GroupsAreWellClustered(rows, similarity, threshold, groups);
    ClustersReport(rows, groups);
    SortSortsBySize(clusters);
  }

  // ---- What the result means ----

  function CountOf(c: Cluster): int { c.count }

  function ClearedOf(c: Cluster): int { c.clearedCount }

  function ClearedRows<V>(rows: seq<Row<V>>, n: nat): nat
    requires n <= |rows|
  {
    if n == 0 then 0 else ClearedRows(rows, n - 1) + (if rows[n - 1].cleared then 1 else 0)
  }

  lemma PlacedTotals<V>(rows: seq<Row<V>>, groups: Groups, n: nat, c: nat)
    requires AllRows(rows, groups) && n < |rows|
    ensures AllRows(rows, Place(groups, n, c))
    ensures var before, after := ClustersOf(rows, groups), ClustersOf(rows, Place(groups, n, c));
      && SumBy(after, CountOf) == SumBy(before, CountOf) + 1
      && SumBy(after, ClearedOf) == SumBy(before, ClearedOf) + (if rows[n].cleared then 1 else 0)
  {
    var cs := ClustersOf(rows, groups);
    assert IsRow(rows, n);
    PlacedInClusters(rows, groups, n, c);
    if c < |cs| {
      SumOfUpdate(cs, c, Joined(cs[c], rows[n]), CountOf);
      SumOfUpdate(cs, c, Joined(cs[c], rows[n]), ClearedOf);
    } else {
      SumBySnoc(cs, Started(rows[n]), CountOf);
      SumBySnoc(cs, Started(rows[n]), ClearedOf);
    }
  }

  lemma {:induction false} TotalsOfPrefix<V>(rows: seq<Row<V>>, n: nat, near: (int, int) -> bool, groups: Groups)
    requires n <= |rows| && groups == Grouped(n, near)
    ensures AllRows(rows, groups)
    ensures SumBy(ClustersOf(rows, groups), CountOf) == n
    ensures SumBy(ClustersOf(rows, groups), ClearedOf) == ClearedRows(rows, n)
  {
    if n > 0 {
      var before := Grouped(n - 1, near);
      TotalsOfPrefix(rows, n - 1, near, before);
      PlacedTotals(rows, before, n - 1, FirstNear(before, n - 1, near));
    }
  }

  /** No objection is lost or counted twice, nor is a cleared one, and bigger clusters come first. */
  lemma NothingIsLost<V>(rows: seq<Row<V>>, similarity: (V, V) -> real, threshold: real)
    ensures var result := Expected(rows, similarity, threshold);
      && SumBy(result, CountOf) == |rows|
      && SumBy(result, ClearedOf) == ClearedRows(rows, |rows|)
      && forall i, j | 0 <= i < j < |result| :: result[i].count >= result[j].count
  {
    var near := NearRows(rows, similarity, threshold);
    GroupsAreRows(rows, |rows|, near);
    var cs := ClustersOf(rows, Grouped(|rows|, near));
    TotalsOfPrefix(rows, |rows|, near, Grouped(|rows|, near));
    SortKeepsSum(cs, ByCount, CountOf);
    SortKeepsSum(cs, ByCount, ClearedOf);
    var result := Expected(rows, similarity, threshold);
    forall i, j | 0 <= i < j < |result|
      ensures result[i].count >= result[j].count
    {
      assert Leq(ByCount(result[i]), ByCount(result[j]));
    }
  }

  /** Under a symmetric similarity, two leaders with embeddings are below the threshold both ways. */
  lemma LeadersAreApart<V(!new)>(rows: seq<Row<V>>, similarity: (V, V) -> real, threshold: real, c: nat, d: nat)
    requires forall x, y :: similarity(x, y) == similarity(y, x)
    requires var groups := Grouped(|rows|, NearRows(rows, similarity, threshold));
      && c < |groups| && d < |groups| && c != d
      && AllRows(rows, groups)
      && rows[groups[c][0]].embedding.Some? && rows[groups[d][0]].embedding.Some?
    ensures var groups := Grouped(|rows|, NearRows(rows, similarity, threshold));
      similarity(rows[groups[c][0]].embedding.value, rows[groups[d][0]].embedding.value) < threshold
  {
    var near := NearRows(rows, similarity, threshold);
    var groups := Grouped(|rows|, near);
    GroupsAreWellLed(|rows|, near, groups);
    assert WellLed(groups, c, |rows|, near) && WellLed(groups, d, |rows|, near);
    assert IsRow(rows, groups[c][0]) && IsRow(rows, groups[d][0]);
    assert c < d ==> !near(groups[d][0], Leader(groups[c]));
    assert d < c ==> !near(groups[c][0], Leader(groups[d]));
  }
}
