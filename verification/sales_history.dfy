/** The quarterly sales history both forecasting scripts start from: rows
    of `cluster_label`, `year`, `quarter` and `num_sales`, sorted by cluster
    and period, with the within-cluster lag of the sales column. */
module SalesHistory {
  import opened Wrappers
  import opened Tables
  import opened Quarters

  datatype SalesRow = SalesRow(cluster: int, year: int, quarter: int, numSales: real)

  function SalesRank(r: SalesRow): seq<int> {
    [r.cluster, r.year, r.quarter]
  }

  /** `sort_values(by=["cluster_label", "year", "quarter"])`. */
  function SortedSales(raw: seq<SalesRow>): (s: seq<SalesRow>)
    ensures SortedBy(s, SalesRank) && multiset(s) == multiset(raw) && |s| == |raw|
  {
    SortBy(raw, SalesRank)
  }

  function ClusterColumn(rows: seq<SalesRow>): (cs: seq<int>)
    ensures |cs| == |rows| && forall i :: 0 <= i < |rows| ==> cs[i] == rows[i].cluster
  {
    seq(|rows|, i requires 0 <= i < |rows| => rows[i].cluster)
  }

  function SalesColumn(rows: seq<SalesRow>): (vs: seq<real>)
    ensures |vs| == |rows| && forall i :: 0 <= i < |rows| ==> vs[i] == rows[i].numSales
  {
    seq(|rows|, i requires 0 <= i < |rows| => rows[i].numSales)
  }

  /** Every quarter is one of 1 to 4. */
  ghost predicate ValidQuarters(raw: seq<SalesRow>) {
    forall i :: 0 <= i < |raw| ==> ValidQuarter(raw[i].quarter)
  }

  /** The sorted table holds the same clusters and valid quarters. */
  lemma SortedSalesSameRows(raw: seq<SalesRow>)
    ensures forall c :: c in ClusterColumn(SortedSales(raw)) <==> c in ClusterColumn(raw)
    ensures ValidQuarters(raw) ==> ValidQuarters(SortedSales(raw))
  {
    var s := SortedSales(raw);
    forall c
      ensures c in ClusterColumn(s) <==> c in ClusterColumn(raw)
    {
      if c in ClusterColumn(s) {
        var i :| 0 <= i < |s| && ClusterColumn(s)[i] == c;
        assert s[i] in multiset(raw);
        var j :| 0 <= j < |raw| && raw[j] == s[i];
        assert ClusterColumn(raw)[j] == c;
      }
      if c in ClusterColumn(raw) {
        var j :| 0 <= j < |raw| && ClusterColumn(raw)[j] == c;
        assert raw[j] in multiset(s);
        var i :| 0 <= i < |s| && s[i] == raw[j];
        assert ClusterColumn(s)[i] == c;
      }
    }
    if ValidQuarters(raw) {
      forall i | 0 <= i < |s|
        ensures ValidQuarter(s[i].quarter)
      {
        assert s[i] in multiset(raw);
        var j :| 0 <= j < |raw| && raw[j] == s[i];
      }
    }
  }

  /** The cluster labels in ascending order: the categories `get_dummies`
      makes columns for. */
  function Labels(raw: seq<SalesRow>): (ls: seq<int>)
    ensures ls == Distinct(ClusterColumn(SortedSales(raw)))
    ensures NoDuplicates(ls)
    ensures forall c :: c in ls <==> c in ClusterColumn(raw)
    ensures forall i, j :: 0 <= i < j < |ls| ==> ls[i] < ls[j]
  {
    var s := SortedSales(raw);
    var cs := ClusterColumn(s);
    SortedSalesSameRows(raw);
    ClustersAscending(s);
    DistinctSorted(cs, Singleton);
    var ls := Distinct(cs);
    forall i, j | 0 <= i < j < |ls|
      ensures ls[i] < ls[j]
    {
      LexLeHead(Singleton(ls[i]), Singleton(ls[j]));
    }
    ls
  }

  /** A history of one row is already sorted and has one label. */
  lemma OneRowHistory(r: SalesRow)
    ensures SortedSales([r]) == [r]
    ensures ClusterColumn(SortedSales([r])) == [r.cluster]
    ensures Labels([r]) == [r.cluster]
  {
    var s := SortedSales([r]);
    assert s[0] in multiset([r]);
    assert s == [r];
    assert ClusterColumn(s) == [r.cluster];
    assert Distinct([r.cluster]) == [r.cluster] by {
      assert [r.cluster][..0] == [];
      assert Distinct([r.cluster][..0]) == [];
    }
  }

  function Singleton(x: int): seq<int> {
    [x]
  }

  lemma ClustersAscending(s: seq<SalesRow>)
    requires SortedBy(s, SalesRank)
    ensures SortedBy(ClusterColumn(s), Singleton)
  {
    forall i, j | 0 <= i < j < |s|
      ensures LexLe(Singleton(s[i].cluster), Singleton(s[j].cluster))
    {
      LexLeHead(SalesRank(s[i]), SalesRank(s[j]));
    }
  }

  /** `groupby("cluster_label")["num_sales"].shift(k)` at row `i` of the
      sorted table. */
  function Shift(s: seq<SalesRow>, i: nat, k: nat): Option<real>
    requires i < |s| && k >= 1
  {
    GroupShift(ClusterColumn(s), SalesColumn(s), i, k)
  }

  /** The shifted sales with a missing value filled with 0. */
  function Lag(s: seq<SalesRow>, i: nat, k: nat): real
    requires i < |s| && k >= 1
  {
    Shift(s, i, k).GetOr(0.0)
  }

  /** The sales of the row `k` places before row `i` when it belongs to
      the same cluster. */
  function EarlierSales(s: seq<SalesRow>, i: nat, k: nat): Option<real>
    requires i < |s|
  {
    if k <= i && s[i - k].cluster == s[i].cluster then Some(s[i - k].numSales) else None
  }

  /** After sorting, the shift by `k` of a row is the sales of the row `k`
      places earlier when that row is of the same cluster, and missing when
      the cluster has fewer than `k` earlier rows. */
  lemma ShiftOfSorted(raw: seq<SalesRow>, i: nat, k: nat)
    requires i < |raw| && k >= 1
    ensures var s := SortedSales(raw);
      Shift(s, i, k) == EarlierSales(s, i, k)
  {
    var s := SortedSales(raw);
    SortedContiguous(s, SalesRank, ClusterColumn(s));
    GroupShiftContiguous(ClusterColumn(s), SalesColumn(s), i, k);
  }

  /** The shift by `k` that a new row of cluster `c`, placed after the
      sorted history, gets. Only the cluster's own earlier rows matter, so
      this is also its shift wherever the new row sorts after them. */
  function AppendedShift(s: seq<SalesRow>, c: int, k: nat): Option<real>
    requires k >= 1
  {
    GroupShift(ClusterColumn(s) + [c], SalesColumn(s) + [0.0], |s|, k)
  }

  /** The appended row sees the cluster's last row one place back, and the
      rows the last row sees one place further back. */
  lemma AppendedShiftOfLast(s: seq<SalesRow>, c: int, k: nat)
    requires c in ClusterColumn(s) && k >= 1
    ensures var j := LastOf(ClusterColumn(s), c);
      && AppendedShift(s, c, 1) == Some(s[j].numSales)
      && AppendedShift(s, c, k + 1) == Shift(s, j, k)
  {
    GroupShiftAppend(ClusterColumn(s), SalesColumn(s), 0.0, c);
    GroupShiftAppendEarlier(ClusterColumn(s), SalesColumn(s), 0.0, c, k);
  }

  /** In the sorted history with quarters 1 to 4, the last row of a cluster
      has the largest time index of the cluster's rows. */
  lemma LastRowIsLatest(raw: seq<SalesRow>, c: int, i: nat)
    requires ValidQuarters(raw) && c in ClusterColumn(raw)
    requires var s := SortedSales(raw); i < |s| && s[i].cluster == c
    ensures var s := SortedSales(raw); var j := LastOf(ClusterColumn(s), c);
      i <= j && TimeIndex(s[i].year, s[i].quarter) <= TimeIndex(s[j].year, s[j].quarter)
  {
    var s := SortedSales(raw);
    SortedSalesSameRows(raw);
    var j := LastOf(ClusterColumn(s), c);
    assert ClusterColumn(s)[i] == c;
    if i < j {
      var a, b := SalesRank(s[i]), SalesRank(s[j]);
      assert LexLe(a, b);
      assert a[1..] == [s[i].year, s[i].quarter] && b[1..] == [s[j].year, s[j].quarter];
      assert LexLe(a[1..], b[1..]);
      LexLePair(s[i].year, s[i].quarter, s[j].year, s[j].quarter);
      TimeIndexOrder(s[i].year, s[i].quarter, s[j].year, s[j].quarter);
    }
  }

  lemma LexLePair(y1: int, q1: int, y2: int, q2: int)
    requires LexLe([y1, q1], [y2, q2])
    ensures y1 < y2 || (y1 == y2 && q1 <= q2)
  {
    var a, b := [y1, q1], [y2, q2];
    assert a[1..] == [q1] && b[1..] == [q2];
    if y1 == y2 {
      assert LexLe([q1], [q2]);
    }
  }
}
