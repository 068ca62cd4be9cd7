/** Table operations the scripts borrow from pandas, on sequences of rows:
    sorting by a lexicographic key (`sort_values`), first-appearance
    de-duplication (`drop_duplicates`), the within-group shift
    (`groupby(...).shift(k)`) and column sums. */
module Tables {
  import opened Wrappers

  // ---------------------------------------------------------------------
  // Sums

  /** `Series.sum()` of values that are all present. */
  function Sum(s: seq<real>): real {
    if |s| == 0 then 0.0 else Sum(s[..|s| - 1]) + s[|s| - 1]
  }

  lemma {:induction false} SumNonNegative(s: seq<real>)
    requires forall i :: 0 <= i < |s| ==> s[i] >= 0.0
    ensures Sum(s) >= 0.0
  {
    if |s| > 0 {
      SumNonNegative(s[..|s| - 1]);
    }
  }

  // ---------------------------------------------------------------------
  // Lexicographic order on sort keys

  /** `a` sorts no later than `b` when rows are sorted by several columns. */
  predicate LexLe(a: seq<int>, b: seq<int>)
    decreases |a|
  {
    |a| == 0 || (|b| > 0 && (a[0] < b[0] || (a[0] == b[0] && LexLe(a[1..], b[1..]))))
  }

  lemma LexLeTotal(a: seq<int>, b: seq<int>)
    ensures LexLe(a, b) || LexLe(b, a)
    decreases |a|
  {
    if |a| > 0 && |b| > 0 && a[0] == b[0] {
      LexLeTotal(a[1..], b[1..]);
    }
  }

  lemma LexLeTransitive(a: seq<int>, b: seq<int>, c: seq<int>)
    requires LexLe(a, b) && LexLe(b, c)
    ensures LexLe(a, c)
    decreases |a|
  {
    if |a| > 0 && a[0] == b[0] && b[0] == c[0] {
      LexLeTransitive(a[1..], b[1..], c[1..]);
    }
  }

  lemma LexLeAntisymmetric(a: seq<int>, b: seq<int>)
    requires |a| == |b| && LexLe(a, b) && LexLe(b, a)
    ensures a == b
    decreases |a|
  {
    if |a| > 0 {
      LexLeAntisymmetric(a[1..], b[1..]);
      assert a == [a[0]] + a[1..] && b == [b[0]] + b[1..];
    }
  }

  /** Sorting by several columns orders rows by the first one. */
  lemma LexLeHead(a: seq<int>, b: seq<int>)
    requires |a| > 0 && |b| > 0 && LexLe(a, b)
    ensures a[0] <= b[0]
  {
  }

  // ---------------------------------------------------------------------
  // Sorting

  /** The rows are in ascending key order. */
  ghost predicate SortedBy<T>(s: seq<T>, key: T -> seq<int>) {
    forall i, j :: 0 <= i < j < |s| ==> LexLe(key(s[i]), key(s[j]))
  }

  /** Inserts `x` after every row whose key does not exceed its own. */
  function Insert<T>(x: T, s: seq<T>, key: T -> seq<int>): (r: seq<T>)
    requires SortedBy(s, key)
    ensures SortedBy(r, key)
    ensures multiset(r) == multiset(s) + multiset{x}
    ensures forall i :: 0 <= i < |r| ==> r[i] in s || r[i] == x
    ensures |r| == |s| + 1
    decreases |s|
  {
    if |s| == 0 then [x]
    else
      var last := s[|s| - 1];
      if LexLe(key(last), key(x)) then
        assert forall i :: 0 <= i < |s| ==> LexLe(key(s[i]), key(x)) by {
          forall i | 0 <= i < |s|
            ensures LexLe(key(s[i]), key(x))
          {
            if i < |s| - 1 {
              LexLeTransitive(key(s[i]), key(last), key(x));
            }
          }
        }
        SortedSnoc(s, x, key);
        s + [x]
      else
        var init := s[..|s| - 1];
        assert s == init + [last];
        var r' := Insert(x, init, key);
        LexLeTotal(key(last), key(x));
        assert forall i :: 0 <= i < |r'| ==> LexLe(key(r'[i]), key(last)) by {
          forall i | 0 <= i < |r'|
            ensures LexLe(key(r'[i]), key(last))
          {
            assert r'[i] in init || r'[i] == x;
            if r'[i] in init {
              var j :| 0 <= j < |init| && init[j] == r'[i];
            }
          }
        }
        SortedSnoc(r', last, key);
        r' + [last]
  }

  /** Appending a row whose key is at least every other key keeps the
      order. */
  lemma SortedSnoc<T>(s: seq<T>, x: T, key: T -> seq<int>)
    requires SortedBy(s, key)
    requires forall i :: 0 <= i < |s| ==> LexLe(key(s[i]), key(x))
    ensures SortedBy(s + [x], key)
  {
    forall i, j | 0 <= i < j < |s| + 1
      ensures LexLe(key((s + [x])[i]), key((s + [x])[j]))
    {
      if j == |s| {
        assert (s + [x])[i] == s[i];
      } else {
        assert (s + [x])[i] == s[i] && (s + [x])[j] == s[j];
      }
    }
  }

  /** `sort_values(by=...)`: an ascending permutation of the rows. */
  function SortBy<T>(s: seq<T>, key: T -> seq<int>): (r: seq<T>)
    ensures SortedBy(r, key)
    ensures multiset(r) == multiset(s)
    ensures |r| == |s|
  {
    if |s| == 0 then []
    else
      assert s == s[..|s| - 1] + [s[|s| - 1]];
      Insert(s[|s| - 1], SortBy(s[..|s| - 1], key), key)
  }

  // ---------------------------------------------------------------------
  // Row selection

  /** `df[mask]`: the rows satisfying `p`, in their original order. */
  function Filter<T(!new)>(s: seq<T>, p: T -> bool): (r: seq<T>)
    ensures |r| <= |s|
    ensures forall x :: x in r <==> x in s && p(x)
  {
    if |s| == 0 then []
    else Filter(s[..|s| - 1], p) + (if p(s[|s| - 1]) then [s[|s| - 1]] else [])
  }

  /** Selecting from two stacked tables selects from each in turn: the
      rows kept stay in their original order. */
  lemma {:induction false} FilterAppend<T(!new)>(s: seq<T>, t: seq<T>, p: T -> bool)
    ensures Filter(s + t, p) == Filter(s, p) + Filter(t, p)
  {
    if |t| == 0 {
      assert s + t == s;
    } else {
      var init := t[..|t| - 1];
      var last := t[|t| - 1];
      var tail := if p(last) then [last] else [];
      FilterAppend(s, init, p);
      assert (s + t)[..|s + t| - 1] == s + init;
      assert (s + t)[|s + t| - 1] == last;
      assert Filter(s + t, p) == Filter(s + init, p) + tail;
      assert Filter(t, p) == Filter(init, p) + tail;
    }
  }

  /** A one-row table keeps its row exactly when it satisfies `p`. */
  lemma FilterSingle<T(!new)>(x: T, p: T -> bool)
    ensures Filter([x], p) == if p(x) then [x] else []
  {
    assert [x][..0] == [];
  }

  /** Selecting rows keeps them sorted. */
  lemma {:induction false} FilterSorted<T(!new)>(s: seq<T>, p: T -> bool, key: T -> seq<int>)
    requires SortedBy(s, key)
    ensures SortedBy(Filter(s, p), key)
  {
    if |s| > 0 {
      var init := s[..|s| - 1];
      assert SortedBy(init, key);
      FilterSorted(init, p, key);
      var f := Filter(init, p);
      forall i | 0 <= i < |f|
        ensures LexLe(key(f[i]), key(s[|s| - 1]))
      {
        assert f[i] in init;
      }
    }
  }

  /** A mask and its negation split the rows between them. */
  lemma FilterPartition<T(!new)>(s: seq<T>, p: T -> bool, q: T -> bool)
    requires forall x :: q(x) <==> !p(x)
    ensures |Filter(s, p)| + |Filter(s, q)| == |s|
    ensures multiset(Filter(s, p)) + multiset(Filter(s, q)) == multiset(s)
  {
    forall x
      ensures (multiset(Filter(s, p)) + multiset(Filter(s, q)))[x] == multiset(s)[x]
    {
      FilterCount(s, p, x);
      FilterCount(s, q, x);
    }
    assert multiset(Filter(s, p)) + multiset(Filter(s, q)) == multiset(s);
    assert |multiset(Filter(s, p)) + multiset(Filter(s, q))| == |multiset(s)|;
  }

  /** A selected row occurs as often as in the table, any other not at all. */
  lemma {:induction false} FilterCount<T(!new)>(s: seq<T>, p: T -> bool, x: T)
    ensures multiset(Filter(s, p))[x] == if p(x) then multiset(s)[x] else 0
  {
    if |s| > 0 {
      var init, last := s[..|s| - 1], s[|s| - 1];
      FilterCount(init, p, x);
      assert s == init + [last];
    }
  }

  /** The rows are pairwise different. */
  ghost predicate NoDuplicates<T>(s: seq<T>) {
    forall i, j :: 0 <= i < j < |s| ==> s[i] != s[j]
  }

  /** Selecting rows keeps them pairwise different. */
  lemma {:induction false} FilterNoDuplicates<T(!new)>(s: seq<T>, p: T -> bool)
    requires NoDuplicates(s)
    ensures NoDuplicates(Filter(s, p))
  {
    if |s| > 0 {
      var init := s[..|s| - 1];
      FilterNoDuplicates(init, p);
      var f := Filter(init, p);
      forall i | 0 <= i < |f|
        ensures f[i] != s[|s| - 1]
      {
        assert f[i] in init;
      }
    }
  }

  // ---------------------------------------------------------------------
  // First-appearance de-duplication

  /** `drop_duplicates()`: the distinct values, in order of first appearance. */
  function Distinct<T(==,!new)>(s: seq<T>): (r: seq<T>)
    ensures forall x :: x in r <==> x in s
    ensures NoDuplicates(r)
  {
    if |s| == 0 then []
    else
      var d := Distinct(s[..|s| - 1]);
      if s[|s| - 1] in d then d else d + [s[|s| - 1]]
  }

  /** De-duplicating a sorted sequence keeps it sorted. */
  lemma {:induction false} DistinctSorted<T(!new)>(s: seq<T>, key: T -> seq<int>)
    requires SortedBy(s, key)
    ensures SortedBy(Distinct(s), key)
  {
    if |s| > 0 {
      var init := s[..|s| - 1];
      assert SortedBy(init, key);
      DistinctSorted(init, key);
      var d := Distinct(init);
      if s[|s| - 1] !in d {
        forall i | 0 <= i < |d|
          ensures LexLe(key(d[i]), key(s[|s| - 1]))
        {
          assert d[i] in init;
        }
      }
    }
  }

  /** Appending rows whose values already occur adds no distinct value and
      leaves the first-appearance order unchanged. */
  lemma {:induction false} DistinctAppendKnown<T(!new)>(s: seq<T>, t: seq<T>)
    requires forall x :: x in t ==> x in s
    ensures Distinct(s + t) == Distinct(s)
    decreases |t|
  {
    if |t| > 0 {
      var t' := t[..|t| - 1];
      assert (s + t)[..|s + t| - 1] == s + t';
      DistinctAppendKnown(s, t');
      assert t[|t| - 1] in s;
    } else {
      assert s + t == s;
    }
  }

  // ---------------------------------------------------------------------
  // Within-group shift

  /** The positions before `n` whose group key is `k`, ascending. */
  function Occurrences<K(==)>(keys: seq<K>, k: K, n: nat): (r: seq<nat>)
    requires n <= |keys|
    ensures forall t :: 0 <= t < |r| ==> r[t] < n && keys[r[t]] == k
    ensures forall t1, t2 :: 0 <= t1 < t2 < |r| ==> r[t1] < r[t2]
  {
    if n == 0 then []
    else Occurrences(keys, k, n - 1) + (if keys[n - 1] == k then [n - 1] else [])
  }

  /** Every position before `n` whose group key is `k` occurs. */
  lemma {:induction false} OccurrencesComplete<K>(keys: seq<K>, k: K, n: nat, j: nat)
    requires n <= |keys| && j < n && keys[j] == k
    ensures j in Occurrences(keys, k, n)
  {
    if j < n - 1 {
      OccurrencesComplete(keys, k, n - 1, j);
    }
  }

  /** `groupby(keys)[vals].shift(k)` at row `i`: the value of the row `k`
      places earlier within the same group, missing when the group has fewer
      than `k` earlier rows. */
  function GroupShift<K(==), V>(keys: seq<K>, vals: seq<V>, i: nat, k: nat): Option<V>
    requires |keys| == |vals| && i < |keys| && k >= 1
  {
    var occ := Occurrences(keys, keys[i], i);
    if k <= |occ| then Some(vals[occ[|occ| - k]]) else None
  }

  /** Every group occupies one contiguous run of rows. */
  ghost predicate Contiguous<K>(keys: seq<K>) {
    forall a, b, c :: 0 <= a < b < c < |keys| && keys[a] == keys[c] ==> keys[b] == keys[a]
  }

  /** `occ` lists the `|occ|` positions right before `n`. */
  ghost predicate RunBefore(occ: seq<nat>, n: nat) {
    forall t :: 0 <= t < |occ| ==> occ[t] + |occ| == n + t
  }

  /** In a table whose groups are contiguous, the earlier rows of `i`'s group
      are exactly the rows right before it. */
  lemma {:induction false} OccurrencesContiguous<K>(keys: seq<K>, i: nat, n: nat)
    requires Contiguous(keys) && i < |keys| && n <= i
    ensures RunBefore(Occurrences(keys, keys[i], n), n)
  {
    if n > 0 {
      OccurrencesContiguous(keys, i, n - 1);
      var prev := Occurrences(keys, keys[i], n - 1);
      var occ := Occurrences(keys, keys[i], n);
      if keys[n - 1] == keys[i] {
        assert occ == prev + [n - 1];
        forall t | 0 <= t < |occ|
          ensures occ[t] + |occ| == n + t
        {
          if t < |prev| {
            assert occ[t] == prev[t];
          }
        }
      } else {
        assert occ == prev;
      }
    }
  }

  /** The group shift of a table with contiguous groups is a positional
      shift guarded by "same group". */
  lemma {:induction false} GroupShiftContiguous<K, V>(keys: seq<K>, vals: seq<V>, i: nat, k: nat)
    requires |keys| == |vals| && i < |keys| && k >= 1
    requires Contiguous(keys)
    ensures GroupShift(keys, vals, i, k)
         == if k <= i && keys[i - k] == keys[i] then Some(vals[i - k]) else None
  {
    var occ := Occurrences(keys, keys[i], i);
    OccurrencesContiguous(keys, i, i);
    if k <= |occ| {
      assert occ[|occ| - k] == i - k;
    } else if k <= i && keys[i - k] == keys[i] {
      OccurrencesComplete(keys, keys[i], i, i - k);
    }
  }

  /** A table sorted by a key whose first column is `group` has contiguous
      groups. */
  lemma SortedContiguous<T>(s: seq<T>, key: T -> seq<int>, groups: seq<int>)
    requires SortedBy(s, key) && |groups| == |s|
    requires forall i :: 0 <= i < |s| ==> |key(s[i])| > 0 && key(s[i])[0] == groups[i]
    ensures Contiguous(groups)
  {
    forall a, b, c | 0 <= a < b < c < |groups| && groups[a] == groups[c]
      ensures groups[b] == groups[a]
    {
      LexLeHead(key(s[a]), key(s[b]));
      LexLeHead(key(s[b]), key(s[c]));
    }
  }

  /** Whether two key columns agree on their first `n` rows. */
  ghost predicate AgreeBefore<K>(a: seq<K>, b: seq<K>, n: nat) {
    n <= |a| && n <= |b| && forall i :: 0 <= i < n ==> a[i] == b[i]
  }

  /** The earlier rows of a group depend only on the rows before `n`. */
  lemma {:induction false} OccurrencesAgree<K>(a: seq<K>, b: seq<K>, k: K, n: nat)
    requires AgreeBefore(a, b, n)
    ensures Occurrences(a, k, n) == Occurrences(b, k, n)
  {
    if n > 0 {
      OccurrencesAgree(a, b, k, n - 1);
    }
  }

  /** Rows of other groups add no occurrence. */
  lemma {:induction false} OccurrencesSkip<K>(keys: seq<K>, k: K, m: nat, n: nat)
    requires m <= n <= |keys|
    requires forall i :: m <= i < n ==> keys[i] != k
    ensures Occurrences(keys, k, n) == Occurrences(keys, k, m)
    decreases n
  {
    if n > m {
      OccurrencesSkip(keys, k, m, n - 1);
    }
  }

  /** The last row of group `k`. */
  function LastOf<K(==)>(keys: seq<K>, k: K): (j: nat)
    requires k in keys
    ensures j < |keys| && keys[j] == k
    ensures forall i :: j < i < |keys| ==> keys[i] != k
  {
    if keys[|keys| - 1] == k then |keys| - 1
    else
      assert k in keys[..|keys| - 1] by {
        var i :| 0 <= i < |keys| && keys[i] == k;
        assert keys[..|keys| - 1][i] == k;
      }
      LastOf(keys[..|keys| - 1], k)
  }

  /** A row appended to a table sees the last earlier row of its group one
      place back. */
  lemma GroupShiftAppend<K, V>(keys: seq<K>, vals: seq<V>, v: V, k: K)
    requires |keys| == |vals| && k in keys
    ensures GroupShift(keys + [k], vals + [v], |keys|, 1) == Some(vals[LastOf(keys, k)])
  {
    var j := LastOf(keys, k);
    OccurrencesAppended(keys, k);
    var occ := Occurrences(keys, k, j);
    var occ' := Occurrences(keys + [k], k, |keys|);
    assert occ' == occ + [j];
  }

  /** A row appended to a table sees every earlier row of its group one
      place further back than the group's last row does. */
  lemma GroupShiftAppendEarlier<K, V>(keys: seq<K>, vals: seq<V>, v: V, k: K, n: nat)
    requires |keys| == |vals| && k in keys && n >= 1
    ensures GroupShift(keys + [k], vals + [v], |keys|, n + 1) == GroupShift(keys, vals, LastOf(keys, k), n)
  {
    GroupShiftAfterLast(keys, vals, v, k, n, LastOf(keys, k));
  }

  /** The same, with the group's last row `j` given. */
  lemma GroupShiftAfterLast<K, V>(keys: seq<K>, vals: seq<V>, v: V, k: K, n: nat, j: nat)
    requires |keys| == |vals| && n >= 1
    requires j < |keys| && keys[j] == k
    requires forall i :: j < i < |keys| ==> keys[i] != k
    ensures GroupShift(keys + [k], vals + [v], |keys|, n + 1) == GroupShift(keys, vals, j, n)
  {
    OccurrencesAfterLast(keys, [k], k, j);
    assert (keys + [k])[|keys|] == k;
    PickAppended(Occurrences(keys, k, j), j, vals, v, n);
  }

  /** Picking `n + 1` places back after appending `j` picks what `n`
      places back picked before. */
  lemma PickAppended<V>(occ: seq<nat>, j: nat, vals: seq<V>, v: V, n: nat)
    requires n >= 1 && j < |vals| && forall t :: 0 <= t < |occ| ==> occ[t] < |vals|
    ensures var occ' := occ + [j];
      (if n + 1 <= |occ'| then Some((vals + [v])[occ'[|occ'| - (n + 1)]]) else None)
        == (if n <= |occ| then Some(vals[occ[|occ| - n]]) else None)
  {
    if n <= |occ| {
      assert (occ + [j])[|occ| - n] == occ[|occ| - n];
    }
  }

  /** The earlier rows of a row appended to group `k` are the group's rows
      up to its last one. */
  lemma OccurrencesAppended<K>(keys: seq<K>, k: K)
    requires k in keys
    ensures Occurrences(keys + [k], k, |keys|) == Occurrences(keys, k, LastOf(keys, k)) + [LastOf(keys, k)]
  {
    OccurrencesAfterLast(keys, [k], k, LastOf(keys, k));
  }

  /** The occurrences before the end of a table whose last row of group `k`
      is `j`. */
  lemma OccurrencesAfterLast<K>(keys: seq<K>, more: seq<K>, k: K, j: nat)
    requires j < |keys| && keys[j] == k
    requires forall i :: j < i < |keys| ==> keys[i] != k
    ensures Occurrences(keys + more, k, |keys|) == Occurrences(keys, k, j) + [j]
  {
    OccurrencesOfPrefix(keys, more, k);
    OccurrencesSkip(keys, k, j + 1, |keys|);
    OccurrencesStep(keys, k, j);
  }

  /** Rows appended after row `n` do not change the occurrences before it. */
  lemma OccurrencesOfPrefix<K>(keys: seq<K>, more: seq<K>, k: K)
    ensures Occurrences(keys + more, k, |keys|) == Occurrences(keys, k, |keys|)
  {
    assert AgreeBefore(keys + more, keys, |keys|);
    OccurrencesAgree(keys + more, keys, k, |keys|);
  }

  /** A row of group `k` adds itself to the group's occurrences. */
  lemma OccurrencesStep<K>(keys: seq<K>, k: K, j: nat)
    requires j < |keys| && keys[j] == k
    ensures Occurrences(keys, k, j + 1) == Occurrences(keys, k, j) + [j]
  {
  }

  // ---------------------------------------------------------------------
  // Latest row of a selection

  /** `df[mask].sort_values(by=rank).iloc[-1]` over the first `n` rows, as
      a position: among the selected rows with the largest rank, the last
      (the order a stable sort leaves them in). */
  function LatestIn<T>(rows: seq<T>, sel: T -> bool, rank: T -> real, n: nat): (r: Option<nat>)
    requires n <= |rows|
    ensures r.None? <==> forall i :: 0 <= i < n ==> !sel(rows[i])
    ensures r.Some? ==> r.value < n && sel(rows[r.value])
    ensures r.Some? ==> forall i :: 0 <= i < n && sel(rows[i]) ==> rank(rows[i]) <= rank(rows[r.value])
    ensures r.Some? ==> forall i :: r.value < i < n && sel(rows[i]) ==> rank(rows[i]) < rank(rows[r.value])
  {
    if n == 0 then None
    else
      var prev := LatestIn(rows, sel, rank, n - 1);
      if !sel(rows[n - 1]) then prev
      else if prev.None? || rank(rows[prev.value]) <= rank(rows[n - 1]) then Some(n - 1)
      else prev
  }

  /** The latest row is the only selected row that has the largest rank and
      no later selected row of equal rank. */
  lemma LatestInUnique<T>(rows: seq<T>, sel: T -> bool, rank: T -> real, n: nat, j: nat)
    requires j < n <= |rows| && sel(rows[j])
    requires forall i :: 0 <= i < n && sel(rows[i]) ==> rank(rows[i]) <= rank(rows[j])
    requires forall i :: j < i < n && sel(rows[i]) ==> rank(rows[i]) < rank(rows[j])
    ensures LatestIn(rows, sel, rank, n) == Some(j)
  {
    var r := LatestIn(rows, sel, rank, n);
    assert r.Some?;
    var m := r.value;
    assert rank(rows[m]) <= rank(rows[j]) && rank(rows[j]) <= rank(rows[m]);
  }

  /** Rows appended after `n` do not change the latest of the first `n`
      rows. */
  lemma {:induction false} LatestInPrefix<T>(a: seq<T>, b: seq<T>, sel: T -> bool, rank: T -> real, n: nat)
    requires n <= |a| && n <= |b| && forall i :: 0 <= i < n ==> a[i] == b[i]
    ensures LatestIn(a, sel, rank, n) == LatestIn(b, sel, rank, n)
  {
    if n > 0 {
      LatestInPrefix(a, b, sel, rank, n - 1);
    }
  }

  // ---------------------------------------------------------------------
  // Concatenation

  /** `pd.concat(frames, ignore_index=True)`. */
  function Flatten<T>(ss: seq<seq<T>>): seq<T> {
    if |ss| == 0 then [] else ss[0] + Flatten(ss[1..])
  }

  /** Frames of `m` rows each concatenate to `|ss| * m` rows. */
  lemma {:induction false} FlattenLength<T>(ss: seq<seq<T>>, m: nat)
    requires forall i :: 0 <= i < |ss| ==> |ss[i]| == m
    ensures |Flatten(ss)| == |ss| * m
  {
    if |ss| > 0 {
      FlattenLength(ss[1..], m);
      assert (|ss| - 1) * m + m == |ss| * m;
    }
  }

  /** Every row of the concatenation comes from one of the frames. */
  lemma {:induction false} FlattenMember<T>(ss: seq<seq<T>>, x: T)
    requires x in Flatten(ss)
    ensures exists i :: 0 <= i < |ss| && x in ss[i]
  {
    if x !in ss[0] {
      FlattenMember(ss[1..], x);
      var i :| 0 <= i < |ss[1..]| && x in ss[1..][i];
      assert x in ss[i + 1];
    }
  }

  /** Frame `i` of `m` rows occupies rows `i * m` to `i * m + m` of the
      concatenation. */
  lemma {:induction false} FlattenAt<T>(ss: seq<seq<T>>, m: nat, i: nat, t: nat)
    requires forall i :: 0 <= i < |ss| ==> |ss[i]| == m
    requires i < |ss| && t < m
    ensures i * m + t < |Flatten(ss)| && Flatten(ss)[i * m + t] == ss[i][t]
  {
    FlattenLength(ss, m);
    FlattenLength(ss[1..], m);
    if i > 0 {
      FlattenAt(ss[1..], m, i - 1, t);
      assert i * m + t == m + ((i - 1) * m + t);
    }
  }

  // ---------------------------------------------------------------------
  // De-duplication of a mapped column

  /** Mapping every row through a function that is one-to-one on the rows
      and then de-duplicating gives the mapped de-duplicated rows. */
  lemma {:induction false} DistinctMap<T(!new), U(!new)>(s: seq<T>, ms: seq<U>, f: T -> U)
    requires forall x, y :: x in s && y in s && f(x) == f(y) ==> x == y
    requires |ms| == |s| && forall i :: 0 <= i < |s| ==> ms[i] == f(s[i])
    ensures |Distinct(ms)| == |Distinct(s)|
    ensures forall j :: 0 <= j < |Distinct(s)| ==> Distinct(ms)[j] == f(Distinct(s)[j])
  {
    if |s| > 0 {
      var init := s[..|s| - 1];
      var last := s[|s| - 1];
      var minit := ms[..|ms| - 1];
      DistinctMap(init, minit, f);
      var d := Distinct(init);
      var md := Distinct(minit);
      if f(last) in md {
        var j :| 0 <= j < |md| && md[j] == f(last);
        assert d[j] in init && d[j] in s && last in s;
        assert d[j] == last;
      }
      if last in d {
        var j :| 0 <= j < |d| && d[j] == last;
        assert md[j] == f(last);
      }
      assert (f(last) in md) == (last in d);
    }
  }

  /** De-duplicating an injective image is the image of the de-duplicated
      sequence. */
  lemma DistinctImage<T(!new), U(!new)>(s: seq<T>, ms: seq<U>, f: T -> U, image: seq<U>)
    requires forall x, y :: x in s && y in s && f(x) == f(y) ==> x == y
    requires |ms| == |s| && forall i :: 0 <= i < |s| ==> ms[i] == f(s[i])
    requires |image| == |Distinct(s)| && forall j :: 0 <= j < |image| ==> image[j] == f(Distinct(s)[j])
    ensures Distinct(ms) == image
  {
    DistinctMap(s, ms, f);
  }
}
