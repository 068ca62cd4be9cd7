/** One-hot cluster columns of the forecasting scripts: `pd.get_dummies` of
    the cluster label, the placement of the dummy columns after the others,
    and `revert_cluster_dummies`, which turns a row of dummy values back
    into a label. Dummy values are reals; `True` counts as 1. */
module Dummies {
  import opened Tables

  // ---------------------------------------------------------------------
  // Text helpers

  /** `str(n)` of a non-negative integer. */
  function NatToString(n: nat): (s: string)
    ensures |s| > 0
    ensures forall ch :: ch in s ==> ch in "0123456789"
    decreases n
  {
    if n < 10 then ["0123456789"[n]] else NatToString(n / 10) + ["0123456789"[n % 10]]
  }

  /** `str(i)`: the decimal rendering of an integer. */
  function Show(i: int): (s: string)
    ensures |s| > 0
    ensures forall ch :: ch in s ==> ch in "-0123456789"
  {
    if i < 0 then "-" + NatToString(-i) else NatToString(i)
  }

  /** Distinct integers render differently, so the `cluster_<n>` column
      names of distinct clusters never collide. */
  lemma ShowInjective(a: int, b: int)
    requires Show(a) == Show(b)
    ensures a == b
  {
    if a < 0 && b < 0 {
      ShowNegative(a);
      ShowNegative(b);
      NatToStringInjective(-a, -b);
    } else if a < 0 {
      ShowNegative(a);
      ShowNonNegative(b);
    } else if b < 0 {
      ShowNegative(b);
      ShowNonNegative(a);
    } else {
      NatToStringInjective(a, b);
    }
  }

  /** A negative integer renders as a minus sign and its magnitude. */
  lemma ShowNegative(a: int)
    requires a < 0
    ensures Show(a)[0] == '-' && Show(a)[1..] == NatToString(-a)
  {
  }

  /** A non-negative integer renders without a minus sign. */
  lemma ShowNonNegative(a: int)
    requires a >= 0
    ensures Show(a)[0] != '-'
  {
    assert Show(a)[0] in NatToString(a);
  }

  lemma {:induction false} NatToStringInjective(a: nat, b: nat)
    requires NatToString(a) == NatToString(b)
    ensures a == b
    decreases a
  {
    var sa, sb := NatToString(a), NatToString(b);
    if a < 10 && b < 10 {
      assert sa[0] == "0123456789"[a] && sb[0] == "0123456789"[b];
    } else if a < 10 || b < 10 {
      assert false;
    } else {
      assert sa[|sa| - 1] == "0123456789"[a % 10] && sb[|sb| - 1] == "0123456789"[b % 10];
      assert sa[..|sa| - 1] == NatToString(a / 10);
      assert sb[..|sb| - 1] == NatToString(b / 10);
      NatToStringInjective(a / 10, b / 10);
    }
  }

  /** `s.replace(pat, "")`: every non-overlapping occurrence of `pat`,
      scanning left to right, removed. */
  function RemoveAll(s: string, pat: string): (r: string)
    ensures |r| <= |s|
    decreases |s|
  {
    if |pat| == 0 || |s| < |pat| then s
    else if s[..|pat|] == pat then RemoveAll(s[|pat|..], pat)
    else [s[0]] + RemoveAll(s[1..], pat)
  }

  /** A text lacking one of the pattern's characters has no occurrence to
      remove. */
  lemma {:induction false} RemoveAllAbsent(s: string, pat: string, ch: char)
    requires ch in pat && ch !in s
    ensures RemoveAll(s, pat) == s
    decreases |s|
  {
    if |s| >= |pat| {
      var j :| 0 <= j < |pat| && pat[j] == ch;
      assert s[..|pat|][j] != pat[j];
      RemoveAllAbsent(s[1..], pat, ch);
      assert [s[0]] + s[1..] == s;
    }
  }

  /** A leading occurrence of the pattern is removed. */
  lemma RemoveAllPrefix(pat: string, t: string)
    requires |pat| > 0
    ensures RemoveAll(pat + t, pat) == RemoveAll(t, pat)
  {
    assert (pat + t)[..|pat|] == pat;
    assert (pat + t)[|pat|..] == t;
  }

  // ---------------------------------------------------------------------
  // Encoding

  /** The dummy values `get_dummies` gives a row of cluster `c`, one per
      label. */
  function OneHot(labels: seq<int>, c: int): (v: seq<real>)
    ensures |v| == |labels|
    ensures forall j :: 0 <= j < |labels| ==> v[j] == if labels[j] == c then 1.0 else 0.0
  {
    seq(|labels|, j requires 0 <= j < |labels| => if labels[j] == c then 1.0 else 0.0)
  }

  /** The dummy column names, `prefix + str(label)`. */
  function DummyNames(prefix: string, labels: seq<int>): (names: seq<string>)
    ensures |names| == |labels|
    ensures forall j :: 0 <= j < |labels| ==> names[j] == prefix + Show(labels[j])
  {
    seq(|labels|, j requires 0 <= j < |labels| => prefix + Show(labels[j]))
  }

  /** A label outside the dummy columns has all-zero dummies; a label among
      them has exactly one 1. */
  lemma {:induction false} OneHotSum(labels: seq<int>, c: int)
    requires NoDuplicates(labels)
    ensures Sum(OneHot(labels, c)) == if c in labels then 1.0 else 0.0
  {
    if |labels| > 0 {
      var init := labels[..|labels| - 1];
      assert OneHot(labels, c)[..|labels| - 1] == OneHot(init, c);
      OneHotSum(init, c);
      assert c in labels <==> c in init || labels[|labels| - 1] == c;
      if labels[|labels| - 1] == c {
        assert forall j :: 0 <= j < |init| ==> init[j] != c by {
          forall j | 0 <= j < |init|
            ensures init[j] != c
          {
            assert labels[j] != labels[|labels| - 1];
          }
        }
      }
    }
  }

  /** Distinct clusters get distinct dummy rows. */
  lemma OneHotInjective(labels: seq<int>, a: int, b: int)
    requires a in labels && OneHot(labels, a) == OneHot(labels, b)
    ensures a == b
  {
    var j :| 0 <= j < |labels| && labels[j] == a;
    assert OneHot(labels, a)[j] == 1.0;
  }

  // ---------------------------------------------------------------------
  // Decoding

  /** `idxmax`: the first position holding the largest value. */
  function ArgMax(vals: seq<real>): (j: nat)
    requires |vals| > 0
    ensures j < |vals|
    ensures forall i :: 0 <= i < |vals| ==> vals[i] <= vals[j]
    ensures forall i :: 0 <= i < j ==> vals[i] < vals[j]
  {
    if |vals| == 1 then 0
    else
      var k := ArgMax(vals[..|vals| - 1]);
      if vals[|vals| - 1] > vals[k] then |vals| - 1 else k
  }

  /** `get_cluster_label` of `revert_cluster_dummies`: the baseline category
      when the dummies sum to zero, and otherwise the name of the first
      largest dummy with the prefix removed. */
  function Decode(names: seq<string>, vals: seq<real>, prefix: string, baseline: string): string
    requires |names| == |vals|
  {
    if Sum(vals) == 0.0 then baseline else RemoveAll(names[ArgMax(vals)], prefix)
  }

  /** Decoding a one-hot row recovers the cluster label, whenever the prefix
      has a character that no rendered integer has (both scripts' prefixes
      contain `_`). */
  lemma DecodeOneHot(prefix: string, labels: seq<int>, c: int, baseline: string)
    requires NoDuplicates(labels) && c in labels && '_' in prefix
    ensures Decode(DummyNames(prefix, labels), OneHot(labels, c), prefix, baseline) == Show(c)
  {
    var v := OneHot(labels, c);
    OneHotSum(labels, c);
    var j :| 0 <= j < |labels| && labels[j] == c;
    var m := ArgMax(v);
    assert v[j] == 1.0;
    assert v[m] >= 1.0;
    assert labels[m] == labels[j];
    assert m == j;
    RemoveAllPrefix(prefix, Show(c));
    RemoveAllAbsent(Show(c), prefix, '_');
  }

  /** With `drop_first`, the first (smallest) label has no dummy column:
      its all-zero row decodes to the baseline category, and every other
      label decodes to itself. So the labels survive the round trip exactly
      when the baseline is the first label. */
  lemma DecodeDropFirst(prefix: string, labels: seq<int>, c: int, baseline: string)
    requires NoDuplicates(labels) && c in labels && '_' in prefix
    ensures Decode(DummyNames(prefix, labels[1..]), OneHot(labels[1..], c), prefix, baseline)
         == if c == labels[0] then baseline else Show(c)
  {
    var rest := labels[1..];
    assert NoDuplicates(rest);
    if c == labels[0] {
      assert forall j :: 0 <= j < |rest| ==> rest[j] != c by {
        forall j | 0 <= j < |rest|
          ensures rest[j] != c
        {
          assert rest[j] == labels[j + 1] != labels[0];
        }
      }
      OneHotSum(rest, c);
    } else {
      assert c in rest;
      DecodeOneHot(prefix, rest, c, baseline);
    }
  }

  /** With `drop_first`, distinct clusters still get distinct dummy rows. */
  lemma DropFirstInjective(labels: seq<int>, a: int, b: int)
    requires NoDuplicates(labels) && a in labels && b in labels
    requires OneHot(labels[1..], a) == OneHot(labels[1..], b)
    ensures a == b
  {
    var rest := labels[1..];
    if a != labels[0] {
      assert a in rest;
      OneHotInjective(rest, a, b);
    } else if b != labels[0] {
      assert b in rest;
      OneHotInjective(rest, b, a);
    }
  }

  // ---------------------------------------------------------------------
  // Column layout

  /** A column of the preprocessed table: a dummy column carries the
      integer suffix of its name. */
  datatype Column = Plain(name: string) | Dummy(suffix: int)

  predicate IsPlain(c: Column) {
    c.Plain?
  }

  predicate IsDummy(c: Column) {
    c.Dummy?
  }

  function SuffixRank(c: Column): seq<int> {
    if c.Dummy? then [c.suffix] else []
  }

  /** The column order of `preprocess` in `next_year_prediction.py`: the
      other columns in their order, then the dummy columns sorted by their
      integer suffix. */
  function ArrangeColumns(cols: seq<Column>): (r: seq<Column>)
    ensures |r| == |cols| && multiset(r) == multiset(cols)
    ensures r[..|Filter(cols, IsPlain)|] == Filter(cols, IsPlain)
    ensures forall i :: |Filter(cols, IsPlain)| <= i < |r| ==> r[i].Dummy?
    ensures forall i, j :: |Filter(cols, IsPlain)| <= i < j < |r| ==> r[i].suffix <= r[j].suffix
  {
    var plain := Filter(cols, IsPlain);
    var dummies := SortedDummies(cols);
    FilterPartition(cols, IsPlain, IsDummy);
    assert (plain + dummies)[..|plain|] == plain;
    plain + dummies
  }

  /** The dummy columns, sorted by suffix. */
  function SortedDummies(cols: seq<Column>): (d: seq<Column>)
    ensures multiset(d) == multiset(Filter(cols, IsDummy))
    ensures forall k :: 0 <= k < |d| ==> d[k].Dummy?
    ensures forall i, j :: 0 <= i < j < |d| ==> d[i].suffix <= d[j].suffix
  {
    var f := Filter(cols, IsDummy);
    var d := SortBy(f, SuffixRank);
    forall k | 0 <= k < |d|
      ensures d[k].Dummy?
    {
      assert d[k] in multiset(f);
      assert d[k] in f;
      assert IsDummy(d[k]);
    }
    forall i, j | 0 <= i < j < |d|
      ensures d[i].suffix <= d[j].suffix
    {
      LexLeHead(SuffixRank(d[i]), SuffixRank(d[j]));
    }
    d
  }
}
