/**
 * The course table: rows labelled by an integer index, boolean-mask selection,
 * `DataFrame.drop` by label, column renaming and min-max scaling, and a `Frame`
 * class for the frames the script updates in place.
 */
module Table {
  import opened Common

  const RatingScaledColumn := "course_rating_scaled"

  /**
   * One row after `value_to_float` has been applied. `ratingScaled` is the
   * `course_rating_scaled` cell: `None` before the column exists and where
   * pandas would hold NaN.
   */
  datatype Course = Course(
    index: int,
    title: string,
    organization: string,
    certificateType: string,
    rating: real,
    difficulty: string,
    enrolled: real,
    ratingScaled: Option<real>)

  /** The row labels, in row order. */
  function Labels(rows: seq<Course>): (r: seq<int>)
    ensures |r| == |rows|
    ensures forall k :: 0 <= k < |rows| ==> r[k] == rows[k].index
  {
    if rows == [] then [] else [rows[0].index] + Labels(rows[1..])
  }

  function Ratings(rows: seq<Course>): seq<real> {
    seq(|rows|, k requires 0 <= k < |rows| => rows[k].rating)
  }

  function Enrollments(rows: seq<Course>): seq<real> {
    seq(|rows|, k requires 0 <= k < |rows| => rows[k].enrolled)
  }

  /** The table after `sort_index()` on a unique index: labels strictly ascending. */
  predicate SortedByIndex(rows: seq<Course>) {
    forall i, j :: 0 <= i < j < |rows| ==> rows[i].index < rows[j].index
  }

  /** `a` is `b` with zero or more elements left out, the rest in the same order. */
  predicate IsSubsequence<T(==)>(a: seq<T>, b: seq<T>)
    decreases |b|
  {
    a == [] || (b != [] && ((a[0] == b[0] && IsSubsequence(a[1..], b[1..])) || IsSubsequence(a, b[1..])))
  }

  lemma {:induction false} SubsequenceMembers<T>(a: seq<T>, b: seq<T>)
    requires IsSubsequence(a, b)
    ensures forall x :: x in a ==> x in b
    decreases |b|
  {
    if a != [] {
      if a[0] == b[0] && IsSubsequence(a[1..], b[1..]) {
        SubsequenceMembers(a[1..], b[1..]);
        assert forall x :: x in a ==> x == a[0] || x in a[1..];
      } else {
        SubsequenceMembers(a, b[1..]);
      }
    }
  }

  lemma {:induction false} SubsequenceTransitive<T>(a: seq<T>, b: seq<T>, c: seq<T>)
    requires IsSubsequence(a, b) && IsSubsequence(b, c)
    ensures IsSubsequence(a, c)
    decreases |c|
  {
    if a != [] {
      assert b != [] && c != [];
      if b[0] == c[0] && IsSubsequence(b[1..], c[1..]) {
        if a[0] == b[0] && IsSubsequence(a[1..], b[1..]) {
          SubsequenceTransitive(a[1..], b[1..], c[1..]);
        } else {
          SubsequenceTransitive(a, b[1..], c[1..]);
        }
      } else {
        SubsequenceTransitive(a, b, c[1..]);
      }
    }
  }

  /** Leaving rows out of a sorted table keeps it sorted. */
  lemma {:induction false} SubsequenceSorted(a: seq<Course>, b: seq<Course>)
    requires IsSubsequence(a, b) && SortedByIndex(b)
    ensures SortedByIndex(a)
    decreases |b|
  {
    if a != [] {
      if a[0] == b[0] && IsSubsequence(a[1..], b[1..]) {
        SubsequenceSorted(a[1..], b[1..]);
        SubsequenceMembers(a[1..], b[1..]);
        forall j | 1 <= j < |a|
          ensures a[0].index < a[j].index
        {
          assert a[j] == a[1..][j - 1];
          assert a[j] in a[1..];
          assert a[j] in b[1..];
          var k :| 0 <= k < |b[1..]| && b[1..][k] == a[j];
          assert b[k + 1] == a[j];
        }
      } else {
        SubsequenceSorted(a, b[1..]);
      }
    }
  }

  lemma SortedTail(rows: seq<Course>)
    requires rows != [] && SortedByIndex(rows)
    ensures SortedByIndex(rows[1..])
  {
    assert forall k :: 0 <= k < |rows| - 1 ==> rows[1..][k] == rows[k + 1];
  }

  /** `df[flags]` / `df.loc[flags]`: the rows whose flag is set, in table order. */
  function Mask(rows: seq<Course>, flags: seq<bool>): (r: seq<Course>)
    requires |flags| == |rows|
    ensures IsSubsequence(r, rows)
    ensures |r| <= |rows|
    decreases |rows|
  {
    if rows == [] then []
    else if flags[0] then [rows[0]] + Mask(rows[1..], flags[1..])
    else Mask(rows[1..], flags[1..])
  }

  /** A row is selected by a mask exactly when some position holding it is flagged. */
  lemma {:induction false} MaskMembers(rows: seq<Course>, flags: seq<bool>)
    requires |flags| == |rows|
    ensures forall c :: c in Mask(rows, flags) <==> exists k :: 0 <= k < |rows| && rows[k] == c && flags[k]
    decreases |rows|
  {
    if rows != [] {
      MaskMembers(rows[1..], flags[1..]);
      forall c | c in Mask(rows, flags)
        ensures exists k :: 0 <= k < |rows| && rows[k] == c && flags[k]
      {
        if !(flags[0] && c == rows[0]) {
          assert c in Mask(rows[1..], flags[1..]);
          var k :| 0 <= k < |rows[1..]| && rows[1..][k] == c && flags[1..][k];
          assert rows[k + 1] == c && flags[k + 1];
        }
      }
      forall c | exists k :: 0 <= k < |rows| && rows[k] == c && flags[k]
        ensures c in Mask(rows, flags)
      {
        var k :| 0 <= k < |rows| && rows[k] == c && flags[k];
        if k > 0 {
          assert rows[1..][k - 1] == c && flags[1..][k - 1];
        }
      }
    }
  }

  /** The labels a mask selects are the labels of its flagged positions. */
  lemma {:induction false} MaskLabels(rows: seq<Course>, flags: seq<bool>, l: int)
    requires |flags| == |rows|
    ensures l in Labels(Mask(rows, flags)) <==> exists k :: 0 <= k < |rows| && rows[k].index == l && flags[k]
    decreases |rows|
  {
    if rows != [] {
      MaskLabels(rows[1..], flags[1..], l);
      if exists k :: 0 <= k < |rows| && rows[k].index == l && flags[k] {
        var k :| 0 <= k < |rows| && rows[k].index == l && flags[k];
        if k > 0 {
          assert rows[1..][k - 1].index == l && flags[1..][k - 1];
        }
      }
      if l in Labels(Mask(rows[1..], flags[1..])) {
        var k :| 0 <= k < |rows[1..]| && rows[1..][k].index == l && flags[1..][k];
        assert rows[k + 1].index == l && flags[k + 1];
      }
    }
  }

  /** On a unique index, a row's label is selected exactly when its own flag is set. */
  lemma LabelSelected(rows: seq<Course>, flags: seq<bool>, k: int)
    requires |flags| == |rows| && SortedByIndex(rows) && 0 <= k < |rows|
    ensures rows[k].index in Labels(Mask(rows, flags)) <==> flags[k]
  {
    MaskLabels(rows, flags, rows[k].index);
    if rows[k].index in Labels(Mask(rows, flags)) {
      var j :| 0 <= j < |rows| && rows[j].index == rows[k].index && flags[j];
      assert j == k;
    }
  }

  /** The rows whose label is not listed, in table order. */
  function Without(rows: seq<Course>, labels: seq<int>): (r: seq<Course>)
    ensures IsSubsequence(r, rows)
    decreases |rows|
  {
    if rows == [] then []
    else if rows[0].index in labels then Without(rows[1..], labels)
    else [rows[0]] + Without(rows[1..], labels)
  }

  lemma {:induction false} WithoutMembers(rows: seq<Course>, labels: seq<int>)
    ensures forall c :: c in Without(rows, labels) <==> c in rows && c.index !in labels
    decreases |rows|
  {
    if rows != [] {
      WithoutMembers(rows[1..], labels);
      assert forall c :: c in rows <==> c == rows[0] || c in rows[1..];
    }
  }

  /** Two label lists that agree on every row of the table remove the same rows. */
  lemma {:induction false} WithoutAgreeing(rows: seq<Course>, l1: seq<int>, l2: seq<int>)
    requires forall k :: 0 <= k < |rows| ==> (rows[k].index in l1 <==> rows[k].index in l2)
    ensures Without(rows, l1) == Without(rows, l2)
    decreases |rows|
  {
    if rows != [] {
      assert rows[0] == rows[0 as int];
      WithoutAgreeing(rows[1..], l1, l2);
    }
  }

  /** The listed labels that are not in the table, in list order. */
  function Missing(labels: seq<int>, rows: seq<Course>): (r: seq<int>)
    ensures forall l :: l in r <==> l in labels && l !in Labels(rows)
    decreases |labels|
  {
    if labels == [] then []
    else if labels[0] in Labels(rows) then Missing(labels[1..], rows)
    else [labels[0]] + Missing(labels[1..], rows)
  }

  /**
   * `DataFrame.drop(labels)` along the index with the default `errors='raise'`:
   * a `KeyError` naming the absent labels, otherwise the other rows in order.
   */
  function Drop(rows: seq<Course>, labels: seq<int>): (r: Result<seq<Course>>)
    ensures r.Err? <==> exists i :: 0 <= i < |labels| && labels[i] !in Labels(rows)
    ensures r.Err? ==> r.error.KeyError? && forall l :: l in r.error.missing <==> l in labels && l !in Labels(rows)
    ensures r.Ok? ==> IsSubsequence(r.value, rows)
    ensures r.Ok? ==> forall c :: c in r.value <==> c in rows && c.index !in labels
  {
    WithoutMembers(rows, labels);
    var missing := Missing(labels, rows);
    if missing != [] then
      assert missing[0] in missing;
      Err(KeyError(missing))
    else
      Ok(Without(rows, labels))
  }

  function AllSet(n: nat): (r: seq<bool>) {
    seq(n, k requires 0 <= k < n => true)
  }

  /** Flags set where `keep` is set and `remove` is not. */
  function AndNot(keep: seq<bool>, remove: seq<bool>): seq<bool>
    requires |keep| == |remove|
  {
    seq(|keep|, k requires 0 <= k < |keep| => keep[k] && !remove[k])
  }

  lemma {:induction false} MaskAllSet(rows: seq<Course>)
    ensures Mask(rows, AllSet(|rows|)) == rows
    decreases |rows|
  {
    if rows != [] {
      assert AllSet(|rows|)[1..] == AllSet(|rows| - 1);
      MaskAllSet(rows[1..]);
    }
  }

  /**
   * Dropping, from the rows a mask `keep` selects, the labels another mask
   * `remove` selects leaves the rows flagged by `keep` and not by `remove`.
   */
  lemma {:induction false} DropMasked(rows: seq<Course>, keep: seq<bool>, remove: seq<bool>)
    requires |keep| == |rows| && |remove| == |rows| && SortedByIndex(rows)
    ensures Without(Mask(rows, keep), Labels(Mask(rows, remove))) == Mask(rows, AndNot(keep, remove))
    decreases |rows|
  {
    if rows != [] {
      var tail, kt, rt := rows[1..], keep[1..], remove[1..];
      var labels := Labels(Mask(rows, remove));
      var tailLabels := Labels(Mask(tail, rt));
      assert AndNot(keep, remove)[1..] == AndNot(kt, rt);
      LabelSelected(rows, remove, 0);
      SortedTail(rows);
      forall k | 0 <= k < |tail|
        ensures tail[k].index in labels <==> tail[k].index in tailLabels
      {
        assert tail[k] == rows[k + 1];
        LabelSelected(rows, remove, k + 1);
        LabelSelected(tail, rt, k);
      }
      SortedTail(rows);
      SubsequenceMembers(Mask(tail, kt), tail);
      forall k | 0 <= k < |Mask(tail, kt)|
        ensures Mask(tail, kt)[k].index in labels <==> Mask(tail, kt)[k].index in tailLabels
      {
        var c := Mask(tail, kt)[k];
        assert c in tail;
        var j :| 0 <= j < |tail| && tail[j] == c;
      }
      WithoutAgreeing(Mask(tail, kt), labels, tailLabels);
      DropMasked(tail, kt, rt);
      if keep[0] {
        assert Mask(rows, keep)[1..] == Mask(tail, kt);
      }
    }
  }

  /**
   * Dropping those labels fails exactly when some row `remove` flags is not
   * among the rows `keep` selects.
   */
  lemma DropMaskedFails(rows: seq<Course>, keep: seq<bool>, remove: seq<bool>)
    requires |keep| == |rows| && |remove| == |rows| && SortedByIndex(rows)
    ensures Drop(Mask(rows, keep), Labels(Mask(rows, remove))).Err? <==>
            exists k :: 0 <= k < |rows| && remove[k] && !keep[k]
  {
    var labels := Labels(Mask(rows, remove));
    var kept := Labels(Mask(rows, keep));
    if exists i :: 0 <= i < |labels| && labels[i] !in kept {
      var i :| 0 <= i < |labels| && labels[i] !in kept;
      MaskLabels(rows, remove, labels[i]);
      var k :| 0 <= k < |rows| && rows[k].index == labels[i] && remove[k];
      LabelSelected(rows, keep, k);
    }
    if exists k :: 0 <= k < |rows| && remove[k] && !keep[k] {
      var k :| 0 <= k < |rows| && remove[k] && !keep[k];
      LabelSelected(rows, remove, k);
      LabelSelected(rows, keep, k);
      var i :| 0 <= i < |labels| && labels[i] == rows[k].index;
    }
  }

  /** The smallest value of a non-empty column, as `Series.min()`. */
  function MinOf(s: seq<real>): (m: real)
    requires |s| > 0
    ensures m in s
    ensures forall k :: 0 <= k < |s| ==> m <= s[k]
  {
    if |s| == 1 then s[0]
    else
      var rest := MinOf(s[1..]);
      assert forall k :: 1 <= k < |s| ==> s[k] == s[1..][k - 1];
      if s[0] <= rest then s[0] else rest
  }

  /** The new name of one column under a `rename(columns=...)` mapper. */
  function Relabel(name: string, mapper: map<string, string>): string {
    if name in mapper then mapper[name] else name
  }

  function RenameColumns(columns: seq<string>, mapper: map<string, string>): seq<string> {
    seq(|columns|, k requires 0 <= k < |columns| => Relabel(columns[k], mapper))
  }

  /** Renaming keeps the number and order of columns and changes only the names the mapper lists. */
  lemma RenameOnlyMapped(columns: seq<string>, mapper: map<string, string>)
    ensures |RenameColumns(columns, mapper)| == |columns|
    ensures forall k :: 0 <= k < |columns| && columns[k] !in mapper ==> RenameColumns(columns, mapper)[k] == columns[k]
    ensures forall k :: 0 <= k < |columns| && columns[k] in mapper ==> RenameColumns(columns, mapper)[k] == mapper[columns[k]]
  {
  }

  /** Columns with distinct names keep distinct names when the mapper is one-to-one and no unmapped name is a new name. */
  lemma RenameKeepsDistinct(columns: seq<string>, mapper: map<string, string>)
    requires forall i, j :: 0 <= i < j < |columns| ==> columns[i] != columns[j]
    requires forall a, b :: a in mapper && b in mapper && a != b ==> mapper[a] != mapper[b]
    requires forall k, a :: 0 <= k < |columns| && columns[k] !in mapper && a in mapper ==> mapper[a] != columns[k]
    ensures forall i, j :: 0 <= i < j < |columns| ==> RenameColumns(columns, mapper)[i] != RenameColumns(columns, mapper)[j]
  {
    var renamed := RenameColumns(columns, mapper);
    forall i, j | 0 <= i < j < |columns|
      ensures renamed[i] != renamed[j]
    {
      assert renamed[i] == Relabel(columns[i], mapper) && renamed[j] == Relabel(columns[j], mapper);
    }
  }

  /** The largest value of a non-empty column, as `Series.max()`. */
  function MaxOf(s: seq<real>): (m: real)
    requires |s| > 0
    ensures m in s
    ensures forall k :: 0 <= k < |s| ==> s[k] <= m
  {
    if |s| == 1 then s[0]
    else
      var rest := MaxOf(s[1..]);
      assert forall k :: 1 <= k < |s| ==> s[k] == s[1..][k - 1];
      if s[0] >= rest then s[0] else rest
  }

  function Rescale(x: real, lo: real, hi: real): real
    requires lo < hi
  {
    (x - lo) / (hi - lo)
  }

  /** The inverse map of `Rescale`: multiply by the range and add the minimum back. */
  function Unscale(y: real, lo: real, hi: real): real {
    y * (hi - lo) + lo
  }

  lemma RescaleInverse(x: real, lo: real, hi: real)
    requires lo < hi
    ensures Unscale(Rescale(x, lo, hi), lo, hi) == x
  {
  }

  lemma RescaleFacts(x: real, lo: real, hi: real)
    requires lo < hi
    ensures lo <= x ==> 0.0 <= Rescale(x, lo, hi)
    ensures x <= hi ==> Rescale(x, lo, hi) <= 1.0
    ensures Rescale(x, lo, hi) == 0.0 <==> x == lo
    ensures Rescale(x, lo, hi) == 1.0 <==> x == hi
  {
    var r, d := Rescale(x, lo, hi), hi - lo;
    assert x - lo == r * d by {
      RescaleInverse(x, lo, hi);
    }
    assert hi - x == (1.0 - r) * d;
    ProductSign(r, d);
    ProductSign(1.0 - r, d);
  }

  lemma PositiveProduct(a: real, b: real)
    requires 0.0 < a && 0.0 < b
    ensures 0.0 < a * b
  {
  }

  /** Multiplying by a positive number keeps the sign. */
  lemma ProductSign(a: real, b: real)
    requires 0.0 < b
    ensures 0.0 < a <==> 0.0 < a * b
    ensures a == 0.0 <==> a * b == 0.0
  {
    if a > 0.0 {
      PositiveProduct(a, b);
    } else if a < 0.0 {
      PositiveProduct(-a, b);
      assert (-a) * b == -(a * b);
    }
  }

  lemma RescaleOrder(x: real, y: real, lo: real, hi: real)
    requires lo < hi
    ensures x <= y <==> Rescale(x, lo, hi) <= Rescale(y, lo, hi)
  {
    var d := hi - lo;
    var rx, ry := Rescale(x, lo, hi), Rescale(y, lo, hi);
    assert x == rx * d + lo by {
      RescaleInverse(x, lo, hi);
    }
    assert y == ry * d + lo by {
      RescaleInverse(y, lo, hi);
    }
    assert y - x == (ry - rx) * d;
    ProductSign(ry - rx, d);
  }

  /** `(s - s.min()) / (s.max() - s.min())`, defined when the column is not constant. */
  function MinMaxScale(s: seq<real>): (r: seq<real>)
    requires |s| > 0 && MinOf(s) < MaxOf(s)
    ensures |r| == |s|
  {
    seq(|s|, k requires 0 <= k < |s| => Rescale(s[k], MinOf(s), MaxOf(s)))
  }

  /** Every scaled value lies in [0, 1]; the minimum maps to 0 and the maximum to 1, and only they. */
  lemma MinMaxScaleBounds(s: seq<real>)
    requires |s| > 0 && MinOf(s) < MaxOf(s)
    ensures forall k :: 0 <= k < |s| ==> 0.0 <= MinMaxScale(s)[k] <= 1.0
    ensures forall k :: 0 <= k < |s| ==> (MinMaxScale(s)[k] == 0.0 <==> s[k] == MinOf(s))
    ensures forall k :: 0 <= k < |s| ==> (MinMaxScale(s)[k] == 1.0 <==> s[k] == MaxOf(s))
  {
    forall k | 0 <= k < |s|
      ensures 0.0 <= MinMaxScale(s)[k] <= 1.0
      ensures MinMaxScale(s)[k] == 0.0 <==> s[k] == MinOf(s)
      ensures MinMaxScale(s)[k] == 1.0 <==> s[k] == MaxOf(s)
    {
      RescaleFacts(s[k], MinOf(s), MaxOf(s));
    }
  }

  /** Scaling preserves order in both directions. */
  lemma MinMaxScaleOrder(s: seq<real>)
    requires |s| > 0 && MinOf(s) < MaxOf(s)
    ensures forall i, j :: 0 <= i < |s| && 0 <= j < |s| ==> (s[i] <= s[j] <==> MinMaxScale(s)[i] <= MinMaxScale(s)[j])
  {
    forall i, j | 0 <= i < |s| && 0 <= j < |s|
      ensures s[i] <= s[j] <==> MinMaxScale(s)[i] <= MinMaxScale(s)[j]
    {
      RescaleOrder(s[i], s[j], MinOf(s), MaxOf(s));
    }
  }

  /** The original column is recovered from the scaled one and the two extremes. */
  lemma MinMaxScaleInverse(s: seq<real>)
    requires |s| > 0 && MinOf(s) < MaxOf(s)
    ensures forall k :: 0 <= k < |s| ==> Unscale(MinMaxScale(s)[k], MinOf(s), MaxOf(s)) == s[k]
  {
    forall k | 0 <= k < |s|
      ensures Unscale(MinMaxScale(s)[k], MinOf(s), MaxOf(s)) == s[k]
    {
      var lo, hi := MinOf(s), MaxOf(s);
      assert MinMaxScale(s)[k] == Rescale(s[k], lo, hi);
      RescaleInverse(s[k], lo, hi);
    }
  }

  /** The rows with a new `course_rating_scaled` column. */
  function WithRatingScaled(rows: seq<Course>, values: seq<Option<real>>): seq<Course>
    requires |values| == |rows|
  {
    seq(|rows|, k requires 0 <= k < |rows| => rows[k].(ratingScaled := values[k]))
  }

  /** A pandas frame: the name of its index, its column names, and its rows. */
  class Frame {
    var indexName: string
    var columns: seq<string>
    var rows: seq<Course>

    constructor (indexName: string, columns: seq<string>, rows: seq<Course>)
      ensures this.indexName == indexName && this.columns == columns && this.rows == rows
    {
      this.indexName := indexName;
      this.columns := columns;
      this.rows := rows;
    }

    /** `rename(columns=mapper, inplace=True)`: only column names change; the index name is not a column. */
    method Rename(mapper: map<string, string>)
      modifies this
      ensures columns == RenameColumns(old(columns), mapper)
      ensures rows == old(rows) && indexName == old(indexName)
    {
      columns := RenameColumns(columns, mapper);
    }

    /** `drop(labels, axis='index', inplace=True)`: on a `KeyError` the frame is left as it was. */
    method DropInPlace(labels: seq<int>) returns (error: Option<Error>)
      modifies this
      ensures Drop(old(rows), labels).Err? ==> error == Some(Drop(old(rows), labels).error) && rows == old(rows)
      ensures Drop(old(rows), labels).Ok? ==> error == None && rows == Drop(old(rows), labels).value
      ensures columns == old(columns) && indexName == old(indexName)
    {
      match Drop(rows, labels)
      case Err(e) =>
        error := Some(e);
      case Ok(kept) =>
        rows := kept;
        error := None;
    }

    /** `frame[column] = values` for `course_rating_scaled`: a new last column, or an overwrite. */
    method AssignRatingScaled(values: seq<Option<real>>)
      requires |values| == |rows|
      modifies this
      ensures rows == WithRatingScaled(old(rows), values)
      ensures columns == if RatingScaledColumn in old(columns) then old(columns) else old(columns) + [RatingScaledColumn]
      ensures indexName == old(indexName)
    {
      rows := WithRatingScaled(rows, values);
      if RatingScaledColumn !in columns {
        columns := columns + [RatingScaledColumn];
      }
    }
  }
}
