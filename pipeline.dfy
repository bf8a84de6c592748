/**
 * The module-level script of `course_data.py`: convert the enrollment column,
 * remove z-score outliers, add the min-max scaled rating, cut the five topic
 * tables and the popular-courses table, and rename their columns for display.
 */
module Pipeline {
  import opened Common
  import opened Text
  import opened FloatParse
  import opened Enrollment
  import opened Outliers
  import opened Table

  /** One row as read from the file, sorted and indexed: the enrollment count still a compact string. */
  datatype RawCourse = RawCourse(
    index: int,
    title: string,
    organization: string,
    certificateType: string,
    rating: real,
    difficulty: string,
    enrolled: string)

  const IndexName := "index"

  const SourceColumns: seq<string> := [
    "course_title", "course_organization", "course_Certificate_type",
    "course_rating", "course_difficulty", "course_students_enrolled"]

  const Mapper: map<string, string> := map[
    "index" := "No.",
    "course_title" := "Title",
    "course_organization" := "Organization",
    "course_Certificate_type" := "Certificate Type",
    "course_rating" := "Rating",
    "course_difficulty" := "Difficulty",
    "course_students_enrolled" := "Students Enrolled"]

  const DisplayColumns: seq<string> := [
    "Title", "Organization", "Certificate Type", "Rating", "Difficulty", "Students Enrolled"]

  /** Management courses removed by hand. */
  const ToDrop: seq<int> := [102, 242, 290, 326, 444, 587, 597, 764, 177, 354, 660]

  predicate RawSorted(raw: seq<RawCourse>) {
    forall i, j :: 0 <= i < j < |raw| ==> raw[i].index < raw[j].index
  }

  function Converted(row: RawCourse, enrolled: real): Course {
    Course(row.index, row.title, row.organization, row.certificateType, row.rating, row.difficulty, enrolled, None)
  }

  /**
   * `course_students_enrolled.apply(value_to_float)`: every cell converted in
   * row order; the first `ValueError` stops the script.
   */
  function ApplyValueToFloat(raw: seq<RawCourse>): (r: Result<seq<Course>>)
    ensures r.Ok? <==> forall k :: 0 <= k < |raw| ==> ValueToFloat(raw[k].enrolled).Ok?
    ensures r.Err? ==> r.error == ValueError(NotAFloat)
    ensures r.Ok? ==> |r.value| == |raw|
    ensures r.Ok? ==> forall k :: 0 <= k < |raw| ==> r.value[k].index == raw[k].index
    ensures r.Ok? ==> forall k :: 0 <= k < |raw| ==>
      r.value[k] == Converted(raw[k], ValueToFloat(raw[k].enrolled).value)
    decreases |raw|
  {
    if raw == [] then Ok([])
    else
      var rest := ApplyValueToFloat(raw[1..]);
      assert forall k :: 1 <= k < |raw| ==> raw[k] == raw[1..][k - 1];
      match ValueToFloat(raw[0].enrolled)
      case Err(e) => Err(e)
      case Ok(v) =>
        if rest.Err? then Err(rest.error) else Ok([Converted(raw[0], v)] + rest.value)
  }

  /** Conversion keeps the row labels, so a sorted file gives a sorted table. */
  lemma ConvertedSorted(raw: seq<RawCourse>)
    requires RawSorted(raw) && ApplyValueToFloat(raw).Ok?
    ensures SortedByIndex(ApplyValueToFloat(raw).value)
  {
  }

  /** `find_outliers(column, method='zscore')` with the default threshold. */
  function ZScoreFlags(column: seq<real>, zscore: seq<real> -> seq<real>, quantile: (seq<real>, real) -> real): (r: seq<bool>)
    requires |zscore(column)| == |column|
    ensures |r| == |column|
  {
    FindOutliers(column, "zscore", zscore, quantile).value
  }

  /** Lines 86-87: drop the rating outliers' labels, then the enrollment outliers' labels. */
  function OutlierFree(full: seq<Course>, ratingOutliers: seq<Course>, enrolledOutliers: seq<Course>): Result<seq<Course>> {
    match Drop(full, Labels(ratingOutliers))
    case Err(e) => Err(e)
    case Ok(first) => Drop(first, Labels(enrolledOutliers))
  }

  function Neither(a: seq<bool>, b: seq<bool>): seq<bool>
    requires |a| == |b|
  {
    seq(|a|, k requires 0 <= k < |a| => !a[k] && !b[k])
  }

  /**
   * The outlier-free table is the full table less every row either detector
   * flags, in order; the second `drop` raises exactly when some row is flagged
   * by both, since that label is already gone.
   */
  lemma OutlierFreeExact(full: seq<Course>, ratingFlags: seq<bool>, enrolledFlags: seq<bool>)
    requires SortedByIndex(full) && |ratingFlags| == |full| && |enrolledFlags| == |full|
    ensures OutlierFree(full, Mask(full, ratingFlags), Mask(full, enrolledFlags)).Err? <==>
            exists k :: 0 <= k < |full| && ratingFlags[k] && enrolledFlags[k]
    ensures OutlierFree(full, Mask(full, ratingFlags), Mask(full, enrolledFlags)).Ok? ==>
            OutlierFree(full, Mask(full, ratingFlags), Mask(full, enrolledFlags)).value ==
            Mask(full, Neither(ratingFlags, enrolledFlags))
  {
    FirstDrop(full, ratingFlags);
    SecondDropFails(full, ratingFlags, enrolledFlags);
    SecondDropValue(full, ratingFlags, enrolledFlags);
  }

  /** Line 86 on a sorted table: the first drop succeeds and keeps the rows the rating detector does not flag. */
  lemma FirstDrop(full: seq<Course>, ratingFlags: seq<bool>)
    requires SortedByIndex(full) && |ratingFlags| == |full|
    ensures Drop(full, Labels(Mask(full, ratingFlags))).Ok?
    ensures Drop(full, Labels(Mask(full, ratingFlags))).value == Mask(full, AndNot(AllSet(|full|), ratingFlags))
  {
    var all := AllSet(|full|);
    MaskAllSet(full);
    DropMaskedFails(full, all, ratingFlags);
    DropMasked(full, all, ratingFlags);
  }

  /** Line 87: the second drop raises exactly when a row is flagged by both detectors. */
  lemma SecondDropFails(full: seq<Course>, ratingFlags: seq<bool>, enrolledFlags: seq<bool>)
    requires SortedByIndex(full) && |ratingFlags| == |full| && |enrolledFlags| == |full|
    ensures Drop(Mask(full, AndNot(AllSet(|full|), ratingFlags)), Labels(Mask(full, enrolledFlags))).Err? <==>
            exists k :: 0 <= k < |full| && ratingFlags[k] && enrolledFlags[k]
  {
    var kept := AndNot(AllSet(|full|), ratingFlags);
    DropMaskedFails(full, kept, enrolledFlags);
    assert forall k :: 0 <= k < |full| ==> (kept[k] <==> !ratingFlags[k]);
  }

  /** Line 87: when it succeeds, the second drop keeps the rows neither detector flags. */
  lemma SecondDropValue(full: seq<Course>, ratingFlags: seq<bool>, enrolledFlags: seq<bool>)
    requires SortedByIndex(full) && |ratingFlags| == |full| && |enrolledFlags| == |full|
    ensures var second := Drop(Mask(full, AndNot(AllSet(|full|), ratingFlags)), Labels(Mask(full, enrolledFlags)));
      second.Ok? ==> second.value == Mask(full, Neither(ratingFlags, enrolledFlags))
  {
    var kept := AndNot(AllSet(|full|), ratingFlags);
    DropMasked(full, kept, enrolledFlags);
    assert AndNot(kept, enrolledFlags) == Neither(ratingFlags, enrolledFlags);
  }

  /** The scaled ratings of line 91; all missing (NaN) when the ratings are constant. */
  function ScaledRatings(rows: seq<Course>): (r: seq<Option<real>>)
    ensures |r| == |rows|
  {
    var ratings := Ratings(rows);
    if |ratings| > 0 && MinOf(ratings) < MaxOf(ratings) then
      seq(|rows|, k requires 0 <= k < |rows| => Some(MinMaxScale(ratings)[k]))
    else
      seq(|rows|, k requires 0 <= k < |rows| => None)
  }

  /**
   * A scaled rating is defined exactly when the ratings are not all equal; it
   * lies in [0, 1], is 0 exactly at the lowest rating and 1 exactly at the
   * highest, and orders rows as their ratings do.
   */
  lemma ScaledRatingsFacts(rows: seq<Course>)
    ensures forall k :: 0 <= k < |rows| ==>
      (ScaledRatings(rows)[k].Some? <==> MinOf(Ratings(rows)) < MaxOf(Ratings(rows)))
    ensures forall k :: 0 <= k < |rows| && ScaledRatings(rows)[k].Some? ==>
      0.0 <= ScaledRatings(rows)[k].value <= 1.0 &&
      (ScaledRatings(rows)[k].value == 0.0 <==> rows[k].rating == MinOf(Ratings(rows))) &&
      (ScaledRatings(rows)[k].value == 1.0 <==> rows[k].rating == MaxOf(Ratings(rows)))
    ensures forall i, j :: 0 <= i < |rows| && 0 <= j < |rows| && ScaledRatings(rows)[i].Some? ==>
      (rows[i].rating <= rows[j].rating <==> ScaledRatings(rows)[i].value <= ScaledRatings(rows)[j].value)
  {
    var ratings := Ratings(rows);
    if |ratings| > 0 && MinOf(ratings) < MaxOf(ratings) {
      var lo, hi := MinOf(ratings), MaxOf(ratings);
      forall k | 0 <= k < |rows|
        ensures ScaledRatings(rows)[k].Some?
        ensures 0.0 <= ScaledRatings(rows)[k].value <= 1.0
        ensures ScaledRatings(rows)[k].value == 0.0 <==> rows[k].rating == lo
        ensures ScaledRatings(rows)[k].value == 1.0 <==> rows[k].rating == hi
      {
        ScaledRatingAt(rows, k);
        assert lo <= ratings[k] <= hi && ratings[k] == rows[k].rating;
        RescaleFacts(rows[k].rating, lo, hi);
      }
      forall i, j | 0 <= i < |rows| && 0 <= j < |rows|
        ensures rows[i].rating <= rows[j].rating <==> ScaledRatings(rows)[i].value <= ScaledRatings(rows)[j].value
      {
        ScaledRatingAt(rows, i);
        ScaledRatingAt(rows, j);
        RescaleOrder(rows[i].rating, rows[j].rating, lo, hi);
      }
    }
  }

  /** One scaled rating: the rescaled rating when the ratings vary, missing otherwise. */
  lemma ScaledRatingAt(rows: seq<Course>, k: int)
    requires 0 <= k < |rows|
    ensures var ratings := Ratings(rows);
      if |ratings| > 0 && MinOf(ratings) < MaxOf(ratings) then
        ScaledRatings(rows)[k] == Some(Rescale(rows[k].rating, MinOf(ratings), MaxOf(ratings)))
      else ScaledRatings(rows)[k] == None
  {
    var ratings := Ratings(rows);
    assert ratings[k] == rows[k].rating;
    if |ratings| > 0 && MinOf(ratings) < MaxOf(ratings) {
      assert MinMaxScale(ratings)[k] == Rescale(ratings[k], MinOf(ratings), MaxOf(ratings));
    }
  }

  datatype Topic = Data | ArtificialIntelligence | Marketing | Python | Management

  /** The rating quantile each topic compares against. */
  function Level(t: Topic): real {
    if t == Marketing then 0.5 else 0.75
  }

  /**
   * The topic masks of lines 125-158. `&` binds tighter than `|`, so the AI and
   * Management masks admit a title match on their first keyword whatever the rating.
   */
  predicate Selects(t: Topic, c: Course, q: real) {
    match t
    case Data => Contains(c.title, "Data") && c.rating >= q
    case ArtificialIntelligence => Contains(c.title, "AI") || (Contains(c.title, "Machine Learning") && c.rating >= q)
    case Marketing => Contains(c.title, "Marketing") && c.rating >= q
    case Python => Contains(c.title, "Python") && c.rating >= q
    case Management => Contains(c.title, "Management") || (Contains(c.title, "Strategy") && c.rating >= q)
  }

  function TopicFlags(rows: seq<Course>, t: Topic, q: real): seq<bool> {
    seq(|rows|, k requires 0 <= k < |rows| => Selects(t, rows[k], q))
  }

  /** `cd_no_outliers.loc[mask]` for one topic, with the quantile taken over the table itself. */
  function TopicSubset(rows: seq<Course>, t: Topic, quantile: (seq<real>, real) -> real): seq<Course> {
    Mask(rows, TopicFlags(rows, t, quantile(Ratings(rows), Level(t))))
  }

  /** A topic table keeps the table's order and holds exactly the rows its mask admits. */
  lemma TopicSubsetExact(rows: seq<Course>, t: Topic, quantile: (seq<real>, real) -> real)
    ensures IsSubsequence(TopicSubset(rows, t, quantile), rows)
    ensures forall c :: c in TopicSubset(rows, t, quantile) <==>
      c in rows && Selects(t, c, quantile(Ratings(rows), Level(t)))
  {
    var flags := TopicFlags(rows, t, quantile(Ratings(rows), Level(t)));
    MaskMembers(rows, flags);
  }

  /** Any title containing "AI" is an AI course, whatever its rating. */
  lemma AiTitleIgnoresRating(rows: seq<Course>, quantile: (seq<real>, real) -> real, k: int)
    requires 0 <= k < |rows| && Contains(rows[k].title, "AI")
    ensures rows[k] in TopicSubset(rows, ArtificialIntelligence, quantile)
  {
    TopicSubsetExact(rows, ArtificialIntelligence, quantile);
  }

  /** Any title containing "Management" is selected before the exclusion list, whatever its rating. */
  lemma ManagementTitleIgnoresRating(rows: seq<Course>, quantile: (seq<real>, real) -> real, k: int)
    requires 0 <= k < |rows| && Contains(rows[k].title, "Management")
    ensures rows[k] in TopicSubset(rows, Management, quantile)
  {
    TopicSubsetExact(rows, Management, quantile);
  }

  /** The other three topics need both their keyword and a rating at or above the quantile. */
  lemma KeywordTopicsNeedRating(rows: seq<Course>, t: Topic, quantile: (seq<real>, real) -> real, c: Course)
    requires t == Data || t == Marketing || t == Python
    requires c in TopicSubset(rows, t, quantile)
    ensures c.rating >= quantile(Ratings(rows), Level(t))
  {
    TopicSubsetExact(rows, t, quantile);
  }

  /**
   * The Management table after line 160: it fails unless every excluded id was
   * selected, and otherwise holds the selected rows other than those ids, in order.
   */
  lemma ManagementExclusion(rows: seq<Course>, quantile: (seq<real>, real) -> real)
    ensures Drop(TopicSubset(rows, Management, quantile), ToDrop).Err? <==>
      exists i :: 0 <= i < |ToDrop| && ToDrop[i] !in Labels(TopicSubset(rows, Management, quantile))
    ensures Drop(TopicSubset(rows, Management, quantile), ToDrop).Ok? ==>
      IsSubsequence(Drop(TopicSubset(rows, Management, quantile), ToDrop).value, rows) &&
      forall c :: c in Drop(TopicSubset(rows, Management, quantile), ToDrop).value <==>
        c in rows && Selects(Management, c, quantile(Ratings(rows), 0.75)) && c.index !in ToDrop
  {
    var selected := TopicSubset(rows, Management, quantile);
    TopicSubsetExact(rows, Management, quantile);
    var dropped := Drop(selected, ToDrop);
    if dropped.Ok? {
      SubsequenceTransitive(dropped.value, selected, rows);
    }
  }

  /** The five topic tables, as row sequences. */
  datatype TopicTables = TopicTables(
    data: seq<Course>,
    ai: seq<Course>,
    marketing: seq<Course>,
    python: seq<Course>,
    management: seq<Course>)

  /** The tables the script leaves behind, as row sequences. */
  datatype Tables = Tables(
    courseData: seq<Course>,
    enrolledOutliers: seq<Course>,     // also `popular_courses`
    ratingOutliers: seq<Course>,
    noOutliers: seq<Course>,           // also `sungraph_data`
    topics: TopicTables)

  /** What the whole script computes, or the exception that stops it. */
  function BuildTables(raw: seq<RawCourse>, zscore: seq<real> -> seq<real>,
                       quantile: (seq<real>, real) -> real): Result<Tables>
    requires forall s :: |zscore(s)| == |s|
  {
    match ApplyValueToFloat(raw)
    case Err(e) => Err(e)
    case Ok(full) => Segment(full, zscore, quantile)
  }

  function EnrolledOutliers(full: seq<Course>, zscore: seq<real> -> seq<real>, quantile: (seq<real>, real) -> real): seq<Course>
    requires forall s :: |zscore(s)| == |s|
  {
    Mask(full, ZScoreFlags(Enrollments(full), zscore, quantile))
  }

  function RatingOutliers(full: seq<Course>, zscore: seq<real> -> seq<real>, quantile: (seq<real>, real) -> real): seq<Course>
    requires forall s :: |zscore(s)| == |s|
  {
    Mask(full, ZScoreFlags(Ratings(full), zscore, quantile))
  }

  /** Lines 90-91: the outlier-free table with its scaled rating column. */
  function WithScaledColumn(kept: seq<Course>): seq<Course> {
    WithRatingScaled(kept, ScaledRatings(kept))
  }

  /** Lines 125-160: the topic tables; the Management exclusion can raise. */
  function Topics(noOutliers: seq<Course>, quantile: (seq<real>, real) -> real): Result<TopicTables> {
    match Drop(TopicSubset(noOutliers, Management, quantile), ToDrop)
    case Err(e) => Err(e)
    case Ok(management) =>
      Ok(TopicTables(
        TopicSubset(noOutliers, Data, quantile),
        TopicSubset(noOutliers, ArtificialIntelligence, quantile),
        TopicSubset(noOutliers, Marketing, quantile),
        TopicSubset(noOutliers, Python, quantile),
        management))
  }

  /** Everything after the enrollment column is converted. */
  function Segment(full: seq<Course>, zscore: seq<real> -> seq<real>, quantile: (seq<real>, real) -> real): Result<Tables>
    requires forall s :: |zscore(s)| == |s|
  {
    var enrolledOutliers := EnrolledOutliers(full, zscore, quantile);
    var ratingOutliers := RatingOutliers(full, zscore, quantile);
    match OutlierFree(full, ratingOutliers, enrolledOutliers)
    case Err(e) => Err(e)
    case Ok(kept) =>
      var noOutliers := WithScaledColumn(kept);
      match Topics(noOutliers, quantile)
      case Err(e) => Err(e)
      case Ok(topics) => Ok(Tables(full, enrolledOutliers, ratingOutliers, noOutliers, topics))
  }

  /** Adding the scaled column changes no label. */
  lemma ScaledKeepsLabels(rows: seq<Course>, values: seq<Option<real>>)
    requires |values| == |rows|
    ensures |WithRatingScaled(rows, values)| == |rows|
    ensures Labels(WithRatingScaled(rows, values)) == Labels(rows)
    ensures SortedByIndex(rows) ==> SortedByIndex(WithRatingScaled(rows, values))
  {
    assert forall k :: 0 <= k < |rows| ==> Labels(WithRatingScaled(rows, values))[k] == Labels(rows)[k];
  }

  /** On a unique index, a label survives both drops exactly when neither detector flagged its row. */
  lemma NeitherLabel(full: seq<Course>, ratingFlags: seq<bool>, enrolledFlags: seq<bool>, l: int)
    requires SortedByIndex(full) && |ratingFlags| == |full| && |enrolledFlags| == |full|
    ensures l in Labels(Mask(full, Neither(ratingFlags, enrolledFlags))) <==>
      l in Labels(full) && l !in Labels(Mask(full, ratingFlags)) && l !in Labels(Mask(full, enrolledFlags))
  {
    var neither := Neither(ratingFlags, enrolledFlags);
    MaskLabels(full, neither, l);
    if l in Labels(full) {
      var k :| 0 <= k < |full| && Labels(full)[k] == l;
      LabelSelected(full, ratingFlags, k);
      LabelSelected(full, enrolledFlags, k);
      LabelSelected(full, neither, k);
    }
    if l in Labels(Mask(full, neither)) {
      var k :| 0 <= k < |full| && full[k].index == l && neither[k];
      assert Labels(full)[k] == l;
    }
  }

  /**
   * The outlier-free table, scaled, holds a label exactly when the full table
   * has it and neither outlier table does, and it stays sorted.
   */
  lemma NoOutliersLabels(full: seq<Course>, ratingFlags: seq<bool>, enrolledFlags: seq<bool>)
    requires SortedByIndex(full) && |ratingFlags| == |full| && |enrolledFlags| == |full|
    ensures var noOutliers := WithScaledColumn(Mask(full, Neither(ratingFlags, enrolledFlags)));
      SortedByIndex(noOutliers) &&
      forall l :: l in Labels(noOutliers) <==>
        l in Labels(full) && l !in Labels(Mask(full, ratingFlags)) && l !in Labels(Mask(full, enrolledFlags))
  {
    var kept := Mask(full, Neither(ratingFlags, enrolledFlags));
    SubsequenceSorted(kept, full);
    ScaledKeepsLabels(kept, ScaledRatings(kept));
    forall l
      ensures l in Labels(kept) <==>
        l in Labels(full) && l !in Labels(Mask(full, ratingFlags)) && l !in Labels(Mask(full, enrolledFlags))
    {
      NeitherLabel(full, ratingFlags, enrolledFlags, l);
    }
  }

  /** Every defined scaled rating of the outlier-free table lies in [0, 1]. */
  lemma ScaledColumnBounds(kept: seq<Course>)
    ensures forall c :: c in WithScaledColumn(kept) && c.ratingScaled.Some? ==> 0.0 <= c.ratingScaled.value <= 1.0
  {
    var noOutliers := WithScaledColumn(kept);
    ScaledRatingsFacts(kept);
    forall c | c in noOutliers && c.ratingScaled.Some?
      ensures 0.0 <= c.ratingScaled.value <= 1.0
    {
      var k :| 0 <= k < |noOutliers| && noOutliers[k] == c;
      assert c.ratingScaled == ScaledRatings(kept)[k];
    }
  }

  /** Segment succeeds exactly when both of its steps do, and then holds their results. */
  lemma SegmentParts(full: seq<Course>, zscore: seq<real> -> seq<real>, quantile: (seq<real>, real) -> real)
    requires forall s :: |zscore(s)| == |s|
    ensures var kept := OutlierFree(full, RatingOutliers(full, zscore, quantile), EnrolledOutliers(full, zscore, quantile));
      var r := Segment(full, zscore, quantile);
      (kept.Err? ==> r == Err(kept.error)) &&
      (kept.Ok? ==> var t := Topics(WithScaledColumn(kept.value), quantile);
        (t.Err? ==> r == Err(t.error)) &&
        (t.Ok? ==> r == Ok(Tables(full, EnrolledOutliers(full, zscore, quantile), RatingOutliers(full, zscore, quantile),
                                  WithScaledColumn(kept.value), t.value))))
  {
  }

  /**
   * When the script fails on a sorted table: exactly when some row is flagged
   * by both detectors (the second `drop` of line 87), or some excluded id is
   * missing from the Management selection of the outlier-free table (the
   * `drop` of line 160). Either way the exception is a `KeyError`.
   */
  lemma SegmentFails(full: seq<Course>, zscore: seq<real> -> seq<real>, quantile: (seq<real>, real) -> real)
    requires forall s :: |zscore(s)| == |s|
    requires SortedByIndex(full)
    ensures var ratingFlags := ZScoreFlags(Ratings(full), zscore, quantile);
      var enrolledFlags := ZScoreFlags(Enrollments(full), zscore, quantile);
      var noOutliers := WithScaledColumn(Mask(full, Neither(ratingFlags, enrolledFlags)));
      Segment(full, zscore, quantile).Err? <==>
        (exists k :: 0 <= k < |full| && ratingFlags[k] && enrolledFlags[k]) ||
        (exists i :: 0 <= i < |ToDrop| && ToDrop[i] !in Labels(TopicSubset(noOutliers, Management, quantile)))
    ensures Segment(full, zscore, quantile).Err? ==> Segment(full, zscore, quantile).error.KeyError?
  {
    var ratingFlags := ZScoreFlags(Ratings(full), zscore, quantile);
    var enrolledFlags := ZScoreFlags(Enrollments(full), zscore, quantile);
    SegmentParts(full, zscore, quantile);
    OutlierFreeExact(full, ratingFlags, enrolledFlags);
    var kept := OutlierFree(full, Mask(full, ratingFlags), Mask(full, enrolledFlags));
    if kept.Ok? {
      TopicsFail(WithScaledColumn(kept.value), quantile);
    }
  }

  /** The topic step fails, with a `KeyError`, exactly when some excluded id is not among the Management rows. */
  lemma TopicsFail(noOutliers: seq<Course>, quantile: (seq<real>, real) -> real)
    ensures Topics(noOutliers, quantile).Err? <==>
      exists i :: 0 <= i < |ToDrop| && ToDrop[i] !in Labels(TopicSubset(noOutliers, Management, quantile))
    ensures Topics(noOutliers, quantile).Err? ==> Topics(noOutliers, quantile).error.KeyError?
  {
    var dropped := Drop(TopicSubset(noOutliers, Management, quantile), ToDrop);
    assert Topics(noOutliers, quantile).Err? <==> dropped.Err?;
  }

  /** Every topic table is drawn in order from the table it filters; Management lacks the excluded ids. */
  lemma TopicsFacts(noOutliers: seq<Course>, quantile: (seq<real>, real) -> real)
    requires Topics(noOutliers, quantile).Ok?
    ensures var t := Topics(noOutliers, quantile).value;
      IsSubsequence(t.data, noOutliers) && IsSubsequence(t.ai, noOutliers) &&
      IsSubsequence(t.marketing, noOutliers) && IsSubsequence(t.python, noOutliers) &&
      IsSubsequence(t.management, noOutliers)
    ensures forall c :: c in Topics(noOutliers, quantile).value.management ==> c.index !in ToDrop
  {
    TopicSubsetExact(noOutliers, Data, quantile);
    TopicSubsetExact(noOutliers, ArtificialIntelligence, quantile);
    TopicSubsetExact(noOutliers, Marketing, quantile);
    TopicSubsetExact(noOutliers, Python, quantile);
    ManagementExclusion(noOutliers, quantile);
  }

  /**
   * What the segmentation guarantees on a sorted table: the outlier-free table
   * holds a label exactly when the full table has it and neither outlier table
   * does, it stays sorted, every topic table is drawn from it in order, the
   * Management table lacks the excluded ids, and every defined scaled rating
   * lies in [0, 1].
   */
  lemma SegmentFacts(full: seq<Course>, zscore: seq<real> -> seq<real>, quantile: (seq<real>, real) -> real)
    requires forall s :: |zscore(s)| == |s|
    requires SortedByIndex(full) && Segment(full, zscore, quantile).Ok?
    ensures var t := Segment(full, zscore, quantile).value;
      forall l :: l in Labels(t.noOutliers) <==>
        l in Labels(t.courseData) && l !in Labels(t.ratingOutliers) && l !in Labels(t.enrolledOutliers)
    ensures var t := Segment(full, zscore, quantile).value;
      SortedByIndex(t.noOutliers) &&
      IsSubsequence(t.topics.data, t.noOutliers) && IsSubsequence(t.topics.ai, t.noOutliers) &&
      IsSubsequence(t.topics.marketing, t.noOutliers) && IsSubsequence(t.topics.python, t.noOutliers) &&
      IsSubsequence(t.topics.management, t.noOutliers)
    ensures var t := Segment(full, zscore, quantile).value;
      forall c :: c in t.topics.management ==> c.index !in ToDrop
    ensures var t := Segment(full, zscore, quantile).value;
      forall c :: c in t.noOutliers && c.ratingScaled.Some? ==> 0.0 <= c.ratingScaled.value <= 1.0
  {
    var enrolledFlags := ZScoreFlags(Enrollments(full), zscore, quantile);
    var ratingFlags := ZScoreFlags(Ratings(full), zscore, quantile);
    OutlierFreeExact(full, ratingFlags, enrolledFlags);
    var kept := Mask(full, Neither(ratingFlags, enrolledFlags));
    NoOutliersLabels(full, ratingFlags, enrolledFlags);
    ScaledColumnBounds(kept);
    TopicsFacts(WithScaledColumn(kept), quantile);
  }

  /** The whole script on a sorted file: the segmentation guarantees hold of its tables. */
  lemma BuildTablesFacts(raw: seq<RawCourse>, zscore: seq<real> -> seq<real>, quantile: (seq<real>, real) -> real)
    requires forall s :: |zscore(s)| == |s|
    requires RawSorted(raw) && BuildTables(raw, zscore, quantile).Ok?
    ensures ApplyValueToFloat(raw).Ok?
    ensures BuildTables(raw, zscore, quantile) == Segment(ApplyValueToFloat(raw).value, zscore, quantile)
    ensures SortedByIndex(ApplyValueToFloat(raw).value)
  {
    ConvertedSorted(raw);
  }

  /** The display names: every source column is mapped, the scaled column is not. */
  lemma DisplayNames()
    ensures RenameColumns(SourceColumns, Mapper) == DisplayColumns
    ensures RenameColumns(SourceColumns + [RatingScaledColumn], Mapper) == DisplayColumns + [RatingScaledColumn]
  {
    assert RatingScaledColumn !in Mapper;
  }

  /** Every frame the script renames ends with distinct column names: the mapper never merges two columns. */
  lemma DisplayNamesDistinct()
    ensures var renamed := RenameColumns(SourceColumns + [RatingScaledColumn], Mapper);
      forall i, j :: 0 <= i < j < |renamed| ==> renamed[i] != renamed[j]
  {
    var columns := SourceColumns + [RatingScaledColumn];
    assert forall k :: 0 <= k < |columns| && columns[k] !in Mapper ==> columns[k] == RatingScaledColumn;
    RenameKeepsDistinct(columns, Mapper);
  }

  /** Line 90 adds a column the file does not have. */
  lemma ScaledColumnIsNew()
    ensures RatingScaledColumn !in SourceColumns
  {
  }

  /** The topic frames of lines 125-161. */
  datatype TopicFrames = TopicFrames(data: Frame, ai: Frame, marketing: Frame, python: Frame, management: Frame)

  /** The frames the script ends with; `sungraph` and `noOutliers`, `popular` and `enrolledOutliers` are one frame each. */
  datatype Frames = Frames(
    courseData: Frame,
    enrolledOutliers: Frame,
    ratingOutliers: Frame,
    noOutliers: Frame,
    sungraph: Frame,
    topics: TopicFrames,
    popular: Frame)

  predicate FrameHolds(f: Frame, rows: seq<Course>, columns: seq<string>)
    reads f
  {
    f.rows == rows && f.columns == columns && f.indexName == IndexName
  }

  /** The topic frames hold the topic tables under the given column names. */
  predicate TopicFramesHold(f: TopicFrames, t: TopicTables, columns: seq<string>)
    reads f.data, f.ai, f.marketing, f.python, f.management
  {
    FrameHolds(f.data, t.data, columns) && FrameHolds(f.ai, t.ai, columns) &&
    FrameHolds(f.marketing, t.marketing, columns) && FrameHolds(f.python, t.python, columns) &&
    FrameHolds(f.management, t.management, columns)
  }

  /** The frames hold the tables, under the column names the script leaves them with. */
  predicate Holds(f: Frames, t: Tables)
    reads f.courseData, f.enrolledOutliers, f.ratingOutliers, f.noOutliers,
          f.topics.data, f.topics.ai, f.topics.marketing, f.topics.python, f.topics.management
  {
    f.sungraph == f.noOutliers && f.popular == f.enrolledOutliers &&
    FrameHolds(f.courseData, t.courseData, SourceColumns) &&
    FrameHolds(f.ratingOutliers, t.ratingOutliers, SourceColumns) &&
    FrameHolds(f.enrolledOutliers, t.enrolledOutliers, RenameColumns(SourceColumns, Mapper)) &&
    FrameHolds(f.noOutliers, t.noOutliers, SourceColumns + [RatingScaledColumn]) &&
    TopicFramesHold(f.topics, t.topics, RenameColumns(SourceColumns + [RatingScaledColumn], Mapper))
  }

  /** A topic frame: a copy of the selected rows, renamed in place. */
  method TopicFrame(source: Frame, t: Topic, quantile: (seq<real>, real) -> real) returns (f: Frame)
    ensures fresh(f)
    ensures f.rows == TopicSubset(source.rows, t, quantile)
    ensures f.columns == RenameColumns(source.columns, Mapper) && f.indexName == source.indexName
  {
    f := new Frame(source.indexName, source.columns, TopicSubset(source.rows, t, quantile));
    f.Rename(Mapper);
  }

  /** Line 90: the new column starts as a copy of the ratings. */
  function RatingsCopy(rows: seq<Course>): (r: seq<Option<real>>)
    ensures |r| == |rows|
  {
    seq(|rows|, k requires 0 <= k < |rows| => Some(rows[k].rating))
  }

  /** Lines 90-91: copy the ratings into the new column, then min-max scale that column in place. */
  method AddScaledColumn(sungraph: Frame)
    modifies sungraph
    ensures sungraph.rows == WithScaledColumn(old(sungraph.rows))
    ensures sungraph.columns ==
      if RatingScaledColumn in old(sungraph.columns) then old(sungraph.columns) else old(sungraph.columns) + [RatingScaledColumn]
    ensures sungraph.indexName == old(sungraph.indexName)
  {
    sungraph.AssignRatingScaled(RatingsCopy(sungraph.rows));
    assert Ratings(sungraph.rows) == Ratings(old(sungraph.rows));
    sungraph.AssignRatingScaled(ScaledRatings(sungraph.rows));
  }

  /**
   * Lines 82-91: the two outlier frames, and the outlier-free frame made by two
   * drops, with the scaled rating written through its alias `sungraph_data`.
   */
  method OutlierFrames(full: seq<Course>, zscore: seq<real> -> seq<real>, quantile: (seq<real>, real) -> real)
    returns (enrolledOutliers: Frame, ratingOutliers: Frame, noOutliers: Result<Frame>)
    requires forall s :: |zscore(s)| == |s|
    ensures fresh(enrolledOutliers) && fresh(ratingOutliers) && enrolledOutliers != ratingOutliers
    ensures FrameHolds(enrolledOutliers, EnrolledOutliers(full, zscore, quantile), SourceColumns)
    ensures FrameHolds(ratingOutliers, RatingOutliers(full, zscore, quantile), SourceColumns)
    ensures var kept := OutlierFree(full, ratingOutliers.rows, enrolledOutliers.rows);
      (noOutliers.Ok? <==> kept.Ok?) &&
      (noOutliers.Err? ==> noOutliers.error == kept.error) &&
      (noOutliers.Ok? ==>
        fresh(noOutliers.value) && noOutliers.value != enrolledOutliers && noOutliers.value != ratingOutliers &&
        FrameHolds(noOutliers.value, WithScaledColumn(kept.value), SourceColumns + [RatingScaledColumn]))
  {
    enrolledOutliers := new Frame(IndexName, SourceColumns, EnrolledOutliers(full, zscore, quantile));
    ratingOutliers := new Frame(IndexName, SourceColumns, RatingOutliers(full, zscore, quantile));
    var first := Drop(full, Labels(ratingOutliers.rows));
    if first.Err? {
      return enrolledOutliers, ratingOutliers, Err(first.error);
    }
    var second := Drop(first.value, Labels(enrolledOutliers.rows));
    if second.Err? {
      return enrolledOutliers, ratingOutliers, Err(second.error);
    }
    var frame := new Frame(IndexName, SourceColumns, second.value);
    var sungraph := frame;
    AddScaledColumn(sungraph);
    ScaledColumnIsNew();
    noOutliers := Ok(frame);
  }

  /** Lines 125-161 over frames: four copies renamed, and a fifth with the exclusion dropped in place. */
  method MakeTopicFrames(noOutliers: Frame, quantile: (seq<real>, real) -> real) returns (result: Result<TopicFrames>)
    requires noOutliers.indexName == IndexName
    ensures result.Ok? <==> Topics(noOutliers.rows, quantile).Ok?
    ensures result.Err? ==> result.error == Topics(noOutliers.rows, quantile).error
    ensures result.Ok? ==>
      fresh(result.value.data) && fresh(result.value.ai) && fresh(result.value.marketing) &&
      fresh(result.value.python) && fresh(result.value.management) &&
      TopicFramesHold(result.value, Topics(noOutliers.rows, quantile).value, RenameColumns(noOutliers.columns, Mapper))
  {
    var data := TopicFrame(noOutliers, Data, quantile);
    var ai := TopicFrame(noOutliers, ArtificialIntelligence, quantile);
    var marketing := TopicFrame(noOutliers, Marketing, quantile);
    var python := TopicFrame(noOutliers, Python, quantile);
    var management := new Frame(noOutliers.indexName, noOutliers.columns, TopicSubset(noOutliers.rows, Management, quantile));
    var error := management.DropInPlace(ToDrop);
    if error.Some? {
      return Err(error.value);
    }
    management.Rename(Mapper);
    result := Ok(TopicFrames(data, ai, marketing, python, management));
  }

  /** Lines 82-165 over frames, from the converted `course_data` frame on. */
  method SegmentFrames(courseData: Frame, zscore: seq<real> -> seq<real>, quantile: (seq<real>, real) -> real)
    returns (result: Result<Frames>)
    requires forall s :: |zscore(s)| == |s|
    requires courseData.columns == SourceColumns && courseData.indexName == IndexName
    ensures result.Ok? <==> Segment(courseData.rows, zscore, quantile).Ok?
    ensures result.Err? ==> result.error == Segment(courseData.rows, zscore, quantile).error
    ensures result.Ok? ==> result.value.courseData == courseData
    ensures result.Ok? ==> Holds(result.value, Segment(courseData.rows, zscore, quantile).value)
  {
    var full := courseData.rows;
    var enrolledOutliers, ratingOutliers, noOutliers := OutlierFrames(full, zscore, quantile);
    if noOutliers.Err? {
      return Err(noOutliers.error);
    }
    SegmentParts(full, zscore, quantile);
    result := FinishFrames(courseData, enrolledOutliers, ratingOutliers, noOutliers.value, quantile);
  }

  /**
   * Lines 125-165 once the outlier frames exist: the topic frames are cut from
   * the outlier-free frame, and then `popular_courses`, the enrollment-outlier
   * frame itself, has its columns renamed in place. When line 160 raises, the
   * script stops before that rename.
   */
  method FinishFrames(courseData: Frame, enrolledOutliers: Frame, ratingOutliers: Frame, noOutliers: Frame,
                      quantile: (seq<real>, real) -> real)
    returns (result: Result<Frames>)
    requires enrolledOutliers != courseData && enrolledOutliers != ratingOutliers && enrolledOutliers != noOutliers
    requires noOutliers.indexName == IndexName
    modifies enrolledOutliers
    ensures enrolledOutliers.rows == old(enrolledOutliers.rows) && enrolledOutliers.indexName == old(enrolledOutliers.indexName)
    ensures result.Ok? ==> enrolledOutliers.columns == RenameColumns(old(enrolledOutliers.columns), Mapper)
    ensures result.Err? ==> enrolledOutliers.columns == old(enrolledOutliers.columns)
    ensures result.Ok? <==> Topics(noOutliers.rows, quantile).Ok?
    ensures result.Err? ==> result.error == Topics(noOutliers.rows, quantile).error
    ensures result.Ok? ==>
      result.value == Frames(courseData, enrolledOutliers, ratingOutliers, noOutliers, noOutliers,
                             result.value.topics, enrolledOutliers) &&
      TopicFramesHold(result.value.topics, Topics(noOutliers.rows, quantile).value, RenameColumns(noOutliers.columns, Mapper))
  {
    var sungraph := noOutliers;
    var topics := MakeTopicFrames(noOutliers, quantile);
    if topics.Err? {
      return Err(topics.error);
    }
    var popular := enrolledOutliers;
    popular.Rename(Mapper);
    result := Ok(Frames(courseData, enrolledOutliers, ratingOutliers, noOutliers, sungraph, topics.value, popular));
  }

  /** The script from line 51 on: convert the enrollment column, then segment. */
  method RunPipeline(raw: seq<RawCourse>, zscore: seq<real> -> seq<real>, quantile: (seq<real>, real) -> real)
    returns (result: Result<Frames>)
    requires forall s :: |zscore(s)| == |s|
    ensures result.Ok? <==> BuildTables(raw, zscore, quantile).Ok?
    ensures result.Err? ==> result.error == BuildTables(raw, zscore, quantile).error
    ensures result.Ok? ==> Holds(result.value, BuildTables(raw, zscore, quantile).value)
  {
    var converted := ApplyValueToFloat(raw);
    if converted.Err? {
      return Err(converted.error);
    }
    var courseData := new Frame(IndexName, SourceColumns, converted.value);
    result := SegmentFrames(courseData, zscore, quantile);
  }
}
