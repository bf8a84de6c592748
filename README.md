# Coursera course table: cleaning and segmentation

A Dafny model of `course_data.py`. The script loads the Coursera course
table, parses enrollment counts such as `"100k"` or `"3m"` into numbers,
and removes rating and enrollment outliers found with z-scores. It then
min-max scales the rating of the outlier-free table, cuts five topic tables
(Data, AI / Machine Learning, Marketing, Python, Management) and a
popular-courses table, and renames their columns for display.

The model is split into modules:

- `Common`: the `Result`/`Option` wrappers and the two exceptions the script
  can raise. `ValueError` comes from `float` and from `find_outliers`;
  `KeyError` comes from `drop`.
- `Text`: decimal digits, substring search (`str.contains` with a literal
  pattern), and `str.replace(c, '')`.
- `FloatParse`: Python's `float(str)` as an exact parser from strings to
  reals. It accepts an optional sign, digits with at most one point, an
  optional exponent, and surrounding ASCII whitespace. Anything else raises
  `ValueError`.
- `Enrollment`: `value_to_float`.
- `Outliers`: `find_outliers`, its method dispatch and the IQR fence test.
- `Table`: course rows, ordered by their integer index.
  - Boolean-mask selection (`frame[mask]`, `frame.loc[mask]`) and `drop` by
    labels, including its `KeyError`.
  - Column renaming through a mapping, and min-max scaling.
  - A `Frame` class whose methods change a frame in place: `rename(...,
    inplace=True)`, `drop(..., inplace=True)` and column assignment.
- `Pipeline`: the module-level script.
  - Its functions give the tables it computes (`Segment`, `BuildTables`).
  - Its methods build them as frames in the same order as the script, with
    the same mutations and the same aliasing. `sungraph_data` is the
    outlier-free frame, and `popular_courses` is the enrollment-outlier
    frame. `Holds` ties the frames to the tables.

Library calls the model cannot see are parameters.

- `zscore: seq<real> -> seq<real>` stands for `scipy.stats.zscore`. It is
  required to return one score per value.
- `quantile: (seq<real>, real) -> real` stands for `Series.quantile`.

Floats are exact reals. The model takes the table as already read, indexed
and sorted by its integer index, with distinct labels. Scaling over
constant ratings divides zero by zero, which pandas turns into NaN without
raising. The model writes NaN, and an absent value, as `None`.

## Model

| member | source | states |
|---|---|---|
| Enrollment.ValueToFloat | course_data.py:19-48 | With neither 'k' nor 'm' the result is 0.0. The only failure is `float` raising `ValueError` on what remains after a suffix is removed from a string longer than one character. |
| Enrollment.ThousandsBranch | course_data.py:40-42 | A string containing 'k' with length > 1 succeeds exactly when `float` accepts it with every 'k' removed. The result is then that value times 1000. |
| Enrollment.MillionsBranch | course_data.py:44-46 | A string with no 'k', containing 'm', with length > 1 succeeds exactly when `float` accepts it with every 'm' removed. The result is then that value times 1000000. |
| Enrollment.ThousandsSuffix | course_data.py:40-42 | For any literal without 'k' that `float` reads as v, the literal followed by 'k' gives v * 1000. |
| Enrollment.MillionsSuffix | course_data.py:44-46 | For any literal without 'k' or 'm' that `float` reads as v, the literal followed by 'm' gives v * 1000000. |
| Enrollment.CompactThousands | course_data.py:40-42 | Any non-empty digit string followed by 'k', leading zeros included, gives the number it spells times 1000. |
| Enrollment.CompactMillions | course_data.py:44-46 | Any non-empty digit string followed by 'm' gives the number it spells times 1000000. |
| Enrollment.CompactDecimalThousands | course_data.py:40-42 | "w.dk" gives the exact decimal value of w.d times 1000. |
| Enrollment.CompactDecimalMillions | course_data.py:44-46 | "w.dm" gives the exact decimal value of w.d times 1000000. |
| Enrollment.PlainNumberIsZero | course_data.py:48 | A plain numeral, having no suffix, gives the sentinel 0.0. |
| Text.Contains | course_data.py:125-158 | `str.contains` with a literal pattern; characterised by ContainsAt, which says the pattern occurs at some position. |
| Text.ContainsAt | course_data.py:125-158 | The substring test holds iff the pattern occurs at some position of the title. |
| Text.RemoveAll | course_data.py:42-46 | `str.replace(c, '')`: no `c` is left, and every other character still occurs. Order and multiplicity of the kept characters follow from RemoveAllAppend. |
| Text.RemoveAllAppend | course_data.py:42-46 | Removing every `c` from a concatenation is removing it from each part and concatenating, so the kept characters keep their order and multiplicity. |
| Enrollment.ThousandsCheckedFirst | course_data.py:40-47 | A string with both letters takes the 'k' branch, whose remainder still holds 'm', so it raises. |
| Enrollment.SuffixWithoutDigits | course_data.py:41-42 | Over the modelled literals (no "inf", "nan" or underscores), a string longer than one character that contains 'k' and no digit raises. |
| Enrollment.ExampleHundredThousand | course_data.py:40-42 | "100k" gives 100000.0. |
| Enrollment.ExampleThreeMillion | course_data.py:44-46 | "3m" gives 3000000.0. |
| Enrollment.ExampleOneAndAHalfThousand | course_data.py:40-42 | "1.5k" gives 1500.0. |
| Enrollment.ExampleBareSuffixes | course_data.py:43-48 | "k" gives 1000.0, "m" gives 1000000.0, and "5" gives 0.0. |
| Enrollment.ExampleErrors | course_data.py:42 | "kk" and "1.2.3k" raise. |
| FloatParse.ParseFloat | course_data.py:42 | `float` fails only with `ValueError`, whose message is "could not convert string to float" (Python appends the input; see Left out). ParseFloatChars and ParseFloatNeedsDigit give necessary conditions for acceptance. ParseFloatDigits, ParsePointLiteral and ParseFloatMinus give the value of digit strings, "w.d" literals and "-n". No lemma states the value of exponent, '+'-signed, whitespace-padded or leading-point forms. |
| FloatParse.ParseFloatChars | course_data.py:42 | For the modelled literals, an accepted string contains only digits, signs, points, exponent markers and whitespace. |
| FloatParse.ParseFloatNeedsDigit | course_data.py:42 | For the modelled literals, an accepted string contains a digit. |
| FloatParse.ParseFloatDigits | course_data.py:42 | A non-empty digit string reads as the number it spells. |
| FloatParse.ParseFloatShowNat | course_data.py:42 | The decimal numeral of n reads as n. |
| FloatParse.ParseFloatMinus | course_data.py:42 | "-" followed by the numeral of n reads as -n. |
| FloatParse.ParsePointLiteral | course_data.py:42 | "w.d" reads as the digits of w and d taken together, divided by 10 to the number of digits in d. |
| FloatParse.ParseFloatTwoPoints | course_data.py:42 | "1.2.3" is rejected. |
| Outliers.FindOutliers | course_data.py:54-80 | Any method other than 'zscore' or 'iqr' raises `ValueError("Invalid method. Choose 'zscore' or 'iqr'.")`, and only such methods raise. Otherwise there is one flag per value, in order. 'zscore' flags a value iff its score's absolute value exceeds the threshold. 'iqr' flags it iff it is strictly below q1 - threshold * iqr or strictly above q3 + threshold * iqr. |
| Outliers.OutsideFences | course_data.py:75-78 | The IQR test of one value: strictly below q1 - threshold * iqr or strictly above q3 + threshold * iqr; characterised by FencesAreInside, InterquartileKept and FencesWiden. |
| Outliers.FencesAreInside | course_data.py:75-78 | A value exactly on either fence is not flagged. |
| Outliers.InterquartileKept | course_data.py:75-78 | No value between the quartiles is flagged. |
| Outliers.FencesWiden | course_data.py:78 | What a higher threshold flags, a lower one flags too. |
| Outliers.ZScoreSignIgnored | course_data.py:71-73 | Because of `np.abs`, `find_outliers` with 'zscore' gives the same flags for a score function as for its negation. |
| Table.Labels | course_data.py:86-87 | The index of a table, one label per row, in order. |
| Table.MinOf | course_data.py:91 | `min()`: a value of the column, no greater than any other. |
| Table.MaxOf | course_data.py:91 | `max()`: a value of the column, no smaller than any other. |
| Table.Mask | course_data.py:83 | Boolean-mask selection keeps rows in order, so the result is a subsequence of those rows. |
| Table.MaskMembers | course_data.py:83 | A row is selected iff it sits at some position whose flag is set. |
| Table.MaskLabels | course_data.py:83 | A label is in the selection iff some flagged row carries it. |
| Table.LabelSelected | course_data.py:83 | With distinct labels, a row's label survives the selection iff its own flag is set. |
| Table.Drop | course_data.py:86-87 | `drop` raises `KeyError` iff some label is absent from the table, and the error names exactly the absent labels. Otherwise the result is the table in order, keeping exactly the rows whose label is not listed. |
| Table.WithoutMembers | course_data.py:86-87 | Removing labels keeps exactly the rows whose label is not listed. |
| Table.DropMasked | course_data.py:86-87 | With distinct labels, dropping the labels of one mask selection from another is the selection by "first and not second". |
| Table.DropMaskedFails | course_data.py:86-87 | That drop raises iff some row is flagged by the second mask but not kept by the first. |
| Table.SubsequenceSorted | course_data.py:14 | A subsequence of a table sorted by index is sorted. |
| Table.RenameOnlyMapped | course_data.py:129 | Renaming keeps the number and order of columns. It maps exactly the names in the mapping and leaves the others unchanged. |
| Table.RenameColumns | course_data.py:129 | `rename(columns=mapper)` on the column names; characterised by RenameOnlyMapped and RenameKeepsDistinct. |
| Table.RenameKeepsDistinct | course_data.py:129 | A one-to-one mapper whose new names clash with no unmapped column keeps distinct column names distinct. |
| Table.MinMaxScale | course_data.py:91 | `(x - min) / (max - min)` over a non-constant column, one value per position; characterised by MinMaxScaleBounds, MinMaxScaleOrder and MinMaxScaleInverse. |
| Table.RescaleFacts | course_data.py:91 | (x - min) / (max - min) lies in [0, 1] for x within the range. It is 0 exactly at min and 1 exactly at max. |
| Table.RescaleOrder | course_data.py:91 | Rescaling preserves order in both directions. |
| Table.RescaleInverse | course_data.py:91 | Scaling back by (max - min) and adding min recovers the value. |
| Table.MinMaxScaleBounds | course_data.py:91 | Every scaled value of a non-constant column lies in [0, 1]. It is 0 exactly at the column's minimum and 1 exactly at its maximum. |
| Table.MinMaxScaleOrder | course_data.py:91 | The scaled column orders positions as the original does. |
| Table.MinMaxScaleInverse | course_data.py:91 | The original column is recoverable from the scaled one. |
| Table.Frame.constructor | course_data.py:83 | A new frame holds the given index name, columns and rows. |
| Table.Frame.Rename | course_data.py:129 | `rename(columns=mapper, inplace=True)` maps the column names and changes neither the rows nor the index name. The "index" key does not touch the index. |
| Table.Frame.DropInPlace | course_data.py:160 | In-place drop: on `KeyError` the frame is unchanged and the error is returned. Otherwise the rows become the drop's result. |
| Table.Frame.AssignRatingScaled | course_data.py:90-91 | Column assignment writes one value per row and appends the column name when it is new. Nothing else changes. |
| Pipeline.ApplyValueToFloat | course_data.py:51 | `apply(value_to_float)` succeeds iff every cell converts. On success each row keeps its label and other fields and carries its cell's converted value. Its only failure is `float`'s `ValueError`. |
| Pipeline.ConvertedSorted | course_data.py:14-51 | Conversion keeps a sorted table sorted. |
| Pipeline.OutlierFree | course_data.py:86-87 | The two drops in sequence; characterised by FirstDrop, SecondDropFails, SecondDropValue and OutlierFreeExact. |
| Pipeline.EnrolledOutliers | course_data.py:82-83 | `course_data[enrolled_outliers]`, the rows `popular_courses` later holds; characterised by MaskMembers and MaskLabels. |
| Pipeline.RatingOutliers | course_data.py:84-85 | `course_data[rating_outliers]`; characterised by MaskMembers and MaskLabels. |
| Pipeline.ZScoreFlags | course_data.py:82-84 | The z-score detector gives one flag per value. |
| Pipeline.FirstDrop | course_data.py:86 | On a sorted table the first drop always succeeds. It keeps exactly the rows the rating detector does not flag. |
| Pipeline.SecondDropFails | course_data.py:87 | The second drop raises iff some row is flagged by both detectors. |
| Pipeline.SecondDropValue | course_data.py:87 | When the second drop succeeds, it keeps exactly the rows neither detector flags, in order. |
| Pipeline.OutlierFreeExact | course_data.py:82-87 | On a sorted table the two drops raise `KeyError` exactly when some row is flagged by both detectors, since its label is already gone before the second drop. Otherwise the result is the table less every row either detector flags, in order. |
| Pipeline.ScaledRatings | course_data.py:90-91 | The new column's values, one per row; characterised by ScaledRatingAt and ScaledRatingsFacts. |
| Pipeline.WithScaledColumn | course_data.py:90-91 | The outlier-free table with its scaled rating column; characterised by ScaledColumnBounds and ScaledRatingsFacts. |
| Pipeline.ScaledRatingAt | course_data.py:90-91 | A row's scaled rating is its rescaled rating when the ratings vary, and missing (NaN) when they are all equal. |
| Pipeline.ScaledRatingsFacts | course_data.py:89-91 | A scaled rating is defined iff the ratings are not all equal. It lies in [0, 1], is 0 exactly at the lowest rating and 1 exactly at the highest, and orders rows as their ratings do. |
| Pipeline.Selects | course_data.py:125-158 | The five topic masks with Python's precedence; characterised by AiTitleIgnoresRating, ManagementTitleIgnoresRating and KeywordTopicsNeedRating. |
| Pipeline.TopicSubset | course_data.py:125-158 | `cd_no_outliers.loc[mask]` for one topic; characterised by TopicSubsetExact. |
| Pipeline.TopicSubsetExact | course_data.py:125-158 | Each topic table is a subsequence of the outlier-free table. It holds exactly the rows its mask admits, against the quantile of that table's ratings. |
| Pipeline.AiTitleIgnoresRating | course_data.py:132-136 | With `&` binding tighter than `\|`, any title containing "AI" is an AI course whatever its rating. |
| Pipeline.ManagementTitleIgnoresRating | course_data.py:154-158 | Any title containing "Management" is selected whatever its rating. |
| Pipeline.KeywordTopicsNeedRating | course_data.py:125-151 | Data, Marketing and Python rows all rate at least the topic's quantile: 0.75, 0.5 and 0.75. |
| Pipeline.ManagementExclusion | course_data.py:154-160 | The exclusion raises iff some id of `to_drop` was not selected. Otherwise it keeps, in order, exactly the selected rows whose id is not excluded. |
| Pipeline.NoOutliersLabels | course_data.py:82-91 | The outlier-free table is sorted. It holds a label iff the full table has it and neither outlier table does. |
| Pipeline.ScaledColumnBounds | course_data.py:89-91 | Every defined value of the new column lies in [0, 1]. |
| Pipeline.SegmentFails | course_data.py:82-160 | On a sorted table the script raises iff some row is flagged by both detectors, or some id of `to_drop` is missing from the Management selection of the scaled outlier-free table. The exception is then a `KeyError`. |
| Pipeline.TopicsFail | course_data.py:154-160 | The topic step raises `KeyError` iff some id of `to_drop` is missing from the Management selection. |
| Pipeline.Topics | course_data.py:125-160 | The five topic tables, or line 160's exception; characterised by TopicsFacts, TopicsFail and ManagementExclusion. |
| Pipeline.TopicsFacts | course_data.py:125-160 | Every topic table is a subsequence of the outlier-free table, and the Management table contains no excluded id. |
| Pipeline.Segment | course_data.py:82-160 | The script after conversion; characterised by SegmentFacts and SegmentFails. |
| Pipeline.SegmentFacts | course_data.py:82-160 | On a sorted table, these hold of the tables the script leaves behind: the label characterisation of the outlier-free table; its sortedness; every topic table drawn from it in order; no excluded id in Management; every scaled rating in [0, 1]. |
| Pipeline.BuildTables | course_data.py:51-160 | The whole table-level script; characterised by BuildTablesFacts. |
| Pipeline.BuildTablesFacts | course_data.py:14-160 | On a sorted file the whole script is the segmentation of the converted table, and that table is sorted. |
| Pipeline.DisplayNames | course_data.py:114-122 | The mapping renames the six source columns to the display names and leaves the scaled column's name alone. |
| Pipeline.DisplayNamesDistinct | course_data.py:114-165 | Every renamed frame ends with distinct column names. |
| Pipeline.ScaledColumnIsNew | course_data.py:90 | The scaled column is not among the file's columns, so line 90 appends it. |
| Pipeline.TopicFrame | course_data.py:125-151 | A topic frame is a fresh copy of the selected rows whose columns have been renamed in place. |
| Pipeline.AddScaledColumn | course_data.py:89-91 | Lines 90-91 through the alias: first the rating is copied into the new column, then that column is scaled in place. The frame's rows end up with the scaled ratings. |
| Pipeline.OutlierFrames | course_data.py:82-91 | The two outlier frames are fresh and hold the masked rows. The outlier-free frame exists iff both drops succeed, and it then holds the scaled outlier-free table. |
| Pipeline.MakeTopicFrames | course_data.py:125-161 | The topic frames exist iff the Management exclusion succeeds. Each then holds its topic table under the renamed columns. |
| Pipeline.FinishFrames | course_data.py:125-165 | The topic frames are cut first; they exist iff the table-level topic step succeeds, and they then hold its tables under the renamed columns. Only then is `popular_courses`, the enrollment-outlier frame itself, renamed; when line 160 raises its columns are left as they were. Its rows never change. |
| Pipeline.SegmentFrames | course_data.py:82-165 | Over frames, the script fails iff the table-level script does, with the same error. Otherwise its frames hold the table-level results. `sungraph_data` and `popular_courses` alias the frames they are assigned from, and the popular frame's columns are renamed. |
| Pipeline.RunPipeline | course_data.py:51-165 | The whole script from line 51 on: it fails iff the table-level script does, with the same error. Otherwise its frames hold that script's tables. |

## Left out

- Reading the CSV, renaming "Unnamed: 0" and setting and sorting the index (course_data.py:12-14): file I/O. The model starts from rows sorted by their integer index with distinct labels.
- The table has no missing cells. A missing enrollment cell (NaN) makes `'k' in x` raise `TypeError` at line 40, and a missing title makes the masks at lines 125-158 raise; neither is modelled.
- `astype('category')` (course_data.py:15-16): a dtype change with no observable effect on the values modelled.
- `scipy.stats.zscore` and `Series.quantile`: foreign numeric code over floats. Both are function parameters; nothing is assumed about them beyond one z-score per value.
- FloatParse.ParseFloat: the `ValueError` message omits the quoted input Python appends (": '<input>'"). IEEE rounding, underscores between digits, "inf"/"nan", non-ASCII digits and whitespace, and overflow to infinity are not modelled. Results are exact reals.
- Table.MinMaxScale: the division is exact, without float rounding.
- The NaN that constant ratings produce at line 91 is `None`; NaN's comparison semantics are not modelled.
- `str.contains` treats its pattern as a regular expression. Every pattern in the script is a literal, so the model uses substring search.
- Line 51's column assignment is modelled as building the `course_data` frame from the converted rows, not as an overwrite of an existing frame.
- Pipeline.AddScaledColumn: line 91 reads the freshly copied column. The model reads the rating field, which holds the same values, as the method's intermediate assertion records.
- The pandas SettingWithCopy behaviour of renaming a `.loc` selection in place is not modelled; each selection is a fresh frame.
- The commented-out organisation classification (course_data.py:94-112): dead code.
- `course_app.py` is not part of this model: it is a Streamlit page that displays the precomputed tables and a chart.
- The plotting and unused imports (course_data.py:1-9).
