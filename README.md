# Label-file validation, Fleiss' kappa and corpus assembly

This project models two offline parts of an annotation toolkit for Reddit
comments.

- **`DataValidation`** (`ap2_submission.py`) checks the exported label files and
  measures agreement between annotators:
  - `check_file` checks every line of the adjudicated export. A line must
    split into four tab-separated columns, with a non-empty label and a
    non-empty text. The file must also hold at least `min_count` distinct data
    points; the constructor asks for 1000.
  - `check_individual_file` makes the same per-line checks on the merged
    per-annotator export. The file needs at least 500 distinct data points,
    and each data point needs exactly two distinct annotators. It tallies the
    lines per label and the data points per annotator. It returns the distinct
    `(annotator, data point, label)` triples in first-seen order.
  - `fleiss` computes Fleiss' kappa over those triples.
- **`DataHandler`** (`get_data.py`) assembles the corpus and splits it:
  - `COMMENTS_PER_SUBMISSION` is the per-submission quota;
  - `get_random_comment` decides whether to keep a drawn comment;
  - `get_comments` collects rows, numbering them consecutively;
  - `assign_split` labels half of the rows "exploration" and the rest
    "evaluation".

## How the model is organised

- A file is a `seq<string>` of lines. Each line keeps the newline the file
  iterator leaves on it.
- Python's `str.rstrip()` and `str.split("\t")` are written out in `Text`.
  Lemmas there prove that splitting and joining are inverse to each other.
- Python dictionaries become `map`s, `seq`s or `set`s, depending on what the
  code reads of them. `Collections.Dedup` is the first-seen order of keys.
  - Two dictionaries have a key order the code reads. Each becomes a `map`
    plus a `seq` of its keys in first-seen order. `annos_by_data_id` in
    `check_individual_file` is `byData` plus `order`: the loop at
    ap2_submission.py:129-130 reports the first unbalanced data point. `items`
    in `fleiss` is `items` plus `itemOrder`: the agreements come in that
    order, and the first thin item fails.
  - `annotator_triples` is returned as the list of its keys, and its values
    are never read, so it is a `seq` of distinct triples.
  - `cats` is a plain `map`. Its values are indices in first-seen order.
  - `labels` and `annos_by_annotator` are plain `map`s. Only the report loops
    at ap2_submission.py:137-142, which are not modelled, read their order.
  - In `check_file`, `annotator_triples` and `annos_by_data_id` are `set`s.
    Only their keys and their number matter there.
- numpy arrays of floats become `seq<real>`. Every value `fleiss` computes is a
  ratio of counts. The model computes these ratios exactly; the rounding of
  float64 arithmetic is not modelled.
- `fleiss` has three undefined cases. Each is an `Err` outcome here:
  - no items at all: `np.mean([])` at ap2_submission.py:199 gives NaN
    (`NoAnnotations`);
  - an expected agreement of exactly 1: the kappa at ap2_submission.py:203
    divides by zero (`UndefinedKappa`);
  - an item with fewer than two annotations: the Python `assert` at
    ap2_submission.py:190 raises `AssertionError` (`InsufficientRaters`).
  In the first two cases the source does not stop: it writes `nan` or `inf`
  into the report. The model returns the error instead.
- The loops that decide a result are methods with `for` or `while` loops:
  `CollectIds`, `TallyLines` and `FindUnbalanced` for the file checks;
  `IndexCategories`, `CountAnnotations`, `SquareSum`, `PairCount` and
  `ItemAgreements` for `fleiss`; `GetComments` (which holds both the loop over
  submissions and the inner `while` loop that fills one submission's quota)
  and `AssignSplit`. `CheckFile`, `CheckIndividualFile` and `Fleiss` chain
  these loops as the source does. Every loop method is proved equal to a
  function of its inputs. The five entry points are proved equal to
  `CheckFileSpec`, `IndividualSpec`, `FleissSpec`, `CommentsSpec` and
  `Assigned`. What the source promises is then proved as lemmas about those
  functions. Two loops of the source have no counterpart: the random descent
  of `get_random_comment` (get_data.py:81-84), whose landing points are an
  input, and the loops that write the report (ap2_submission.py:137-142).
- `assign_split` writes the data frame in place, so it is a method over an
  `array<DataRow>`.
- Randomness and the Reddit client become inputs:
  - each submission carries the comments the random descent lands on, in the
    order it lands on them;
  - `random.sample` is the `sample` argument of `AssignSplit`.

Three consequences of the code are worth stating on their own:

- A line whose text field is empty never reaches the "text is empty"
  assertion. `rstrip()` at ap2_submission.py:82 removes all trailing
  whitespace: the tab before the empty text, and also the tab before the
  label when the label is blank too. The line then has at most three
  columns. It has three when the label is present, and two when the label is
  blank: `"7\tadjudicated\t\t\n"` becomes `"7\tadjudicated"`.
  - `check_file` rejects both at the column count at ap2_submission.py:83
    (`Validation.EmptyTextUnreachable`).
  - `check_individual_file` rejects a three-column line at the column count
    at ap2_submission.py:108. A two-column line raises `IndexError` at
    ap2_submission.py:106.
- In `check_individual_file`, a line with fewer than three columns raises
  `IndexError` when it reads `cols[1]` or `cols[2]` at
  ap2_submission.py:104-106, before any assertion runs (`MissingColumn`).
- For an empty triple list, the undefined value is the mean of an empty list
  of agreements, `np.mean([])` at ap2_submission.py:199 (`NoAnnotations`).

## Model

| member | source | states |
|---|---|---|
| Text.RStrip | ap2_submission.py:82 | The result is a prefix of the line, every character removed is whitespace, and the result does not end in whitespace. |
| Text.Split | ap2_submission.py:82 | `split("\t")` never returns an empty list, and no field it returns contains a tab. |
| Text.SplitFields | ap2_submission.py:82 | Joining the fields of `split("\t")` with tabs gives back the line. |
| Text.SplitJoin | ap2_submission.py:82 | Splitting a tab-join of tab-free fields gives back exactly those fields. |
| Text.SplitCount | ap2_submission.py:82-83 | `split` yields one more field than the line has tabs, so "4 columns" means "exactly three tabs". |
| Validation.ParseRow | ap2_submission.py:82-85 | A line is accepted iff it splits into 4 columns with non-empty text and label. An accepted row is those four columns. Any other column count is reported as the wrong-column-count error, with the line number. |
| Validation.AcceptedLineJoins | ap2_submission.py:82-86 | The four fields of an accepted line contain no tab, and joined by tabs they are the right-stripped line. |
| Validation.EmptyTextUnreachable | ap2_submission.py:82-84 | No line ever fails with "text is empty", because `rstrip` removes an empty last field beforehand. |
| Validation.ParseIndividualRow | ap2_submission.py:103-110 | A line with fewer than 3 columns fails with `IndexError` before the assertions. A line with 3 or more columns gets exactly `check_file`'s verdict, its error included. In both cases the line is accepted exactly when `check_file` would accept it. |
| Validation.ParseAllOk | ap2_submission.py:81-85 | A file parses exactly when every one of its lines is well formed. |
| Validation.CollectIds | ap2_submission.py:78-87 | The loop stops at the first refused line with that line's error. Otherwise `annos_by_data_id` is the set of first-column values. |
| Validation.CheckFile | ap2_submission.py:76-92 | It returns exactly `CheckFileSpec`: the first malformed line fails, then fewer than `min_count` distinct ids fails, otherwise it reports the number of distinct ids. |
| Validation.CheckFileAccepts | ap2_submission.py:81-91 | `check_file` accepts iff every line is well formed and the first column takes at least `min_count` distinct values. It then reports that number. |
| Validation.RepeatedLineKeepsRaters | ap2_submission.py:115-117 | A line repeating an earlier (data point, annotator) pair changes no data point's set of annotators. |
| Validation.FirstUnbalanced | ap2_submission.py:129-130 | It finds nothing iff every data point in the order has exactly two annotators. What it finds is a data point in the order whose annotator count differs from two. |
| Validation.FirstUnbalancedAt | ap2_submission.py:129-130 | The data point reported is the first one in dictionary order that does not have two annotators. |
| Validation.TalliedStep | ap2_submission.py:111-125 | One accepted line keeps every tally in step with the lines read so far: the triples, annotators per data point and their key order, data points per annotator, label counts and the line count. |
| Validation.Accept | ap2_submission.py:111-125 | The loop body's updates of the five dictionaries and the counter are one `Step` of the tally. |
| Validation.TallyLines | ap2_submission.py:100-125 | The loop stops at the first refused line with that line's error. Otherwise the tallies describe exactly the accepted rows. |
| Validation.TalliedSummary | ap2_submission.py:127-149 | Tallies that match the rows yield the summary of those rows, and the key order of the data points. |
| Validation.FindUnbalanced | ap2_submission.py:129-130 | The loop over `annos_by_data_id` reports the first data point without two annotators, as `FirstUnbalanced` does. |
| Validation.CheckIndividualFile | ap2_submission.py:94-149 | It returns exactly `IndividualSpec`. The first refused line fails first, then fewer than 500 data points, then the first data point without two annotators. Otherwise it returns the summary. |
| Validation.IndividualAccepts | ap2_submission.py:108-149 | The file is accepted iff every line is well formed, there are at least 500 distinct data ids, and every data id has exactly 2 distinct annotators. The result counts all lines and all distinct ids. Its triples are distinct and are exactly the triples of the accepted lines. |
| Validation.TriplesOfRows | ap2_submission.py:113 | The returned triples have no duplicates and are exactly the `(annotator, data point, label)` combinations that occur. A triple listed earlier first occurs on an earlier line. |
| Validation.IndividualTriplesOrder | ap2_submission.py:149 | The triples an accepted individual file returns are the keys of `annotator_triples` in insertion order: a triple listed earlier first occurs on an earlier line. |
| Validation.DataOrderIds | ap2_submission.py:115-127 | The first-seen order of data ids holds each distinct id once, so its length is the number of distinct ids. |
| Validation.BalancedInOrder | ap2_submission.py:129-130 | Checking the data points in dictionary order is the same as checking every distinct data id. |
| Validation.LabelCountsTotal | ap2_submission.py:111-125 | The label counts are keyed by exactly the labels seen, and they add up to the number of accepted lines. |
| Agreement.IndexCategories | ap2_submission.py:153-166 | `cats` gives the labels indices 0..ncats-1 in first-seen order, and holds no other labels. |
| Agreement.CountedStep | ap2_submission.py:173-178 | Counting one more triple keeps each item's vector equal to that item's votes per category, and the item keys in first-seen order. |
| Agreement.CountAnnotations | ap2_submission.py:168-179 | `ps` holds the label counts per category. `items` holds, for every item in first-seen order and no other, its votes per category. |
| Agreement.ItemCountsSum | ap2_submission.py:173-178 | An item's count vector sums to its number of triples. |
| Agreement.CategoryCountsSum | ap2_submission.py:179 | The category counts sum to the number of triples. |
| Agreement.Normalised | ap2_submission.py:181 | For a non-empty triple list, dividing `ps` by its sum gives the marginals. For an empty list, both are empty. |
| Agreement.MarginalsSum | ap2_submission.py:179-181 | For a non-empty triple list, the marginal proportions sum to 1. |
| Agreement.MarginalsPositive | ap2_submission.py:179-181 | Every marginal proportion is positive, since every category receives at least one vote. |
| Agreement.SquareSum | ap2_submission.py:183-185 | The loop computes the sum of the squares of its input. |
| Agreement.ChanceAgreement | ap2_submission.py:181-185 | `expected` is the sum of the squared marginal proportions. |
| Agreement.ExpectedRange | ap2_submission.py:183-185 | For a non-empty triple list, `expected` is positive and at most 1. It equals 1 exactly when there is a single category, which is the case where the kappa's denominator vanishes. |
| Agreement.PairCount | ap2_submission.py:193-194 | The inner loop computes Σ c·(c−1) over the count vector. |
| Agreement.PairAgreementFloat | ap2_submission.py:189-195 | For a total of at least 2, the denominator t·(t−1) is non-zero, and the loop's value is Σ c·(c−1) / t·(t−1). |
| Agreement.ItemAgreement | ap2_submission.py:189-195 | An item with at least two votes gets its agreement Σ c·(c−1) / (t·(t−1)). |
| Agreement.PairAgreementRange | ap2_submission.py:193-195 | That per-item agreement lies in [0, 1]. |
| Agreement.FirstThin | ap2_submission.py:188-190 | It finds nothing iff every item has at least two votes. What it finds is an item with fewer. |
| Agreement.FirstThinAt | ap2_submission.py:188-190 | The assertion fails on the first item, in first-seen order, with fewer than two votes. |
| Agreement.ObservedFromIn | ap2_submission.py:187-197 | Running the agreements loop from any point reached correctly gives the agreements list of all items, or the first item's assertion failure. |
| Agreement.ItemAgreements | ap2_submission.py:187-197 | The loop appends the items' agreements in `items` order, and fails at the first item with fewer than two votes. |
| Agreement.AgreementsRange | ap2_submission.py:187-197 | Every per-item agreement lies in [0, 1]. |
| Agreement.MeanRange | ap2_submission.py:199 | The mean of agreements in [0, 1] lies in [0, 1]. |
| Agreement.KappaRange | ap2_submission.py:203 | For an observed agreement in [0, 1] and `expected` below 1, kappa is at most 1. It is 1 exactly when observed agreement is perfect, and 0 exactly when observed equals expected. |
| Agreement.Fleiss | ap2_submission.py:151-204 | It returns exactly `FleissSpec`: the first item with fewer than two annotations fails; no items means no mean; `expected == 1` means no kappa. Otherwise the report holds observed, expected and kappa. |
| Agreement.ObservedOutcome | ap2_submission.py:187-199 | The agreements fail exactly when some item has fewer than two triples. The failing item then has exactly one triple. On success there is one agreement per item. |
| Agreement.KappaBelowMinusOne | ap2_submission.py:151-203 | For the seven triples `Skewed` (two items, two labels), `fleiss` reports observed 1/2, expected 37/49 and kappa −25/24, so kappa has no lower bound of −1 on arbitrary triple lists. |
| Agreement.FleissOutcome | ap2_submission.py:151-204 | Which outcome `fleiss` has: thin items, no triples, a single category, or a report. The report's observed value is the mean agreement in [0,1]. Its expected value is Σp² over marginals summing to 1, positive and below 1. Its kappa is (observed−expected)/(1−expected), at most 1, and 1 iff observed is 1. |
| DataValidation.Run | ap2_submission.py:69-74 | The constructor's three checks run in order, and the first that fails decides the outcome. |
| DataValidation.AcceptedTriples | ap2_submission.py:127-149 | An accepted individual file yields triples in which every data point has two distinct annotators, and there are at least 500 data points. |
| DataValidation.BalancedRated | ap2_submission.py:127-130 | When every data point has two annotators, no item can fail the "at least two annotations" assertion of `fleiss`. |
| DataValidation.AcceptedFleiss | ap2_submission.py:73-74 | On the triples of an accepted individual file, `fleiss` never fails on a thin item nor on emptiness. It succeeds exactly when two or more labels occur, and otherwise fails only for an undefined kappa. |
| DataValidation.RunAccepts | ap2_submission.py:69-74 | The run succeeds iff the adjudicated file passes with 1000 ids, the individual file passes, and at least two labels occur. A successful run reports at least 1000 ids, at least 500 data points and a kappa of at most 1. |
| Corpus.FloorDiv | get_data.py:39 | Python's `//` on integers: the quotient rounded towards negative infinity, for divisors of either sign. |
| Corpus.CommentsPerSubmission | get_data.py:39 | The quota `N_COMMENTS // N_SUBMISSIONS`. It fails iff there are no submissions. With a positive number of submissions it is the largest q such that q·N_SUBMISSIONS ≤ N_COMMENTS. |
| Corpus.GetRandomComment | get_data.py:86-101 | A draw is skipped iff it is removed, deleted or already seen. It is kept iff it is none of these and its parent id starts with `t3_` or `t1_`. A kept draw carries the comment's id and body, which is neither removed nor deleted. Its parent text is the submission title for `t3_` and the parent comment's body for `t1_`. Any other prefix is the unsupported-parent error, carrying that parent id. |
| Corpus.SeenNeverRejects | get_data.py:116-118 | With `seen` empty, as `get_comments` always passes it, a comment is skipped exactly when it is removed or deleted. |
| Corpus.GetComments | get_data.py:103-137 | The nested loops return exactly `CommentsSpec`: each row numbered `len(df) + len(rows)`, skipped draws adding nothing, and an unsupported parent ending the run. |
| Corpus.CollectRows | get_data.py:117-129 | The inner loop ends with exactly `max(quota, rows so far)` rows, keeping the earlier rows. The rows are numbered on from the frame's length and belong to the submission. None of the new rows is removed or deleted, and none has a split yet. |
| Corpus.HarvestRows | get_data.py:112-132 | Each submission appends exactly `max(quota, 0)` rows to the frame, keeping the earlier rows, so the ids stay 0, 1, 2, … in append order. |
| Corpus.CommentIds | get_data.py:112-137 | The frame has `submissions · max(quota, 0)` rows. Its ids are exactly 0, 1, …, n−1 in order, and all distinct. |
| Corpus.AssignSplit | get_data.py:139-149 | The loop relabels every row according to the sample's membership and changes nothing else. |
| Corpus.SplitCounts | get_data.py:142-145 | For a sample of distinct in-range indices, every row keeps its other columns. A row is "exploration" iff its index is in the sample, and "evaluation" iff it is not. The two index sets are disjoint, and their sizes are `len(sample)` and `len(df) − len(sample)`. With `len(df) // 2` indices they are `len // 2` and `len − len // 2`. |

## Left out

- File and report I/O: the truncation and appends to the validation report and
  the `%.3f` formatting (ap2_submission.py:70, 90-92, 133-147, 200-204) are
  replaced by returned values (`nat`, `Summary`, `Report`, `Outcome`).
- `create_adjudicated` and `compile_individual` are pandas pipelines that
  merge and rewrite CSV files. They hold no checking logic, so they are not
  modelled.
- IEEE floating point: rounding, NaN and infinity are not modelled. The two
  places where the source goes on with `nan` or `inf` (ap2_submission.py:199
  and 203) are error outcomes here, and the report is not written.
- `uid_id` and `uid_counts` in `fleiss` are written and never read.
  `Agreement.IndexCategories` updates them as the source does, but no contract
  speaks of them, since they cannot influence any result.
- The Reddit client is not modelled: credentials, `praw` calls, the subreddit,
  the top submissions and `replace_more`.
- The random descent through the comment forest, `random.seed`, `randint` and
  `sample` are replaced by inputs: the sequence of drawn comments and the
  sample.
- Corpus.GetComments: the source keeps drawing until the quota is met, possibly
  forever. The model has a finite sequence of draws, and running out of them
  is the `DrawsExhausted` error.
- Corpus.CommentsPerSubmission: argparse gives command-line values as strings,
  so `//` on user-supplied values would raise `TypeError`. The model takes the
  two values as integers, as the defaults are.
- tqdm progress output and the periodic and final `to_csv` saves are not
  modelled. `get_data` only chains the modelled calls.
- The Django application under `annotate/` holds routing and one render call
  with no logic, so it is not modelled.
- Concurrency: the source has none.
- Agreement.KappaRange: states no lower bound for kappa. For arbitrary triple
  lists, kappa can lie below −1 (`Agreement.KappaBelowMinusOne`). For the
  triples of a validated file, where every item has two annotators, a lower
  bound is not proved here.
- Corpus.GetRandomComment: an empty comment forest makes
  `random.randint(0, -1)` at get_data.py:81 raise `ValueError`. The model has
  no draw to offer for such a submission, so it reports `DrawsExhausted`.
