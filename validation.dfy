/** The offline label-file checks of `DataValidation`: `check_file` for the
    adjudicated export and `check_individual_file` for the merged per-annotator
    export. A file is its sequence of lines, each as the file iterator yields it
    (the trailing newline, if any, included). */
module Validation {
  import opened Results
  import opened Text
  import opened Collections

  const Tab: char := '\t'
  /** The minimum number of distinct data points `check_individual_file` demands. */
  const IndividualMinimum: nat := 500
  /** The number of distinct annotators every data point must have. */
  const AnnotatorsPerItem: nat := 2

  /** One accepted line: `(datapoint_id, annotator_id, label, text)`. */
  datatype Row = Row(dataId: string, annotator: string, category: string, text: string)

  /** One key of `annotator_triples`: `(anno_id, data_id, label)`. */
  datatype Triple = Triple(annotator: string, item: string, category: string)

  /** Why a line is refused. `MissingColumn` is the `IndexError` that
      `check_individual_file` raises when it reads `cols[1]` or `cols[2]`;
      the others are its assertions, in the order they are tried. */
  datatype LineError =
    | MissingColumn(line: nat, columns: seq<string>)
    | WrongColumnCount(line: nat, columns: seq<string>)
    | EmptyText(line: nat)
    | EmptyLabel(line: nat)

  datatype ValidationError =
    | Malformed(cause: LineError)
    | InsufficientCoverage(found: nat, required: int)
    | UnbalancedAnnotation(dataId: string, annotators: nat)

  /** Summary of an accepted individual-annotation file: the deduplicated
      triples it returns and the counts its report prints. */
  datatype Summary = Summary(
    triples: seq<Triple>,
    labels: map<string, nat>,
    annotatorItems: map<string, set<string>>,
    dataPoints: nat,
    lines: nat)

  /** `line.rstrip().split("\t")` */
  function Columns(line: string): seq<string>
  {
    Split(RStrip(line), Tab)
  }

  // ---------------------------------------------------------------------------
  // Per-line checks

  /** A line both checks accept: four columns, a non-empty label and text. */
  predicate WellFormed(line: string)
  {
    var cols := Columns(line);
    |cols| == 4 && cols[2] != "" && cols[3] != ""
  }

  /** The checks `check_file` makes of line `idx`: four columns, then a
      non-empty text (column 4), then a non-empty label (column 3). */
  function ParseRow(line: string, idx: nat): (r: Result<Row, LineError>)
    ensures r.Ok? <==> WellFormed(line)
    ensures r.Ok? ==> Columns(line) == [r.value.dataId, r.value.annotator, r.value.category, r.value.text]
    ensures r.Err? ==> r.error.line == idx && !r.error.MissingColumn?
    ensures (r.Err? && r.error.WrongColumnCount?) <==> |Columns(line)| != 4
  {
    var cols := Columns(line);
    if |cols| != 4 then Err(WrongColumnCount(idx, cols))
    else if |cols[3]| == 0 then Err(EmptyText(idx))
    else if |cols[2]| == 0 then Err(EmptyLabel(idx))
    else Ok(Row(cols[0], cols[1], cols[2], cols[3]))
  }

  /** An accepted line is its four fields joined by tabs, up to the trailing
      whitespace `rstrip` removes, and no field holds a tab. */
  lemma AcceptedLineJoins(line: string, idx: nat)
    requires ParseRow(line, idx).Ok?
    ensures var r := ParseRow(line, idx).value;
      && Join([r.dataId, r.annotator, r.category, r.text], Tab) == RStrip(line)
      && Tab !in r.dataId && Tab !in r.annotator && Tab !in r.category && Tab !in r.text
  {
    SplitFields(RStrip(line), Tab);
    var cols := Columns(line);
    assert Tab !in cols[0] && Tab !in cols[1] && Tab !in cols[2] && Tab !in cols[3];
  }

  /** `rstrip` removes a trailing empty text field together with its tab, so a
      line that still has four columns always has a text: the empty-text
      assertion can never fire, and such a line fails the column count instead. */
  lemma EmptyTextUnreachable(line: string, idx: nat)
    ensures ParseRow(line, idx) != Err(EmptyText(idx))
  {
    SplitFields(RStrip(line), Tab);
  }

  /** The checks `check_individual_file` makes of line `idx`: the first three
      columns are read before any assertion, so fewer than three columns is an
      index error; otherwise the checks of `check_file`. */
  function ParseIndividualRow(line: string, idx: nat): (r: Result<Row, LineError>)
    ensures (r.Err? && r.error.MissingColumn?) <==> |Columns(line)| < 3
    ensures r.Err? ==> r.error.line == idx
    ensures r.Ok? <==> ParseRow(line, idx).Ok?
    ensures |Columns(line)| >= 3 ==> r == ParseRow(line, idx)
  {
    var cols := Columns(line);
    if |cols| < 3 then Err(MissingColumn(idx, cols)) else ParseRow(line, idx)
  }

  function ParseLine(line: string, idx: nat, individual: bool): Result<Row, LineError>
  {
    if individual then ParseIndividualRow(line, idx) else ParseRow(line, idx)
  }

  /** The verdict on every line of a file, in order. */
  function Parsed(lines: seq<string>, individual: bool): (rs: seq<Result<Row, LineError>>)
    ensures |rs| == |lines|
  {
    seq(|lines|, i requires 0 <= i < |lines| => ParseLine(lines[i], i, individual))
  }

  /** The rows of a file, or the error of its first refused line. */
  function ParseAll(lines: seq<string>, individual: bool): Result<seq<Row>, LineError>
  {
    Sequence(Parsed(lines, individual))
  }

  // ---------------------------------------------------------------------------
  // What the dictionaries of the checks hold, stated on the accepted rows

  function DataIds(rows: seq<Row>): set<string>
  {
    set r | r in rows :: r.dataId
  }

  function Annotators(rows: seq<Row>): set<string>
  {
    set r | r in rows :: r.annotator
  }

  function Labels(rows: seq<Row>): set<string>
  {
    set r | r in rows :: r.category
  }

  /** The distinct annotators seen for data point `d`: `annos_by_data_id[d]`. */
  function Raters(rows: seq<Row>, d: string): set<string>
  {
    set r | r in rows && r.dataId == d :: r.annotator
  }

  /** The distinct data points annotator `a` labelled: `annos_by_annotator[a]`. */
  function ItemsOf(rows: seq<Row>, a: string): set<string>
  {
    set r | r in rows && r.annotator == a :: r.dataId
  }

  function TripleOf(r: Row): Triple
  {
    Triple(r.annotator, r.dataId, r.category)
  }

  function TripleSeq(rows: seq<Row>): (ts: seq<Triple>)
    ensures |ts| == |rows|
  {
    seq(|rows|, i requires 0 <= i < |rows| => TripleOf(rows[i]))
  }

  function DataIdSeq(rows: seq<Row>): (ds: seq<string>)
    ensures |ds| == |rows|
  {
    seq(|rows|, i requires 0 <= i < |rows| => rows[i].dataId)
  }

  function LabelSeq(rows: seq<Row>): (ls: seq<string>)
    ensures |ls| == |rows|
  {
    seq(|rows|, i requires 0 <= i < |rows| => rows[i].category)
  }

  /** How the views above change when one more row is accepted. */
  lemma SetsSnoc(rows: seq<Row>, r: Row)
    ensures DataIds(rows + [r]) == DataIds(rows) + {r.dataId}
    ensures Annotators(rows + [r]) == Annotators(rows) + {r.annotator}
    ensures Labels(rows + [r]) == Labels(rows) + {r.category}
  {
    assert forall x :: x in rows + [r] <==> x in rows || x == r;
  }

  lemma RatersSnoc(rows: seq<Row>, r: Row, d: string)
    ensures Raters(rows + [r], d) == if d == r.dataId then Raters(rows, d) + {r.annotator} else Raters(rows, d)
  {
    assert forall x :: x in rows + [r] <==> x in rows || x == r;
  }

  lemma ItemsOfSnoc(rows: seq<Row>, r: Row, a: string)
    ensures ItemsOf(rows + [r], a) == if a == r.annotator then ItemsOf(rows, a) + {r.dataId} else ItemsOf(rows, a)
  {
    assert forall x :: x in rows + [r] <==> x in rows || x == r;
  }

  lemma SeqsSnoc(rows: seq<Row>, r: Row)
    ensures TripleSeq(rows + [r]) == TripleSeq(rows) + [TripleOf(r)]
    ensures DataIdSeq(rows + [r]) == DataIdSeq(rows) + [r.dataId]
    ensures LabelSeq(rows + [r]) == LabelSeq(rows) + [r.category]
  {
  }

  /** A second line with the same annotator and data point adds no annotator:
      the two-annotation rule counts annotators, not lines. */
  lemma RepeatedLineKeepsRaters(rows: seq<Row>, r: Row, k: nat)
    requires k < |rows| && rows[k].dataId == r.dataId && rows[k].annotator == r.annotator
    ensures forall d :: Raters(rows + [r], d) == Raters(rows, d)
  {
    assert rows[k] in rows;
    forall d ensures Raters(rows + [r], d) == Raters(rows, d) {
      RatersSnoc(rows, r, d);
    }
  }

  // ---------------------------------------------------------------------------
  // check_file

  /** What `check_file(lines, minCount)` does: the first refused line aborts;
      otherwise it fails unless there are at least `minCount` distinct data
      points, and reports their number. */
  function CheckFileSpec(lines: seq<string>, minCount: int): Result<nat, ValidationError>
  {
    match ParseAll(lines, false)
    case Err(e) => Err(Malformed(e))
    case Ok(rows) =>
      var n := |DataIds(rows)|;
      if n >= minCount then Ok(n) else Err(InsufficientCoverage(n, minCount))
  }

  /** The distinct values of the first column. */
  function FirstColumnValues(lines: seq<string>): set<string>
  {
    set i | 0 <= i < |lines| :: Columns(lines[i])[0]
  }

  /** `check_file` accepts a file exactly when every line is well formed and
      the first column takes at least `minCount` distinct values, and then
      reports that number. */
  lemma CheckFileAccepts(lines: seq<string>, minCount: int)
    ensures CheckFileSpec(lines, minCount).Ok? <==>
      (forall i :: 0 <= i < |lines| ==> WellFormed(lines[i])) && |FirstColumnValues(lines)| >= minCount
    ensures CheckFileSpec(lines, minCount).Ok? ==> CheckFileSpec(lines, minCount).value == |FirstColumnValues(lines)|
  {
    var ps := Parsed(lines, false);
    assert forall i :: 0 <= i < |lines| ==> ps[i] == ParseRow(lines[i], i);
    var p := ParseAll(lines, false);
    if p.Ok? {
      var rows := p.value;
      var ids := FirstColumnValues(lines);
      assert DataIds(rows) == ids by {
        forall x | x in DataIds(rows) ensures x in ids {
          var r :| r in rows && r.dataId == x;
          var i :| 0 <= i < |rows| && rows[i] == r;
          assert ps[i] == Ok(rows[i]);
          assert Columns(lines[i])[0] == x;
        }
        forall x | x in ids ensures x in DataIds(rows) {
          var i :| 0 <= i < |lines| && Columns(lines[i])[0] == x;
          assert ps[i] == Ok(rows[i]);
          assert rows[i] in rows;
        }
      }
    } else {
      var i :| 0 <= i < |lines| && !ps[i].Ok?;
      assert !WellFormed(lines[i]);
    }
  }

  /** The reading loop of `check_file`: the error of the first refused
      line, or the keys of `annos_by_data_id` once every row is in. */
  method CollectIds(lines: seq<string>) returns (failed: Option<LineError>, annosByDataId: set<string>)
    ensures failed.Some? <==> ParseAll(lines, false).Err?
    ensures failed.Some? ==> failed.value == ParseAll(lines, false).error
    ensures failed.None? ==> annosByDataId == DataIds(ParseAll(lines, false).value)
  {
    var annotatorTriples: set<Triple> := {};  // filled, never read
    annosByDataId := {};
    ghost var rows: seq<Row> := [];
    for i := 0 to |lines|
      invariant Sequence(Parsed(lines, false)[..i]) == Ok(rows)
      invariant annosByDataId == DataIds(rows)
    {
      var parsed := ParseRow(lines[i], i);
      if parsed.Err? {
        SequenceFirstError(Parsed(lines, false), i);
        return Some(parsed.error), annosByDataId;
      }
      var row := parsed.value;
      SequenceSnoc(Parsed(lines, false), i, rows);
      SetsSnoc(rows, row);
      annotatorTriples := annotatorTriples + {TripleOf(row)};
      annosByDataId := annosByDataId + {row.dataId};
      rows := rows + [row];
    }
    PrefixAll(Parsed(lines, false));
    failed := None;
  }

  /** `DataValidation.check_file`, without its report line. */
  method CheckFile(lines: seq<string>, minCount: int) returns (r: Result<nat, ValidationError>)
    ensures r == CheckFileSpec(lines, minCount)
  {
    var failed, annosByDataId := CollectIds(lines);
    if failed.Some? {
      return Err(Malformed(failed.value));
    }
    if |annosByDataId| >= minCount {
      r := Ok(|annosByDataId|);
    } else {
      r := Err(InsufficientCoverage(|annosByDataId|, minCount));
    }
  }

  // ---------------------------------------------------------------------------
  // check_individual_file

  /** The first data point, in first-seen order, that does not have exactly
      two distinct annotators. */
  function FirstUnbalanced(rows: seq<Row>, order: seq<string>): (r: Option<string>)
    ensures r.None? <==> forall k :: 0 <= k < |order| ==> |Raters(rows, order[k])| == AnnotatorsPerItem
    ensures r.Some? ==> r.value in order && |Raters(rows, r.value)| != AnnotatorsPerItem
  {
    if |order| == 0 then None
    else if |Raters(rows, order[0])| != AnnotatorsPerItem then Some(order[0])
    else
      var rest := FirstUnbalanced(rows, order[1..]);
      assert forall k :: 1 <= k < |order| ==> order[1..][k - 1] == order[k];
      rest
  }

  lemma {:induction false} FirstUnbalancedAt(rows: seq<Row>, order: seq<string>, k: nat)
    requires k < |order|
    requires forall j :: 0 <= j < k ==> |Raters(rows, order[j])| == AnnotatorsPerItem
    requires |Raters(rows, order[k])| != AnnotatorsPerItem
    ensures FirstUnbalanced(rows, order) == Some(order[k])
    decreases k
  {
    if k > 0 {
      assert forall j :: 0 <= j < k - 1 ==> order[1..][j] == order[j + 1];
      FirstUnbalancedAt(rows, order[1..], k - 1);
    }
  }

  function LabelCounts(rows: seq<Row>): map<string, nat>
  {
    map l | l in Labels(rows) :: multiset(LabelSeq(rows))[l]
  }

  function AnnotatorItems(rows: seq<Row>): map<string, set<string>>
  {
    map a | a in Annotators(rows) :: ItemsOf(rows, a)
  }

  function SummaryOf(rows: seq<Row>): Summary
  {
    Summary(Dedup(TripleSeq(rows)), LabelCounts(rows), AnnotatorItems(rows),
            |Dedup(DataIdSeq(rows))|, |rows|)
  }

  /** What `check_individual_file(lines)` does: the first refused line aborts;
      then it fails unless there are at least 500 distinct data points, then
      unless every data point (in first-seen order) has exactly two distinct
      annotators; otherwise it returns the summary. */
  function IndividualSpec(lines: seq<string>): Result<Summary, ValidationError>
  {
    match ParseAll(lines, true)
    case Err(e) => Err(Malformed(e))
    case Ok(rows) =>
      var order := Dedup(DataIdSeq(rows));
      if |order| < IndividualMinimum then Err(InsufficientCoverage(|order|, IndividualMinimum))
      else match FirstUnbalanced(rows, order)
        case Some(d) => Err(UnbalancedAnnotation(d, |Raters(rows, d)|))
        case None => Ok(SummaryOf(rows))
  }

  /** `annos_by_data_id` (with its key order) after the accepted rows `rows`. */
  ghost predicate DataTallied(rows: seq<Row>, byData: map<string, set<string>>, order: seq<string>)
  {
    && order == Dedup(DataIdSeq(rows))
    && |byData| == |order|
    && (forall d :: d in byData <==> d in DataIds(rows))
    && (forall d :: d in byData ==> byData[d] == Raters(rows, d))
  }

  /** `annos_by_annotator` after the accepted rows `rows`. */
  ghost predicate AnnotatorsTallied(rows: seq<Row>, byAnnotator: map<string, set<string>>)
  {
    && (forall a :: a in byAnnotator <==> a in Annotators(rows))
    && (forall a :: a in byAnnotator ==> byAnnotator[a] == ItemsOf(rows, a))
  }

  /** `labels` after the accepted rows `rows`. */
  ghost predicate LabelsTallied(rows: seq<Row>, labels: map<string, nat>)
  {
    && (forall l :: l in labels <==> l in Labels(rows))
    && (forall l :: l in labels ==> labels[l] == multiset(LabelSeq(rows))[l])
  }

  /** The dictionaries of `check_individual_file`: `annotator_triples` (as
      its key list), `annos_by_data_id` with its key order, `annos_by_annotator`,
      `labels` and `count`. */
  datatype Tally = Tally(triples: seq<Triple>, byData: map<string, set<string>>, order: seq<string>,
                         byAnnotator: map<string, set<string>>, labels: map<string, nat>, count: nat)

  /** The dictionaries are those of the accepted rows `rows`. */
  ghost predicate Tallied(rows: seq<Row>, t: Tally)
  {
    && t.count == |rows|
    && t.triples == Dedup(TripleSeq(rows))
    && DataTallied(rows, t.byData, t.order)
    && AnnotatorsTallied(rows, t.byAnnotator)
    && LabelsTallied(rows, t.labels)
  }

  /** `m[k]` with `v` added, creating the entry when `k` is new. */
  function AddTo(m: map<string, set<string>>, k: string, v: string): map<string, set<string>>
  {
    m[k := (if k in m then m[k] else {}) + {v}]
  }

  /** `counts[k]` raised by one, creating the entry when `k` is new. */
  function Increment(counts: map<string, nat>, k: string): map<string, nat>
  {
    counts[k := (if k in counts then counts[k] else 0) + 1]
  }

  /** A data point has been seen exactly when it occurs in the first column. */
  lemma DataIdsInSeq(rows: seq<Row>, d: string)
    ensures d in DataIds(rows) <==> d in DataIdSeq(rows)
  {
    if d in DataIds(rows) {
      var x :| x in rows && x.dataId == d;
      var j :| 0 <= j < |rows| && rows[j] == x;
      assert DataIdSeq(rows)[j] == d;
    }
    if d in DataIdSeq(rows) {
      var j :| 0 <= j < |rows| && DataIdSeq(rows)[j] == d;
      assert rows[j] in rows;
    }
  }

  lemma DataOrderStep(rows: seq<Row>, row: Row, byData: map<string, set<string>>, order: seq<string>)
    requires order == Dedup(DataIdSeq(rows))
    requires forall d :: d in byData <==> d in DataIds(rows)
    ensures (if row.dataId in byData then order else order + [row.dataId]) == Dedup(DataIdSeq(rows + [row]))
  {
    SeqsSnoc(rows, row);
    DedupSnoc(DataIdSeq(rows), row.dataId);
    DataIdsInSeq(rows, row.dataId);
  }

  lemma DataKeysStep(rows: seq<Row>, row: Row, byData: map<string, set<string>>, order: seq<string>)
    requires |byData| == |order|
    requires forall d :: d in byData <==> d in DataIds(rows)
    ensures var byData' := AddTo(byData, row.dataId, row.annotator);
      && |byData'| == |if row.dataId in byData then order else order + [row.dataId]|
      && forall d :: d in byData' <==> d in DataIds(rows + [row])
  {
    SetsSnoc(rows, row);
    var byData' := AddTo(byData, row.dataId, row.annotator);
    assert byData'.Keys == byData.Keys + {row.dataId};
  }

  lemma DataRatersStep(rows: seq<Row>, row: Row, byData: map<string, set<string>>)
    requires forall d :: d in byData <==> d in DataIds(rows)
    requires forall d :: d in byData ==> byData[d] == Raters(rows, d)
    ensures var byData' := AddTo(byData, row.dataId, row.annotator);
      forall d :: d in byData' ==> byData'[d] == Raters(rows + [row], d)
  {
    var byData' := AddTo(byData, row.dataId, row.annotator);
    forall d | d in byData' ensures byData'[d] == Raters(rows + [row], d) {
      RatersSnoc(rows, row, d);
      if d !in byData {
        assert forall x | x in rows :: x.dataId != d;
        assert Raters(rows, d) == {};
      }
    }
  }

  lemma DataTalliedStep(rows: seq<Row>, row: Row, byData: map<string, set<string>>, order: seq<string>)
    requires DataTallied(rows, byData, order)
    ensures DataTallied(rows + [row], AddTo(byData, row.dataId, row.annotator),
                        if row.dataId in byData then order else order + [row.dataId])
  {
    DataOrderStep(rows, row, byData, order);
    DataKeysStep(rows, row, byData, order);
    DataRatersStep(rows, row, byData);
  }

  lemma AnnotatorsTalliedStep(rows: seq<Row>, row: Row, byAnnotator: map<string, set<string>>)
    requires AnnotatorsTallied(rows, byAnnotator)
    ensures AnnotatorsTallied(rows + [row], AddTo(byAnnotator, row.annotator, row.dataId))
  {
    SetsSnoc(rows, row);
    var m := AddTo(byAnnotator, row.annotator, row.dataId);
    forall a | a in m ensures m[a] == ItemsOf(rows + [row], a) {
      ItemsOfSnoc(rows, row, a);
    }
  }

  lemma LabelsTalliedStep(rows: seq<Row>, row: Row, labels: map<string, nat>)
    requires LabelsTallied(rows, labels)
    ensures LabelsTallied(rows + [row], Increment(labels, row.category))
  {
    SetsSnoc(rows, row);
    SeqsSnoc(rows, row);
    assert multiset(LabelSeq(rows + [row])) == multiset(LabelSeq(rows)) + multiset{row.category};
    if row.category !in labels {
      forall j | 0 <= j < |rows| ensures LabelSeq(rows)[j] != row.category {
        assert rows[j] in rows;
      }
    }
  }

  /** The dictionaries after one more accepted row. */
  function Step(t: Tally, row: Row): Tally
  {
    Tally(if TripleOf(row) in t.triples then t.triples else t.triples + [TripleOf(row)],
          AddTo(t.byData, row.dataId, row.annotator),
          if row.dataId in t.byData then t.order else t.order + [row.dataId],
          AddTo(t.byAnnotator, row.annotator, row.dataId),
          Increment(t.labels, row.category),
          t.count + 1)
  }

  /** Accepting one more row keeps the dictionaries in step with the rows. */
  lemma TalliedStep(rows: seq<Row>, row: Row, t: Tally)
    requires Tallied(rows, t)
    ensures Tallied(rows + [row], Step(t, row))
  {
    SeqsSnoc(rows, row);
    DedupSnoc(TripleSeq(rows), TripleOf(row));
    DataTalliedStep(rows, row, t.byData, t.order);
    AnnotatorsTalliedStep(rows, row, t.byAnnotator);
    LabelsTalliedStep(rows, row, t.labels);
  }

  /** A refused line aborts `check_individual_file` with that line's error. */
  lemma IndividualMalformed(lines: seq<string>, i: nat, rows: seq<Row>)
    requires i < |lines|
    requires Sequence(Parsed(lines, true)[..i]) == Ok(rows)
    requires ParseIndividualRow(lines[i], i).Err?
    ensures IndividualSpec(lines) == Err(Malformed(ParseIndividualRow(lines[i], i).error))
  {
    var ps := Parsed(lines, true);
    assert forall j :: 0 <= j < i ==> ps[..i][j] == ps[j];
    SequenceFirstError(ps, i);
  }

  /** Once the rows are all in, the dictionaries are the summary's. */
  lemma TalliedSummary(rows: seq<Row>, t: Tally)
    requires Tallied(rows, t)
    ensures Summary(t.triples, t.labels, t.byAnnotator, |t.byData|, t.count) == SummaryOf(rows)
    ensures t.order == Dedup(DataIdSeq(rows)) && |t.byData| == |t.order|
    ensures forall k :: 0 <= k < |t.order| ==> t.order[k] in t.byData && t.byData[t.order[k]] == Raters(rows, t.order[k])
  {
    var order := t.order;
    assert t.labels == LabelCounts(rows);
    assert t.byAnnotator == AnnotatorItems(rows);
    forall k | 0 <= k < |order| ensures order[k] in t.byData {
      assert order[k] in DataIdSeq(rows);
      var j :| 0 <= j < |rows| && DataIdSeq(rows)[j] == order[k];
      assert rows[j] in rows;
    }
  }

  /** `m.setdefault(k, {})[v] = 1`, in the source's two steps. */
  method AddEntry(m: map<string, set<string>>, k: string, v: string) returns (m': map<string, set<string>>)
    ensures m' == AddTo(m, k, v)
  {
    m' := m;
    if k !in m' {
      m' := m'[k := {}];
    }
    m' := m'[k := m'[k] + {v}];
  }

  /** `counts[k] += 1` after creating the entry at zero when `k` is new. */
  method Bump(counts: map<string, nat>, k: string) returns (counts': map<string, nat>)
    ensures counts' == Increment(counts, k)
  {
    counts' := counts;
    if k !in counts' {
      counts' := counts'[k := 0];
    }
    counts' := counts'[k := counts'[k] + 1];
  }

  /** The body of the reading loop for an accepted row, in the source's steps. */
  method Accept(t: Tally, row: Row) returns (t': Tally)
    ensures t' == Step(t, row)
  {
    var annotatorTriples := t.triples;
    var triple := TripleOf(row);
    if triple !in annotatorTriples {
      annotatorTriples := annotatorTriples + [triple];
    }
    var dataOrder := t.order;
    if row.dataId !in t.byData {
      dataOrder := dataOrder + [row.dataId];
    }
    var annosByDataId := AddEntry(t.byData, row.dataId, row.annotator);
    var annosByAnnotator := AddEntry(t.byAnnotator, row.annotator, row.dataId);
    var labels := Bump(t.labels, row.category);
    t' := Tally(annotatorTriples, annosByDataId, dataOrder, annosByAnnotator, labels, t.count + 1);
  }

  /** The reading loop of `check_individual_file`: the error of the first
      refused line, or the dictionaries filled from all the rows. */
  method TallyLines(lines: seq<string>) returns (failed: Option<LineError>, t: Tally)
    ensures failed.Some? <==> ParseAll(lines, true).Err?
    ensures failed.Some? ==> failed.value == ParseAll(lines, true).error
    ensures failed.None? ==> Tallied(ParseAll(lines, true).value, t)
  {
    t := Tally([], map[], [], map[], map[], 0);
    ghost var rows: seq<Row> := [];
    for i := 0 to |lines|
      invariant Sequence(Parsed(lines, true)[..i]) == Ok(rows)
      invariant Tallied(rows, t)
    {
      var parsed := ParseIndividualRow(lines[i], i);
      if parsed.Err? {
        IndividualMalformed(lines, i, rows);
        return Some(parsed.error), t;
      }
      var row := parsed.value;
      SequenceSnoc(Parsed(lines, true), i, rows);
      TalliedStep(rows, row, t);
      t := Accept(t, row);
      rows := rows + [row];
    }
    PrefixAll(Parsed(lines, true));
    failed := None;
  }

  /** The balance loop: the first data point, in key order, whose annotator
      set does not have two members. */
  method FindUnbalanced(annosByDataId: map<string, set<string>>, dataOrder: seq<string>, ghost rows: seq<Row>)
    returns (bad: Option<string>)
    requires forall k :: 0 <= k < |dataOrder| ==>
      dataOrder[k] in annosByDataId && annosByDataId[dataOrder[k]] == Raters(rows, dataOrder[k])
    ensures bad == FirstUnbalanced(rows, dataOrder)
  {
    for k := 0 to |dataOrder|
      invariant forall j :: 0 <= j < k ==> |Raters(rows, dataOrder[j])| == AnnotatorsPerItem
    {
      var d := dataOrder[k];
      if |annosByDataId[d]| != AnnotatorsPerItem {
        FirstUnbalancedAt(rows, dataOrder, k);
        return Some(d);
      }
    }
    bad := None;
  }

  /** `DataValidation.check_individual_file`, returning its report's counts
      beside the triples. */
  method CheckIndividualFile(lines: seq<string>) returns (r: Result<Summary, ValidationError>)
    ensures r == IndividualSpec(lines)
  {
    var failed, t := TallyLines(lines);
    if failed.Some? {
      return Err(Malformed(failed.value));
    }
    ghost var rows := ParseAll(lines, true).value;
    TalliedSummary(rows, t);
    if |t.byData| < IndividualMinimum {
      return Err(InsufficientCoverage(|t.byData|, IndividualMinimum));
    }
    var bad := FindUnbalanced(t.byData, t.order, rows);
    if bad.Some? {
      return Err(UnbalancedAnnotation(bad.value, |t.byData[bad.value]|));
    }
    r := Ok(Summary(t.triples, t.labels, t.byAnnotator, |t.byData|, t.count));
  }

  // ---------------------------------------------------------------------------
  // What an accepted individual-annotation file satisfies

  /** Both checks read the same line shapes: the rows exist exactly when every
      line is well formed. */
  lemma ParseAllOk(lines: seq<string>, individual: bool)
    ensures ParseAll(lines, individual).Ok? <==> forall i :: 0 <= i < |lines| ==> WellFormed(lines[i])
  {
    var ps := Parsed(lines, individual);
    assert forall i :: 0 <= i < |lines| ==> (ps[i].Ok? <==> WellFormed(lines[i]));
  }

  /** The key order of `annos_by_data_id` lists each data point once. */
  lemma DataOrderIds(rows: seq<Row>)
    ensures forall d :: d in Dedup(DataIdSeq(rows)) <==> d in DataIds(rows)
    ensures |Dedup(DataIdSeq(rows))| == |DataIds(rows)|
  {
    var order := Dedup(DataIdSeq(rows));
    forall d | d in DataIds(rows) ensures d in DataIdSeq(rows) {
      var r :| r in rows && r.dataId == d;
      var i :| 0 <= i < |rows| && rows[i] == r;
      assert DataIdSeq(rows)[i] == d;
    }
    forall d | d in DataIdSeq(rows) ensures d in DataIds(rows) {
      var i :| 0 <= i < |rows| && DataIdSeq(rows)[i] == d;
      assert rows[i] in rows;
    }
    DistinctCard(order);
    assert (set x | x in order) == DataIds(rows);
  }

  /** The returned triples are the distinct triples of the rows, in the order
      of the lines they first occur on. */
  lemma TriplesOfRows(rows: seq<Row>)
    ensures Distinct(Dedup(TripleSeq(rows)))
    ensures forall t :: t in Dedup(TripleSeq(rows)) <==> exists i :: 0 <= i < |rows| && t == TripleOf(rows[i])
    ensures var ts := TripleSeq(rows); var d := Dedup(ts);
      forall i, j :: 0 <= i < j < |d| ==> FirstIndex(ts, d[i]) < FirstIndex(ts, d[j])
  {
    var ts := TripleSeq(rows);
    forall i, j | 0 <= i < j < |Dedup(ts)|
      ensures FirstIndex(ts, Dedup(ts)[i]) < FirstIndex(ts, Dedup(ts)[j])
    {
      DedupOrder(ts, i, j);
    }
    forall t ensures t in Dedup(ts) <==> exists i :: 0 <= i < |rows| && t == TripleOf(rows[i]) {
      if t in ts {
        var i :| 0 <= i < |ts| && ts[i] == t;
        assert t == TripleOf(rows[i]);
      }
      if exists i :: 0 <= i < |rows| && t == TripleOf(rows[i]) {
        var i :| 0 <= i < |rows| && t == TripleOf(rows[i]);
        assert ts[i] == t;
      }
    }
  }

  /** Every data point in key order is balanced exactly when every data point is. */
  lemma BalancedInOrder(rows: seq<Row>)
    ensures var order := Dedup(DataIdSeq(rows));
      (forall k :: 0 <= k < |order| ==> |Raters(rows, order[k])| == AnnotatorsPerItem) <==>
      (forall d :: d in DataIds(rows) ==> |Raters(rows, d)| == AnnotatorsPerItem)
  {
    DataOrderIds(rows);
    var order := Dedup(DataIdSeq(rows));
    if forall k :: 0 <= k < |order| ==> |Raters(rows, order[k])| == AnnotatorsPerItem {
      forall d | d in DataIds(rows) ensures |Raters(rows, d)| == AnnotatorsPerItem {
        var k := FirstIndex(order, d);
      }
    }
  }

  /** `check_individual_file` accepts a file exactly when every line is well
      formed, at least 500 distinct data points occur, and each of them has
      exactly two distinct annotators; the summary then counts the lines, the
      data points and the distinct triples. */
  lemma IndividualAccepts(lines: seq<string>)
    ensures IndividualSpec(lines).Ok? <==>
      && ParseAll(lines, true).Ok?
      && |DataIds(ParseAll(lines, true).value)| >= IndividualMinimum
      && forall d :: d in DataIds(ParseAll(lines, true).value) ==>
           |Raters(ParseAll(lines, true).value, d)| == AnnotatorsPerItem
    ensures IndividualSpec(lines).Ok? ==>
      var rows := ParseAll(lines, true).value;
      var s := IndividualSpec(lines).value;
      && s.lines == |lines|
      && s.dataPoints == |DataIds(rows)|
      && Distinct(s.triples)
      && (forall t :: t in s.triples <==> exists i :: 0 <= i < |rows| && t == TripleOf(rows[i]))
  {
    var p := ParseAll(lines, true);
    if p.Ok? {
      var rows := p.value;
      DataOrderIds(rows);
      TriplesOfRows(rows);
      BalancedInOrder(rows);
    }
  }

  /** The triples of an accepted individual file come in the order of the
      lines they first occur on, as the keys of `annotator_triples` do. */
  lemma IndividualTriplesOrder(lines: seq<string>)
    ensures IndividualSpec(lines).Ok? ==>
      var ts := TripleSeq(ParseAll(lines, true).value);
      var triples := IndividualSpec(lines).value.triples;
      && triples == Dedup(ts)
      && forall i, j :: 0 <= i < j < |triples| ==> FirstIndex(ts, triples[i]) < FirstIndex(ts, triples[j])
  {
    if IndividualSpec(lines).Ok? {
      var rows := ParseAll(lines, true).value;
      assert IndividualSpec(lines).value == SummaryOf(rows);
      TriplesOfRows(rows);
    }
  }

  /** The label counts of an accepted file add up to its number of lines:
      every line is counted under exactly one label. */
  lemma LabelCountsTotal(rows: seq<Row>)
    ensures var cats := Dedup(LabelSeq(rows));
      && (forall l :: l in LabelCounts(rows) <==> l in cats)
      && SumNat(seq(|cats|, j requires 0 <= j < |cats| => LabelCounts(rows)[cats[j]])) == |rows|
  {
    var ls := LabelSeq(rows);
    var cats := Dedup(ls);
    forall l ensures l in Labels(rows) <==> l in ls {
      if l in Labels(rows) {
        var r :| r in rows && r.category == l;
        var i :| 0 <= i < |rows| && rows[i] == r;
        assert ls[i] == l;
      }
      if l in ls {
        var i :| 0 <= i < |ls| && ls[i] == l;
        assert rows[i] in rows;
      }
    }
    forall j | 0 <= j < |cats| ensures LabelCounts(rows)[cats[j]] == CountVector(ls, cats)[j] {
      assert cats[j] in ls;
    }
    assert seq(|cats|, j requires 0 <= j < |cats| => LabelCounts(rows)[cats[j]]) == CountVector(ls, cats);
    CountVectorSum(ls, cats);
  }
}
