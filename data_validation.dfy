/** `DataValidation.__init__`: the adjudicated file is checked for 1000
    distinct data points, the individual file is checked and yields its
    triples, and Fleiss' kappa is computed over them. The report file the
    constructor truncates and appends to is replaced by the returned values. */
module DataValidation {
  import opened Results
  import opened Collections
  import opened Validation
  import opened Agreement

  /** The `min_count` the constructor passes to `check_file`. */
  const AdjudicatedMinimum: int := 1000

  /** What the three checks report when all of them pass. */
  datatype Outcome = Outcome(adjudicatedIds: nat, summary: Summary, report: Report)

  /** Which of the three calls raised. */
  datatype RunError =
    | AdjudicatedRejected(cause: ValidationError)
    | IndividualRejected(cause: ValidationError)
    | KappaFailed(failure: AgreementError)

  function RunSpec(adjudicated: seq<string>, individual: seq<string>): Result<Outcome, RunError>
  {
    match CheckFileSpec(adjudicated, AdjudicatedMinimum)
    case Err(e) => Err(AdjudicatedRejected(e))
    case Ok(n) =>
      match IndividualSpec(individual)
      case Err(e) => Err(IndividualRejected(e))
      case Ok(summary) =>
        match FleissSpec(summary.triples)
        case Err(e) => Err(KappaFailed(e))
        case Ok(report) => Ok(Outcome(n, summary, report))
  }

  method Run(adjudicated: seq<string>, individual: seq<string>) returns (r: Result<Outcome, RunError>)
    ensures r == RunSpec(adjudicated, individual)
  {
    var checked := CheckFile(adjudicated, AdjudicatedMinimum);
    if checked.Err? {
      return Err(AdjudicatedRejected(checked.error));
    }
    var summary := CheckIndividualFile(individual);
    if summary.Err? {
      return Err(IndividualRejected(summary.error));
    }
    var report := Fleiss(summary.value.triples);
    if report.Err? {
      return Err(KappaFailed(report.error));
    }
    r := Ok(Outcome(checked.value, summary.value, report.value));
  }

  /** Two rows of the data point `u` from its two distinct annotators. */
  lemma TwoRaters(rows: seq<Row>, u: string) returns (i1: nat, i2: nat)
    requires |Raters(rows, u)| == AnnotatorsPerItem
    ensures i1 < |rows| && i2 < |rows|
    ensures rows[i1].dataId == u && rows[i2].dataId == u
    ensures rows[i1].annotator != rows[i2].annotator
  {
    var raters := Raters(rows, u);
    var a1 :| a1 in raters;
    assert |raters - {a1}| == 1;
    var a2 :| a2 in raters - {a1};
    var r1 :| r1 in rows && r1.dataId == u && r1.annotator == a1;
    var r2 :| r2 in rows && r2.dataId == u && r2.annotator == a2;
    i1 :| i1 < |rows| && rows[i1] == r1;
    i2 :| i2 < |rows| && rows[i2] == r2;
  }

  /** The triples `ts` of accepted rows `rows` in which every data point
      has two annotators. */
  ghost predicate Balanced(rows: seq<Row>, ts: seq<Triple>)
  {
    && (forall k :: 0 <= k < |ts| ==> ts[k].item in DataIds(rows))
    && (forall i :: 0 <= i < |rows| ==> TripleOf(rows[i]) in ts)
    && (forall d :: d in DataIds(rows) ==> |Raters(rows, d)| == AnnotatorsPerItem)
  }

  /** The triples of an accepted file, against its rows. */
  lemma AcceptedTriples(lines: seq<string>)
    requires IndividualSpec(lines).Ok?
    ensures Balanced(ParseAll(lines, true).value, IndividualSpec(lines).value.triples)
    ensures |DataIds(ParseAll(lines, true).value)| >= IndividualMinimum
  {
    IndividualAccepts(lines);
    var rows := ParseAll(lines, true).value;
    var ts := IndividualSpec(lines).value.triples;
    forall k | 0 <= k < |ts| ensures ts[k].item in DataIds(rows) {
      assert ts[k] in ts;
      var i :| 0 <= i < |rows| && ts[k] == TripleOf(rows[i]);
      assert rows[i] in rows;
    }
  }

  lemma BalancedNonEmpty(rows: seq<Row>, ts: seq<Triple>)
    requires Balanced(rows, ts) && |DataIds(rows)| > 0
    ensures |ts| > 0
  {
    var d :| d in DataIds(rows);
    var r :| r in rows && r.dataId == d;
    var i :| 0 <= i < |rows| && rows[i] == r;
    assert TripleOf(rows[i]) in ts;
  }

  /** Every item of balanced triples has two of them, from its two distinct
      annotators. */
  lemma BalancedRated(rows: seq<Row>, ts: seq<Triple>)
    requires Balanced(rows, ts)
    ensures WellRated(ts)
  {
    forall u | u in TripleItems(ts) ensures ItemSize(ts, u) >= 2 {
      var k0 :| 0 <= k0 < |ts| && TripleItems(ts)[k0] == u;
      assert u in DataIds(rows);
      var i1, i2 := TwoRaters(rows, u);
      var k1 :| 0 <= k1 < |ts| && ts[k1] == TripleOf(rows[i1]);
      var k2 :| 0 <= k2 < |ts| && ts[k2] == TripleOf(rows[i2]);
      if k1 < k2 {
        ItemSizeTwo(ts, u, k1, k2);
      } else {
        ItemSizeTwo(ts, u, k2, k1);
      }
    }
  }

  /**
   * The triples of an accepted individual file never make `fleiss` fail its
   * assertion or take the mean of nothing: the only failure left is
   * `expected == 1`, which happens exactly when every annotation carries the
   * same label.
   */
  lemma AcceptedFleiss(lines: seq<string>)
    requires IndividualSpec(lines).Ok?
    ensures var ts := IndividualSpec(lines).value.triples;
      && |ts| > 0
      && WellRated(ts)
      && (FleissSpec(ts).Ok? <==> |Categories(ts)| >= 2)
      && (FleissSpec(ts).Err? ==> FleissSpec(ts).error.UndefinedKappa?)
  {
    var ts := IndividualSpec(lines).value.triples;
    var rows := ParseAll(lines, true).value;
    AcceptedTriples(lines);
    BalancedNonEmpty(rows, ts);
    BalancedRated(rows, ts);
    FleissOutcome(ts);
  }

  /**
   * When the constructor runs through, the adjudicated file has at least
   * 1000 distinct data points, the individual file at least 500, each with
   * two annotators, and the data file holds a kappa for at least two labels.
   */
  lemma RunAccepts(adjudicated: seq<string>, individual: seq<string>)
    ensures RunSpec(adjudicated, individual).Ok? <==>
      && CheckFileSpec(adjudicated, AdjudicatedMinimum).Ok?
      && IndividualSpec(individual).Ok?
      && |Categories(IndividualSpec(individual).value.triples)| >= 2
    ensures RunSpec(adjudicated, individual).Ok? ==>
      var o := RunSpec(adjudicated, individual).value;
      && o.adjudicatedIds >= 1000
      && o.summary.dataPoints >= IndividualMinimum
      && o.report.kappa <= 1.0
  {
    if CheckFileSpec(adjudicated, AdjudicatedMinimum).Ok? && IndividualSpec(individual).Ok? {
      AcceptedFleiss(individual);
      IndividualAccepts(individual);
      FleissOutcome(IndividualSpec(individual).value.triples);
    }
  }
}
