/** `DataHandler` of `get_data.py`: how the corpus of Reddit comments is
    numbered and split. The Reddit client is replaced by its answers: each
    submission comes with the comments that the random descent of
    `get_random_comment` lands on, in the order it lands on them, and the
    result of `random.sample` is an input of `assign_split`. */
module Corpus {
  import opened Results
  import opened Collections

  /** Bodies Reddit shows for comments that are gone. */
  const Removed: string := "[removed]"
  const Deleted: string := "[deleted]"
  /** `parent_id` prefixes: a submission (link) and a comment. */
  const LinkPrefix: string := "t3_"
  const CommentPrefix: string := "t1_"

  /** A comment as the descent finds it. `parentTitle` is the title of
      `comment.parent()` read as a submission, `parentBody` its body read as
      a comment. */
  datatype Comment = Comment(id: string, body: string, parentId: string,
                             parentTitle: string, parentBody: string)

  /** A top submission with the comments the random descent draws from it. */
  datatype Submission = Submission(id: string, title: string, draws: seq<Comment>)

  /** The dictionary `get_random_comment` returns. */
  datatype Pick = Pick(commentId: string, commentBody: string, commentParent: string)

  datatype Selection =
      /** `None`: the comment is removed, deleted or already seen. */
    | Skipped
    | Picked(pick: Pick)
      /** `NotSupportedError`: the parent id has neither known prefix. */
    | Unsupported(parentId: string)

  /** The `annotation_split` column: empty until `assign_split` writes it. */
  datatype Split = Unassigned | Exploration | Evaluation

  /** One row of the data frame, in the order of `DF_COLUMNS`. */
  datatype DataRow = DataRow(datapointId: int, submissionId: string, commentId: string,
                             submissionTitle: string, commentParent: string,
                             commentBody: string, annotationSplit: Split)

  datatype CorpusError =
      /** `N_COMMENTS // N_SUBMISSIONS` with no submissions. */
    | ZeroSubmissions
      /** The `NotSupportedError` of `get_random_comment`, which ends the run. */
    | UnsupportedParent(parentId: string)
      /** The draws of a submission ran out before its quota was met. */
    | DrawsExhausted(submissionId: string)

  // ---------------------------------------------------------------------------
  // COMMENTS_PER_SUBMISSION

  /** Python's `//`: the quotient rounded towards negative infinity. */
  function FloorDiv(a: int, b: int): (q: int)
    requires b != 0
    ensures b > 0 ==> q * b <= a < q * b + b
    ensures b < 0 ==> q * b >= a > q * b + b
  {
    if b > 0 then a / b else (-a) / (-b)
  }

  /** `self.N_COMMENTS // self.N_SUBMISSIONS`, with Python's
      `ZeroDivisionError` when there are no submissions. */
  function CommentsPerSubmission(comments: int, submissions: int): (r: Result<int, CorpusError>)
    ensures submissions == 0 <==> r == Err(ZeroSubmissions)
    ensures r.Ok? && submissions > 0 ==>
      r.value * submissions <= comments < (r.value + 1) * submissions
  {
    if submissions == 0 then Err(ZeroSubmissions) else Ok(FloorDiv(comments, submissions))
  }

  // ---------------------------------------------------------------------------
  // get_random_comment, once the comment is drawn

  predicate StartsWith(s: string, prefix: string)
  {
    |prefix| <= |s| && s[..|prefix|] == prefix
  }

  predicate IsMissing(c: Comment)
  {
    c.body == Removed || c.body == Deleted
  }

  /**
   * What `get_random_comment` makes of the comment its descent lands on: it
   * is skipped exactly when it is removed, deleted or seen; otherwise it is
   * kept with its id and body and the parent's title or body as its parent
   * id's prefix says, and any other prefix is an error.
   */
  function GetRandomComment(c: Comment, seen: set<string>): (r: Selection)
    ensures r == Skipped <==> IsMissing(c) || c.id in seen
    ensures r.Picked? ==>
      && r.pick.commentId == c.id && r.pick.commentBody == c.body
      && r.pick.commentBody != Removed && r.pick.commentBody != Deleted && c.id !in seen
      && (r.pick.commentParent == c.parentTitle || r.pick.commentParent == c.parentBody)
    ensures r.Picked? <==>
      !IsMissing(c) && c.id !in seen &&
      (StartsWith(c.parentId, LinkPrefix) || StartsWith(c.parentId, CommentPrefix))
    ensures r.Unsupported? ==> r.parentId == c.parentId
    ensures !IsMissing(c) && c.id !in seen && StartsWith(c.parentId, LinkPrefix) ==>
      r == Picked(Pick(c.id, c.body, c.parentTitle))
    ensures !IsMissing(c) && c.id !in seen && StartsWith(c.parentId, CommentPrefix) ==>
      r == Picked(Pick(c.id, c.body, c.parentBody))
  {
    if IsMissing(c) || c.id in seen then Skipped
    else if StartsWith(c.parentId, LinkPrefix) then Picked(Pick(c.id, c.body, c.parentTitle))
    else if StartsWith(c.parentId, CommentPrefix) then Picked(Pick(c.id, c.body, c.parentBody))
    else Unsupported(c.parentId)
  }

  /** `seen` is created empty for every submission and never added to, so
      the duplicate test never skips a comment. */
  lemma SeenNeverRejects(c: Comment)
    ensures GetRandomComment(c, {}) == Skipped <==> IsMissing(c)
  {
  }

  // ---------------------------------------------------------------------------
  // The row-building loop of get_comments

  /** The row `get_comments` appends for a kept comment. */
  function MakeRow(id: int, s: Submission, p: Pick): DataRow
  {
    DataRow(id, s.id, p.commentId, s.title, p.commentParent, p.commentBody, Unassigned)
  }

  /**
   * The inner `while` loop of `get_comments` from the draw `k` on, with the
   * rows `rows` already collected and `base` rows already in the frame.
   */
  function Collect(s: Submission, quota: int, base: int, k: nat, rows: seq<DataRow>)
    : Result<seq<DataRow>, CorpusError>
    decreases |s.draws| - k
  {
    if |rows| >= quota then Ok(rows)
    else if k >= |s.draws| then Err(DrawsExhausted(s.id))
    else match GetRandomComment(s.draws[k], {})
      case Skipped => Collect(s, quota, base, k + 1, rows)
      case Unsupported(p) => Err(UnsupportedParent(p))
      case Picked(p) => Collect(s, quota, base, k + 1, rows + [MakeRow(base + |rows|, s, p)])
  }

  /** The outer `for` loop of `get_comments` from submission `i` on, with the frame `df`. */
  function Harvest(subs: seq<Submission>, quota: int, i: nat, df: seq<DataRow>)
    : Result<seq<DataRow>, CorpusError>
    requires i <= |subs|
    decreases |subs| - i
  {
    if i == |subs| then Ok(df)
    else match Collect(subs[i], quota, |df|, 0, [])
      case Err(e) => Err(e)
      case Ok(rows) => Harvest(subs, quota, i + 1, df + rows)
  }

  /** What `get_comments(submissions)` returns, for the quota `quota`. */
  function CommentsSpec(subs: seq<Submission>, quota: int): Result<seq<DataRow>, CorpusError>
  {
    Harvest(subs, quota, 0, [])
  }

  method GetComments(subs: seq<Submission>, quota: int) returns (r: Result<seq<DataRow>, CorpusError>)
    ensures r == CommentsSpec(subs, quota)
  {
    var df: seq<DataRow> := [];
    for i := 0 to |subs|
      invariant Harvest(subs, quota, i, df) == CommentsSpec(subs, quota)
    {
      var s := subs[i];
      var rows: seq<DataRow> := [];
      var seen: set<string> := {};
      var k := 0;
      while |rows| < quota
        invariant k <= |s.draws|
        invariant Collect(s, quota, |df|, k, rows) == Collect(s, quota, |df|, 0, [])
        decreases |s.draws| - k
      {
        if k == |s.draws| {
          return Err(DrawsExhausted(s.id));
        }
        var row := GetRandomComment(s.draws[k], seen);
        k := k + 1;
        match row
        case Skipped =>
        case Unsupported(p) =>
          return Err(UnsupportedParent(p));
        case Picked(p) =>
          rows := rows + [MakeRow(|df| + |rows|, s, p)];
      }
      df := df + rows;
    }
    r := Ok(df);
  }

  /** Rows numbered `base`, `base + 1`, ... */
  ghost predicate Numbered(rows: seq<DataRow>, base: int)
  {
    forall j :: 0 <= j < |rows| ==> rows[j].datapointId == base + j
  }

  /**
   * A submission whose collection succeeds contributes exactly `quota` rows
   * (none for a quota of zero or less), numbered on from the frame, all from
   * this submission and from comments that are neither removed nor deleted.
   */
  lemma {:induction false} CollectRows(s: Submission, quota: int, base: int, k: nat, rows: seq<DataRow>)
    requires Collect(s, quota, base, k, rows).Ok?
    requires Numbered(rows, base)
    requires forall j :: 0 <= j < |rows| ==> rows[j].submissionId == s.id
    ensures var out := Collect(s, quota, base, k, rows).value;
      && |out| == (if |rows| >= quota then |rows| else quota)
      && out[..|rows|] == rows
      && Numbered(out, base)
      && (forall j :: 0 <= j < |out| ==> out[j].submissionId == s.id)
      && (forall j :: |rows| <= j < |out| ==>
            out[j].commentBody != Removed && out[j].commentBody != Deleted &&
            out[j].annotationSplit == Unassigned)
    decreases |s.draws| - k
  {
    if |rows| < quota {
      var c := s.draws[k];
      SeenNeverRejects(c);
      match GetRandomComment(c, {})
      case Skipped =>
        CollectRows(s, quota, base, k + 1, rows);
      case Picked(p) =>
        var rows' := rows + [MakeRow(base + |rows|, s, p)];
        CollectRows(s, quota, base, k + 1, rows');
        var out := Collect(s, quota, base, k + 1, rows').value;
        assert out[..|rows'|][..|rows|] == out[..|rows|];
    }
  }

  /**
   * When every submission meets its quota, the frame has `quota` rows per
   * submission and its `datapoint_id`s are 0, 1, 2, ... in append order.
   */
  lemma {:induction false} HarvestRows(subs: seq<Submission>, quota: int, i: nat, df: seq<DataRow>)
    requires i <= |subs|
    requires Harvest(subs, quota, i, df).Ok?
    requires Numbered(df, 0)
    ensures var out := Harvest(subs, quota, i, df).value;
      && |out| == |df| + (|subs| - i) * (if quota < 0 then 0 else quota)
      && out[..|df|] == df
      && Numbered(out, 0)
    decreases |subs| - i
  {
    if i < |subs| {
      var rows := Collect(subs[i], quota, |df|, 0, []).value;
      CollectRows(subs[i], quota, |df|, 0, []);
      var df' := df + rows;
      assert Numbered(df', 0) by {
        forall j | |df| <= j < |df'| ensures df'[j].datapointId == j {
          assert df'[j] == rows[j - |df|];
        }
      }
      HarvestRows(subs, quota, i + 1, df');
      var out := Harvest(subs, quota, i + 1, df').value;
      assert out[..|df'|][..|df|] == out[..|df|];
      var per := if quota < 0 then 0 else quota;
      assert |rows| == per;
      assert (|subs| - i) * per == per + (|subs| - (i + 1)) * per;
    }
  }

  /** The ids of the rows `get_comments` returns are exactly 0 .. n-1, all
      distinct, with `quota` rows per submission. */
  lemma CommentIds(subs: seq<Submission>, quota: int)
    requires CommentsSpec(subs, quota).Ok?
    ensures var df := CommentsSpec(subs, quota).value;
      && |df| == |subs| * (if quota < 0 then 0 else quota)
      && (forall j :: 0 <= j < |df| ==> df[j].datapointId == j)
      && (forall j, m :: 0 <= j < m < |df| ==> df[j].datapointId != df[m].datapointId)
  {
    HarvestRows(subs, quota, 0, []);
  }

  // ---------------------------------------------------------------------------
  // assign_split

  /** What `assign_split` leaves in the frame: row `i` gets "exploration"
      exactly when `i` is one of the sampled indices. */
  function Assigned(rows: seq<DataRow>, chosen: set<int>): (out: seq<DataRow>)
    ensures |out| == |rows|
  {
    seq(|rows|, i requires 0 <= i < |rows| =>
      rows[i].(annotationSplit := if i in chosen then Exploration else Evaluation))
  }

  method AssignSplit(df: array<DataRow>, sample: seq<int>)
    modifies df
    ensures df[..] == Assigned(old(df[..]), set x | x in sample)
  {
    var chosen := set x | x in sample;
    ghost var before := df[..];
    for i := 0 to df.Length
      invariant forall j :: 0 <= j < i ==> df[j] == Assigned(before, chosen)[j]
      invariant forall j :: i <= j < df.Length ==> df[j] == before[j]
    {
      var split := if i in chosen then Exploration else Evaluation;
      df[i] := df[i].(annotationSplit := split);
    }
    assert df[..] == Assigned(before, chosen);
  }

  ghost function Explored(rows: seq<DataRow>): set<int>
  {
    set i | 0 <= i < |rows| && rows[i].annotationSplit == Exploration
  }

  ghost function Evaluated(rows: seq<DataRow>): set<int>
  {
    set i | 0 <= i < |rows| && rows[i].annotationSplit == Evaluation
  }

  /** The positions 0 .. n-1. */
  function Indices(n: nat): (r: seq<int>)
    ensures |r| == n && Distinct(r)
    ensures forall i :: 0 <= i < n ==> r[i] == i
  {
    seq(n, i => i)
  }

  lemma IndicesMembers(n: nat)
    ensures forall x :: x in Indices(n) <==> 0 <= x < n
  {
    forall x | 0 <= x < n ensures x in Indices(n) {
      assert Indices(n)[x] == x;
    }
  }

  /**
   * Every row keeps its other columns and gets exactly one of the two
   * splits, "exploration" exactly for the sampled indices; with `random.sample`'s `len // 2` distinct indices
   * in range, half the rows (rounded down) explore and the rest evaluate.
   */
  lemma SplitCounts(rows: seq<DataRow>, sample: seq<int>)
    requires Distinct(sample)
    requires forall k :: 0 <= k < |sample| ==> 0 <= sample[k] < |rows|
    ensures var out := Assigned(rows, set x | x in sample);
      && (forall i :: 0 <= i < |out| ==>
            out[i].(annotationSplit := Unassigned) == rows[i].(annotationSplit := Unassigned))
      && (forall i :: 0 <= i < |out| ==> (out[i].annotationSplit == Exploration <==> i in sample))
      && (forall i :: 0 <= i < |out| ==> (out[i].annotationSplit == Evaluation <==> i !in sample))
      && Explored(out) == (set x | x in sample)
      && |Explored(out)| == |sample|
      && |Evaluated(out)| == |rows| - |sample|
      && Explored(out) !! Evaluated(out)
    ensures |sample| == |rows| / 2 ==>
      var out := Assigned(rows, set x | x in sample);
      |Explored(out)| == |rows| / 2 && |Evaluated(out)| == |rows| - |rows| / 2
  {
    var chosen := set x | x in sample;
    var out := Assigned(rows, chosen);
    var all := set x | x in Indices(|rows|);
    IndicesMembers(|rows|);
    assert Explored(out) == chosen;
    assert Evaluated(out) == all - chosen;
    DistinctCard(sample);
    DistinctCard(Indices(|rows|));
    assert chosen <= all;
    assert |all - chosen| == |all| - |chosen|;
  }
}
