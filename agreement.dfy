/** `DataValidation.fleiss`: Fleiss' kappa over the `(annotator, item, label)`
    triples that `check_individual_file` returns. numpy's float arithmetic is
    modelled with `real`: every quantity is a ratio of counts, computed here
    exactly, and float64 rounding is not modelled. The two places where numpy
    yields NaN or infinity and the source carries on (the mean of no
    agreements, the kappa for `expected == 1`) and the assertion on an item's
    number of annotations are `Err` values here. */
module Agreement {
  import opened Results
  import opened Collections
  import opened Validation

  /** The three numbers the report prints. */
  datatype Report = Report(observed: real, expected: real, kappa: real)

  datatype AgreementError =
      /** The assertion on an item's number of annotations (at least two). */
    | InsufficientRaters(item: string, total: real)
      /** No items at all: the mean of an empty list of agreements is NaN. */
    | NoAnnotations
      /** `expected == 1`: the kappa's denominator `1 - expected` is zero. */
    | UndefinedKappa(observed: real, expected: real)

  // ---------------------------------------------------------------------------
  // The counts

  function TripleLabels(ts: seq<Triple>): (ls: seq<string>)
    ensures |ls| == |ts|
  {
    seq(|ts|, i requires 0 <= i < |ts| => ts[i].category)
  }

  function TripleItems(ts: seq<Triple>): (us: seq<string>)
    ensures |us| == |ts|
  {
    seq(|ts|, i requires 0 <= i < |ts| => ts[i].item)
  }

  /** The keys of `cats`, in index order: category `Categories(ts)[j]` gets index `j`. */
  function Categories(ts: seq<Triple>): seq<string>
  {
    Dedup(TripleLabels(ts))
  }

  /** The keys of `items`, in the order the item loop visits them. */
  function ItemOrder(ts: seq<Triple>): seq<string>
  {
    Dedup(TripleItems(ts))
  }

  /** How many of the triples `ts` give item `u` the label `l`. */
  function Votes(ts: seq<Triple>, u: string, l: string): nat
  {
    if |ts| == 0 then 0
    else
      var t := ts[|ts| - 1];
      Votes(ts[..|ts| - 1], u, l) + if t.item == u && t.category == l then 1 else 0
  }

  /** How many of the triples `ts` carry the label `l`. */
  function LabelVotes(ts: seq<Triple>, l: string): nat
  {
    if |ts| == 0 then 0
    else LabelVotes(ts[..|ts| - 1], l) + if ts[|ts| - 1].category == l then 1 else 0
  }

  /** How many of the triples `ts` are about item `u`. */
  function ItemSize(ts: seq<Triple>, u: string): nat
  {
    if |ts| == 0 then 0
    else ItemSize(ts[..|ts| - 1], u) + if ts[|ts| - 1].item == u then 1 else 0
  }

  /** How many triples of item `u` carry each of the categories `cats`. */
  function VoteVector(ts: seq<Triple>, u: string, cats: seq<string>): (v: seq<nat>)
    ensures |v| == |cats|
  {
    seq(|cats|, c requires 0 <= c < |cats| => Votes(ts, u, cats[c]))
  }

  /** How many triples carry each of the categories `cats`. */
  function LabelVector(ts: seq<Triple>, cats: seq<string>): (v: seq<nat>)
    ensures |v| == |cats|
  {
    seq(|cats|, c requires 0 <= c < |cats| => LabelVotes(ts, cats[c]))
  }

  /** `items[u]`: how many triples of item `u` carry each category. */
  function ItemCounts(ts: seq<Triple>, u: string): (v: seq<nat>)
    ensures |v| == |Categories(ts)|
  {
    VoteVector(ts, u, Categories(ts))
  }

  /** `ps` before normalisation: how many triples carry each category. */
  function CategoryCounts(ts: seq<Triple>): (v: seq<nat>)
    ensures |v| == |Categories(ts)|
  {
    LabelVector(ts, Categories(ts))
  }

  /** `np.sum(items[u])` */
  function ItemTotal(ts: seq<Triple>, u: string): nat
  {
    SumNat(ItemCounts(ts, u))
  }

  function Reals(v: seq<nat>): (r: seq<real>)
    ensures |r| == |v|
  {
    seq(|v|, j requires 0 <= j < |v| => v[j] as real)
  }

  /** `ps` after `ps /= np.sum(ps)`: the share of the triples in each category. */
  function Marginals(ts: seq<Triple>): (ps: seq<real>)
    ensures |ps| == |Categories(ts)|
  {
    var cats := Categories(ts);
    if |ts| == 0 then []
    else seq(|cats|, c requires 0 <= c < |cats| => LabelVotes(ts, cats[c]) as real / |ts| as real)
  }

  function SumSquares(s: seq<real>): real
  {
    if |s| == 0 then 0.0 else SumSquares(s[..|s| - 1]) + s[|s| - 1] * s[|s| - 1]
  }

  /** The chance agreement: the sum of the squared marginals. */
  function Expected(ts: seq<Triple>): real
  {
    SumSquares(Marginals(ts))
  }

  /** The number of ordered pairs of distinct annotations that agree: sum of c(c-1). */
  function PairSum(v: seq<nat>): nat
  {
    if |v| == 0 then 0
    else
      var c := v[|v| - 1];
      PairSum(v[..|v| - 1]) + if c == 0 then 0 else c * (c - 1)
  }

  /** One item's observed agreement: agreeing pairs over all pairs. */
  function PairAgreement(v: seq<nat>): real
    requires SumNat(v) >= 2
  {
    var t := SumNat(v);
    PairSum(v) as real / (t * (t - 1)) as real
  }

  /** The first item, in visiting order, with fewer than two annotations. */
  function FirstThin(ts: seq<Triple>, order: seq<string>): (r: Option<string>)
    ensures r.None? <==> forall k :: 0 <= k < |order| ==> ItemTotal(ts, order[k]) >= 2
    ensures r.Some? ==> r.value in order && ItemTotal(ts, r.value) < 2
  {
    if |order| == 0 then None
    else if ItemTotal(ts, order[0]) < 2 then Some(order[0])
    else
      assert forall k :: 1 <= k < |order| ==> order[1..][k - 1] == order[k];
      FirstThin(ts, order[1..])
  }

  lemma {:induction false} FirstThinAt(ts: seq<Triple>, order: seq<string>, k: nat)
    requires k < |order|
    requires forall j :: 0 <= j < k ==> ItemTotal(ts, order[j]) >= 2
    requires ItemTotal(ts, order[k]) < 2
    ensures FirstThin(ts, order) == Some(order[k])
    decreases k
  {
    if k > 0 {
      assert forall j :: 0 <= j < k - 1 ==> order[1..][j] == order[j + 1];
      FirstThinAt(ts, order[1..], k - 1);
    }
  }

  /** The `agreements` list for the items `order`. */
  function Agreements(ts: seq<Triple>, order: seq<string>): (r: seq<real>)
    requires forall k :: 0 <= k < |order| ==> ItemTotal(ts, order[k]) >= 2
    ensures |r| == |order|
  {
    if |order| == 0 then []
    else
      var u := order[|order| - 1];
      assert ItemTotal(ts, u) >= 2;
      Agreements(ts, order[..|order| - 1]) + [PairAgreement(ItemCounts(ts, u))]
  }

  /** `np.mean`, for a non-empty list. */
  function Mean(s: seq<real>): real
    requires |s| > 0
  {
    Sum(s) / |s| as real
  }

  /** The `agreements` list of `fleiss(ts)`, or the assertion that fails on
      the first item with fewer than two annotations. */
  function ObservedAgreements(ts: seq<Triple>): Result<seq<real>, AgreementError>
  {
    ObservedIn(ts, ItemOrder(ts))
  }

  /** The `agreements` loop over the items `order`. */
  function ObservedIn(ts: seq<Triple>, order: seq<string>): Result<seq<real>, AgreementError>
  {
    match FirstThin(ts, order)
    case Some(u) => Err(InsufficientRaters(u, ItemTotal(ts, u) as real))
    case None => Ok(Agreements(ts, order))
  }

  /** What `fleiss(ts)` computes: the first item with fewer than two
      annotations fails; with no item the mean is undefined; with
      `expected == 1` the kappa is; otherwise the report's three numbers. */
  function FleissSpec(ts: seq<Triple>): Result<Report, AgreementError>
  {
    match ObservedAgreements(ts)
    case Err(e) => Err(e)
    case Ok(agreements) =>
      if |agreements| == 0 then Err(NoAnnotations)
      else
        var observed := Mean(agreements);
        var expected := Expected(ts);
        if expected == 1.0 then Err(UndefinedKappa(observed, expected))
        else Ok(Report(observed, expected, Kappa(observed, expected)))
  }

  /** Fleiss' kappa from the observed and the expected agreement. */
  function Kappa(observed: real, expected: real): real
    requires expected != 1.0
  {
    (observed - expected) / (1.0 - expected)
  }

  // ---------------------------------------------------------------------------
  // Step lemmas for the loops

  lemma TriplesSnoc(ts: seq<Triple>, t: Triple)
    ensures TripleLabels(ts + [t]) == TripleLabels(ts) + [t.category]
    ensures TripleItems(ts + [t]) == TripleItems(ts) + [t.item]
  {
  }

  lemma TalliesSnoc(ts: seq<Triple>, t: Triple)
    ensures forall u, l :: Votes(ts + [t], u, l) == Votes(ts, u, l) + if t.item == u && t.category == l then 1 else 0
    ensures forall l :: LabelVotes(ts + [t], l) == LabelVotes(ts, l) + if t.category == l then 1 else 0
    ensures forall u :: ItemSize(ts + [t], u) == ItemSize(ts, u) + if t.item == u then 1 else 0
  {
    assert (ts + [t])[..|ts|] == ts;
  }

  /** An item not yet seen has no votes. */
  lemma {:induction false} VotesAbsent(ts: seq<Triple>, u: string, l: string)
    requires u !in TripleItems(ts)
    ensures Votes(ts, u, l) == 0
    decreases |ts|
  {
    if |ts| > 0 {
      var init := ts[..|ts| - 1];
      assert ts == init + [ts[|ts| - 1]];
      TriplesSnoc(init, ts[|ts| - 1]);
      TalliesSnoc(init, ts[|ts| - 1]);
      VotesAbsent(init, u, l);
    }
  }

  lemma {:induction false} SumReals(v: seq<nat>)
    ensures Sum(Reals(v)) == SumNat(v) as real
    decreases |v|
  {
    if |v| > 0 {
      assert Reals(v)[..|v| - 1] == Reals(v[..|v| - 1]);
      SumReals(v[..|v| - 1]);
    }
  }

  /** Every label of `ts` is one of `cats`. */
  ghost predicate Covers(cats: seq<string>, ts: seq<Triple>)
  {
    forall i :: 0 <= i < |ts| ==> ts[i].category in cats
  }

  /** One more triple of category `cats[j]` raises entry `j` of the label
      vector, and of its item's vote vector. */
  lemma VectorsSnoc(ts: seq<Triple>, t: Triple, cats: seq<string>, j: nat, u: string)
    requires Distinct(cats) && j < |cats| && cats[j] == t.category
    ensures var v := LabelVector(ts, cats); LabelVector(ts + [t], cats) == v[j := v[j] + 1]
    ensures var w := VoteVector(ts, u, cats);
      VoteVector(ts + [t], u, cats) == if t.item == u then w[j := w[j] + 1] else w
  {
    TalliesSnoc(ts, t);
  }

  /** The category counts add up to the number of triples. */
  lemma {:induction false} LabelVectorSum(ts: seq<Triple>, cats: seq<string>)
    requires Distinct(cats) && Covers(cats, ts)
    ensures SumNat(LabelVector(ts, cats)) == |ts|
    decreases |ts|
  {
    if |ts| == 0 {
      assert LabelVector(ts, cats) == seq(|cats|, _ => 0);
      SumZeros(|cats|);
    } else {
      var init := ts[..|ts| - 1];
      var t := ts[|ts| - 1];
      assert ts == init + [t];
      assert t.category in cats;
      var j := FirstIndex(cats, t.category);
      LabelVectorSum(init, cats);
      VectorsSnoc(init, t, cats, j, t.item);
      SumIncrement(LabelVector(init, cats), j);
    }
  }

  /** An item's counts add up to its number of triples. */
  lemma {:induction false} VoteVectorSum(ts: seq<Triple>, u: string, cats: seq<string>)
    requires Distinct(cats) && Covers(cats, ts)
    ensures SumNat(VoteVector(ts, u, cats)) == ItemSize(ts, u)
    decreases |ts|
  {
    if |ts| == 0 {
      assert VoteVector(ts, u, cats) == seq(|cats|, _ => 0);
      SumZeros(|cats|);
    } else {
      var init := ts[..|ts| - 1];
      var t := ts[|ts| - 1];
      assert ts == init + [t];
      assert t.category in cats;
      var j := FirstIndex(cats, t.category);
      VoteVectorSum(init, u, cats);
      VectorsSnoc(init, t, cats, j, u);
      TriplesSnoc(init, t);
      TalliesSnoc(init, t);
      if t.item == u {
        SumIncrement(VoteVector(init, u, cats), j);
      }
    }
  }

  lemma CategoriesCover(ts: seq<Triple>)
    ensures Covers(Categories(ts), ts)
  {
    assert forall i :: 0 <= i < |ts| ==> TripleLabels(ts)[i] == ts[i].category;
  }

  /** `np.sum(ps)` before normalisation is the number of triples. */
  lemma CategoryCountsSum(ts: seq<Triple>)
    ensures SumNat(CategoryCounts(ts)) == |ts|
  {
    CategoriesCover(ts);
    LabelVectorSum(ts, Categories(ts));
  }

  /** Each item's count vector adds up to its number of triples. */
  lemma ItemCountsSum(ts: seq<Triple>, u: string)
    ensures ItemTotal(ts, u) == ItemSize(ts, u)
  {
    CategoriesCover(ts);
    VoteVectorSum(ts, u, Categories(ts));
  }

  /** The `cats[label]` lookup: the category at that index is the label. */
  lemma CategoryIndex(cats: map<string, nat>, order: seq<string>, l: string)
    requires Distinct(order) && l in order
    requires forall j :: 0 <= j < |order| ==> order[j] in cats && cats[order[j]] == j
    ensures cats[l] < |order| && order[cats[l]] == l
  {
    var k := FirstIndex(order, l);
  }

  /** `cats` numbers the categories `order` by position. */
  ghost predicate Indexes(cats: map<string, nat>, order: seq<string>)
  {
    && (forall l :: l in cats <==> l in order)
    && |cats| == |order|
    && (forall j :: 0 <= j < |order| ==> order[j] in cats && cats[order[j]] == j)
  }

  /** A new label gets the next index. */
  lemma IndexesStep(cats: map<string, nat>, order: seq<string>, l: string)
    requires Indexes(cats, order) && l !in cats
    ensures Indexes(cats[l := |cats|], order + [l])
  {
    assert cats[l := |cats|].Keys == cats.Keys + {l};
  }

  /** One more triple keeps the category numbering in step with the first-seen order. */
  lemma CategoriesStep(ts: seq<Triple>, t: Triple, cats: map<string, nat>, order: seq<string>)
    requires order == Dedup(TripleLabels(ts)) && Indexes(cats, order)
    ensures t.category in cats ==> order == Dedup(TripleLabels(ts + [t]))
    ensures t.category !in cats ==>
      order + [t.category] == Dedup(TripleLabels(ts + [t])) && Indexes(cats[t.category := |cats|], order + [t.category])
  {
    TriplesSnoc(ts, t);
    DedupSnoc(TripleLabels(ts), t.category);
    if t.category !in cats {
      IndexesStep(cats, order, t.category);
    }
  }

  // ---------------------------------------------------------------------------
  // fleiss

  /** The first loop of `fleiss`: categories get the indices 0, 1, ... in
      first-seen order (`uid_id` and `uid_counts` are filled and never read). */
  method IndexCategories(triples: seq<Triple>) returns (cats: map<string, nat>)
    ensures forall l :: l in cats <==> l in Categories(triples)
    ensures |cats| == |Categories(triples)|
    ensures forall j :: 0 <= j < |Categories(triples)| ==>
      Categories(triples)[j] in cats && cats[Categories(triples)[j]] == j
  {
    cats := map[];
    var uidCounts: map<string, nat> := map[];
    var uidId: map<string, nat> := map[];
    ghost var order: seq<string> := [];
    ghost var seen: seq<Triple> := [];
    for i := 0 to |triples|
      invariant seen == triples[..i]
      invariant order == Dedup(TripleLabels(seen))
      invariant Indexes(cats, order)
    {
      var t := triples[i];
      CategoriesStep(seen, t, cats, order);
      if t.category !in cats {
        cats := cats[t.category := |cats|];
        order := order + [t.category];
        if t.item !in uidId {
          uidId := uidId[t.item := |uidId|];
        }
        uidCounts := uidCounts[t.item := (if t.item in uidCounts then uidCounts[t.item] else 0) + 1];
      }
      PrefixSnoc(triples, i);
      seen := seen + [t];
    }
    PrefixAll(triples);
  }

  /** The keys of `items`, in insertion order, after the triples `ts`. */
  ghost predicate ItemKeys(ts: seq<Triple>, items: map<string, seq<real>>, order: seq<string>)
  {
    && order == Dedup(TripleItems(ts))
    && (forall u :: u in items <==> u in order)
  }

  /** `items[u][c]` counts the triples of item `u` with category `cats[c]`. */
  ghost predicate ItemVotes(ts: seq<Triple>, cats: seq<string>, items: map<string, seq<real>>)
  {
    && (forall u :: u in items ==> |items[u]| == |cats|)
    && (forall u, c :: u in items && 0 <= c < |cats| ==> items[u][c] == Votes(ts, u, cats[c]) as real)
  }

  /** `items` after the triples `ts`, with `cats` the categories in index order. */
  ghost predicate Counted(ts: seq<Triple>, cats: seq<string>, items: map<string, seq<real>>,
                          order: seq<string>)
  {
    ItemKeys(ts, items, order) && ItemVotes(ts, cats, items)
  }

  /** `items` after `items.setdefault(u, np.zeros(ncats))[j] += 1`. */
  function Voted(items: map<string, seq<real>>, u: string, j: nat, ncats: nat): map<string, seq<real>>
    requires j < ncats && (u in items ==> |items[u]| == ncats)
  {
    var base := if u in items then items[u] else seq(ncats, _ => 0.0);
    items[u := base[j := base[j] + 1.0]]
  }

  lemma ItemKeysStep(ts: seq<Triple>, t: Triple, items: map<string, seq<real>>, order: seq<string>,
                     items': map<string, seq<real>>)
    requires ItemKeys(ts, items, order) && items'.Keys == items.Keys + {t.item}
    ensures ItemKeys(ts + [t], items', if t.item in items then order else order + [t.item])
  {
    TriplesSnoc(ts, t);
    DedupSnoc(TripleItems(ts), t.item);
  }

  lemma ItemVotesStep(ts: seq<Triple>, t: Triple, cats: seq<string>, j: nat,
                      items: map<string, seq<real>>, order: seq<string>)
    requires ItemKeys(ts, items, order) && ItemVotes(ts, cats, items)
    requires Distinct(cats) && j < |cats| && cats[j] == t.category
    ensures ItemVotes(ts + [t], cats, Voted(items, t.item, j, |cats|))
  {
    var items' := Voted(items, t.item, j, |cats|);
    TalliesSnoc(ts, t);
    if t.item !in items {
      forall c | 0 <= c < |cats| ensures Votes(ts, t.item, cats[c]) == 0 {
        VotesAbsent(ts, t.item, cats[c]);
      }
    }
    forall u, c | u in items' && 0 <= c < |cats|
      ensures items'[u][c] == Votes(ts + [t], u, cats[c]) as real
    {
      if u == t.item && c != j {
        assert cats[c] != t.category;
      }
    }
  }

  /** One more triple, of category `cats[j]`, raises the count of category `j` only. */
  lemma LabelVotesStep(ts: seq<Triple>, i: nat, cats: seq<string>, j: nat, c: nat)
    requires i < |ts| && Distinct(cats) && j < |cats| && c < |cats| && cats[j] == ts[i].category
    ensures LabelVotes(ts[..i + 1], cats[c]) == LabelVotes(ts[..i], cats[c]) + if c == j then 1 else 0
  {
    assert ts[..i + 1][..i] == ts[..i];
  }

  /** One more triple, whose category has index `j`, is counted for its item. */
  lemma CountedStep(ts: seq<Triple>, i: nat, cats: seq<string>, j: nat,
                    items: map<string, seq<real>>, order: seq<string>)
    requires i < |ts| && Counted(ts[..i], cats, items, order)
    requires Distinct(cats) && j < |cats| && cats[j] == ts[i].category
    ensures Counted(ts[..i + 1], cats, Voted(items, ts[i].item, j, |cats|),
                    if ts[i].item in items then order else order + [ts[i].item])
  {
    var t := ts[i];
    assert ts[..i + 1] == ts[..i] + [t];
    ItemKeysStep(ts[..i], t, items, order, Voted(items, t.item, j, |cats|));
    ItemVotesStep(ts[..i], t, cats, j, items, order);
  }

  /** After all the triples, `items` holds the count vectors. */
  lemma CountedAll(ts: seq<Triple>, items: map<string, seq<real>>, order: seq<string>)
    requires Counted(ts, Categories(ts), items, order)
    ensures order == ItemOrder(ts)
    ensures forall u :: u in items <==> u in order
    ensures forall u :: u in items ==> items[u] == Reals(ItemCounts(ts, u))
  {
    var cats := Categories(ts);
    forall u | u in items ensures items[u] == Reals(ItemCounts(ts, u)) {
      assert forall c :: 0 <= c < |cats| ==> items[u][c] == Votes(ts, u, cats[c]) as real;
    }
  }

  /** `items.setdefault(u, np.zeros(ncats))[j] += 1`, in the source's two steps. */
  method AddVote(items: map<string, seq<real>>, u: string, j: nat, ncats: nat)
    returns (items': map<string, seq<real>>)
    requires j < ncats && (u in items ==> |items[u]| == ncats)
    ensures items' == Voted(items, u, j, ncats)
  {
    items' := items;
    if u !in items' {
      items' := items'[u := seq(ncats, _ => 0.0)];
    }
    items' := items'[u := items'[u][j := items'[u][j] + 1.0]];
  }

  /** The category tallies `ps` hold the vote count of every category of `ts`. */
  ghost predicate LabelTallied(ts: seq<Triple>, cats: seq<string>, ps: seq<real>) {
    |ps| == |cats| && forall c :: 0 <= c < |cats| ==> ps[c] == LabelVotes(ts, cats[c]) as real
  }

  lemma LabelTalliedStep(ts: seq<Triple>, i: nat, cats: seq<string>, j: nat, ps: seq<real>)
    requires i < |ts| && j < |cats| && cats[j] == ts[i].category && Distinct(cats)
    requires LabelTallied(ts[..i], cats, ps)
    ensures LabelTallied(ts[..i + 1], cats, ps[j := ps[j] + 1.0])
  {
    forall c | 0 <= c < |cats| ensures ps[j := ps[j] + 1.0][c] == LabelVotes(ts[..i + 1], cats[c]) as real {
      LabelVotesStep(ts, i, cats, j, c);
    }
  }

  lemma LabelTalliedAll(ts: seq<Triple>, ps: seq<real>)
    requires LabelTallied(ts, Categories(ts), ps)
    ensures ps == Reals(CategoryCounts(ts))
  {
  }

  /** Once every triple is counted, the tallies are the counts of the triples. */
  lemma CountedFinal(ts: seq<Triple>, ps: seq<real>, items: map<string, seq<real>>, order: seq<string>)
    requires Counted(ts, Categories(ts), items, order) && LabelTallied(ts, Categories(ts), ps)
    ensures ps == Reals(CategoryCounts(ts))
    ensures order == ItemOrder(ts)
    ensures forall u :: u in items <==> u in order
    ensures forall u :: u in items ==> items[u] == Reals(ItemCounts(ts, u))
  {
    CountedAll(ts, items, order);
    LabelTalliedAll(ts, ps);
  }

  /** The second loop of `fleiss`: the per-item count vectors `items` (with
      their key order) and the overall category counts `ps`. */
  method CountAnnotations(triples: seq<Triple>, cats: map<string, nat>)
    returns (ps: seq<real>, items: map<string, seq<real>>, itemOrder: seq<string>)
    requires Indexes(cats, Categories(triples))
    ensures ps == Reals(CategoryCounts(triples))
    ensures itemOrder == ItemOrder(triples)
    ensures forall u :: u in items <==> u in itemOrder
    ensures forall u :: u in items ==> items[u] == Reals(ItemCounts(triples, u))
  {
    ghost var catOrder := Categories(triples);
    var ncats := |cats|;
    ps := seq(ncats, _ => 0.0);
    items := map[];
    itemOrder := [];
    for i := 0 to |triples|
      invariant Counted(triples[..i], catOrder, items, itemOrder)
      invariant LabelTallied(triples[..i], catOrder, ps)
    {
      var t := triples[i];
      assert t.category in TripleLabels(triples) by {
        assert TripleLabels(triples)[i] == t.category;
      }
      CategoryIndex(cats, catOrder, t.category);
      var j := cats[t.category];
      CountedStep(triples, i, catOrder, j, items, itemOrder);
      LabelTalliedStep(triples, i, catOrder, j, ps);
      if t.item !in items {
        itemOrder := itemOrder + [t.item];
      }
      items := AddVote(items, t.item, j, ncats);
      ps := ps[j := ps[j] + 1.0];
    }
    PrefixAll(triples);
    CountedFinal(triples, ps, items, itemOrder);
  }

  /** `c * (c - 1)` computed on floats is the integer product. */
  lemma PairTerm(c: nat)
    ensures (c as real) * (c as real - 1.0) == (if c == 0 then 0 else c * (c - 1)) as real
  {
  }

  /** One more category adds its `c * (c - 1)` to the running sum. */
  lemma PairSumStep(v: seq<nat>, i: nat)
    requires i < |v|
    ensures PairSum(v[..i + 1]) as real == PairSum(v[..i]) as real + (v[i] as real) * (v[i] as real - 1.0)
  {
    assert v[..i + 1][..i] == v[..i];
    PairTerm(v[i]);
  }

  /** The item's agreement computed on floats, as the source divides. */
  lemma PairAgreementFloat(v: seq<nat>, total: real)
    requires SumNat(v) >= 2 && total == SumNat(v) as real
    ensures total * (total - 1.0) != 0.0
    ensures PairAgreement(v) == PairSum(v) as real / (total * (total - 1.0))
  {
    FloatPairs(SumNat(v), total);
  }

  /** `total * (total - 1)` on floats, for a whole `total` of two or more. */
  lemma FloatPairs(t: nat, total: real)
    requires t >= 2 && total == t as real
    ensures total * (total - 1.0) == (t * (t - 1)) as real
    ensures t * (t - 1) >= 2
  {
    PairTerm(t);
    var a := t - 1;
    assert t * a == t + t * (a - 1);
    assert t * (a - 1) >= 0 by {
      if a - 1 > 0 { IntMulPos(t, a - 1); }
    }
  }

  lemma IntMulPos(a: int, b: int)
    requires a > 0 && b > 0
    ensures a * b > 0
  {
  }

  /** The inner loop of `fleiss` for one item: `summ` of `c * (c - 1)` over its counts. */
  method PairCount(counts: seq<real>, ghost v: seq<nat>) returns (summ: real)
    requires counts == Reals(v)
    ensures summ == PairSum(v) as real
  {
    summ := 0.0;
    for i := 0 to |counts|
      invariant summ == PairSum(v[..i]) as real
    {
      var c := counts[i];
      assert c == v[i] as real;
      PairSumStep(v, i);
      summ := summ + c * (c - 1.0);
    }
    PrefixAll(v);
  }

  /** One item's agreement: the pair count over `total * (total - 1)`. */
  method ItemAgreement(counts: seq<real>, total: real, ghost v: seq<nat>) returns (summ: real)
    requires counts == Reals(v) && total == SumNat(v) as real && SumNat(v) >= 2
    ensures summ == PairAgreement(v)
  {
    summ := PairCount(counts, v);
    PairAgreementFloat(v, total);
    summ := summ / (total * (total - 1.0));
  }

  lemma SquaresStep(ps: seq<real>, i: nat)
    requires i < |ps|
    ensures SumSquares(ps[..i + 1]) == SumSquares(ps[..i]) + ps[i] * ps[i]
  {
    assert ps[..i + 1][..i] == ps[..i];
  }

  /** The `expected` loop: the sum of the squares of `ps`. */
  method SquareSum(ps: seq<real>) returns (expected: real)
    ensures expected == SumSquares(ps)
  {
    expected := 0.0;
    for i := 0 to |ps|
      invariant expected == SumSquares(ps[..i])
    {
      SquaresStep(ps, i);
      expected := expected + ps[i] * ps[i];
    }
    PrefixAll(ps);
  }

  /** `ps / total`, element by element. */
  function Scale(ps: seq<real>, total: real): (r: seq<real>)
    requires total != 0.0
    ensures |r| == |ps|
  {
    seq(|ps|, j requires 0 <= j < |ps| => ps[j] / total)
  }

  /** `ps /= np.sum(ps)` turns the category tallies into the marginals. */
  lemma Normalised(ts: seq<Triple>, ps: seq<real>, total: real)
    requires ps == Reals(CategoryCounts(ts)) && total == |ts| as real
    ensures |ps| > 0 ==> total != 0.0 && Scale(ps, total) == Marginals(ts)
    ensures |ps| == 0 ==> Marginals(ts) == []
  {
    if |ts| == 0 {
      assert Categories(ts) == [];
    }
  }

  /** From the category tallies to `expected`: normalise, then sum the squares. */
  method ChanceAgreement(ps: seq<real>, ghost ts: seq<Triple>) returns (expected: real)
    requires ps == Reals(CategoryCounts(ts))
    ensures expected == Expected(ts)
  {
    var marginals := ps;
    var total := Sum(ps);
    SumReals(CategoryCounts(ts));
    CategoryCountsSum(ts);
    Normalised(ts, ps, total);
    if |ps| > 0 {
      marginals := Scale(ps, total);
    }
    expected := SquareSum(marginals);
  }

  /** The count vectors of the items `order`, in that order. */
  function CountsInOrder(ts: seq<Triple>, order: seq<string>): (vs: seq<seq<nat>>)
    ensures |vs| == |order|
  {
    seq(|order|, k requires 0 <= k < |order| => ItemCounts(ts, order[k]))
  }

  /**
   * The `agreements` loop from position `k` on, with the agreements `acc` of
   * the items before it: the first item with fewer than two annotations
   * fails, every other one adds its agreement.
   */
  function ObservedFrom(order: seq<string>, vs: seq<seq<nat>>, k: nat, acc: seq<real>)
    : Result<seq<real>, AgreementError>
    requires |vs| == |order| && k <= |order|
    decreases |order| - k
  {
    if k == |order| then Ok(acc)
    else if SumNat(vs[k]) < 2 then Err(InsufficientRaters(order[k], SumNat(vs[k]) as real))
    else ObservedFrom(order, vs, k + 1, acc + [PairAgreement(vs[k])])
  }

  /** One more item with two or more annotations extends the agreements. */
  lemma AgreementsStep(ts: seq<Triple>, order: seq<string>, k: nat)
    requires k < |order|
    requires forall m :: 0 <= m <= k ==> ItemTotal(ts, order[m]) >= 2
    ensures Agreements(ts, order[..k + 1]) == Agreements(ts, order[..k]) + [PairAgreement(ItemCounts(ts, order[k]))]
  {
    assert order[..k + 1][..k] == order[..k];
  }

  /** The loop, run on the items' count vectors, computes `ObservedIn`. */
  lemma {:induction false} ObservedFromIn(ts: seq<Triple>, order: seq<string>, k: nat, acc: seq<real>)
    requires k <= |order|
    requires forall m :: 0 <= m < k ==> ItemTotal(ts, order[m]) >= 2
    requires acc == Agreements(ts, order[..k])
    ensures ObservedFrom(order, CountsInOrder(ts, order), k, acc) == ObservedIn(ts, order)
    decreases |order| - k
  {
    var vs := CountsInOrder(ts, order);
    if k == |order| {
      PrefixAll(order);
    } else if SumNat(vs[k]) < 2 {
      FirstThinAt(ts, order, k);
    } else {
      AgreementsStep(ts, order, k);
      ObservedFromIn(ts, order, k + 1, acc + [PairAgreement(vs[k])]);
    }
  }

  /**
   * The `agreements` loop: the pairwise agreement of every item in order, or
   * the first item with fewer than two annotations. `vs` are the items'
   * counts as whole numbers.
   */
  method ItemAgreements(items: map<string, seq<real>>, itemOrder: seq<string>, ghost vs: seq<seq<nat>>)
    returns (r: Result<seq<real>, AgreementError>)
    requires |vs| == |itemOrder|
    requires forall k :: 0 <= k < |itemOrder| ==> itemOrder[k] in items && items[itemOrder[k]] == Reals(vs[k])
    ensures r == ObservedFrom(itemOrder, vs, 0, [])
  {
    var agreements: seq<real> := [];
    for k := 0 to |itemOrder|
      invariant ObservedFrom(itemOrder, vs, k, agreements) == ObservedFrom(itemOrder, vs, 0, [])
    {
      var item := itemOrder[k];
      var counts := items[item];
      var itemTotal := Sum(counts);
      SumReals(vs[k]);
      if itemTotal < 2.0 {
        return Err(InsufficientRaters(item, itemTotal));
      }
      var summ := ItemAgreement(counts, itemTotal, vs[k]);
      agreements := agreements + [summ];
    }
    r := Ok(agreements);
  }

  /** `DataValidation.fleiss`, returning what its report prints. */
  method Fleiss(triples: seq<Triple>) returns (r: Result<Report, AgreementError>)
    ensures r == FleissSpec(triples)
  {
    var cats := IndexCategories(triples);
    var ps, items, itemOrder := CountAnnotations(triples, cats);
    var expected := ChanceAgreement(ps, triples);
    ghost var vs := CountsInOrder(triples, itemOrder);
    var agreements := ItemAgreements(items, itemOrder, vs);
    ObservedFromIn(triples, itemOrder, 0, []);
    if agreements.Err? {
      return Err(agreements.error);
    }
    if |agreements.value| == 0 {
      return Err(NoAnnotations);
    }
    var observed := Mean(agreements.value);
    if expected == 1.0 {
      return Err(UndefinedKappa(observed, expected));
    }
    r := Ok(Report(observed, expected, Kappa(observed, expected)));
  }

  // ---------------------------------------------------------------------------
  // Arithmetic facts

  lemma MulPos(a: real, b: real)
    requires a > 0.0 && b > 0.0
    ensures a * b > 0.0
  {
  }

  /** Multiplying by a positive `d` preserves and reflects order and equality. */
  lemma MulCompare(a: real, b: real, d: real)
    requires d > 0.0
    ensures a < b <==> a * d < b * d
    ensures a == b <==> a * d == b * d
  {
    if a < b {
      MulPos(b - a, d);
      assert (b - a) * d == b * d - a * d;
    } else if b < a {
      MulPos(a - b, d);
      assert (a - b) * d == a * d - b * d;
    }
  }

  lemma DivPos(p: real, d: real)
    requires p > 0.0 && d > 0.0
    ensures p / d > 0.0
  {
    var q := p / d;
    assert q * d == p;
    assert 0.0 * d == 0.0;
    MulCompare(q, 0.0, d);
  }

  /** A ratio `p / d` of `0 <= p <= d` lies in [0, 1]. */
  lemma DivUnit(p: real, d: real)
    requires 0.0 <= p <= d && d > 0.0
    ensures 0.0 <= p / d <= 1.0
    ensures p > 0.0 ==> p / d > 0.0
    ensures p / d == 1.0 <==> p == d
  {
    var q := p / d;
    assert q * d == p;
    assert 1.0 * d == d;
    MulCompare(q, 1.0, d);
    if p > 0.0 {
      assert 0.0 * d == 0.0;
      MulCompare(0.0, q, d);
    } else {
      assert q == 0.0;
    }
  }

  lemma PairStep(s: int, x: int)
    requires s >= 0 && x >= 0
    ensures (s + x) * (s + x - 1) == s * (s - 1) + x * (x - 1) + 2 * (s * x)
    ensures s * x >= 0 && (s >= 1 && x >= 1 ==> s * x >= 1)
  {
  }

  // ---------------------------------------------------------------------------
  // What fleiss promises

  /** Dividing every entry by `d` divides the sum by `d`. */
  lemma {:induction false} SumScale(s: seq<real>, d: real)
    requires d != 0.0
    ensures Sum(Scale(s, d)) == Sum(s) / d
    decreases |s|
  {
    if |s| > 0 {
      var init := s[..|s| - 1];
      var x := s[|s| - 1];
      var t := Scale(s, d);
      assert t[..|t| - 1] == Scale(init, d);
      assert Sum(t) == Sum(Scale(init, d)) + x / d;
      SumScale(init, d);
      DivAdd(Sum(init), x, d);
    }
  }

  lemma DivAdd(a: real, b: real, d: real)
    requires d != 0.0
    ensures a / d + b / d == (a + b) / d
  {
  }

  /** A non-empty triple list has at least one category and one item. */
  lemma NonEmptyViews(ts: seq<Triple>)
    requires |ts| > 0
    ensures |Categories(ts)| > 0 && |ItemOrder(ts)| > 0
  {
    assert TripleLabels(ts)[0] in Categories(ts);
    assert TripleItems(ts)[0] in ItemOrder(ts);
  }

  /** After `ps /= np.sum(ps)` the marginals add up to one. */
  lemma MarginalsSum(ts: seq<Triple>)
    requires |ts| > 0
    ensures Sum(Marginals(ts)) == 1.0
  {
    var ps := Reals(CategoryCounts(ts));
    var n := |ts| as real;
    assert Marginals(ts) == Scale(ps, n) by {
      NonEmptyViews(ts);
      Normalised(ts, ps, n);
    }
    assert Sum(ps) == n by {
      SumReals(CategoryCounts(ts));
      CategoryCountsSum(ts);
    }
    SumScale(ps, n);
    DivUnit(n, n);
  }

  /** For positive entries the sum of squares is at most the square of the
      sum, with equality exactly when there is at most one entry. */
  lemma {:induction false} SquaresBound(p: seq<real>)
    requires forall j :: 0 <= j < |p| ==> p[j] > 0.0
    ensures |p| >= 1 ==> Sum(p) > 0.0
    ensures SumSquares(p) <= Sum(p) * Sum(p)
    ensures SumSquares(p) == Sum(p) * Sum(p) <==> |p| <= 1
    decreases |p|
  {
    if |p| > 0 {
      var w := p[..|p| - 1];
      var x := p[|p| - 1];
      var s := Sum(w);
      SquaresBound(w);
      assert Sum(p) == s + x && SumSquares(p) == SumSquares(w) + x * x;
      assert (s + x) * (s + x) == s * s + x * x + 2.0 * (s * x);
      if |w| > 0 {
        MulPos(s, x);
      } else {
        assert s == 0.0 && SumSquares(w) == 0.0;
      }
    }
  }

  /** A label that occurs in `ts` is counted at least once. */
  lemma {:induction false} LabelVotesPresent(ts: seq<Triple>, l: string)
    requires l in TripleLabels(ts)
    ensures LabelVotes(ts, l) >= 1
    decreases |ts|
  {
    var init := ts[..|ts| - 1];
    if ts[|ts| - 1].category != l {
      TriplesSnoc(init, ts[|ts| - 1]);
      assert ts == init + [ts[|ts| - 1]];
      LabelVotesPresent(init, l);
    }
  }

  /** Every category of a non-empty list has a positive share. */
  lemma MarginalsPositive(ts: seq<Triple>)
    requires |ts| > 0
    ensures forall c :: 0 <= c < |Marginals(ts)| ==> Marginals(ts)[c] > 0.0
  {
    var n := |ts| as real;
    forall c | 0 <= c < |Marginals(ts)| ensures Marginals(ts)[c] > 0.0 {
      var l := Categories(ts)[c];
      LabelVotesPresent(ts, l);
      DivPos(LabelVotes(ts, l) as real, n);
    }
  }

  /**
   * The chance agreement of a non-empty triple list is positive and at most
   * 1, and it is 1, so that the kappa's denominator vanishes, exactly when
   * every triple carries the same label.
   */
  lemma ExpectedRange(ts: seq<Triple>)
    requires |ts| > 0
    ensures Expected(ts) <= 1.0
    ensures Expected(ts) == 1.0 <==> |Categories(ts)| == 1
    ensures Expected(ts) > 0.0
  {
    NonEmptyViews(ts);
    MarginalsSum(ts);
    MarginalsPositive(ts);
    SquaresBound(Marginals(ts));
    SquaresPositive(Marginals(ts));
  }

  /** A non-empty list of positive entries has a positive sum of squares. */
  lemma {:induction false} SquaresPositive(s: seq<real>)
    requires |s| > 0
    requires forall c :: 0 <= c < |s| ==> s[c] > 0.0
    ensures SumSquares(s) > 0.0
    decreases |s|
  {
    var init := s[..|s| - 1];
    var x := s[|s| - 1];
    var rest := 0.0;
    if |init| > 0 {
      assert forall c :: 0 <= c < |init| ==> init[c] == s[c];
      SquaresPositive(init);
      rest := SumSquares(init);
    }
    calc {
      SumSquares(s);
    ==
      rest + x * x;
    >=
      x * x;
    > { MulPos(x, x); }
      0.0;
    }
  }


  lemma {:induction false} PairSumBound(v: seq<nat>)
    ensures PairSum(v) <= SumNat(v) * (SumNat(v) - 1)
    decreases |v|
  {
    if |v| > 0 {
      var w := v[..|v| - 1];
      var x := v[|v| - 1];
      var s := SumNat(w);
      PairSumBound(w);
      PairStep(s, x);
    }
  }

  /** An item's observed agreement lies in [0, 1]. */
  lemma PairAgreementRange(v: seq<nat>)
    requires SumNat(v) >= 2
    ensures 0.0 <= PairAgreement(v) <= 1.0
  {
    var t := SumNat(v);
    PairSumBound(v);
    PairStep(t - 2, 2);
    DivUnit(PairSum(v) as real, (t * (t - 1)) as real);
  }

  lemma {:induction false} AgreementsRange(ts: seq<Triple>, order: seq<string>)
    requires forall k :: 0 <= k < |order| ==> ItemTotal(ts, order[k]) >= 2
    ensures forall k :: 0 <= k < |order| ==> 0.0 <= Agreements(ts, order)[k] <= 1.0
    decreases |order|
  {
    if |order| > 0 {
      AgreementsRange(ts, order[..|order| - 1]);
      PairAgreementRange(ItemCounts(ts, order[|order| - 1]));
    }
  }

  lemma {:induction false} SumRange(s: seq<real>)
    requires forall k :: 0 <= k < |s| ==> 0.0 <= s[k] <= 1.0
    ensures 0.0 <= Sum(s) <= |s| as real
    decreases |s|
  {
    if |s| > 0 {
      SumRange(s[..|s| - 1]);
    }
  }

  /** The mean of agreements in [0, 1] lies in [0, 1]. */
  lemma MeanRange(s: seq<real>)
    requires |s| > 0
    requires forall k :: 0 <= k < |s| ==> 0.0 <= s[k] <= 1.0
    ensures 0.0 <= Mean(s) <= 1.0
  {
    SumRange(s);
  }

  /** `k` is the ratio `n / d` for a positive `d`. */
  lemma RatioFacts(k: real, d: real, n: real)
    requires d > 0.0 && k * d == n
    ensures k <= 1.0 <==> n <= d
    ensures k == 1.0 <==> n == d
    ensures k == 0.0 <==> n == 0.0
  {
    assert 1.0 * d == d && 0.0 * d == 0.0;
    MulCompare(k, 1.0, d);
    MulCompare(1.0, k, d);
    MulCompare(k, 0.0, d);
  }

  /**
   * Fleiss' kappa is at most 1, is 1 exactly for perfect observed agreement,
   * and is 0 exactly for chance-level agreement.
   */
  lemma KappaRange(observed: real, expected: real)
    requires 0.0 <= observed <= 1.0 && expected < 1.0
    ensures Kappa(observed, expected) <= 1.0
    ensures Kappa(observed, expected) == 1.0 <==> observed == 1.0
    ensures Kappa(observed, expected) == 0.0 <==> observed == expected
  {
    var d := 1.0 - expected;
    var k := Kappa(observed, expected);
    assert k * d == observed - expected;
    RatioFacts(k, d, observed - expected);
  }

  /** Seven triples on which kappa falls below -1: item `u` gets one "A" and
      one "B", item `v` five "A"s. The observed agreement is 1/2, the
      marginals are 6/7 and 1/7, so `expected` is 37/49 and kappa is -25/24. */
  const Skewed: seq<Triple> :=
    [Triple("a", "u", "A")] + [Triple("b", "u", "B")] + [Triple("c1", "v", "A")] +
    [Triple("c2", "v", "A")] + [Triple("c3", "v", "A")] + [Triple("c4", "v", "A")] +
    [Triple("c5", "v", "A")]

  /** The votes of `ts + [t]` that `Skewed` needs, from those of `ts`. */
  lemma SkewedVotesSnoc(ts: seq<Triple>, t: Triple)
    ensures Votes(ts + [t], "u", "A") == Votes(ts, "u", "A") + if t.item == "u" && t.category == "A" then 1 else 0
    ensures Votes(ts + [t], "u", "B") == Votes(ts, "u", "B") + if t.item == "u" && t.category == "B" then 1 else 0
    ensures Votes(ts + [t], "v", "A") == Votes(ts, "v", "A") + if t.item == "v" && t.category == "A" then 1 else 0
    ensures Votes(ts + [t], "v", "B") == Votes(ts, "v", "B") + if t.item == "v" && t.category == "B" then 1 else 0
  {
    assert (ts + [t])[..|ts|] == ts;
  }

  /** The label counts of `ts + [t]` that `Skewed` needs, from those of `ts`. */
  lemma SkewedLabelsSnoc(ts: seq<Triple>, t: Triple)
    ensures LabelVotes(ts + [t], "A") == LabelVotes(ts, "A") + if t.category == "A" then 1 else 0
    ensures LabelVotes(ts + [t], "B") == LabelVotes(ts, "B") + if t.category == "B" then 1 else 0
  {
    assert (ts + [t])[..|ts|] == ts;
  }

  /** The categories of `Skewed`, in first-seen order. */
  lemma SkewedCategories()
    ensures Categories(Skewed) == ["A", "B"]
  {
    var ab := seq(1, _ => "A") + seq(1, _ => "B");
    assert TripleLabels(Skewed) == ab + seq(5, _ => "A");
    DedupBlocks("A", 1, "B", 1);
    DedupRepeat(ab, "A", 5);
  }

  /** The items of `Skewed`, in first-seen order. */
  lemma SkewedItems()
    ensures ItemOrder(Skewed) == ["u", "v"]
  {
    assert TripleItems(Skewed) == seq(2, _ => "u") + seq(5, _ => "v");
    DedupBlocks("u", 2, "v", 5);
  }

  /** The votes per item of the first three triples of `Skewed`. */
  lemma SkewedVotesHead(p: seq<Triple>)
    requires p == [Triple("a", "u", "A")] + [Triple("b", "u", "B")] + [Triple("c1", "v", "A")]
    ensures Votes(p, "u", "A") == 1 && Votes(p, "u", "B") == 1
    ensures Votes(p, "v", "A") == 1 && Votes(p, "v", "B") == 0
  {
    var p0: seq<Triple> := [];
    var p1 := [Triple("a", "u", "A")];
    assert p1 == p0 + [Triple("a", "u", "A")];
    SkewedVotesSnoc(p0, Triple("a", "u", "A"));
    var p2 := p1 + [Triple("b", "u", "B")];
    SkewedVotesSnoc(p1, Triple("b", "u", "B"));
    SkewedVotesSnoc(p2, Triple("c1", "v", "A"));
  }

  /** The votes `fleiss` counts per item of `Skewed`. */
  lemma SkewedVotes()
    ensures Votes(Skewed, "u", "A") == 1 && Votes(Skewed, "u", "B") == 1
    ensures Votes(Skewed, "v", "A") == 5 && Votes(Skewed, "v", "B") == 0
  {
    var p3 := [Triple("a", "u", "A")] + [Triple("b", "u", "B")] + [Triple("c1", "v", "A")];
    SkewedVotesHead(p3);
    var p4 := p3 + [Triple("c2", "v", "A")];
    SkewedVotesSnoc(p3, Triple("c2", "v", "A"));
    var p5 := p4 + [Triple("c3", "v", "A")];
    SkewedVotesSnoc(p4, Triple("c3", "v", "A"));
    var p6 := p5 + [Triple("c4", "v", "A")];
    SkewedVotesSnoc(p5, Triple("c4", "v", "A"));
    SkewedVotesSnoc(p6, Triple("c5", "v", "A"));
  }

  /** The votes `fleiss` counts per label of `Skewed`. */
  lemma SkewedLabels()
    ensures LabelVotes(Skewed, "A") == 6 && LabelVotes(Skewed, "B") == 1
  {
    var p0: seq<Triple> := [];
    var p1 := [Triple("a", "u", "A")];
    assert p1 == p0 + [Triple("a", "u", "A")];
    SkewedLabelsSnoc(p0, Triple("a", "u", "A"));
    var p2 := p1 + [Triple("b", "u", "B")];
    SkewedLabelsSnoc(p1, Triple("b", "u", "B"));
    var p3 := p2 + [Triple("c1", "v", "A")];
    SkewedLabelsSnoc(p2, Triple("c1", "v", "A"));
    var p4 := p3 + [Triple("c2", "v", "A")];
    SkewedLabelsSnoc(p3, Triple("c2", "v", "A"));
    var p5 := p4 + [Triple("c3", "v", "A")];
    SkewedLabelsSnoc(p4, Triple("c3", "v", "A"));
    var p6 := p5 + [Triple("c4", "v", "A")];
    SkewedLabelsSnoc(p5, Triple("c4", "v", "A"));
    var ts := p6 + [Triple("c5", "v", "A")];
    SkewedLabelsSnoc(p6, Triple("c5", "v", "A"));
    assert ts == Skewed;
  }

  /** The sums of a two-entry count vector. */
  lemma CountPair(a: nat, b: nat)
    ensures SumNat([a, b]) == a + b
    ensures PairSum([a, b]) == (if a == 0 then 0 else a * (a - 1)) + (if b == 0 then 0 else b * (b - 1))
  {
    var v := [a, b];
    assert v[..|v| - 1] == [a];
    assert [a][..0] == [];
    assert SumNat([a]) == a && PairSum([a]) == if a == 0 then 0 else a * (a - 1);
  }

  /** The sums of a two-entry real vector. */
  lemma RealPair(x: real, y: real)
    ensures Sum([x, y]) == x + y
    ensures SumSquares([x, y]) == x * x + y * y
  {
    var v := [x, y];
    assert v[..|v| - 1] == [x];
    assert [x][..0] == [];
    assert Sum([x]) == x && SumSquares([x]) == x * x;
  }

  /** The marginals of `Skewed` and the chance agreement they give. */
  lemma SkewedExpected()
    ensures Marginals(Skewed) == [6.0 / 7.0, 1.0 / 7.0]
    ensures Expected(Skewed) == 37.0 / 49.0
  {
    SkewedCategories();
    SkewedLabels();
    assert Marginals(Skewed) == [6.0 / 7.0, 1.0 / 7.0];
    RealPair(6.0 / 7.0, 1.0 / 7.0);
  }

  /** The per-item agreements of `Skewed`: none for `u`, full for `v`. */
  lemma SkewedAgreements()
    ensures ItemTotal(Skewed, "u") == 2 && ItemTotal(Skewed, "v") == 5
    ensures Agreements(Skewed, ["u", "v"]) == [0.0, 1.0]
  {
    SkewedCategories();
    SkewedVotes();
    assert ItemCounts(Skewed, "u") == [1, 1];
    assert ItemCounts(Skewed, "v") == [5, 0];
    CountPair(1, 1);
    CountPair(5, 0);
    assert ["u", "v"][..1] == ["u"] && ["u"][..0] == [];
  }

  /** No item of `Skewed` is thin, so `fleiss` gets one agreement per item. */
  lemma SkewedObserved()
    ensures ObservedAgreements(Skewed) == Ok([0.0, 1.0])
  {
    SkewedItems();
    SkewedAgreements();
    assert FirstThin(Skewed, ["u", "v"]) == None;
  }

  /** Kappa has no lower bound of -1 on arbitrary triples. */
  lemma KappaBelowMinusOne()
    ensures FleissSpec(Skewed) == Ok(Report(0.5, 37.0 / 49.0, -25.0 / 24.0))
    ensures FleissSpec(Skewed).value.kappa < -1.0
  {
    SkewedObserved();
    SkewedExpected();
    RealPair(0.0, 1.0);
    assert Mean([0.0, 1.0]) == 0.5;
    assert Kappa(0.5, 37.0 / 49.0) == -25.0 / 24.0;
  }

  /** Every item of `ts` has at least two annotations. */
  ghost predicate WellRated(ts: seq<Triple>)
  {
    forall u :: u in TripleItems(ts) ==> ItemSize(ts, u) >= 2
  }

  /** An item that occurs in `ts` has at least one annotation. */
  lemma {:induction false} ItemSizePresent(ts: seq<Triple>, u: string)
    requires u in TripleItems(ts)
    ensures ItemSize(ts, u) >= 1
    decreases |ts|
  {
    var init := ts[..|ts| - 1];
    if ts[|ts| - 1].item != u {
      TriplesSnoc(init, ts[|ts| - 1]);
      assert ts == init + [ts[|ts| - 1]];
      ItemSizePresent(init, u);
    }
  }

  /** Two distinct triples of item `u` give it at least two annotations. */
  lemma {:induction false} ItemSizeTwo(ts: seq<Triple>, u: string, i: nat, j: nat)
    requires i < j < |ts| && ts[i].item == u && ts[j].item == u
    ensures ItemSize(ts, u) >= 2
    decreases |ts|
  {
    var init := ts[..|ts| - 1];
    TriplesSnoc(init, ts[|ts| - 1]);
    assert ts == init + [ts[|ts| - 1]];
    if j == |ts| - 1 {
      assert TripleItems(init)[i] == u;
      ItemSizePresent(init, u);
    } else {
      ItemSizeTwo(init, u, i, j);
    }
  }

  /**
   * The agreements loop fails exactly when some item has fewer than two
   * annotations; the item it names then has exactly one.
   */
  lemma ObservedOutcome(ts: seq<Triple>)
    ensures ObservedAgreements(ts).Err? <==> !WellRated(ts)
    ensures ObservedAgreements(ts).Err? ==>
      ObservedAgreements(ts).error.InsufficientRaters? &&
      ObservedAgreements(ts).error.item in TripleItems(ts) &&
      ItemSize(ts, ObservedAgreements(ts).error.item) == 1 &&
      ObservedAgreements(ts).error.total == 1.0
    ensures ObservedAgreements(ts).Ok? ==> |ObservedAgreements(ts).value| == |ItemOrder(ts)|
  {
    var order := ItemOrder(ts);
    forall k | 0 <= k < |order| ensures ItemTotal(ts, order[k]) == ItemSize(ts, order[k]) {
      ItemCountsSum(ts, order[k]);
    }
    match FirstThin(ts, order)
    case Some(u) =>
      ItemSizePresent(ts, u);
      ItemCountsSum(ts, u);
    case None =>
      forall u | u in TripleItems(ts) ensures ItemSize(ts, u) >= 2 {
        var k := FirstIndex(order, u);
      }
  }

  /**
   * The outcome of `fleiss`: an item with a single annotation fails the
   * assertion; an empty list has no mean; a list whose triples all carry
   * one label has `expected == 1` and no kappa; otherwise the report holds
   * an observed agreement in [0, 1], the chance agreement below 1 (the sum
   * of squared marginals, which add up to one) and a kappa at most 1, equal
   * to 1 exactly for perfect observed agreement.
   */
  lemma FleissOutcome(ts: seq<Triple>)
    ensures FleissSpec(ts).Err? && FleissSpec(ts).error.InsufficientRaters? <==> !WellRated(ts)
    ensures FleissSpec(ts) == Err(NoAnnotations) <==> |ts| == 0
    ensures FleissSpec(ts).Err? && FleissSpec(ts).error.UndefinedKappa? <==>
      |ts| > 0 && WellRated(ts) && |Categories(ts)| == 1
    ensures FleissSpec(ts).Ok? <==> WellRated(ts) && |Categories(ts)| >= 2
    ensures FleissSpec(ts).Ok? ==>
      var report := FleissSpec(ts).value;
      report.observed == Mean(Agreements(ts, ItemOrder(ts))) &&
      0.0 <= report.observed <= 1.0 &&
      report.expected == SumSquares(Marginals(ts)) && Sum(Marginals(ts)) == 1.0 &&
      0.0 < report.expected < 1.0 &&
      report.kappa == Kappa(report.observed, report.expected) &&
      report.kappa <= 1.0 && (report.kappa == 1.0 <==> report.observed == 1.0)
  {
    ObservedOutcome(ts);
    if |ts| == 0 {
      assert ItemOrder(ts) == [];
      assert WellRated(ts);
    } else {
      NonEmptyViews(ts);
      ExpectedRange(ts);
      if WellRated(ts) {
        var order := ItemOrder(ts);
        var agreements := Agreements(ts, order);
        assert ObservedAgreements(ts) == Ok(agreements);
        AgreementsRange(ts, order);
        MeanRange(agreements);
        MarginalsSum(ts);
        if Expected(ts) != 1.0 {
          KappaRange(Mean(agreements), Expected(ts));
        }
      }
    }
  }
}
