/** One run of the evaluator script, top to bottom: validate the sheet, create
    the score store if the session has none, pass over the rating form, and,
    when the form was submitted, total and rank the opportunities. */
module Evaluator {
  import opened Dataset
  import opened Scores
  import opened Ranking

  datatype Option<T> = None | Some(value: T)

  /** What a run shows: either the reason the sheet was refused, or the
      rating form with, after a submission, the ranked results table. */
  datatype Page =
    | Stopped(error: DatasetError)
    | RatingForm(extracted: Extracted, results: Option<seq<ScoreRow>>)

  /** The store a run starts its form pass from: the session's store if it
      exists, the freshly filled one otherwise. */
  function StoreBeforeForm(created: bool, scores: map<string, int>, e: Extracted): map<string, int>
  {
    if created then scores else InitialScores(e.opportunities, e.differentiators)
  }

  /** What the results table shows: one row per opportunity, ranked by
      total, each total the sum of the opportunity's stored ratings and within
      [n, 5n] for n differentiators. */
  ghost predicate ResultsTable(ranked: seq<ScoreRow>, scores: map<string, int>, e: Extracted)
  {
    var n := |e.differentiators|;
    && |ranked| == |e.opportunities|
    && (forall o :: o in Opportunities(ranked) <==> o in e.opportunities)
    && (forall i, j :: 0 <= i < j < |ranked| ==> ranked[i].opportunity != ranked[j].opportunity)
    && NonIncreasing(ranked)
    && (forall r :: r in ranked ==> r.total == Total(scores, r.opportunity, e.differentiators))
    && (forall r :: r in ranked ==> MinRating * n <= r.total <= MaxRating * n)
  }

  /** Whatever order the sort gives rows with equal totals, a ranking of the
      totals of distinct opportunities, each total within [n, 5n], is a
      results table. */
  lemma RankingIsResultsTable(scores: map<string, int>, e: Extracted, rows: seq<ScoreRow>, ranked: seq<ScoreRow>)
    requires NoDuplicates(e.opportunities)
    requires |rows| == |e.opportunities|
    requires forall i :: 0 <= i < |rows| ==>
      rows[i] == ScoreRow(e.opportunities[i], Total(scores, e.opportunities[i], e.differentiators))
    requires forall o :: o in e.opportunities ==>
      MinRating * |e.differentiators| <= Total(scores, o, e.differentiators) <= MaxRating * |e.differentiators|
    requires IsRanking(rows, ranked)
    ensures ResultsTable(ranked, scores, e)
  {
    assert Opportunities(rows) == e.opportunities;
    OneRowPerOpportunity(rows, ranked);
    forall r | r in ranked
      ensures r.total == Total(scores, r.opportunity, e.differentiators)
      ensures MinRating * |e.differentiators| <= r.total <= MaxRating * |e.differentiators|
    {
      assert r in multiset(rows);
      var k :| 0 <= k < |rows| && rows[k] == r;
      assert e.opportunities[k] in e.opportunities;
    }
  }

  /** One run of the script against the session's store. A refused sheet
      stops the run before the store is touched; otherwise the store is
      created if missing, every slider is written, and a submission yields
      the ranked results table. */
  method Run(store: ScoreStore, t: Table, slider: (string, int) -> int, submitted: bool) returns (page: Page)
    requires Rectangular(t) && store.Valid() && SliderInRange(slider)
    modifies store
    ensures store.Valid()
    ensures Validate(t).Err? ==>
      page == Stopped(Validate(t).error) && store.created == old(store.created) && store.scores == old(store.scores)
    ensures Validate(t).Ok? ==>
      var e := Validate(t).value;
      && page.RatingForm? && page.extracted == e && store.created
      && store.scores == Written(StoreBeforeForm(old(store.created), old(store.scores), e),
                                 PairKeys(e.opportunities, e.differentiators), slider)
      && (page.results.Some? <==> submitted)
    ensures page.RatingForm? && page.results.Some? ==> ResultsTable(page.results.value, store.scores, page.extracted)
  {
    var checked := Validate(t);
    if checked.Err? {
      return Stopped(checked.error);
    }
    var e := checked.value;
    var opportunities, differentiators := e.opportunities, e.differentiators;
    store.InitialiseOnce(opportunities, differentiators);
    ghost var before := store.scores;
    store.FormPass(opportunities, differentiators, slider);
    if !submitted {
      return RatingForm(e, None);
    }
    var rows := store.Totals(opportunities, differentiators);
    var ranked := Rank(rows);
    TotalsInRangeAfterFormPass(before, opportunities, differentiators, slider);
    RankingIsResultsTable(store.scores, e, rows, ranked);
    return RatingForm(e, Some(ranked));
  }
}
