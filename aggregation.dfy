/** The result view (lib/get-aggregated-results.ts): one row per
    (question, model) pair of a status snapshot, with visibility, the rounded
    mean mention position, a "visible/total" runs label, the successful answer
    texts and the failure count. The model roster is a parameter. */
module Aggregation {
  import opened Wrappers
  import opened Seqs
  import opened Text
  import opened Records

  /** `AggregatedResult`. */
  datatype AggregatedResult = AggregatedResult(
    model: string,
    question: string,
    visible: bool,
    position: Option<int>,
    runs: string,
    answers: seq<string>,
    failedCount: nat)

  /** The records of one (question, model) pair. */
  function ForPair(questionId: string, modelId: string): VisibilityAnswer -> bool {
    (a: VisibilityAnswer) => a.questionId == questionId && a.model == modelId
  }

  /** `a.mentioned && a.position !== null`: an absent position passes. */
  predicate HasPosition(a: VisibilityAnswer) { a.mentioned && a.position != NullPosition }

  function AnswerText(a: VisibilityAnswer): string { a.answer }

  /** `a.position || 0`. */
  function PositionValue(p: Position): int {
    match p
    case Rank(n) => n
    case _ => 0
  }

  /** The `reduce` that adds up the positions. */
  function PositionSum(xs: seq<VisibilityAnswer>): int {
    if |xs| == 0 then 0 else PositionValue(xs[0].position) + PositionSum(xs[1..])
  }

  /** `Math.round(sum / n)` for integers: the integer nearest to the mean,
      halves rounded up. */
  function RoundHalfUp(sum: int, n: nat): (r: int)
    requires n > 0
    ensures n * (2 * r - 1) <= 2 * sum < n * (2 * r + 1)
  {
    var r := (2 * sum + n) / (2 * n);
    assert 2 * n * r <= 2 * sum + n < 2 * n * r + 2 * n;
    r
  }

  /** `${visibleCount}/${totalRuns}`. */
  function RunsLabel(visible: nat, total: nat): string {
    NatToString(visible) + "/" + NatToString(total)
  }

  /** The runs label holds exactly one "/", whose two sides read back as the
      visible count and the total. */
  lemma RunsLabelParts(visible: nat, total: nat)
    ensures var shown := RunsLabel(visible, total);
      var k := |NatToString(visible)|;
      && k < |shown| && shown[k] == '/'
      && (forall i :: 0 <= i < |shown| && i != k ==> shown[i] != '/')
      && IsDigits(shown[..k]) && ParseNat(shown[..k]) == visible
      && IsDigits(shown[k + 1..]) && ParseNat(shown[k + 1..]) == total
  {
    var shown := RunsLabel(visible, total);
    var k := |NatToString(visible)|;
    assert shown[..k] == NatToString(visible);
    assert shown[k + 1..] == NatToString(total);
    ParseNatToString(visible);
    ParseNatToString(total);
    forall i | 0 <= i < |shown| && i != k
      ensures shown[i] != '/'
    {
      if i < k {
        assert shown[i] == NatToString(visible)[i];
      } else {
        assert shown[i] == NatToString(total)[i - k - 1];
      }
    }
  }

  /** The mean position over the records that count for it, rounded half
      up, or null when none does. */
  function MeanPosition(withPosition: seq<VisibilityAnswer>): (r: Option<int>)
    ensures r.Some? <==> |withPosition| > 0
    ensures r.Some? ==> var n := |withPosition|;
      n * (2 * r.value - 1) <= 2 * PositionSum(withPosition) < n * (2 * r.value + 1)
  {
    if |withPosition| > 0 then Some(RoundHalfUp(PositionSum(withPosition), |withPosition|)) else None
  }

  /** The row built from the records of one pair. */
  function PairRow(model: string, question: string, modelAnswers: seq<VisibilityAnswer>): AggregatedResult {
    var successful := Filter(modelAnswers, Succeeded);
    var visibleCount := |Filter(successful, IsMentioned)|;
    AggregatedResult(model, question, visibleCount > 0, MeanPosition(Filter(successful, HasPosition)),
                     RunsLabel(visibleCount, |modelAnswers|), Map(successful, AnswerText),
                     |Filter(modelAnswers, HasFailed)|)
  }

  /** The statistics of one (question, model) pair. */
  function AggregatePair(q: Question, m: ModelInfo, answers: seq<VisibilityAnswer>): AggregatedResult {
    PairRow(m.name, q.question, Filter(answers, ForPair(q.id, m.id)))
  }

  /** A pair is visible exactly when one of its successful records mentions
      the brand; a failed record never makes it visible. */
  lemma PairVisibleIff(q: Question, m: ModelInfo, answers: seq<VisibilityAnswer>)
    ensures AggregatePair(q, m, answers).visible <==>
              exists a :: a in answers && a.questionId == q.id && a.model == m.id && !a.failed && a.mentioned
  {
    var modelAnswers := Filter(answers, ForPair(q.id, m.id));
    var successful := Filter(modelAnswers, Succeeded);
    var mentioned := Filter(successful, IsMentioned);
    assert AggregatePair(q, m, answers).visible == (|mentioned| > 0);
    if exists a :: a in answers && a.questionId == q.id && a.model == m.id && !a.failed && a.mentioned {
      var a :| a in answers && a.questionId == q.id && a.model == m.id && !a.failed && a.mentioned;
      assert ForPair(q.id, m.id)(a);
      assert a in modelAnswers && Succeeded(a);
      assert a in successful && IsMentioned(a);
      assert a in mentioned;
    }
    if |mentioned| > 0 {
      var a := mentioned[0];
      assert a in successful && IsMentioned(a);
      assert a in modelAnswers && Succeeded(a);
      assert a in answers && ForPair(q.id, m.id)(a);
    }
  }

  /** Every record of the pair is either a failed one or a successful one
      whose text is listed, and the label counts all of them. */
  lemma PairCounts(q: Question, m: ModelInfo, answers: seq<VisibilityAnswer>)
    ensures var row := AggregatePair(q, m, answers);
      var modelAnswers := Filter(answers, ForPair(q.id, m.id));
      && row.failedCount + |row.answers| == |modelAnswers|
      && row.runs == RunsLabel(|Filter(Filter(modelAnswers, Succeeded), IsMentioned)|, |modelAnswers|)
      && row.model == m.name && row.question == q.question
  {
    var modelAnswers := Filter(answers, ForPair(q.id, m.id));
    FilterPartition(modelAnswers, HasFailed, Succeeded);
  }

  /** The listed texts are those of the pair's successful records, in order. */
  lemma PairTexts(q: Question, m: ModelInfo, answers: seq<VisibilityAnswer>)
    ensures var successful := Filter(Filter(answers, ForPair(q.id, m.id)), Succeeded);
      var row := AggregatePair(q, m, answers);
      && |row.answers| == |successful|
      && forall k :: 0 <= k < |successful| ==> row.answers[k] == successful[k].answer && !successful[k].failed
  {
  }

  /** The position is null exactly when no successful record of the pair
      mentions the brand with a non-null position. */
  lemma PairPositionNullIff(q: Question, m: ModelInfo, answers: seq<VisibilityAnswer>)
    ensures AggregatePair(q, m, answers).position.None? <==>
              !exists a :: a in answers && a.questionId == q.id && a.model == m.id && !a.failed
                           && a.mentioned && a.position != NullPosition
  {
  }

  /** The records that count for a pair's position: its successful records
      that mention the brand with a non-null position. */
  function PositionedRecords(q: Question, m: ModelInfo, answers: seq<VisibilityAnswer>): seq<VisibilityAnswer> {
    Filter(Filter(Filter(answers, ForPair(q.id, m.id)), Succeeded), HasPosition)
  }

  /** A pair's position is the rounded mean of its counted positions
      (see `MeanPosition`), and null exactly when nothing counts. */
  lemma PairPositionIsMean(q: Question, m: ModelInfo, answers: seq<VisibilityAnswer>)
    ensures AggregatePair(q, m, answers).position == MeanPosition(PositionedRecords(q, m, answers))
    ensures AggregatePair(q, m, answers).position.Some? <==> |PositionedRecords(q, m, answers)| > 0
  {
  }

  /** A pair all of whose records failed is invisible, has no position and no
      texts, and counts every record as failed. */
  lemma AllFailedPair(q: Question, m: ModelInfo, answers: seq<VisibilityAnswer>)
    requires forall a :: a in answers && a.questionId == q.id && a.model == m.id ==> a.failed
    ensures var row := AggregatePair(q, m, answers);
      var total := |Filter(answers, ForPair(q.id, m.id))|;
      && !row.visible && row.position.None? && row.answers == []
      && row.failedCount == total && row.runs == RunsLabel(0, total)
  {
    var modelAnswers := Filter(answers, ForPair(q.id, m.id));
    FilterNone(modelAnswers, Succeeded);
    FilterAll(modelAnswers, HasFailed);
    assert Filter(modelAnswers, Succeeded) == [];
    assert AggregatePair(q, m, answers) == PairRow(m.name, q.question, modelAnswers);
  }

  /** A pair without records still gets a row: invisible, no position,
      runs "0/0", nothing failed. */
  lemma EmptyPair(q: Question, m: ModelInfo, answers: seq<VisibilityAnswer>)
    requires forall a :: a in answers ==> !(a.questionId == q.id && a.model == m.id)
    ensures AggregatePair(q, m, answers) == AggregatedResult(m.name, q.question, false, None, "0/0", [], 0)
  {
  }

  function Mentioned(q: Question, m: ModelInfo, position: Position): VisibilityAnswer {
    VisibilityAnswer(q.id, m.id, 1, "an answer", true, position, 0, false, None)
  }

  lemma PositionSumOfTwo(a: VisibilityAnswer, b: VisibilityAnswer)
    ensures PositionSum([a, b]) == PositionValue(a.position) + PositionValue(b.position)
  {
    assert [a, b][1..] == [b];
    assert [b][1..] == [];
    assert PositionSum([b]) == PositionValue(b.position) + PositionSum([]);
  }

  /** Positions 2 and 4 and one answer without a mention: visible, position 3, runs "2/3". */
  lemma MeanOfTwoPositions(q: Question, m: ModelInfo)
    ensures var answers := [Mentioned(q, m, Rank(2)), Mentioned(q, m, Rank(4)),
                            VisibilityAnswer(q.id, m.id, 3, "another", false, NullPosition, 0, false, None)];
      var row := AggregatePair(q, m, answers);
      row.visible && row.position == Some(3) && row.runs == "2/3" && row.failedCount == 0
  {
    var two := [Mentioned(q, m, Rank(2)), Mentioned(q, m, Rank(4))];
    var other := [VisibilityAnswer(q.id, m.id, 3, "another", false, NullPosition, 0, false, None)];
    var answers := two + other;
    assert answers == [Mentioned(q, m, Rank(2)), Mentioned(q, m, Rank(4)),
                       VisibilityAnswer(q.id, m.id, 3, "another", false, NullPosition, 0, false, None)];
    FilterAll(answers, ForPair(q.id, m.id));
    FilterAll(answers, Succeeded);
    FilterNone(answers, HasFailed);
    MeanOfTwoCounted(two, other);
    assert AggregatePair(q, m, answers) == PairRow(m.name, q.question, answers);
  }

  lemma MeanOfTwoCounted(two: seq<VisibilityAnswer>, other: seq<VisibilityAnswer>)
    requires |two| == 2 && two[0].mentioned && two[1].mentioned
    requires two[0].position == Rank(2) && two[1].position == Rank(4)
    requires |other| == 1 && !other[0].mentioned
    ensures |Filter(two + other, IsMentioned)| == 2
    ensures MeanPosition(Filter(two + other, HasPosition)) == Some(3)
    ensures RunsLabel(2, 3) == "2/3"
  {
    FilterAppend(two, other, IsMentioned);
    FilterAll(two, IsMentioned);
    FilterNone(other, IsMentioned);
    FilterAppend(two, other, HasPosition);
    FilterAll(two, HasPosition);
    FilterNone(other, HasPosition);
    MeanOfRanks(two);
    RunsLabelTwoOfThree();
  }

  lemma MeanOfRanks(two: seq<VisibilityAnswer>)
    requires |two| == 2 && two[0].position == Rank(2) && two[1].position == Rank(4)
    ensures MeanPosition(two) == Some(3)
  {
    assert two == [two[0], two[1]];
    PositionSumOfTwo(two[0], two[1]);
    assert RoundHalfUp(6, 2) == 3;
  }

  lemma RunsLabelTwoOfThree()
    ensures RunsLabel(2, 3) == "2/3"
  {
  }

  /** A mentioning record whose detection left the position out is not
      filtered by `!== null` and adds 0 to the sum: positions 4 and absent
      average to 2. */
  lemma AbsentPositionCountsAsZero(q: Question, m: ModelInfo)
    ensures AggregatePair(q, m, [Mentioned(q, m, Rank(4)), Mentioned(q, m, Undefined)]).position == Some(2)
  {
    var answers := [Mentioned(q, m, Rank(4)), Mentioned(q, m, Undefined)];
    FilterAll(answers, ForPair(q.id, m.id));
    FilterAll(answers, Succeeded);
    FilterAll(answers, HasPosition);
    PositionSumOfTwo(answers[0], answers[1]);
    assert RoundHalfUp(4, 2) == 2;
    assert AggregatePair(q, m, answers) == PairRow(m.name, q.question, answers);
  }

  /** The rows for one question, in roster order. */
  function ModelRows(q: Question, models: seq<ModelInfo>, answers: seq<VisibilityAnswer>): (r: seq<AggregatedResult>)
    ensures |r| == |models|
  {
    seq(|models|, k requires 0 <= k < |models| => AggregatePair(q, models[k], answers))
  }

  /** The rows for a list of questions, question-major. */
  function Rows(qs: seq<Question>, models: seq<ModelInfo>, answers: seq<VisibilityAnswer>): seq<AggregatedResult> {
    if |qs| == 0 then [] else Rows(qs[..|qs| - 1], models, answers) + ModelRows(qs[|qs| - 1], models, answers)
  }

  /** The rows, question-major then model order, one per pair:
      row `i * |models| + j` aggregates question `i` with model `j`. */
  lemma {:induction false} RowsAt(qs: seq<Question>, models: seq<ModelInfo>, answers: seq<VisibilityAnswer>, i: nat, j: nat)
    requires i < |qs| && j < |models|
    ensures |Rows(qs, models, answers)| == |qs| * |models|
    ensures i * |models| + j < |qs| * |models|
    ensures Rows(qs, models, answers)[i * |models| + j] == AggregatePair(qs[i], models[j], answers)
  {
    var init := qs[..|qs| - 1];
    var n := |models|;
    RowsLength(qs, models, answers);
    RowsLength(init, models, answers);
    Slot(i, j, n, |qs|);
    if i < |qs| - 1 {
      Slot(i, j, n, |init|);
      RowsAt(init, models, answers, i, j);
      assert init[i] == qs[i];
    } else {
      assert i * n + j - |init| * n == j;
    }
  }

  /** Row `i * n + j` of `count` blocks of `n` rows lies in block `i`. */
  lemma Slot(i: nat, j: nat, n: nat, count: nat)
    requires i < count && j < n
    ensures count * n == (count - 1) * n + n
    ensures i * n + j < count * n
    ensures i < count - 1 ==> i * n + j < (count - 1) * n
    ensures i == count - 1 ==> i * n + j == (count - 1) * n + j
  {
    assert i * n + j < i * n + n == (i + 1) * n;
    assert (i + 1) * n <= count * n by {
      MulMonotone(i + 1, count, n);
    }
    if i < count - 1 {
      MulMonotone(i + 1, count - 1, n);
    }
  }

  lemma MulMonotone(a: nat, b: nat, n: nat)
    requires a <= b
    ensures a * n <= b * n
  {
  }

  lemma {:induction false} RowsLength(qs: seq<Question>, models: seq<ModelInfo>, answers: seq<VisibilityAnswer>)
    ensures |Rows(qs, models, answers)| == |qs| * |models|
  {
    if |qs| > 0 {
      RowsLength(qs[..|qs| - 1], models, answers);
      assert (|qs| - 1) * |models| + |models| == |qs| * |models|;
    }
  }

  /** `getAggregatedResults` as a specification: no rows without a status or
      without questions, the rows of every pair otherwise. */
  function AggregatedResults(status: Option<RunStatus>, models: seq<ModelInfo>): seq<AggregatedResult> {
    if status.None? || status.value.questions.None? then []
    else Rows(status.value.questions.value, models, status.value.answers)
  }

  /** The nested loops over the questions and the roster's models. */
  method GetAggregatedResults(status: Option<RunStatus>, models: seq<ModelInfo>) returns (results: seq<AggregatedResult>)
    ensures results == AggregatedResults(status, models)
  {
    if status.None? || status.value.questions.None? {
      return [];
    }
    var questions := status.value.questions.value;
    var answers := status.value.answers;
    results := [];
    var i := 0;
    while i < |questions|
      invariant 0 <= i <= |questions|
      invariant results == Rows(questions[..i], models, answers)
    {
      var question := questions[i];
      var j := 0;
      while j < |models|
        invariant 0 <= j <= |models|
        invariant results == Rows(questions[..i], models, answers) + ModelRows(question, models[..j], answers)
      {
        assert ModelRows(question, models[..j + 1], answers)
            == ModelRows(question, models[..j], answers) + [AggregatePair(question, models[j], answers)];
        results := results + [AggregatePair(question, models[j], answers)];
        j := j + 1;
      }
      assert models[..j] == models;
      assert questions[..i + 1][..i] == questions[..i];
      i := i + 1;
    }
    assert questions[..i] == questions;
  }

  /** No status, or a status without a question array, gives no rows; a
      snapshot with questions gives exactly |questions| * |models| rows. */
  lemma AggregatedResultsShape(status: Option<RunStatus>, models: seq<ModelInfo>)
    ensures status.None? || status.value.questions.None? ==> AggregatedResults(status, models) == []
    ensures status.Some? && status.value.questions.Some? ==>
              |AggregatedResults(status, models)| == |status.value.questions.value| * |models|
  {
    if status.Some? && status.value.questions.Some? {
      RowsLength(status.value.questions.value, models, status.value.answers);
    }
  }
}
