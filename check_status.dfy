/** The status route (app/api/check-status/route.ts): read a run's context,
    question set and answer records, keep the answer values that are objects,
    derive the workflow stage by an ordered precedence chain, and assemble the
    `RunStatus` snapshot. The store reads are an input. */
module CheckStatusRoute {
  import opened Wrappers
  import opened Seqs
  import opened Records
  import opened ProbeRecords

  /** The answer count the route treats as complete (hard-coded in the route). */
  const ExpectedAnswers: nat := 27

  /** A value `mget` returned for an answer key: `null` (the key vanished
      between listing and fetching), a non-object scalar with its JavaScript
      truthiness, or an object, which the route takes to be an answer record. */
  datatype RawValue = NullValue | Scalar(truthy: bool) | ObjectValue(answer: VisibilityAnswer)

  /** The value read under `<runId>:questions`: absent, an array, or some other
      value with its JavaScript truthiness. */
  datatype RawQuestions = NoQuestions | QuestionArray(items: seq<Question>) | NonArray(truthy: bool)

  /** Everything one status request reads from the store. */
  datatype StoreRead = StoreRead(context: Option<BrandContext>, questions: RawQuestions, values: seq<RawValue>)

  /** The route's error answers: 400 "Missing runId" and 500 "Failed to check status". */
  datatype StatusError = MissingRunId | ReadFailed

  /** A snapshot of how far a run has come, as far as the stage depends on it. */
  datatype Progress = Progress(contextPresent: bool, questionsPresent: bool, answerCount: nat)

  /** JavaScript truthiness of the questions value. */
  predicate QuestionsTruthy(q: RawQuestions) {
    match q
    case NoQuestions => false
    case QuestionArray(_) => true
    case NonArray(t) => t
  }

  /** `value && typeof value === "object"`. */
  predicate IsObject(v: RawValue) {
    v.ObjectValue?
  }

  /** The answer records among the fetched values, in fetch order. */
  function KeptAnswers(values: seq<RawValue>): (r: seq<VisibilityAnswer>)
    ensures |r| <= |values|
    ensures forall a :: a in r <==> ObjectValue(a) in values
  {
    if |values| == 0 then []
    else (if IsObject(values[0]) then [values[0].answer] else []) + KeptAnswers(values[1..])
  }

  /** Keeping distributes over concatenation, so the kept records appear in
      the order their values were fetched. */
  lemma {:induction false} KeptAnswersAppend(xs: seq<RawValue>, ys: seq<RawValue>)
    ensures KeptAnswers(xs + ys) == KeptAnswers(xs) + KeptAnswers(ys)
  {
    if |xs| == 0 {
      assert xs + ys == ys;
    } else {
      assert (xs + ys)[1..] == xs[1..] + ys;
      KeptAnswersAppend(xs[1..], ys);
    }
  }

  /** The loop over the fetched values: push every value that is an object. */
  method CollectAnswers(values: seq<RawValue>) returns (answers: seq<VisibilityAnswer>)
    ensures answers == KeptAnswers(values)
  {
    answers := [];
    var i := 0;
    while i < |values|
      invariant 0 <= i <= |values|
      invariant answers == KeptAnswers(values[..i])
    {
      var value := values[i];
      KeptAnswersAppend(values[..i], [value]);
      assert values[..i + 1] == values[..i] + [value];
      if IsObject(value) {
        answers := answers + [value.answer];
      }
      i := i + 1;
    }
    assert values[..i] == values;
  }

  /** The stage, by the route's precedence: context without questions, then
      questions without answers, then some but fewer than expected answers,
      then exactly the expected number, and pending otherwise. */
  function DeriveStage(p: Progress): (r: Stage)
    ensures r != Failed
  {
    if p.contextPresent && !p.questionsPresent then Context
    else if p.questionsPresent && p.answerCount == 0 then Questions
    else if 0 < p.answerCount < ExpectedAnswers then Checking
    else if p.answerCount == ExpectedAnswers then Complete
    else Pending
  }

  /** The precedence chain flattened into one independent condition per stage. */
  lemma StageTable(p: Progress)
    ensures DeriveStage(p) == Context <==> p.contextPresent && !p.questionsPresent
    ensures DeriveStage(p) == Questions <==> p.questionsPresent && p.answerCount == 0
    ensures DeriveStage(p) == Checking <==>
              !(p.contextPresent && !p.questionsPresent) && 0 < p.answerCount < ExpectedAnswers
    ensures DeriveStage(p) == Complete <==>
              !(p.contextPresent && !p.questionsPresent) && p.answerCount == ExpectedAnswers
    ensures DeriveStage(p) == Pending <==>
              (!p.contextPresent && !p.questionsPresent && p.answerCount == 0)
              || (!(p.contextPresent && !p.questionsPresent) && p.answerCount > ExpectedAnswers)
  {
  }

  /** The stage order pending < context < questions < checking < complete. */
  function Rank(s: Stage): nat {
    match s
    case Pending => 0
    case Context => 1
    case Questions => 2
    case Checking => 3
    case Complete => 4
    case Failed => 5
  }

  /** A snapshot the intended write order (context, then questions, then at
      most the expected number of answers) can produce. */
  predicate Reachable(p: Progress) {
    (p.questionsPresent ==> p.contextPresent)
    && (p.answerCount > 0 ==> p.questionsPresent)
    && p.answerCount <= ExpectedAnswers
  }

  /** `q` came from `p` by further writes: nothing retracted, answers only added. */
  predicate Grows(p: Progress, q: Progress) {
    (p.contextPresent ==> q.contextPresent)
    && (p.questionsPresent ==> q.questionsPresent)
    && p.answerCount <= q.answerCount
  }

  /** Along the intended write order the stage never goes back. */
  lemma StageMonotone(p: Progress, q: Progress)
    requires Reachable(p) && Reachable(q) && Grows(p, q)
    ensures Rank(DeriveStage(p)) <= Rank(DeriveStage(q))
  {
  }

  /** The same for every pair of snapshots of a growing sequence of reads. */
  lemma {:induction false} StageMonotoneAlong(trace: seq<Progress>, i: nat, j: nat)
    requires forall k :: 0 <= k < |trace| ==> Reachable(trace[k])
    requires forall k :: 0 <= k < |trace| - 1 ==> Grows(trace[k], trace[k + 1])
    requires i <= j < |trace|
    ensures Rank(DeriveStage(trace[i])) <= Rank(DeriveStage(trace[j]))
    decreases j - i
  {
    if i < j {
      StageMonotoneAlong(trace, i + 1, j);
      StageMonotone(trace[i], trace[i + 1]);
    }
  }

  /** The snapshot after the first `k` writes of the intended order: the
      context, the questions, then one answer per write. */
  function AfterWrites(k: nat): Progress {
    Progress(k >= 1, k >= 2, if k >= 2 then k - 2 else 0)
  }

  /** The intended write order walks through every stage once:
      pending, context, questions, checking (26 reads), complete. */
  lemma IntendedOrderStages(k: nat)
    requires k <= ExpectedAnswers + 2
    ensures k == 0 ==> DeriveStage(AfterWrites(k)) == Pending
    ensures k == 1 ==> DeriveStage(AfterWrites(k)) == Context
    ensures k == 2 ==> DeriveStage(AfterWrites(k)) == Questions
    ensures 3 <= k < ExpectedAnswers + 2 ==> DeriveStage(AfterWrites(k)) == Checking
    ensures k == ExpectedAnswers + 2 ==> DeriveStage(AfterWrites(k)) == Complete
    ensures Reachable(AfterWrites(k))
  {
  }

  /** More answers than expected read as pending, unless a context is stored
      without questions, which reads as context whatever the answer count. */
  lemma PendingBeyondExpected(p: Progress)
    requires p.answerCount > ExpectedAnswers
    ensures DeriveStage(p) == if p.contextPresent && !p.questionsPresent then Context else Pending
  {
  }

  /** The stage tests use raw truthiness: a truthy non-array questions value
      keeps the run out of the context stage, although the snapshot reports
      no questions. */
  lemma NonArrayQuestionsBlockContext(runId: string, ctx: BrandContext, values: seq<RawValue>)
    ensures var s := BuildRunStatus(runId, StoreRead(Some(ctx), NonArray(true), values), KeptAnswers(values));
      s.status != Context && s.questions.None?
  {
  }

  /** The snapshot the route answers with. */
  function BuildRunStatus(runId: string, read: StoreRead, answers: seq<VisibilityAnswer>): (s: RunStatus)
    ensures s.runId == runId && s.answers == answers && s.context == read.context
    ensures s.completedAnswers == |answers| && s.totalAnswers == ExpectedAnswers
    ensures s.brand == (if read.context.Some? then read.context.value.brand else "")
    ensures s.questions.Some? <==> read.questions.QuestionArray?
    ensures s.questions.Some? ==> s.questions.value == read.questions.items
    ensures s.status == DeriveStage(Progress(read.context.Some?, QuestionsTruthy(read.questions), |answers|))
  {
    var progress := Progress(read.context.Some?, QuestionsTruthy(read.questions), |answers|);
    RunStatus(
      runId,
      match read.context case Some(c) => c.brand case None => "",
      read.context,
      match read.questions case QuestionArray(items) => Some(items) case _ => None,
      answers,
      ExpectedAnswers,
      |answers|,
      DeriveStage(progress))
  }

  /** The GET handler. A missing or empty `runId` is a 400; a failing read a 500. */
  method CheckStatus(runId: Option<string>, read: Outcome<StoreRead>) returns (r: Result<RunStatus, StatusError>)
    ensures (runId.None? || runId.value == "") ==> r == Failure(MissingRunId)
    ensures runId.Some? && runId.value != "" && read.Raised? ==> r == Failure(ReadFailed)
    ensures runId.Some? && runId.value != "" && read.Returned? ==>
              r == Success(BuildRunStatus(runId.value, read.value, KeptAnswers(read.value.values)))
  {
    if runId.None? || runId.value == "" {
      return Failure(MissingRunId);
    }
    if read.Raised? {
      return Failure(ReadFailed);
    }
    var answers := CollectAnswers(read.value.values);
    r := Success(BuildRunStatus(runId.value, read.value, answers));
  }

  /** What `mget` returns for the listed answer keys: the stored record, or
      `null` for a key that is gone. */
  function ReadValues(store: Store, keys: seq<string>): (r: seq<RawValue>)
    ensures |r| == |keys|
  {
    if |keys| == 0 then []
    else [if keys[0] in store then ObjectValue(store[keys[0]]) else NullValue] + ReadValues(store, keys[1..])
  }

  /** Reading back the listed keys yields one record per listed key still in
      the store, in listing order, and every record written under a listed
      key is among them. */
  lemma {:induction false} ReadBack(store: Store, keys: seq<string>)
    ensures |KeptAnswers(ReadValues(store, keys))| == |Filter(keys, k => k in store)|
    ensures forall k :: k in keys && k in store ==> store[k] in KeptAnswers(ReadValues(store, keys))
  {
    if |keys| > 0 {
      ReadBack(store, keys[1..]);
      assert ReadValues(store, keys) == [ReadValues(store, keys)[0]] + ReadValues(store, keys[1..]);
      assert KeptAnswers(ReadValues(store, keys))
          == (if keys[0] in store then [store[keys[0]]] else []) + KeptAnswers(ReadValues(store, keys[1..]));
    }
  }

  /** `mget` pointwise: the i-th value is the record under the i-th key, or null. */
  lemma {:induction false} ReadValuesAt(store: Store, keys: seq<string>, i: nat)
    requires i < |keys|
    ensures ReadValues(store, keys)[i] == if keys[i] in store then ObjectValue(store[keys[i]]) else NullValue
  {
    if i > 0 {
      ReadValuesAt(store, keys[1..], i - 1);
    }
  }

  /** Conversely, every record read back is the stored record of some listed key. */
  lemma ReadBackOnly(store: Store, keys: seq<string>, a: VisibilityAnswer)
    requires a in KeptAnswers(ReadValues(store, keys))
    ensures exists k :: k in keys && k in store && store[k] == a
  {
    var values := ReadValues(store, keys);
    var i :| 0 <= i < |values| && values[i] == ObjectValue(a);
    ReadValuesAt(store, keys, i);
    assert keys[i] in keys;
  }

  /** Writing every one of `ExpectedAnswers` distinct listed keys once, after
      the context and the questions, completes the run in one read. */
  lemma AllKeysWrittenCompletes(runId: string, ctx: BrandContext, qs: seq<Question>, store: Store, keys: seq<string>)
    requires |keys| == ExpectedAnswers
    requires forall k :: k in keys ==> k in store
    ensures var read := StoreRead(Some(ctx), QuestionArray(qs), ReadValues(store, keys));
      BuildRunStatus(runId, read, KeptAnswers(read.values)).status == Complete
  {
    ReadBack(store, keys);
    FilterAll(keys, k => k in store);
  }
}
