/** The command-line agent (scripts/full-agent-flow.ts): the brand check the
    question generator must pass, the question x model x repetition fan-out,
    the per-probe try/catch with its store write, and the summary counted
    over the settled probes. Text generation and detection are an oracle. */
module AgentFlow {
  import opened Wrappers
  import opened Seqs
  import opened Text
  import opened Records
  import opened ProbeRecords

  /** Every (question, model) pair is probed this many times. */
  const Repetitions: nat := 3

  /** One probe to run: `{ question, model, run }`. */
  datatype Check = Check(question: Question, model: ModelInfo, run: int)

  // ---------------------------------------------------------------------
  // The brand check (the `validateQuestions` tool)

  /** What the tool answers: `invalidQuestionIds` is present only on failure. */
  datatype Validation = Validation(valid: bool, message: string, invalidQuestionIds: Option<seq<string>>)

  /** `q.question.toLowerCase().includes(brand.toLowerCase())`. */
  function MentionsBrand(brand: string): Question -> bool {
    (q: Question) => ContainsIgnoringCase(q.question, brand)
  }

  function QuestionId(q: Question): string { q.id }

  const AllValidMessage: string := "All questions are valid - no brand mentions detected."

  function InvalidMessage(brand: string, ids: seq<string>): string {
    "Brand name \"" + brand + "\" found in questions: " + Join(ids, ", ")
      + ". You MUST regenerate these questions WITHOUT the brand name."
  }

  /** The `execute` body of the tool. */
  function ValidateQuestions(brand: string, questions: seq<Question>): (v: Validation)
    ensures v.valid <==> v.invalidQuestionIds.None?
  {
    var ids := Map(Filter(questions, MentionsBrand(brand)), QuestionId);
    if |ids| > 0 then Validation(false, InvalidMessage(brand, ids), Some(ids))
    else Validation(true, AllValidMessage, None)
  }

  /** The ids of the questions naming the brand, in question order, by direct
      recursion over the questions. */
  function FlaggedIds(brand: string, questions: seq<Question>): seq<string> {
    if |questions| == 0 then []
    else (if ContainsIgnoringCase(questions[0].question, brand) then [questions[0].id] else [])
         + FlaggedIds(brand, questions[1..])
  }

  lemma {:induction false} FlaggedIdsMatch(brand: string, questions: seq<Question>)
    ensures Map(Filter(questions, MentionsBrand(brand)), QuestionId) == FlaggedIds(brand, questions)
  {
    if |questions| > 0 {
      FlaggedIdsMatch(brand, questions[1..]);
      var rest := Filter(questions[1..], MentionsBrand(brand));
      if MentionsBrand(brand)(questions[0]) {
        assert Map([questions[0]] + rest, QuestionId) == [questions[0].id] + Map(rest, QuestionId);
      }
    }
  }

  /** Flagging distributes over concatenation: ids keep their question order. */
  lemma {:induction false} FlaggedIdsAppend(brand: string, xs: seq<Question>, ys: seq<Question>)
    ensures FlaggedIds(brand, xs + ys) == FlaggedIds(brand, xs) + FlaggedIds(brand, ys)
  {
    if |xs| == 0 {
      assert xs + ys == ys;
    } else {
      assert (xs + ys)[1..] == xs[1..] + ys;
      FlaggedIdsAppend(brand, xs[1..], ys);
    }
  }

  /** An id is flagged exactly when some question with that id names the brand. */
  lemma {:induction false} FlaggedIdsMembers(brand: string, questions: seq<Question>, id: string)
    ensures id in FlaggedIds(brand, questions) <==>
              exists q :: q in questions && q.id == id && ContainsIgnoringCase(q.question, brand)
  {
    if |questions| > 0 {
      FlaggedIdsMembers(brand, questions[1..], id);
      var q0 := questions[0];
      if exists q :: q in questions && q.id == id && ContainsIgnoringCase(q.question, brand) {
        var q :| q in questions && q.id == id && ContainsIgnoringCase(q.question, brand);
        if q != q0 {
          assert q in questions[1..];
        }
      }
      if exists q :: q in questions[1..] && q.id == id && ContainsIgnoringCase(q.question, brand) {
        var q :| q in questions[1..] && q.id == id && ContainsIgnoringCase(q.question, brand);
        assert q in questions;
      }
    }
  }

  /** Validation fails exactly when some question names the brand, ignoring
      case; a failure lists exactly the flagged ids, in question order, and
      names them in its message; a pass carries the fixed message and no ids. */
  lemma ValidateQuestionsSpec(brand: string, questions: seq<Question>)
    ensures var v := ValidateQuestions(brand, questions);
      && (!v.valid <==> exists q :: q in questions && ContainsIgnoringCase(q.question, brand))
      && (!v.valid ==> v.invalidQuestionIds == Some(FlaggedIds(brand, questions))
                       && v.message == InvalidMessage(brand, FlaggedIds(brand, questions)))
      && (v.valid ==> v.invalidQuestionIds.None? && v.message == AllValidMessage)
  {
    FlaggedIdsMatch(brand, questions);
    var ids := FlaggedIds(brand, questions);
    if exists q :: q in questions && ContainsIgnoringCase(q.question, brand) {
      var q :| q in questions && ContainsIgnoringCase(q.question, brand);
      FlaggedIdsMembers(brand, questions, q.id);
    }
    if |ids| > 0 {
      FlaggedIdsMembers(brand, questions, ids[0]);
    }
  }

  // ---------------------------------------------------------------------
  // The fan-out (`allChecks`)

  /** `Array.from({ length: 3 }, (_, i) => ({ question, model, run: i + 1 }))`. */
  function RunsOf(q: Question, m: ModelInfo): (r: seq<Check>)
    ensures |r| == Repetitions
    ensures forall k :: 0 <= k < Repetitions ==> r[k] == Check(q, m, k + 1)
  {
    seq(Repetitions, k requires 0 <= k < Repetitions => Check(q, m, k + 1))
  }

  /** `MODELS.flatMap(model => ...)` for one question. */
  function ChecksFor(q: Question, models: seq<ModelInfo>): seq<Check> {
    if |models| == 0 then [] else RunsOf(q, models[0]) + ChecksFor(q, models[1..])
  }

  /** `questions.flatMap(question => ...)`. */
  function AllChecks(questions: seq<Question>, models: seq<ModelInfo>): seq<Check> {
    if |questions| == 0 then [] else ChecksFor(questions[0], models) + AllChecks(questions[1..], models)
  }

  /** `totalChecks = questions.length * MODELS.length * 3`. */
  function TotalChecks(questions: seq<Question>, models: seq<ModelInfo>): nat {
    |questions| * |models| * Repetitions
  }

  /** Entry `j * 3 + r` of one question's block is model `j`, run `r + 1`. */
  lemma {:induction false} ChecksForAt(q: Question, models: seq<ModelInfo>, j: nat, r: nat)
    requires j < |models| && r < Repetitions
    ensures |ChecksFor(q, models)| == |models| * Repetitions
    ensures j * Repetitions + r < |ChecksFor(q, models)|
    ensures ChecksFor(q, models)[j * Repetitions + r] == Check(q, models[j], r + 1)
  {
    ChecksForLength(q, models);
    if j > 0 {
      ChecksForAt(q, models[1..], j - 1, r);
      assert j * Repetitions + r == Repetitions + ((j - 1) * Repetitions + r);
    }
  }

  lemma {:induction false} ChecksForLength(q: Question, models: seq<ModelInfo>)
    ensures |ChecksFor(q, models)| == |models| * Repetitions
  {
    if |models| > 0 {
      ChecksForLength(q, models[1..]);
    }
  }

  /** `allChecks` has `totalChecks` entries. */
  lemma {:induction false} AllChecksLength(questions: seq<Question>, models: seq<ModelInfo>)
    ensures |AllChecks(questions, models)| == TotalChecks(questions, models)
  {
    if |questions| > 0 {
      AllChecksLength(questions[1..], models);
      ChecksForLength(questions[0], models);
      assert |questions| * |models| * Repetitions
          == |models| * Repetitions + (|questions| - 1) * |models| * Repetitions;
    }
  }

  /** Question-major, then model, then run ascending: entry
      `(i * |models| + j) * 3 + r` is question `i`, model `j`, run `r + 1`.
      With the length this puts the entries in one-to-one correspondence
      with the triples. */
  lemma {:induction false} AllChecksAt(questions: seq<Question>, models: seq<ModelInfo>, i: nat, j: nat, r: nat)
    requires i < |questions| && j < |models| && r < Repetitions
    ensures (i * |models| + j) * Repetitions + r < |AllChecks(questions, models)|
    ensures AllChecks(questions, models)[(i * |models| + j) * Repetitions + r] == Check(questions[i], models[j], r + 1)
  {
    var block := |models| * Repetitions;
    ChecksForAt(questions[0], models, j, r);
    AllChecksLength(questions[1..], models);
    if i == 0 {
      assert (i * |models| + j) * Repetitions + r == j * Repetitions + r;
    } else {
      AllChecksAt(questions[1..], models, i - 1, j, r);
      assert (i * |models| + j) * Repetitions + r == block + ((i - 1) * |models| + j) * Repetitions + r;
    }
  }

  /** A check appears exactly when its question and model are listed and its
      run is 1, 2 or 3. */
  lemma {:induction false} AllChecksMembers(questions: seq<Question>, models: seq<ModelInfo>, c: Check)
    ensures c in AllChecks(questions, models) <==>
              c.question in questions && c.model in models && 1 <= c.run <= Repetitions
  {
    if |questions| > 0 {
      AllChecksMembers(questions[1..], models, c);
      ChecksForMembers(questions[0], models, c);
      assert questions == [questions[0]] + questions[1..];
    }
  }

  lemma {:induction false} ChecksForMembers(q: Question, models: seq<ModelInfo>, c: Check)
    ensures c in ChecksFor(q, models) <==> c.question == q && c.model in models && 1 <= c.run <= Repetitions
  {
    if |models| > 0 {
      ChecksForMembers(q, models[1..], c);
      assert models == [models[0]] + models[1..];
      if c.question == q && c.model == models[0] && 1 <= c.run <= Repetitions {
        assert RunsOf(q, models[0])[c.run - 1] == c;
      }
    }
  }

  // ---------------------------------------------------------------------
  // One probe (`checkVisibility`)

  /** The answers of the collaborators of one probe: the answering model's
      text, the detector's structured verdict, and the two store writes. */
  datatype ScriptOracle = ScriptOracle(
    answer: Outcome<string>,
    detection: Outcome<Detection>,
    successWrite: WriteOutcome,
    failureWrite: WriteOutcome)

  /** How the probe's promise settled. */
  datatype Settled = Fulfilled(value: VisibilityAnswer) | Rejected(reason: Thrown)

  /** The key a check is stored under. */
  function CheckKey(runId: string, c: Check): string {
    ProbeKey(runId, c.question.id, c.run, c.model.id)
  }

  /** The try block up to the write: the success record, or what the first
      throwing call threw. */
  function ScriptAttempt(c: Check, oracle: ScriptOracle, now: int): (r: Outcome<VisibilityAnswer>)
    ensures r.Returned? <==> oracle.answer.Returned? && oracle.detection.Returned?
    ensures r.Returned? ==> r.value == SuccessRecord(c.question.id, c.model.id, c.run, oracle.answer.value, oracle.detection.value, now)
    ensures oracle.answer.Raised? ==> r == Raised(oracle.answer.thrown)
    ensures oracle.answer.Returned? && oracle.detection.Raised? ==> r == Raised(oracle.detection.thrown)
  {
    match oracle.answer
    case Raised(t) => Raised(t)
    case Returned(text) =>
      match oracle.detection
      case Raised(t) => Raised(t)
      case Returned(d) => Returned(SuccessRecord(c.question.id, c.model.id, c.run, text, d, now))
  }

  /** `checkVisibility` for one check: the settled outcome and the store after it. */
  function CheckVisibility(store: Store, runId: string, c: Check, oracle: ScriptOracle, now: int): (Settled, Store) {
    var (res, store') := Persist(store, CheckKey(runId, c), c.question.id, c.model.id, c.run,
                                 ScriptAttempt(c, oracle, now), oracle.successWrite, oracle.failureWrite, now);
    (match res case Persisted(a) => Fulfilled(a) case NotPersisted(t) => Rejected(t), store')
  }

  /** A probe either fulfils with the record it wrote under its key, or
      rejects with the failure write's error and leaves the store alone. It
      fulfils with a failure record exactly when a text-generation call or
      the success write threw; a failure record has no answer, no mention, a
      null position and the error's message. */
  lemma CheckVisibilitySpec(store: Store, runId: string, c: Check, oracle: ScriptOracle, now: int)
    ensures var (settled, store') := CheckVisibility(store, runId, c, oracle, now);
      var succeeded := oracle.answer.Returned? && oracle.detection.Returned? && oracle.successWrite.Stored?;
      && (settled.Fulfilled? ==> store' == store[CheckKey(runId, c) := settled.value])
      && (settled.Rejected? <==> !succeeded && oracle.failureWrite.WriteFailed?)
      && (settled.Rejected? ==> store' == store && settled.reason == oracle.failureWrite.thrown)
      && (settled.Fulfilled? && succeeded ==>
            settled.value == SuccessRecord(c.question.id, c.model.id, c.run, oracle.answer.value, oracle.detection.value, now))
      && (settled.Fulfilled? && !succeeded ==>
            settled.value.failed && settled.value.answer == "" && !settled.value.mentioned
            && settled.value.position == NullPosition && settled.value.error.Some?)
      && (settled.Fulfilled? ==> settled.value.questionId == c.question.id && settled.value.model == c.model.id
                                 && settled.value.run == c.run)
  {
  }

  /** Whether a probe fulfils, and with what, does not depend on the store. */
  lemma SettlingIgnoresStore(s1: Store, s2: Store, runId: string, c: Check, oracle: ScriptOracle, now: int)
    ensures CheckVisibility(s1, runId, c, oracle, now).0 == CheckVisibility(s2, runId, c, oracle, now).0
  {
  }

  /** All probes, one after another (the concurrency of `Promise.allSettled`
      is not modelled): the settled outcomes in check order and the final store.
      Each probe reads the clock itself: `times[k]` is the `Date.now()` of
      the k-th probe. */
  function RunAll(store: Store, runId: string, checks: seq<Check>, oracles: seq<ScriptOracle>, times: seq<int>): (r: (seq<Settled>, Store))
    requires |oracles| == |checks| == |times|
    ensures |r.0| == |checks|
    decreases |checks|
  {
    if |checks| == 0 then ([], store)
    else
      var (first, store1) := CheckVisibility(store, runId, checks[0], oracles[0], times[0]);
      var (rest, store2) := RunAll(store1, runId, checks[1..], oracles[1..], times[1..]);
      ([first] + rest, store2)
  }

  /** The k-th outcome is the k-th probe's own, whatever ran before it. */
  lemma {:induction false} RunAllSettledAt(store: Store, runId: string, checks: seq<Check>, oracles: seq<ScriptOracle>, times: seq<int>, k: nat)
    requires |oracles| == |checks| == |times| && k < |checks|
    ensures RunAll(store, runId, checks, oracles, times).0[k] == CheckVisibility(store, runId, checks[k], oracles[k], times[k]).0
    decreases k
  {
    var (first, store1) := CheckVisibility(store, runId, checks[0], oracles[0], times[0]);
    if k > 0 {
      RunAllSettledAt(store1, runId, checks[1..], oracles[1..], times[1..], k - 1);
      SettlingIgnoresStore(store1, store, runId, checks[k], oracles[k], times[k]);
    }
  }

  /** A fulfilled probe whose key no later probe shares leaves its record in
      the final store; a key no probe uses keeps what it held. */
  lemma {:induction false} RunAllStore(store: Store, runId: string, checks: seq<Check>, oracles: seq<ScriptOracle>, times: seq<int>, k: nat)
    requires |oracles| == |checks| == |times| && k < |checks|
    requires forall l :: k < l < |checks| ==> CheckKey(runId, checks[l]) != CheckKey(runId, checks[k])
    ensures var r := RunAll(store, runId, checks, oracles, times);
      r.0[k].Fulfilled? ==> CheckKey(runId, checks[k]) in r.1 && r.1[CheckKey(runId, checks[k])] == r.0[k].value
    decreases k
  {
    var step := CheckVisibility(store, runId, checks[0], oracles[0], times[0]);
    var rest := RunAll(step.1, runId, checks[1..], oracles[1..], times[1..]);
    assert RunAll(store, runId, checks, oracles, times) == ([step.0] + rest.0, rest.1);
    if k > 0 {
      RunAllStore(step.1, runId, checks[1..], oracles[1..], times[1..], k - 1);
    } else {
      CheckVisibilitySpec(store, runId, checks[0], oracles[0], times[0]);
      RunAllUntouched(step.1, runId, checks[1..], oracles[1..], times[1..], CheckKey(runId, checks[0]));
    }
  }

  lemma {:induction false} RunAllUntouched(store: Store, runId: string, checks: seq<Check>, oracles: seq<ScriptOracle>, times: seq<int>, key: string)
    requires |oracles| == |checks| == |times|
    requires forall l :: 0 <= l < |checks| ==> CheckKey(runId, checks[l]) != key
    ensures var final := RunAll(store, runId, checks, oracles, times).1;
      (key in final <==> key in store) && (key in store ==> final[key] == store[key])
    decreases |checks|
  {
    if |checks| > 0 {
      var (first, store1) := CheckVisibility(store, runId, checks[0], oracles[0], times[0]);
      CheckVisibilitySpec(store, runId, checks[0], oracles[0], times[0]);
      RunAllUntouched(store1, runId, checks[1..], oracles[1..], times[1..], key);
    }
  }

  // ---------------------------------------------------------------------
  // The summary

  /** What the summary reports. */
  datatype Summary = Summary(completed: nat, total: nat, successful: nat, failed: int, mentions: nat)

  predicate IsFulfilled(s: Settled) { s.Fulfilled? }

  /** Only applied to fulfilled outcomes; a rejected one maps to a placeholder. */
  function FulfilledValue(s: Settled): VisibilityAnswer {
    match s
    case Fulfilled(v) => v
    case Rejected(_) => VisibilityAnswer("", "", 0, "", false, NullPosition, 0, true, None)
  }

  /** `settledResults.filter(fulfilled).map(r => r.value)`. */
  function Results(settled: seq<Settled>): seq<VisibilityAnswer> {
    Map(Filter(settled, IsFulfilled), FulfilledValue)
  }

  /** The summary counts the script reports: completed, total, successful, failed and mentions. */
  function Summarize(settled: seq<Settled>, totalChecks: nat): Summary {
    var results := Results(settled);
    var successfulChecks := Filter(results, Succeeded);
    var mentionedCount := |Filter(successfulChecks, IsMentioned)|;
    Summary(|results|, totalChecks, |successfulChecks|, |results| - |successfulChecks|, mentionedCount)
  }

  /** The fulfilled values, in settling order, by direct recursion. */
  function FulfilledValues(settled: seq<Settled>): seq<VisibilityAnswer> {
    if |settled| == 0 then []
    else (if settled[0].Fulfilled? then [settled[0].value] else []) + FulfilledValues(settled[1..])
  }

  lemma {:induction false} ResultsAreFulfilledValues(settled: seq<Settled>)
    ensures Results(settled) == FulfilledValues(settled)
  {
    if |settled| > 0 {
      ResultsAreFulfilledValues(settled[1..]);
      var rest := Filter(settled[1..], IsFulfilled);
      if settled[0].Fulfilled? {
        assert Map([settled[0]] + rest, FulfilledValue) == [settled[0].value] + Map(rest, FulfilledValue);
      }
    }
  }

  /** The results keep the fulfilled outcomes in order: results of a
      concatenation are the concatenation of the results. */
  lemma {:induction false} FulfilledValuesAppend(xs: seq<Settled>, ys: seq<Settled>)
    ensures FulfilledValues(xs + ys) == FulfilledValues(xs) + FulfilledValues(ys)
  {
    if |xs| == 0 {
      assert xs + ys == ys;
    } else {
      assert (xs + ys)[0] == xs[0];
      assert (xs + ys)[1..] == xs[1..] + ys;
      FulfilledValuesAppend(xs[1..], ys);
    }
  }

  /** The counts: the failed count is the number of failure records among
      the results, mentions are counted among successful results only, and
      no count exceeds the one it is drawn from. */
  lemma SummarizeCounts(settled: seq<Settled>, totalChecks: nat)
    ensures var s := Summarize(settled, totalChecks);
      var results := FulfilledValues(settled);
      && s.completed == |results| <= |settled|
      && s.failed == |Filter(results, HasFailed)|
      && s.successful + s.failed == s.completed
      && s.mentions == |Filter(results, (a: VisibilityAnswer) => !a.failed && a.mentioned)|
      && s.mentions <= s.successful
  {
    ResultsAreFulfilledValues(settled);
    var results := FulfilledValues(settled);
    FilterPartition(results, HasFailed, Succeeded);
    FilterFilter(results, Succeeded, IsMentioned, (a: VisibilityAnswer) => !a.failed && a.mentioned);
  }

  /** Running every check of the fan-out settles as many outcomes as
      `totalChecks`, so the report never claims more than it planned. */
  lemma FanOutSummary(store: Store, runId: string, questions: seq<Question>, models: seq<ModelInfo>,
                      oracles: seq<ScriptOracle>, times: seq<int>)
    requires |oracles| == |times| == TotalChecks(questions, models)
    ensures |oracles| == |AllChecks(questions, models)|
    ensures var settled := RunAll(store, runId, AllChecks(questions, models), oracles, times).0;
      |settled| == TotalChecks(questions, models)
      && Summarize(settled, TotalChecks(questions, models)).completed <= TotalChecks(questions, models)
  {
    AllChecksLength(questions, models);
    var settled := RunAll(store, runId, AllChecks(questions, models), oracles, times).0;
    SummarizeCounts(settled, TotalChecks(questions, models));
  }

  /** When every probe's collaborators answer, every probe fulfils with a
      success record and nothing is counted as failed. */
  lemma AllAnsweredSummary(store: Store, runId: string, checks: seq<Check>, oracles: seq<ScriptOracle>, times: seq<int>)
    requires |oracles| == |checks| == |times|
    requires forall k :: 0 <= k < |oracles| ==>
               oracles[k].answer.Returned? && oracles[k].detection.Returned? && oracles[k].successWrite.Stored?
    ensures var s := Summarize(RunAll(store, runId, checks, oracles, times).0, |checks|);
      s.completed == |checks| && s.successful == |checks| && s.failed == 0
  {
    var settled := RunAll(store, runId, checks, oracles, times).0;
    forall k | 0 <= k < |settled|
      ensures IsFulfilled(settled[k]) && Succeeded(FulfilledValue(settled[k]))
    {
      RunAllSettledAt(store, runId, checks, oracles, times, k);
      CheckVisibilitySpec(store, runId, checks[k], oracles[k], times[k]);
    }
    FilterAll(settled, IsFulfilled);
    var results := Results(settled);
    assert Filter(settled, IsFulfilled) == settled;
    assert forall k :: 0 <= k < |results| ==> Succeeded(results[k]);
    FilterAll(results, Succeeded);
    SummarizeCounts(settled, |checks|);
  }
}
