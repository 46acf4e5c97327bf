/** What one probe leaves in the store, shared by the probe route
    (app/api/check-visibility/route.ts) and the agent script
    (scripts/full-agent-flow.ts): the storage key, the success and failure
    records, and the try/catch that decides which of them is written. */
module ProbeRecords {
  import opened Wrappers
  import opened Text
  import opened Records

  /** The answer part of the store: keys to the records written under them. */
  type Store = map<string, VisibilityAnswer>

  /** The detector's verdict on an answer. */
  datatype Detection = Detection(isVisible: bool, position: Position)

  /** What the try/catch around a probe ended with: a record that was written,
      or the error thrown by the last write, which escapes the catch. */
  datatype ProbeResult = Persisted(answer: VisibilityAnswer) | NotPersisted(thrown: Thrown)

  /** `model.replace(/\//g, "_")`. */
  function SanitizeModel(model: string): (r: string)
    ensures |r| == |model| && '/' !in r
    ensures forall k :: 0 <= k < |model| && model[k] != '/' ==> r[k] == model[k]
    ensures forall k :: 0 <= k < |model| && model[k] == '/' ==> r[k] == '_'
  {
    seq(|model|, k requires 0 <= k < |model| => if model[k] == '/' then '_' else model[k])
  }

  /** `${runId}:${questionId}:answer${run}:${sanitized model}`. */
  function ProbeKey(runId: string, questionId: string, run: int, model: string): (k: string)
    ensures |runId| < |k| && k[..|runId| + 1] == runId + ":"
  {
    runId + ":" + questionId + ":answer" + IntToString(run) + ":" + SanitizeModel(model)
  }

  /** Within one run the key tells the question id (when ids hold no colon),
      the repetition number and the sanitized model apart: two probes that
      differ in any of these never overwrite each other. */
  lemma ProbeKeyInjective(runId: string, q1: string, r1: int, m1: string, q2: string, r2: int, m2: string)
    requires ':' !in q1 && ':' !in q2
    requires ProbeKey(runId, q1, r1, m1) == ProbeKey(runId, q2, r2, m2)
    ensures q1 == q2 && r1 == r2 && SanitizeModel(m1) == SanitizeModel(m2)
  {
    var t1 := IntToString(r1) + ":" + SanitizeModel(m1);
    var t2 := IntToString(r2) + ":" + SanitizeModel(m2);
    ProbeKeyShape(runId, q1, r1, m1);
    ProbeKeyShape(runId, q2, r2, m2);
    CancelPrefix(runId + ":", q1 + ":" + ("answer" + t1), q2 + ":" + ("answer" + t2));
    SplitAtColon(q1, "answer" + t1, q2, "answer" + t2);
    CancelPrefix("answer", t1, t2);
    SplitAtColon(IntToString(r1), SanitizeModel(m1), IntToString(r2), SanitizeModel(m2));
    IntToStringInjective(r1, r2);
  }

  /** A key the status route's `${runId}:Q*:answer*` glob lists. */
  ghost predicate UnderAnswerGlob(runId: string, key: string) {
    exists x: string, y: string :: key == runId + ":Q" + x + ":answer" + y
  }

  /** A probe whose question id starts with "Q" is listed by the glob. */
  lemma ProbeKeyListed(runId: string, x: string, run: int, model: string)
    ensures UnderAnswerGlob(runId, ProbeKey(runId, "Q" + x, run, model))
  {
    var y := IntToString(run) + ":" + SanitizeModel(model);
    assert ProbeKey(runId, "Q" + x, run, model) == runId + ":Q" + x + ":answer" + y;
  }

  /** A probe whose question id does not start with "Q" is written but never
      listed, since the route accepts any non-empty question id. */
  lemma ProbeKeyUnlisted(runId: string, questionId: string, run: int, model: string)
    requires |questionId| > 0 && questionId[0] != 'Q'
    ensures !UnderAnswerGlob(runId, ProbeKey(runId, questionId, run, model))
  {
    var key := ProbeKey(runId, questionId, run, model);
    ProbeKeyShape(runId, questionId, run, model);
    assert key[|runId| + 1] == questionId[0];
  }

  lemma ProbeKeyShape(runId: string, questionId: string, run: int, model: string)
    ensures ProbeKey(runId, questionId, run, model)
         == (runId + ":") + (questionId + ":" + ("answer" + (IntToString(run) + ":" + SanitizeModel(model))))
  {
  }

  lemma CancelPrefix(p: string, x: string, y: string)
    requires p + x == p + y
    ensures x == y
  {
    assert x == (p + x)[|p|..];
    assert y == (p + y)[|p|..];
  }

  /** The sanitization is lossy: model ids that differ only in `/` against `_`
      share one key, so their probes overwrite each other. */
  lemma SanitizedModelsShareKey(runId: string, questionId: string, run: int)
    ensures ProbeKey(runId, questionId, run, "openai/gpt") == ProbeKey(runId, questionId, run, "openai_gpt")
  {
  }

  /** The record a successful probe stores. */
  function SuccessRecord(questionId: string, model: string, run: int, answer: string, detection: Detection, now: int): (r: VisibilityAnswer)
    ensures !r.failed && r.error.None?
    ensures r.answer == answer && r.mentioned == detection.isVisible && r.position == detection.position
  {
    VisibilityAnswer(questionId, model, run, answer, detection.isVisible, detection.position, now, false, None)
  }

  /** The record a failed probe stores: no answer, not mentioned, no position,
      and the error's message. */
  function FailureRecord(questionId: string, model: string, run: int, thrown: Thrown, now: int): (r: VisibilityAnswer)
    ensures r.failed && r.answer == "" && !r.mentioned && r.position == NullPosition
    ensures r.error == Some(ErrorMessage(thrown))
  {
    VisibilityAnswer(questionId, model, run, "", false, NullPosition, now, true, Some(ErrorMessage(thrown)))
  }

  /** The shape every written record has: a failed one carries no answer,
      no mention, a null position and an error; a successful one no error. */
  predicate WellFormed(a: VisibilityAnswer) {
    && (a.failed ==> a.answer == "" && !a.mentioned && a.position == NullPosition && a.error.Some?)
    && (!a.failed ==> a.error.None?)
  }

  /** The catch branch: build the failure record for `caught` and write it;
      if that write throws too, nothing is written and its error escapes. */
  function RecordFailure(store: Store, key: string, questionId: string, model: string, run: int,
                         caught: Thrown, failureWrite: WriteOutcome, now: int): (ProbeResult, Store)
  {
    var rec := FailureRecord(questionId, model, run, caught, now);
    match failureWrite
    case Stored => (Persisted(rec), store[key := rec])
    case WriteFailed(t) => (NotPersisted(t), store)
  }

  /** The try/catch around a probe. `attempt` is the success record, or what
      a text-generation call threw before it was built; a throwing success
      write lands in the same catch. */
  function Persist(store: Store, key: string, questionId: string, model: string, run: int,
                   attempt: Outcome<VisibilityAnswer>, successWrite: WriteOutcome,
                   failureWrite: WriteOutcome, now: int): (ProbeResult, Store)
  {
    match attempt
    case Raised(t) => RecordFailure(store, key, questionId, model, run, t, failureWrite, now)
    case Returned(rec) =>
      match successWrite
      case Stored => (Persisted(rec), store[key := rec])
      case WriteFailed(t) => RecordFailure(store, key, questionId, model, run, t, failureWrite, now)
  }

  /** A probe writes at most one record, always under its own key, and the
      record it reports is the one written: a failure record exactly when the
      attempt or the success write threw, the success record otherwise. When
      nothing was written the store is as it was. */
  lemma PersistWritesOnce(store: Store, key: string, questionId: string, model: string, run: int,
                          attempt: Outcome<VisibilityAnswer>, successWrite: WriteOutcome,
                          failureWrite: WriteOutcome, now: int)
    requires attempt.Returned? ==> WellFormed(attempt.value)
    ensures var (res, store') := Persist(store, key, questionId, model, run, attempt, successWrite, failureWrite, now);
      && (res.Persisted? ==> store' == store[key := res.answer] && WellFormed(res.answer))
      && (res.NotPersisted? ==> store' == store)
      && (res.Persisted? && attempt.Returned? && successWrite.Stored? ==> res.answer == attempt.value)
      && (res.Persisted? ==> (res.answer.failed <==> !(attempt.Returned? && successWrite.Stored?) || attempt.value.failed))
      && (res.NotPersisted? <==> !(attempt.Returned? && successWrite.Stored?) && failureWrite.WriteFailed?)
  {
  }
}
