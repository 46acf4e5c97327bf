/** The probe route (app/api/check-visibility/route.ts): validate the request,
    ask the model, ask the detector, clean and parse the detector's text with
    a substring fallback, and store a success or failure record under the
    probe's key. The two text-generation calls, `request.json()`, `JSON.parse`
    and `redis.set` are inputs. */
module CheckVisibilityRoute {
  import opened Wrappers
  import opened Text
  import opened Records
  import opened ProbeRecords

  /** The request body's fields; a field that is absent is `None`. */
  datatype ProbeFields = ProbeFields(
    runId: Option<string>, questionId: Option<string>, question: Option<string>,
    model: Option<string>, run: Option<int>, brand: Option<string>)

  /** A request that passed validation. */
  datatype ProbeRequest = ProbeRequest(
    runId: string, questionId: string, question: string, model: string, run: int, brand: string)

  /** What the route answers: the stored record with `success: true`
      (HTTP 200), "Missing required parameters" (HTTP 400), or
      "Failed to check visibility" with a message (HTTP 500). */
  datatype ProbeResponse = Answered(answer: VisibilityAnswer) | MissingParameters | CheckFailed(message: string)

  /** What the foreign calls of one request do: the answering model, the
      detector, the write of the success record and the write of the
      failure record. */
  datatype ProbeOracle = ProbeOracle(
    answer: Outcome<string>, detection: Outcome<string>,
    successWrite: WriteOutcome, failureWrite: WriteOutcome)

  /** JavaScript truthiness of a string field. */
  predicate Present(f: Option<string>) {
    f.Some? && f.value != ""
  }

  /** The 400 check: every field must be truthy, so an empty string or a
      `run` of 0 is rejected like an absent field. */
  function ValidateRequest(f: ProbeFields): (r: Option<ProbeRequest>)
    ensures r.Some? <==> Present(f.runId) && Present(f.questionId) && Present(f.question)
                         && Present(f.model) && f.run.Some? && f.run.value != 0 && Present(f.brand)
    ensures r.Some? ==> r.value == ProbeRequest(f.runId.value, f.questionId.value, f.question.value,
                                                f.model.value, f.run.value, f.brand.value)
  {
    if !Present(f.runId) || !Present(f.questionId) || !Present(f.question) || !Present(f.model)
       || f.run.None? || f.run.value == 0 || !Present(f.brand)
    then None
    else Some(ProbeRequest(f.runId.value, f.questionId.value, f.question.value, f.model.value, f.run.value, f.brand.value))
  }

  /** The detector's text with code fences removed: first every "```json",
      then every "```", each with one newline after it, then `trim`. */
  function CleanDetection(text: string): string {
    Trim(RemoveToken(RemoveToken(text, "```json"), "```"))
  }

  /** The detection used for the record: the parsed cleaned text, or, when it
      does not parse, a case-insensitive substring test with a null position. */
  function Detect(answer: string, brand: string, detectionText: string, parse: string -> Option<Detection>): (d: Detection)
    ensures parse(CleanDetection(detectionText)).Some? ==> d == parse(CleanDetection(detectionText)).value
    ensures parse(CleanDetection(detectionText)).None? ==>
              d == Detection(Contains(ToLower(answer), ToLower(brand)), NullPosition)
  {
    match parse(CleanDetection(detectionText))
    case Some(parsed) => parsed
    case None => Detection(ContainsIgnoringCase(answer, brand), NullPosition)
  }

  /** The inner try: the success record, or the error of the first
      text-generation call that threw. */
  function Attempt(req: ProbeRequest, oracle: ProbeOracle, parse: string -> Option<Detection>, now: int): Outcome<VisibilityAnswer> {
    match oracle.answer
    case Raised(t) => Raised(t)
    case Returned(answer) =>
      match oracle.detection
      case Raised(t) => Raised(t)
      case Returned(text) =>
        Returned(SuccessRecord(req.questionId, req.model, req.run, answer, Detect(answer, req.brand, text, parse), now))
  }

  /** The whole POST handler, with the store before and after. */
  function HandleProbe(body: Outcome<ProbeFields>, oracle: ProbeOracle, parse: string -> Option<Detection>,
                       now: int, store: Store): (ProbeResponse, Store)
  {
    match body
    case Raised(t) => (CheckFailed(ErrorMessage(t)), store)
    case Returned(fields) =>
      match ValidateRequest(fields)
      case None => (MissingParameters, store)
      case Some(req) =>
        var key := ProbeKey(req.runId, req.questionId, req.run, req.model);
        var (res, store') := Persist(store, key, req.questionId, req.model, req.run,
                                     Attempt(req, oracle, parse, now), oracle.successWrite, oracle.failureWrite, now);
        match res
        case Persisted(a) => (Answered(a), store')
        case NotPersisted(t) => (CheckFailed(ErrorMessage(t)), store')
  }

  /** The key of a validated request. */
  function RequestKey(req: ProbeRequest): string {
    ProbeKey(req.runId, req.questionId, req.run, req.model)
  }

  /** A request rejected by validation or a body that does not parse leaves
      the store alone; every other request writes at most one record, under
      the request's key, and the record the route answers with is the one it
      wrote. A 500 after validation means both writes threw and nothing was
      written. */
  lemma HandleProbeWritesOnce(body: Outcome<ProbeFields>, oracle: ProbeOracle, parse: string -> Option<Detection>,
                              now: int, store: Store)
    ensures var (resp, store') := HandleProbe(body, oracle, parse, now, store);
      && (resp.MissingParameters? ==> store' == store)
      && (resp.CheckFailed? ==> store' == store)
      && (resp.Answered? ==> body.Returned? && ValidateRequest(body.value).Some?
                              && store' == store[RequestKey(ValidateRequest(body.value).value) := resp.answer]
                              && WellFormed(resp.answer))
  {
    if body.Returned? && ValidateRequest(body.value).Some? {
      var req := ValidateRequest(body.value).value;
      PersistWritesOnce(store, RequestKey(req), req.questionId, req.model, req.run,
                        Attempt(req, oracle, parse, now), oracle.successWrite, oracle.failureWrite, now);
    }
  }

  /** A retried probe overwrites the earlier one: after two requests with
      the same key, a 200 to the second leaves exactly its record under the
      key, whatever the first wrote, and the rest of the store as it was. */
  lemma RetryOverwrites(first: Outcome<ProbeFields>, firstOracle: ProbeOracle, firstNow: int,
                        second: Outcome<ProbeFields>, secondOracle: ProbeOracle, secondNow: int,
                        parse: string -> Option<Detection>, store: Store)
    requires first.Returned? && ValidateRequest(first.value).Some?
    requires second.Returned? && ValidateRequest(second.value).Some?
    requires RequestKey(ValidateRequest(first.value).value) == RequestKey(ValidateRequest(second.value).value)
    ensures var (_, store1) := HandleProbe(first, firstOracle, parse, firstNow, store);
      var (resp, store2) := HandleProbe(second, secondOracle, parse, secondNow, store1);
      resp.Answered? ==> store2 == store[RequestKey(ValidateRequest(first.value).value) := resp.answer]
  {
    var (_, store1) := HandleProbe(first, firstOracle, parse, firstNow, store);
    HandleProbeWritesOnce(first, firstOracle, parse, firstNow, store);
    HandleProbeWritesOnce(second, secondOracle, parse, secondNow, store1);
  }

  /** A failing text-generation call is not an HTTP error: as long as the
      failure record can be written, the route answers 200 with a failed
      record that has no answer, no mention, a null position and the error's
      message ("Unknown error" for a thrown non-Error). */
  lemma CollaboratorFailureIsRecorded(fields: ProbeFields, oracle: ProbeOracle, parse: string -> Option<Detection>,
                                      now: int, store: Store)
    requires ValidateRequest(fields).Some?
    requires oracle.answer.Raised? || (oracle.answer.Returned? && oracle.detection.Raised?)
    requires oracle.failureWrite.Stored?
    ensures var (resp, store') := HandleProbe(Returned(fields), oracle, parse, now, store);
      var t := if oracle.answer.Raised? then oracle.answer.thrown else oracle.detection.thrown;
      && resp.Answered?
      && resp.answer.failed && resp.answer.answer == "" && !resp.answer.mentioned
      && resp.answer.position == NullPosition && resp.answer.error == Some(ErrorMessage(t))
      && store' == store[RequestKey(ValidateRequest(fields).value) := resp.answer]
  {
  }

  /** Both calls answering and the write succeeding: the route answers with a
      successful record carrying the model's text and the detection, parsed
      or (when parsing fails) the substring fallback. */
  lemma SuccessIsRecorded(fields: ProbeFields, oracle: ProbeOracle, parse: string -> Option<Detection>,
                          now: int, store: Store)
    requires ValidateRequest(fields).Some?
    requires oracle.answer.Returned? && oracle.detection.Returned? && oracle.successWrite.Stored?
    ensures var (resp, store') := HandleProbe(Returned(fields), oracle, parse, now, store);
      var req := ValidateRequest(fields).value;
      var cleaned := CleanDetection(oracle.detection.value);
      && resp.Answered? && !resp.answer.failed && resp.answer.error.None?
      && resp.answer.answer == oracle.answer.value
      && (parse(cleaned).Some? ==>
            resp.answer.mentioned == parse(cleaned).value.isVisible && resp.answer.position == parse(cleaned).value.position)
      && (parse(cleaned).None? ==>
            resp.answer.mentioned == ContainsIgnoringCase(oracle.answer.value, req.brand) && resp.answer.position == NullPosition)
      && store' == store[RequestKey(req) := resp.answer]
  {
  }

  /** A failed success write is caught like a failed call: the failure
      record, carrying the write's error, is written under the same key. */
  lemma FailedWriteIsRecorded(fields: ProbeFields, oracle: ProbeOracle, parse: string -> Option<Detection>,
                              now: int, store: Store)
    requires ValidateRequest(fields).Some?
    requires oracle.answer.Returned? && oracle.detection.Returned?
    requires oracle.successWrite.WriteFailed? && oracle.failureWrite.Stored?
    ensures var (resp, store') := HandleProbe(Returned(fields), oracle, parse, now, store);
      && resp.Answered? && resp.answer.failed
      && resp.answer.error == Some(ErrorMessage(oracle.successWrite.thrown))
      && store' == store[RequestKey(ValidateRequest(fields).value) := resp.answer]
  {
  }

  /** `run` must be truthy, so repetition 0 is a 400. */
  lemma RunZeroIsRejected(fields: ProbeFields, oracle: ProbeOracle, parse: string -> Option<Detection>, now: int, store: Store)
    requires fields.run == Some(0)
    ensures HandleProbe(Returned(fields), oracle, parse, now, store) == (MissingParameters, store)
  {
  }

  /** A detector reply without fences is only trimmed. */
  lemma CleanDetectionOfPlainText(text: string)
    requires '`' !in text
    ensures CleanDetection(text) == Trim(text)
  {
    RemoveTokenIdentity(text, "```json");
    RemoveTokenIdentity(text, "```");
  }

  /** A reply wrapped as "```json\n" + payload + "\n```" (or with a bare
      "```" opening) cleans to the trimmed payload, when the payload itself
      holds no backtick. */
  lemma CleanDetectionOfFencedText(payload: string)
    requires '`' !in payload
    ensures CleanDetection("```json\n" + payload + "\n```") == Trim(payload)
    ensures CleanDetection("```\n" + payload + "\n```") == Trim(payload)
  {
    var body := payload + "\n";
    FencesRemoved(payload);
    TrimDropsTrailingWhitespace(payload, '\n');
    assert Trim(body) == Trim(payload);
  }

  /** Both fence passes together leave the payload and its newline. */
  lemma FencesRemoved(payload: string)
    requires '`' !in payload
    ensures RemoveToken(RemoveToken("```json\n" + payload + "\n```", "```json"), "```") == payload + "\n"
    ensures RemoveToken(RemoveToken("```\n" + payload + "\n```", "```json"), "```") == payload + "\n"
  {
    var body := payload + "\n";
    var tail := "\n" + (body + "```");
    FenceShapes(payload);
    ClosingFenceRemoved(body);
    JsonOpeningRemoved(body);
    JsonPassKeepsBareFence(body);
    RemoveTokenAtMatch("```", tail);
    assert tail[1..] == body + "```";
  }

  lemma FenceShapes(payload: string)
    ensures "```json\n" + payload + "\n```" == "```json" + ("\n" + ((payload + "\n") + "```"))
    ensures "```\n" + payload + "\n```" == "```" + ("\n" + ((payload + "\n") + "```"))
  {
  }

  lemma JsonOpeningRemoved(body: string)
    requires '`' !in body
    ensures RemoveToken("```json" + ("\n" + (body + "```")), "```json") == body + "```"
  {
    var tail := "\n" + (body + "```");
    assert tail[1..] == body + "```";
    RemoveTokenAtMatch("```json", tail);
    JsonPassKeepsClosingFence(body);
  }

  /** The "```" pass deletes a closing fence after backtick-free text. */
  lemma ClosingFenceRemoved(body: string)
    requires '`' !in body
    ensures RemoveToken(body + "```", "```") == body
  {
    RemoveTokenKeepsPrefix(body, "```", "```");
    RemoveTokenAtMatch("```", "");
    assert "```" + "" == "```";
  }

  /** The "```json" pass leaves backtick-free text and a closing fence alone. */
  lemma JsonPassKeepsClosingFence(body: string)
    requires '`' !in body
    ensures RemoveToken(body + "```", "```json") == body + "```"
  {
    RemoveTokenKeepsPrefix(body, "```", "```json");
    assert "```" == ['`'] + "``" && "``" == ['`'] + "`" && "`" == ['`'] + "";
    RemoveTokenAtMismatch('`', "", "```json");
    RemoveTokenAtMismatch('`', "`", "```json");
    RemoveTokenAtMismatch('`', "``", "```json");
  }

  lemma JsonPassKeepsNewlineBody(body: string)
    requires '`' !in body
    ensures RemoveToken("\n" + (body + "```"), "```json") == "\n" + (body + "```")
  {
    var nb := "\n" + body;
    assert '`' !in nb;
    assert "\n" + (body + "```") == nb + "```";
    JsonPassKeepsClosingFence(nb);
  }

  /** The "```json" pass leaves a bare "```" opening alone. */
  lemma JsonPassKeepsBareFence(body: string)
    requires '`' !in body
    ensures RemoveToken("```" + ("\n" + (body + "```")), "```json") == "```" + ("\n" + (body + "```"))
  {
    var rest := "\n" + (body + "```");
    JsonPassKeepsNewlineBody(body);
    var r2 := ['`'] + rest;
    var r1 := ['`'] + r2;
    var r0 := ['`'] + r1;
    assert r0 == "```" + rest;
    NotPrefixAt("```json", r2, 1);
    NotPrefixAt("```json", r1, 2);
    NotPrefixAt("```json", r0, 3);
    RemoveTokenAtMismatch('`', rest, "```json");
    RemoveTokenAtMismatch('`', r2, "```json");
    RemoveTokenAtMismatch('`', r1, "```json");
  }
}
