/** The records a run keeps in the store and the status snapshot derived from
    them (lib/upstash.ts), plus the shapes in which foreign calls answer. */
module Records {
  import opened Wrappers

  /** `BrandContext`: written once per run under `<runId>:context`. */
  datatype BrandContext = BrandContext(brand: string, context: string, timestamp: int)

  /** `Question`: one of the questions stored under `<runId>:questions`. */
  datatype Question = Question(id: string, question: string)

  /** An entry of the model roster: the id sent to the answering service and
      the display name shown in result rows. */
  datatype ModelInfo = ModelInfo(id: string, name: string)

  /** `position: number | null` as it can arrive: `null`, absent (`undefined`,
      when the detector's JSON has no `position` field), or a number. */
  datatype Position = NullPosition | Undefined | Rank(n: int)

  /** `VisibilityAnswer`: one probe's stored record. */
  datatype VisibilityAnswer = VisibilityAnswer(
    questionId: string,
    model: string,
    run: int,
    answer: string,
    mentioned: bool,
    position: Position,
    timestamp: int,
    failed: bool,
    error: Option<string>)

  /** `!a.failed`: the probe produced an answer. */
  predicate Succeeded(a: VisibilityAnswer) { !a.failed }

  /** `a.failed`: the probe's calls threw and a failure record was stored. */
  predicate HasFailed(a: VisibilityAnswer) { a.failed }

  /** `a.mentioned`: the detector found the brand in the answer. */
  predicate IsMentioned(a: VisibilityAnswer) { a.mentioned }

  /** The workflow stage reported in `RunStatus.status`. */
  datatype Stage = Pending | Context | Questions | Checking | Complete | Failed

  /** `RunStatus`: the snapshot the status route derives on every read. */
  datatype RunStatus = RunStatus(
    runId: string,
    brand: string,
    context: Option<BrandContext>,
    questions: Option<seq<Question>>,
    answers: seq<VisibilityAnswer>,
    totalAnswers: int,
    completedAnswers: int,
    status: Stage)

  /** A value thrown by a foreign call: an `Error` with a message, or anything else. */
  datatype Thrown = ErrorObject(message: string) | NonError

  /** The outcome of a foreign call (a text-generation call, `request.json()`). */
  datatype Outcome<+T> = Returned(value: T) | Raised(thrown: Thrown)

  /** The outcome of a `redis.set`. */
  datatype WriteOutcome = Stored | WriteFailed(thrown: Thrown)

  /** `err instanceof Error ? err.message : "Unknown error"`. */
  function ErrorMessage(t: Thrown): string {
    match t
    case ErrorObject(m) => m
    case NonError => "Unknown error"
  }
}
