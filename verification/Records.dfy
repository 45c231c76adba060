/** The rows of the tables (backend/app/models) and the settings of the pipeline. Times are whole ticks. */
module Records {
  import opened Wrappers
  import opened Detectors
  import opened Prompts
  import opened Regex

  type Time = int

  datatype Level = Info | Warn | Error | Critical

  datatype Event = Event(service: string, level: Level, signature: string, timestamp: Time)

  datatype Anomaly = Anomaly(
    service: string,
    signature: Option<string>,
    strategy: Strategy,
    score: Score,
    baselineValue: real,
    currentValue: real,
    windowStart: Time,
    windowEnd: Time)

  /** A stored anomaly and the incident it is linked to. */
  datatype Row = Row(anomaly: Anomaly, incident: Option<nat>)

  datatype Severity = Low | Medium | High | Severe {
    function Rank(): nat {
      match this
      case Low => 0
      case Medium => 1
      case High => 2
      case Severe => 3
    }
  }

  datatype Status = Open | Investigating | Mitigated | Resolved

  datatype Reference = Reference(slug: string, title: string)

  /** What triage writes onto an incident; the category is never missing in it. */
  datatype Report = Report(
    category: Category,
    rootCause: string,
    summary: string,
    confidence: real,
    actions: seq<string>,
    references: seq<Reference>)

  datatype Incident = Incident(
    service: string,
    severity: Severity,
    status: Status,
    createdAt: Time,
    updatedAt: Time,
    resolvedAt: Option<Time>,
    report: Option<Report>)

  datatype Alert = Alert(incident: nat, channel: string, dedupKey: string, createdAt: Time)

  datatype Agent = Classification | RootCause | Remediation | ExecutiveSummary

  /** The failures of the model that an agent handles. */
  datatype Failure = Timeout | ResponseInvalid | RateLimited | AuthError

  datatype Outcome = Answered | Failed(failure: Failure)

  /** One call of the model, as it is logged. */
  datatype Call = Call(agent: Agent, prompt: string, outcome: Outcome)

  datatype Record = Record(incident: nat, call: Call)

  /** The tables. An incident's identity is its position. */
  datatype Store = Store(
    events: seq<Event>,
    anomalies: seq<Row>,
    incidents: seq<Incident>,
    alerts: seq<Alert>,
    records: seq<Record>)

  datatype Config = Config(
    bucket: int,
    minSamples: int,
    zThreshold: real,
    ewmaAlpha: real,
    ewmaDrift: real,
    burstMultiplier: real,
    burstFloor: int,
    correlationWindow: nat,
    rateLimit: nat,
    channels: seq<string>)
  {
    /** Detection divides by the bucket and smooths a baseline of minSamples buckets. */
    predicate Valid() { bucket > 0 && minSamples > 0 }
  }

  datatype Classified = Classified(category: Category, confidence: real)
  datatype Cause = Cause(rootCause: string, confidence: real)

  /** The model: to the n-th call ever made and a prompt, an answer or a handled failure. */
  datatype Llm = Llm(
    classify: (nat, string) -> Result<Classified, Failure>,
    analyze: (nat, string) -> Result<Cause, Failure>,
    recommend: (nat, string) -> Result<seq<string>, Failure>,
    summarize: (nat, string) -> Result<string, Failure>)

  /** What a call of the client comes to: an answer or a handled failure, or an exception that no agent handles. */
  datatype Reply<+T> = Gives(result: Result<T, Failure>) | Raises

  datatype Client = Client(
    classify: (nat, string) -> Reply<Classified>,
    analyze: (nat, string) -> Reply<Cause>,
    recommend: (nat, string) -> Reply<seq<string>>,
    summarize: (nat, string) -> Reply<string>)

  datatype Env = Env(
    config: Config,
    unicode: Unicode,
    wording: Wording,
    llm: Llm,
    retrieve: string -> seq<Excerpt>)
}
