/** What travels from the agent to the server: identifiers, token counters and usage events. */
module Wire {
  import opened Wrappers

  // Nanoseconds. 0 is the zero time, which is also what an empty column parses to.
  type Instant = int

  // A digest is its list of parts: hashing is taken to be injective.
  datatype Part = Text(text: string) | Number(number: int) | Nested(id: Id)
  datatype Id = Digest(parts: seq<Part>) | Raw(raw: string)

  function IdLength(id: Id): nat {
    match id
    case Digest(_) => 64
    case Raw(s) => |s|
  }

  datatype Tokens = Tokens(input: int, cached: int, cacheWrite: int, output: int, reasoning: int, total: int) {
    function Plus(other: Tokens): Tokens {
      Tokens(input + other.input, cached + other.cached, cacheWrite + other.cacheWrite,
             output + other.output, reasoning + other.reasoning, total + other.total)
    }

    predicate NonNegative() {
      0 <= input && 0 <= cached && 0 <= cacheWrite && 0 <= output && 0 <= reasoning && 0 <= total
    }

    predicate AtMost(bound: int) {
      input <= bound && cached <= bound && cacheWrite <= bound && output <= bound && reasoning <= bound && total <= bound
    }
  }

  const ZERO := Tokens(0, 0, 0, 0, 0, 0)

  datatype Kind = Baseline | ExactUsage | LiveEstimate | Activity | Runtime | Unrecognised(name: string)

  datatype UsageEvent = UsageEvent(
    eventId: Id,
    hostId: string,
    sourceId: string,
    byteOffset: int,
    sourceEpoch: int,
    kind: Kind,
    at: Instant,
    conversationId: string,
    parentId: string,
    turnId: string,
    responseId: string,
    contextWindow: int,
    counts: Tokens,
    cacheWriteVisible: bool,
    liveEstimate: int,
    runState: string)

  const TOKEN_LIMIT := 1_000_000_000_000

  /** The admission test every event of a batch must pass. */
  predicate ValidUsageEvent(e: UsageEvent) {
    && 0 < IdLength(e.eventId) <= 128
    && 0 < |e.conversationId| <= 256
    && |e.sourceId| <= 256
    && !e.kind.Unrecognised?
    && (e.kind.Runtime? ==> e.runState == "running" || e.runState == "idle")
    && e.counts.NonNegative() && e.counts.AtMost(TOKEN_LIMIT)
    && 0 <= e.liveEstimate <= TOKEN_LIMIT
    && 0 <= e.contextWindow <= TOKEN_LIMIT
  }
}
