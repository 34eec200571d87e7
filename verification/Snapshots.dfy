/** What a dashboard snapshot holds: one row per conversation with usage in the range, and its headline fields. */
module Snapshots {
  import opened Wire

  type Key = (string, string)  // host, conversation

  datatype Row = Row(
    key: Key,
    parent: string,
    project: string,
    lastEventAt: string,
    counts: Tokens,
    apiCost: real,
    vercelCost: real,
    credits: real)

  datatype ProjectRow = ProjectRow(
    host: string,
    project: string,
    roots: set<string>,
    records: int,
    input: int,
    output: int,
    total: int,
    apiCost: real,
    vercelCost: real,
    credits: real)

  // `revision` numbers the views of this process; `dataRevision` is the ingest watermark the view was read at.
  datatype Head = Head(
    epoch: string,
    queryKey: string,
    revision: int,
    dataRevision: int,
    fullRevision: int,
    ledgerRevision: int,
    period: string,
    rangeStart: Instant,
    rangeEnd: Instant,
    totals: Tokens,
    projects: seq<ProjectRow>,
    exchangeRate: real)

  datatype Snapshot = Snapshot(head: Head, sessions: seq<Row>)

  /** No row twice, and no key twice. */
  ghost predicate DistinctKeys(list: seq<Row>) {
    && (forall r :: r in list ==> multiset(list)[r] == 1)
    && (forall a, b :: a in list && b in list && a.key == b.key ==> a == b)
  }
}
