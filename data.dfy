/** Value types shared by the store, the ingestion adapter and the frontend
    (src/data.rs). Integers are unbounded in Dafny; every `u32` of the
    source is the subset type `U32`. */
module Data {

  import opened Wrappers

  const U32_MAX: int := 0xFFFF_FFFF

  /** An unsigned 32-bit integer: every id, number and counter of the source. */
  type U32 = x: int | 0 <= x <= U32_MAX

  /** A timestamp kept as its text, e.g. "2019-05-15 09:25:34". */
  datatype Date = Date(date: string)

  /** A commit identifier; only compared for equality. */
  datatype Sha = Sha(hash: string)

  /** The state of a pull request; only Closed and Merged carry a date. */
  datatype Status = Open | Closed(closedAt: Date) | Merged(mergedAt: Date)

  datatype User = User(id: U32, username: string, url: string)

  /** A pull request owns its author; the author's id is the foreign key
      stored in the pr table. */
  datatype PullRequest = PullRequest(
    id: U32,
    number: U32,
    title: string,
    body: string,
    author: User,
    created: Date,
    url: string)

  /** Per-sample counters as declared in src/data.rs. */
  datatype PrStats = PrStats(
    commits: U32,
    additions: U32,
    deletions: U32,
    changedFiles: U32,
    reviewComments: U32,
    reviewers: U32,
    firstCommit: Sha)

  /** One observation of a pull request, in the flat shape that the
      ingestion adapter builds and the sample table stores: the counters
      sit directly in the sample, and the pull request (which owns its
      author) supplies the foreign key. */
  datatype Sample = Sample(
    time: Date,
    pr: PullRequest,
    status: Status,
    commits: U32,
    additions: U32,
    deletions: U32,
    changedFiles: U32,
    reviewComments: U32,
    firstCommit: Sha)

  /** `Date::new`: wraps the text unchanged. */
  function NewDate(s: string): (d: Date)
  {
    Date(s)
  }

  /** `Date::param_str`: the text the date was built from. */
  function ParamStr(d: Date): (s: string)
  {
    d.date
  }

  /** A date gives back exactly the text it was built from, and is
      rebuilt from that text. */
  lemma DateRoundTrip(s: string, d: Date)
    ensures ParamStr(NewDate(s)) == s && NewDate(s).date == s
    ensures NewDate(ParamStr(d)) == d
  {
  }

  /** Two dates are equal exactly when their texts are. */
  lemma DateEqualityIsTextual(a: Date, b: Date)
    ensures a == b <==> ParamStr(a) == ParamStr(b)
  {
  }

  /** Only Closed and Merged carry a date, and a status is exactly one tag. */
  function StatusDate(s: Status): (d: Option<Date>)
    ensures d.None? <==> s.Open?
    ensures s.Closed? ==> d == Some(s.closedAt)
    ensures s.Merged? ==> d == Some(s.mergedAt)
  {
    match s
    case Open => None
    case Closed(at) => Some(at)
    case Merged(at) => Some(at)
  }
}
