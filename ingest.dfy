/** Mapping one pull-request snapshot from the tracker into the entity
    model and recording it (src/github.rs:57-113). */
module Ingest {

  import opened Wrappers
  import opened Data
  import Store
  import StatusCodec

  /** `saturating_from`: values that fit in a `u32` are kept; any value
      whose conversion fails, negative ones included, becomes `u32::MAX`. */
  function SaturatingFrom(v: int): (r: U32)
    ensures 0 <= v <= U32_MAX ==> r == v
    ensures (v < 0 || v > U32_MAX) ==> r == U32_MAX
  {
    if 0 <= v <= U32_MAX then v else U32_MAX
  }

  /** `saturating_from_opt`: an absent value is 0. */
  function SaturatingFromOpt(v: Option<int>): (r: U32)
    ensures v.None? ==> r == 0
    ensures v.Some? ==> r == SaturatingFrom(v.value)
  {
    match v
    case None => 0
    case Some(x) => SaturatingFrom(x)
  }

  /** The values checked by the source's unit test. */
  lemma SaturationExamples()
    ensures SaturatingFrom(42) == 42
    ensures SaturatingFrom(U32_MAX + 500) == U32_MAX
    ensures SaturatingFromOpt(Some(42)) == 42
    ensures SaturatingFromOpt(Some(U32_MAX + 500)) == U32_MAX
    ensures SaturatingFromOpt(None) == 0
  {
  }

  /** The author fields of a snapshot. */
  datatype GhUser = GhUser(id: int, login: string, url: string)

  /** The fields of a tracker snapshot that `record_sample` reads. */
  datatype Pull = Pull(
    id: int,
    number: int,
    title: string,
    body: Option<string>,
    user: GhUser,
    createdAt: string,
    updatedAt: string,
    closedAt: Option<string>,
    mergedAt: Option<string>,
    commits: Option<int>,
    additions: Option<int>,
    deletions: Option<int>,
    changedFiles: Option<int>,
    url: string)

  /** `Status::from_opts`, whose definition is not part of this model. */
  type StatusFromOpts = (Option<string>, Option<string>) -> Status

  /** In `record_data`: the first commit's sha, or "" when there is none. */
  function FirstSha(firstCommit: Option<string>): (sha: string)
    ensures firstCommit.None? ==> sha == ""
    ensures firstCommit.Some? ==> sha == firstCommit.value
  {
    match firstCommit
    case None => ""
    case Some(sha) => sha
  }

  function AuthorOf(pull: Pull): (author: User)
  {
    User(SaturatingFrom(pull.user.id), pull.user.login, pull.user.url)
  }

  function PrOf(pull: Pull): (pr: PullRequest)
  {
    PullRequest(
      SaturatingFrom(pull.id),
      SaturatingFrom(pull.number),
      pull.title,
      match pull.body case None => "" case Some(b) => b,
      AuthorOf(pull),
      NewDate(pull.createdAt),
      pull.url)
  }

  function SampleOf(pull: Pull, firstSha: string, reviewComments: nat, fromOpts: StatusFromOpts): (sample: Sample)
  {
    Sample(
      NewDate(pull.updatedAt),
      PrOf(pull),
      fromOpts(pull.closedAt, pull.mergedAt),
      SaturatingFromOpt(pull.commits),
      SaturatingFromOpt(pull.additions),
      SaturatingFromOpt(pull.deletions),
      SaturatingFromOpt(pull.changedFiles),
      SaturatingFrom(reviewComments),
      Sha(firstSha))
  }

  /** Where each stored value comes from: ids and numbers saturate, a
      missing body is empty, the sample is stamped with `updated_at`, the PR
      with `created_at`, and the sample's PR owns the author just built. */
  lemma SnapshotMapping(pull: Pull, firstSha: string, reviewComments: nat, fromOpts: StatusFromOpts)
    ensures var s := SampleOf(pull, firstSha, reviewComments, fromOpts);
      && s.pr == PrOf(pull)
      && s.pr.author == AuthorOf(pull)
      && (pull.id > U32_MAX ==> s.pr.id == U32_MAX)
      && (pull.number > U32_MAX ==> s.pr.number == U32_MAX)
      && (pull.body.None? ==> s.pr.body == "")
      && ParamStr(s.time) == pull.updatedAt
      && ParamStr(s.pr.created) == pull.createdAt
      && s.reviewComments == (if reviewComments <= U32_MAX then reviewComments else U32_MAX)
      && s.status == fromOpts(pull.closedAt, pull.mergedAt)
  {
  }

  /** Which of the three inserts the database fails. */
  datatype Faults = Faults(user: bool, pr: bool, sample: bool)

  /** `record_sample`: inserts the author, then the PR, then one sample,
      stopping at the first failure. Getting the connection is not
      modelled. */
  method RecordSample(
    db: Store.Database,
    pull: Pull,
    firstSha: string,
    reviewComments: nat,
    fromOpts: StatusFromOpts,
    faults: Faults) returns (res: Result<(), Store.StoreError>)
    requires db.Valid()
    modifies db
    ensures db.Valid()
    ensures res.Success? <==> !faults.user && !faults.pr && !faults.sample
    ensures db.users == if faults.user then old(db.users)
      else Store.InsertOrIgnore(old(db.users), AuthorOf(pull).id, Store.UserRowOf(AuthorOf(pull)))
    ensures db.prs == if faults.user || faults.pr then old(db.prs)
      else Store.InsertOrIgnore(old(db.prs), PrOf(pull).id, Store.PrRowOf(PrOf(pull)))
    ensures db.samples == if res.Success?
      then old(db.samples) + [Store.SampleRowOf(SampleOf(pull, firstSha, reviewComments, fromOpts))]
      else old(db.samples)
    ensures res.Success? ==>
      db.samples[|db.samples| - 1].pr in db.prs && AuthorOf(pull).id in db.users
  {
    var author := AuthorOf(pull);
    res := db.InsertUser(author, faults.user);
    if res.Failure? {
      return;
    }
    var pr := PrOf(pull);
    res := db.InsertPr(pr, faults.pr);
    if res.Failure? {
      return;
    }
    var sample := SampleOf(pull, firstSha, reviewComments, fromOpts);
    res := db.InsertSample(sample, faults.sample);
  }

  /** The sample that `record_sample` appends is read back, unchanged, as
      the last sample of its PR; other PRs' sample lists are untouched. */
  lemma RecordedSampleReadsBack(
    rows: seq<Store.SampleRow>, pull: Pull, firstSha: string, reviewComments: nat,
    fromOpts: StatusFromOpts, other: U32)
    requires other != PrOf(pull).id
    ensures var s := SampleOf(pull, firstSha, reviewComments, fromOpts);
      var row := Store.SampleRowOf(s);
      && Store.SamplesOf(rows + [row], PrOf(pull).id) == Store.SamplesOf(rows, PrOf(pull).id) + [row]
      && Store.SamplesOf(rows + [row], other) == Store.SamplesOf(rows, other)
      && StatusCodec.DecodeDefined(StatusCodec.Text(row.status))
      && Store.SampleFromQuery(row) == Success(Store.SampleView(s))
  {
    var s := SampleOf(pull, firstSha, reviewComments, fromOpts);
    Store.SamplesOfAppend(rows, Store.SampleRowOf(s), PrOf(pull).id);
    Store.SamplesOfAppend(rows, Store.SampleRowOf(s), other);
    Store.SampleRoundTrip(s);
  }
}
