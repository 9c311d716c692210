/** The sample store (src/db.rs): three SQLite tables seen abstractly.
    `user` and `pr` are keyed by their INTEGER PRIMARY KEY `id` and written
    with INSERT OR IGNORE, so the first write wins; `sample` has an
    automatic row id that no insert supplies, so every insert appends.
    Reading back joins each PR with its author, orders by number and
    attaches the PR's samples. */
module Store {

  import opened Wrappers
  import Data
  import opened StatusCodec
  import opened Rollup

  type U32 = Data.U32

  datatype StoreError = SqliteFailure | FromSql(cause: FromSqlError)

  /** The (unused) time range argument of `read_prs`. */
  datatype Range = Range(start: Data.Date, end: Data.Date)

  // ---------------------------------------------------------------------
  // Table rows. The primary key of `user` and `pr` is the map key; the row
  // id of a sample is its position in the table plus one.

  datatype UserRow = UserRow(username: string, url: string)

  /** `author` holds the author's user id (`ToSql for User` writes the id). */
  datatype PrRow = PrRow(
    number: U32,
    title: string,
    body: string,
    author: U32,
    created: string,
    url: string)

  /** `pr` holds the PR's id (`ToSql for PullRequest` writes the id);
      `status` holds the encoded status text. */
  datatype SampleRow = SampleRow(
    pr: U32,
    status: string,
    time: string,
    commits: U32,
    additions: U32,
    deletions: U32,
    changedFiles: U32,
    reviewComments: U32,
    firstCommit: string)

  function UserRowOf(u: Data.User): (row: UserRow)
  {
    UserRow(u.username, u.url)
  }

  function PrRowOf(p: Data.PullRequest): (row: PrRow)
  {
    PrRow(p.number, p.title, p.body, p.author.id, p.created.date, p.url)
  }

  function SampleRowOf(s: Data.Sample): (row: SampleRow)
  {
    SampleRow(s.pr.id, Encode(s.status), s.time.date, s.commits, s.additions,
              s.deletions, s.changedFiles, s.reviewComments, s.firstCommit.hash)
  }

  // ---------------------------------------------------------------------
  // Shapes that `read_prs` returns (`from_query` record shapes).

  datatype User = User(username: string, url: string)

  datatype Sample = Sample(
    time: Data.Date,
    status: Data.Status,
    commits: U32,
    additions: U32,
    deletions: U32,
    changedFiles: U32,
    reviewComments: U32,
    firstCommit: Data.Sha)

  datatype PullRequest = PullRequest(
    number: U32,
    title: string,
    body: string,
    author: User,
    created: Data.Date,
    url: string,
    samples: seq<Sample>)

  /** One row of the join `pr, user WHERE pr.author = user.id`. */
  datatype PrJoinRow = PrJoinRow(
    id: U32,
    number: U32,
    title: string,
    body: string,
    username: string,
    userUrl: string,
    created: string,
    url: string)

  // ---------------------------------------------------------------------
  // INSERT OR IGNORE on a primary key.

  /** The table after `INSERT OR IGNORE` of row `v` with key `k`. */
  function InsertOrIgnore<K, V>(m: map<K, V>, k: K, v: V): (r: map<K, V>)
    ensures k in r && r[k] == (if k in m then m[k] else v)
    ensures r.Keys == m.Keys + {k}
    ensures forall j :: j in m ==> r[j] == m[j]
  {
    if k in m then m else m[k := v]
  }

  /** A second write with the same key changes nothing, whatever its row. */
  lemma InsertOrIgnoreFirstWins<K, V>(m: map<K, V>, k: K, v1: V, v2: V)
    ensures InsertOrIgnore(InsertOrIgnore(m, k, v1), k, v2) == InsertOrIgnore(m, k, v1)
  {
  }

  /** An insert adds exactly one row when the key is new and none otherwise. */
  lemma InsertOrIgnoreSize<K, V>(m: map<K, V>, k: K, v: V)
    ensures |InsertOrIgnore(m, k, v)| == if k in m then |m| else |m| + 1
  {
    if k !in m {
      assert InsertOrIgnore(m, k, v).Keys == m.Keys + {k};
    }
  }

  // ---------------------------------------------------------------------
  // The database.

  /** Every stored status text can be read back. */
  ghost predicate WellFormedStatuses(rows: seq<SampleRow>)
  {
    forall x :: x in rows ==> WellFormedText(x.status)
  }

  /** Reading a status never panics: no empty text, no short 'C'/'M' text. */
  predicate ReadableStatuses(rows: seq<SampleRow>)
  {
    forall x :: x in rows ==> DecodeDefined(Text(x.status))
  }

  /** Reading a status never panics for the samples that `read` fetches:
      those of PRs whose author is stored. */
  predicate ReadableJoinedStatuses(prs: map<U32, PrRow>, users: map<U32, UserRow>, rows: seq<SampleRow>)
  {
    forall x :: x in rows && x.pr in prs && prs[x.pr].author in users ==> DecodeDefined(Text(x.status))
  }

  class Database {
    var users: map<U32, UserRow>
    var prs: map<U32, PrRow>
    var samples: seq<SampleRow>

    /** Statuses only ever reach the table through `Encode`. */
    ghost predicate Valid()
      reads this
    {
      WellFormedStatuses(samples)
    }

    /** A freshly initialised database: three empty tables. */
    constructor ()
      ensures Valid()
      ensures users == map[] && prs == map[] && samples == []
    {
      users, prs, samples := map[], map[], [];
    }

    /** `User::insert_into`: first write wins on `id`. `fault` stands for
        the database reporting an error, which leaves the table as it was. */
    method InsertUser(u: Data.User, fault: bool) returns (res: Result<(), StoreError>)
      requires Valid()
      modifies this
      ensures Valid()
      ensures res.Success? <==> !fault
      ensures users == if fault then old(users) else InsertOrIgnore(old(users), u.id, UserRowOf(u))
      ensures prs == old(prs) && samples == old(samples)
    {
      if fault {
        return Failure(SqliteFailure);
      }
      if u.id !in users {
        users := users[u.id := UserRowOf(u)];
      }
      res := Success(());
    }

    /** `PullRequest::insert_into`: first write wins on `id`; the author
        column gets the author's id. */
    method InsertPr(p: Data.PullRequest, fault: bool) returns (res: Result<(), StoreError>)
      requires Valid()
      modifies this
      ensures Valid()
      ensures res.Success? <==> !fault
      ensures prs == if fault then old(prs) else InsertOrIgnore(old(prs), p.id, PrRowOf(p))
      ensures users == old(users) && samples == old(samples)
    {
      if fault {
        return Failure(SqliteFailure);
      }
      if p.id !in prs {
        prs := prs[p.id := PrRowOf(p)];
      }
      res := Success(());
    }

    /** `Sample::insert_into`: the row id is not among the inserted columns,
        so nothing can conflict and exactly one row is appended. No foreign
        key is declared, so the PR need not exist. */
    method InsertSample(s: Data.Sample, fault: bool) returns (res: Result<(), StoreError>)
      requires Valid()
      modifies this
      ensures Valid()
      ensures res.Success? <==> !fault
      ensures samples == if fault then old(samples) else old(samples) + [SampleRowOf(s)]
      ensures users == old(users) && prs == old(prs)
    {
      if fault {
        return Failure(SqliteFailure);
      }
      samples := samples + [SampleRowOf(s)];
      res := Success(());
    }
  }

  // ---------------------------------------------------------------------
  // Reading PRs back.

  function JoinRow(id: U32, p: PrRow, u: UserRow): (row: PrJoinRow)
  {
    PrJoinRow(id, p.number, p.title, p.body, u.username, u.url, p.created, p.url)
  }

  /** The rows of the join restricted to the PR ids in `keys`. */
  ghost function JoinedOver(prs: map<U32, PrRow>, users: map<U32, UserRow>, keys: set<U32>): (joined: set<PrJoinRow>)
  {
    set id | id in keys && id in prs && prs[id].author in users :: JoinRow(id, prs[id], users[prs[id].author])
  }

  ghost predicate SortedByNumber(rows: seq<PrJoinRow>)
  {
    forall i, j :: 0 <= i < j < |rows| ==> rows[i].number <= rows[j].number
  }

  /** What the SELECT of `PrReader::init` returns: every PR whose author is
      in the user table, exactly once, ordered by number. */
  ghost predicate IsPrQuery(prs: map<U32, PrRow>, users: map<U32, UserRow>, rows: seq<PrJoinRow>)
  {
    SortedByNumber(rows) && multiset(rows) == multiset(JoinedOver(prs, users, prs.Keys))
  }

  /** Places `x` after every row whose number is not larger. */
  function InsertByNumber(rows: seq<PrJoinRow>, x: PrJoinRow): (r: seq<PrJoinRow>)
    requires SortedByNumber(rows)
    ensures SortedByNumber(r)
    ensures multiset(r) == multiset(rows) + multiset{x}
  {
    if rows == [] then [x]
    else if x.number < rows[0].number then
      SortedCons(x, rows);
      [x] + rows
    else
      var tail := InsertByNumber(rows[1..], x);
      assert rows == [rows[0]] + rows[1..];
      BoundedByMultiset(rows[0].number, rows[1..], x, tail);
      SortedCons(rows[0], tail);
      [rows[0]] + tail
  }

  /** A row no larger than every row of a sorted list may go in front. */
  lemma SortedCons(x: PrJoinRow, rows: seq<PrJoinRow>)
    requires SortedByNumber(rows)
    requires forall k :: 0 <= k < |rows| ==> x.number <= rows[k].number
    ensures SortedByNumber([x] + rows)
  {
  }

  /** A lower bound on the numbers of `rows` and of `x` bounds every row of
      a rearrangement of them. */
  lemma BoundedByMultiset(n: int, rows: seq<PrJoinRow>, x: PrJoinRow, r: seq<PrJoinRow>)
    requires multiset(r) == multiset(rows) + multiset{x}
    requires n <= x.number
    requires forall k :: 0 <= k < |rows| ==> n <= rows[k].number
    ensures forall k :: 0 <= k < |r| ==> n <= r[k].number
  {
    forall k | 0 <= k < |r|
      ensures n <= r[k].number
    {
      assert r[k] in multiset(r);
    }
  }

  lemma JoinedOverStep(prs: map<U32, PrRow>, users: map<U32, UserRow>, keys: set<U32>, id: U32)
    requires id in prs && id !in keys
    ensures prs[id].author in users ==>
      JoinRow(id, prs[id], users[prs[id].author]) !in JoinedOver(prs, users, keys) &&
      JoinedOver(prs, users, keys + {id}) == JoinedOver(prs, users, keys) + {JoinRow(id, prs[id], users[prs[id].author])}
    ensures prs[id].author !in users ==> JoinedOver(prs, users, keys + {id}) == JoinedOver(prs, users, keys)
  {
  }

  /** A row of the join belongs to a stored PR whose author is stored. */
  lemma JoinedRowIsStored(prs: map<U32, PrRow>, users: map<U32, UserRow>, keys: set<U32>, row: PrJoinRow)
    requires row in JoinedOver(prs, users, keys)
    ensures row.id in prs && prs[row.id].author in users
  {
  }

  lemma MultisetOfSetAdd<T>(s: set<T>, x: T)
    requires x !in s
    ensures multiset(s + {x}) == multiset(s) + multiset{x}
  {
  }

  /** The join-and-order SELECT, as the database engine evaluates it. */
  method QueryPrs(db: Database) returns (rows: seq<PrJoinRow>)
    ensures IsPrQuery(db.prs, db.users, rows)
  {
    rows := [];
    var pending := db.prs.Keys;
    while pending != {}
      invariant pending <= db.prs.Keys
      invariant SortedByNumber(rows)
      invariant multiset(rows) == multiset(JoinedOver(db.prs, db.users, db.prs.Keys - pending))
      decreases pending
    {
      var id :| id in pending;
      var done := db.prs.Keys - pending;
      JoinedOverStep(db.prs, db.users, done, id);
      pending := pending - {id};
      assert db.prs.Keys - pending == done + {id};
      var p := db.prs[id];
      if p.author in db.users {
        var row := JoinRow(id, p, db.users[p.author]);
        MultisetOfSetAdd(JoinedOver(db.prs, db.users, done), row);
        rows := InsertByNumber(rows, row);
      }
    }
  }

  /** The samples of one PR, in row order (the samples SELECT has no ORDER BY;
      row order is what the model returns). */
  function SamplesOf(rows: seq<SampleRow>, pr: U32): (r: seq<SampleRow>)
    ensures forall x :: x in r <==> x in rows && x.pr == pr
  {
    if rows == [] then []
    else
      var last := rows[|rows| - 1];
      SamplesOf(rows[..|rows| - 1], pr) + (if last.pr == pr then [last] else [])
  }

  /** Appending a row extends exactly the sample list of its own PR. */
  lemma {:induction false} SamplesOfAppend(rows: seq<SampleRow>, x: SampleRow, pr: U32)
    ensures SamplesOf(rows + [x], pr) == SamplesOf(rows, pr) + (if x.pr == pr then [x] else [])
  {
    assert (rows + [x])[..|rows|] == rows;
  }

  /** `Sample::from_query`: the status column goes through `Decode`. */
  function SampleFromQuery(row: SampleRow): (r: Result<Sample, StoreError>)
    requires DecodeDefined(Text(row.status))
    ensures r.Success? <==> WellFormedText(row.status)
    ensures r.Failure? ==> r.error == FromSql(InvalidType)
    ensures r.Success? ==> Success(r.value.status) == Decode(Text(row.status))
    ensures r.Success? ==> Data.ParamStr(r.value.time) == row.time && r.value.firstCommit.hash == row.firstCommit
    ensures r.Success? ==>
      && r.value.commits == row.commits && r.value.additions == row.additions
      && r.value.deletions == row.deletions && r.value.changedFiles == row.changedFiles
      && r.value.reviewComments == row.reviewComments
  {
    match Decode(Text(row.status))
    case Failure(e) => Failure(FromSql(e))
    case Success(st) =>
      Success(Sample(Data.Date(row.time), st, row.commits, row.additions, row.deletions,
                     row.changedFiles, row.reviewComments, Data.Sha(row.firstCommit)))
  }

  /** What reading back a stored sample should give. */
  function SampleView(s: Data.Sample): (v: Sample)
  {
    Sample(s.time, s.status, s.commits, s.additions, s.deletions, s.changedFiles,
           s.reviewComments, s.firstCommit)
  }

  /** A sample written by `InsertSample` reads back unchanged (the PR it
      belongs to becomes the row's `pr` column). */
  lemma SampleRoundTrip(s: Data.Sample)
    ensures DecodeDefined(Text(SampleRowOf(s).status))
    ensures SampleFromQuery(SampleRowOf(s)) == Success(SampleView(s))
    ensures SampleRowOf(s).pr == s.pr.id
  {
    DecodeEncode(s.status);
  }

  /** `collect_query` over `Sample::from_query`: the first failure wins. */
  function DecodeAll(rows: seq<SampleRow>): (r: Result<seq<Sample>, StoreError>)
    requires ReadableStatuses(rows)
    ensures r.Success? <==> WellFormedStatuses(rows)
    ensures r.Success? ==> |r.value| == |rows|
    ensures r.Success? ==> forall i :: 0 <= i < |rows| ==> SampleFromQuery(rows[i]) == Success(r.value[i])
  {
    if rows == [] then Success([])
    else
      match SampleFromQuery(rows[0])
      case Failure(e) => Failure(e)
      case Success(s) =>
        match DecodeAll(rows[1..])
        case Failure(e) => Failure(e)
        case Success(rest) => Success([s] + rest)
  }

  /** `PullRequest::from_query`: the columns it names, the default author
      and no samples yet; `read` fills in the other two. */
  function PullRequestFromQuery(row: PrJoinRow): (pr: PullRequest)
    ensures pr.author == User("", "") && pr.samples == []
    ensures pr.(author := User(row.username, row.userUrl)) == PrFromRow(row, [])
  {
    PullRequest(row.number, row.title, row.body, User("", ""), Data.Date(row.created), row.url, [])
  }

  /** `User::from_query`: the username only; the url is filled in later. */
  function UserFromQuery(row: PrJoinRow): (u: User)
    ensures u.url == "" && u.(url := row.userUrl) == PrFromRow(row, []).author
  {
    User(row.username, "")
  }

  /** The PR that `read` builds from one join row and its samples. */
  function PrFromRow(row: PrJoinRow, samples: seq<Sample>): (pr: PullRequest)
  {
    PullRequest(row.number, row.title, row.body, User(row.username, row.userUrl),
                Data.Date(row.created), row.url, samples)
  }

  /** The samples of every row of the join can be read without panicking. */
  lemma JoinedSamplesReadable(prs: map<U32, PrRow>, users: map<U32, UserRow>, samples: seq<SampleRow>, rows: seq<PrJoinRow>)
    requires ReadableJoinedStatuses(prs, users, samples)
    requires IsPrQuery(prs, users, rows)
    ensures forall i :: 0 <= i < |rows| ==> ReadableStatuses(SamplesOf(samples, rows[i].id))
  {
    forall k | 0 <= k < |rows|
      ensures ReadableStatuses(SamplesOf(samples, rows[k].id))
    {
      assert rows[k] in multiset(rows);
      JoinedRowIsStored(prs, users, prs.Keys, rows[k]);
    }
  }

  /** One iteration of `read`: the PR of one join row, with its samples
      (src/db.rs:266-274); fails on the first sample that does not decode. */
  function ReadRow(samples: seq<SampleRow>, row: PrJoinRow): (r: Result<PullRequest, StoreError>)
    requires ReadableStatuses(SamplesOf(samples, row.id))
    ensures r.Success? <==> WellFormedStatuses(SamplesOf(samples, row.id))
    ensures r.Success? ==> r.value == PrFromRow(row, DecodeAll(SamplesOf(samples, row.id)).value)
  {
    match DecodeAll(SamplesOf(samples, row.id))
    case Failure(e) => Failure(e)
    case Success(decoded) =>
      var pr := PullRequestFromQuery(row).(samples := decoded);
      var author := UserFromQuery(row);
      Success(pr.(author := author.(url := row.userUrl)))
  }

  /** The loop of `read`: one PR per join row, with its samples, stopping
      at the first row that fails. */
  method ReadJoined(samples: seq<SampleRow>, query: seq<PrJoinRow>) returns (r: Result<seq<PullRequest>, StoreError>)
    requires forall i :: 0 <= i < |query| ==> ReadableStatuses(SamplesOf(samples, query[i].id))
    ensures r.Success? <==> forall i :: 0 <= i < |query| ==> ReadRow(samples, query[i]).Success?
    ensures r.Success? ==> |r.value| == |query|
    ensures r.Success? ==> forall i :: 0 <= i < |query| ==> ReadRow(samples, query[i]) == Success(r.value[i])
  {
    var result: seq<PullRequest> := [];
    var i := 0;
    while i < |query|
      invariant 0 <= i <= |query|
      invariant |result| == i
      invariant forall k :: 0 <= k < i ==> ReadRow(samples, query[k]) == Success(result[k])
    {
      var pr := ReadRow(samples, query[i]);
      if pr.Failure? {
        r := Failure(pr.error);
        return;
      }
      result := result + [pr.value];
      i := i + 1;
    }
    r := Success(result);
  }

  /** `read_prs` / `PrReader::read`: every PR whose author is stored, in
      number order, with its author's name and url and all its samples. The
      range is not used. `rows` is the join the engine produced; `fault`
      says whether the engine fails preparing or stepping the two SELECTs. */
  method ReadPrs(db: Database, times: Range, fault: bool)
      returns (r: Result<seq<PullRequest>, StoreError>, ghost rows: seq<PrJoinRow>)
    requires ReadableJoinedStatuses(db.prs, db.users, db.samples)
    ensures fault ==> r == Failure(SqliteFailure)
    ensures !fault ==> IsPrQuery(db.prs, db.users, rows)
    ensures !fault ==> forall i :: 0 <= i < |rows| ==> ReadableStatuses(SamplesOf(db.samples, rows[i].id))
    ensures !fault ==>
      (r.Success? <==> forall i :: 0 <= i < |rows| ==> WellFormedStatuses(SamplesOf(db.samples, rows[i].id)))
    ensures r.Success? ==> |r.value| == |rows|
    ensures r.Success? ==> forall i :: 0 <= i < |rows| ==>
      r.value[i] == PrFromRow(rows[i], DecodeAll(SamplesOf(db.samples, rows[i].id)).value)
    ensures r.Success? ==> forall i, j :: 0 <= i < j < |r.value| ==> r.value[i].number <= r.value[j].number
    ensures !fault && WellFormedStatuses(db.samples) ==> r.Success?
  {
    if fault {
      return Failure(SqliteFailure), [];
    }
    var query := QueryPrs(db);
    rows := query;
    JoinedSamplesReadable(db.prs, db.users, db.samples, query);
    r := ReadJoined(db.samples, query);
    if r.Success? {
      forall i, j | 0 <= i < j < |r.value|
        ensures r.value[i].number <= r.value[j].number
      {
        assert r.value[i].number == query[i].number && r.value[j].number == query[j].number;
      }
    }
  }

  /** A PR stored by `InsertPr` whose author was stored by `InsertUser`
      reads back with its own fields and its author's name and url. */
  lemma PrReadBack(p: Data.PullRequest, samples: seq<Sample>)
    ensures var row := JoinRow(p.id, PrRowOf(p), UserRowOf(p.author));
      PrFromRow(row, samples) ==
        PullRequest(p.number, p.title, p.body, User(p.author.username, p.author.url), p.created, p.url, samples)
  {
  }

  /** Two distinct rows with different numbers have exactly one sorted order. */
  lemma SortedPairIsDetermined(rows: seq<PrJoinRow>, a: PrJoinRow, b: PrJoinRow)
    requires a.number < b.number
    requires SortedByNumber(rows) && multiset(rows) == multiset{a, b}
    ensures rows == [a, b]
  {
    assert |rows| == |multiset(rows)| == 2;
    assert rows == [rows[0], rows[1]];
    assert rows[0] in multiset(rows) && rows[1] in multiset(rows);
    assert multiset(rows)[a] == 1 && multiset(rows)[b] == 1;
  }

  /** The join of two PRs whose author is the one stored user. */
  lemma JoinOfTwo(a: PrRow, b: PrRow, u: UserRow)
    requires a.author == 42 && b.author == 42
    ensures JoinedOver(map[1 := a, 2 := b], map[42 := u], {1, 2}) == {JoinRow(1, a, u), JoinRow(2, b, u)}
  {
  }

  const BOB: Data.User := Data.User(42, "bob", "https://bob")
  const DATE1: Data.Date := Data.Date("2019-05-15 09:25:34")
  const DATE2: Data.Date := Data.Date("2019-05-14 09:15:13")
  const PR0: Data.PullRequest := Data.PullRequest(1, 101, "PR number 0", "Body of PR number 0", BOB, DATE1, "https://pr0")
  const PR1: Data.PullRequest := Data.PullRequest(2, 102, "PR number 1", "Body of PR number 1", BOB, DATE2, "https://pr1")

  /** The inserts of the `insert_and_read` test: two PRs by the same
      author, each inserted together with the author, give two PR rows and
      one user row. */
  method InsertTwoPrs() returns (db: Database)
    ensures db.prs == map[1 := PrRowOf(PR0), 2 := PrRowOf(PR1)]
    ensures db.users == map[42 := UserRowOf(BOB)] && |db.users| == 1
    ensures db.samples == []
  {
    db := new Database();
    var _ := db.InsertPr(PR0, false);
    var _ := db.InsertUser(BOB, false);
    var _ := db.InsertPr(PR1, false);
    var _ := db.InsertUser(BOB, false);
  }

  /** Reading them back gives both PRs in number order, with the author's
      name and url and no samples; the range passed is not used. */
  method InsertAndReadScenario() returns (prs: Result<seq<PullRequest>, StoreError>)
    ensures prs == Success([
      PullRequest(101, "PR number 0", "Body of PR number 0", User("bob", "https://bob"), DATE1, "https://pr0", []),
      PullRequest(102, "PR number 1", "Body of PR number 1", User("bob", "https://bob"), DATE2, "https://pr1", [])])
  {
    var db := InsertTwoPrs();
    ghost var rows: seq<PrJoinRow>;
    prs, rows := ReadPrs(db, Range(DATE1, DATE1), false);
    var j0 := JoinRow(1, PrRowOf(PR0), UserRowOf(BOB));
    var j1 := JoinRow(2, PrRowOf(PR1), UserRowOf(BOB));
    assert db.prs.Keys == {1, 2};
    JoinOfTwo(PrRowOf(PR0), PrRowOf(PR1), UserRowOf(BOB));
    SortedPairIsDetermined(rows, j0, j1);
    assert SamplesOf(db.samples, 1) == [] && SamplesOf(db.samples, 2) == [];
    assert DecodeAll([]) == Success([]);
    assert prs.Success? && |prs.value| == 2;
    assert prs.value[0] == PullRequest(101, "PR number 0", "Body of PR number 0", User("bob", "https://bob"), DATE1, "https://pr0", []);
    assert prs.value[1] == PullRequest(102, "PR number 1", "Body of PR number 1", User("bob", "https://bob"), DATE2, "https://pr1", []);
    assert prs.value == [prs.value[0], prs.value[1]];
  }

  // ---------------------------------------------------------------------
  // Open samples per day.

  /** SQLite's `date(time)` for the "YYYY-MM-DD HH:MM:SS" texts stored
      here: the leading ten characters. */
  function DatePart(time: string): (day: string)
    ensures day <= time
    ensures |time| >= 10 ==> |day| == 10
  {
    if |time| >= 10 then time[..10] else time
  }

  /** The status text that `WHERE sample.status = 'Open'` matches. */
  const OPEN_TEXT: string := "Open"

  predicate CountsAsOpenOn(row: SampleRow, day: string)
  {
    row.status == OPEN_TEXT && DatePart(row.time) == day
  }

  /** How many rows are Open samples taken on `day`. */
  function CountOpenOn(rows: seq<SampleRow>, day: string): (n: nat)
  {
    if rows == [] then 0
    else CountOpenOn(rows[..|rows| - 1], day) + (if CountsAsOpenOn(rows[|rows| - 1], day) then 1 else 0)
  }

  /** The dates reported in `days`. */
  ghost function Dates(days: seq<Day>): (dates: set<string>)
  {
    if days == [] then {} else {days[0].date} + Dates(days[1..])
  }

  /** No date is reported twice. */
  ghost predicate DistinctDates(days: seq<Day>)
  {
    days == [] || (days[0].date !in Dates(days[1..]) && DistinctDates(days[1..]))
  }

  ghost predicate PositiveCounts(days: seq<Day>)
  {
    forall i :: 0 <= i < |days| ==> days[i].openPrs > 0
  }

  /** SQLite's comparison of two texts: lexicographic, by character code
      (which is byte order for the ASCII timestamps stored here). */
  predicate TextLess(a: string, b: string)
  {
    if a == [] then b != []
    else if b == [] then false
    else a[0] < b[0] || (a[0] == b[0] && TextLess(a[1..], b[1..]))
  }

  lemma {:induction false} TextLessIrreflexive(a: string)
    ensures !TextLess(a, a)
  {
    if a != [] {
      TextLessIrreflexive(a[1..]);
    }
  }

  lemma {:induction false} TextLessTransitive(a: string, b: string, c: string)
    requires TextLess(a, b) && TextLess(b, c)
    ensures TextLess(a, c)
  {
    if a != [] && a[0] == b[0] && b[0] == c[0] {
      TextLessTransitive(a[1..], b[1..], c[1..]);
    }
  }

  lemma {:induction false} TextLessTotal(a: string, b: string)
    requires a != b
    ensures TextLess(a, b) || TextLess(b, a)
  {
    if a != [] && b != [] && a[0] == b[0] {
      assert a == [a[0]] + a[1..] && b == [b[0]] + b[1..];
      TextLessTotal(a[1..], b[1..]);
    }
  }

  /** Every date in `ds` comes after `lo`. */
  ghost predicate AllAfter(ds: set<string>, lo: string)
  {
    forall d :: d in ds ==> TextLess(lo, d)
  }

  /** Days in ascending date order, no date twice: the order that
      `ORDER BY sample.time` gives the groups, since every sample of a group
      shares the group's date prefix. */
  ghost predicate SortedDates(days: seq<Day>)
  {
    days == [] || (AllAfter(Dates(days[1..]), days[0].date) && SortedDates(days[1..]))
  }

  /** Strictly ascending dates are distinct. */
  lemma {:induction false} SortedIsDistinct(days: seq<Day>)
    requires SortedDates(days)
    ensures DistinctDates(days)
  {
    if days != [] {
      TextLessIrreflexive(days[0].date);
      SortedIsDistinct(days[1..]);
    }
  }

  /** The count reported for `day`, or 0 when the day is absent. */
  function Lookup(days: seq<Day>, day: string): (n: nat)
  {
    if days == [] then 0
    else if days[0].date == day then days[0].openPrs
    else Lookup(days[1..], day)
  }

  /** Counts one more Open sample on `day`; a new day goes in at its place
      in date order. */
  function Tally(days: seq<Day>, day: string): (r: seq<Day>)
    requires SortedDates(days)
    ensures SortedDates(r) && DistinctDates(r) && (PositiveCounts(days) ==> PositiveCounts(r))
    ensures Dates(r) == Dates(days) + {day}
    ensures forall d :: d != day ==> Lookup(r, d) == Lookup(days, d)
    ensures Lookup(r, day) == Lookup(days, day) + 1
  {
    SortedIsDistinct(days);
    if days == [] then
      assert [Day(day, 1)][1..] == [];
      [Day(day, 1)]
    else if days[0].date == day then
      AbsentDateLooksUpZero(days[1..], day);
      var r := [days[0].(openPrs := days[0].openPrs + 1)] + days[1..];
      assert r[1..] == days[1..];
      SortedIsDistinct(r);
      r
    else if TextLess(day, days[0].date) then
      InsertedBeforeAll(days, day);
      AbsentDateLooksUpZero(days, day);
      var r := [Day(day, 1)] + days;
      assert r[1..] == days;
      SortedIsDistinct(r);
      r
    else
      TextLessTotal(day, days[0].date);
      var tail := Tally(days[1..], day);
      var r := [days[0]] + tail;
      assert r[1..] == tail;
      SortedIsDistinct(r);
      r
  }

  /** A date before the first entry comes before every entry. */
  lemma InsertedBeforeAll(days: seq<Day>, day: string)
    requires days != [] && SortedDates(days) && TextLess(day, days[0].date)
    ensures day !in Dates(days) && AllAfter(Dates(days), day)
  {
    forall d | d in Dates(days[1..])
      ensures TextLess(day, d)
    {
      TextLessTransitive(day, days[0].date, d);
    }
    TextLessIrreflexive(day);
  }

  /** A date that is not reported looks up as 0. */
  lemma {:induction false} AbsentDateLooksUpZero(days: seq<Day>, day: string)
    requires day !in Dates(days)
    ensures Lookup(days, day) == 0
  {
    if days != [] {
      AbsentDateLooksUpZero(days[1..], day);
    }
  }

  /** Every entry's date is among the reported dates. */
  lemma {:induction false} EntryDateIsReported(days: seq<Day>, i: nat)
    requires i < |days|
    ensures days[i].date in Dates(days)
  {
    if i > 0 {
      EntryDateIsReported(days[1..], i - 1);
    }
  }

  /** `open_prs_per_day`: for every day on which some sample is Open, the
      number of Open samples taken that day, days in ascending date order. */
  function OpenPrsPerDay(rows: seq<SampleRow>): (days: seq<Day>)
    ensures SortedDates(days) && DistinctDates(days) && PositiveCounts(days)
  {
    if rows == [] then []
    else
      var last := rows[|rows| - 1];
      var prev := OpenPrsPerDay(rows[..|rows| - 1]);
      if last.status == OPEN_TEXT then Tally(prev, DatePart(last.time)) else prev
  }

  /** The count reported for any day is the number of Open samples taken
      that day (0 for a day that is not reported). */
  lemma {:induction false} OpenPrsPerDayCounts(rows: seq<SampleRow>, day: string)
    ensures Lookup(OpenPrsPerDay(rows), day) == CountOpenOn(rows, day)
  {
    if rows != [] {
      OpenPrsPerDayCounts(rows[..|rows| - 1], day);
    }
  }

  /** With no repeated date, a reported day's count is its entry. */
  lemma {:induction false} LookupFindsEntry(days: seq<Day>, i: nat)
    requires DistinctDates(days) && i < |days|
    ensures Lookup(days, days[i].date) == days[i].openPrs
  {
    if i > 0 {
      EntryDateIsReported(days[1..], i - 1);
      LookupFindsEntry(days[1..], i - 1);
    }
  }

  /** With no repeated date, two entries have different dates. */
  lemma {:induction false} DistinctEntries(days: seq<Day>, i: nat, j: nat)
    requires DistinctDates(days) && i < j < |days|
    ensures days[i].date != days[j].date
  {
    if i == 0 {
      EntryDateIsReported(days[1..], j - 1);
    } else {
      DistinctEntries(days[1..], i - 1, j - 1);
    }
  }

  /** In a sorted list, an earlier entry has an earlier date. */
  lemma {:induction false} SortedEntries(days: seq<Day>, i: nat, j: nat)
    requires SortedDates(days) && i < j < |days|
    ensures TextLess(days[i].date, days[j].date)
  {
    if i == 0 {
      EntryDateIsReported(days[1..], j - 1);
    } else {
      SortedEntries(days[1..], i - 1, j - 1);
    }
  }

  /** A date with a non-zero lookup is reported. */
  lemma {:induction false} LookupPositiveIsReported(days: seq<Day>, day: string)
    requires Lookup(days, day) > 0
    ensures exists i :: 0 <= i < |days| && days[i].date == day
  {
    if days[0].date != day {
      LookupPositiveIsReported(days[1..], day);
      var i :| 0 <= i < |days[1..]| && days[1..][i].date == day;
      assert days[i + 1].date == day;
    }
  }

  /** Days come in strictly ascending date order (so none is reported
      twice), every reported day carries the number of Open samples taken on
      it, which is never zero, and every day with an Open sample is
      reported. */
  lemma OpenPrsPerDayCorrect(rows: seq<SampleRow>)
    ensures var days := OpenPrsPerDay(rows);
      && (forall i, j :: 0 <= i < j < |days| ==> TextLess(days[i].date, days[j].date))
      && (forall i, j :: 0 <= i < j < |days| ==> days[i].date != days[j].date)
      && (forall i :: 0 <= i < |days| ==> days[i].openPrs == CountOpenOn(rows, days[i].date) > 0)
      && (forall day :: CountOpenOn(rows, day) > 0 ==> exists i :: 0 <= i < |days| && days[i].date == day)
  {
    var days := OpenPrsPerDay(rows);
    forall i, j | 0 <= i < j < |days|
      ensures TextLess(days[i].date, days[j].date) && days[i].date != days[j].date
    {
      SortedEntries(days, i, j);
      DistinctEntries(days, i, j);
    }
    forall i | 0 <= i < |days|
      ensures days[i].openPrs == CountOpenOn(rows, days[i].date)
    {
      LookupFindsEntry(days, i);
      OpenPrsPerDayCounts(rows, days[i].date);
    }
    forall day | CountOpenOn(rows, day) > 0
      ensures exists i :: 0 <= i < |days| && days[i].date == day
    {
      OpenPrsPerDayCounts(rows, day);
      LookupPositiveIsReported(days, day);
    }
  }

  /** A Closed or Merged sample never changes the daily counts. */
  lemma {:induction false} OpenPrsPerDayIgnoresClosed(rows: seq<SampleRow>, x: SampleRow)
    requires x.status != OPEN_TEXT
    ensures OpenPrsPerDay(rows + [x]) == OpenPrsPerDay(rows)
  {
    assert (rows + [x])[..|rows|] == rows;
  }

  /** Only an Open status is stored as the text that the query matches. */
  lemma OpenTextIsOpen(st: Data.Status)
    ensures Encode(st) == OPEN_TEXT <==> st.Open?
  {
    if !st.Open? {
      assert Encode(st)[0] != OPEN_TEXT[0];
    }
  }

  /** Two samples recorded Open on the same calendar day, and a Merged one,
      give one day with count two. */
  lemma TwoOpenSamplesOneDay()
    ensures
      var open1 := SampleRow(1, "Open", "2019-05-14 09:15:13", 1, 10, 2, 1, 0, "abc");
      var open2 := SampleRow(2, "Open", "2019-05-14 17:40:00", 3, 5, 0, 2, 1, "def");
      var merged := SampleRow(1, "Merged 2019-05-14 18:00:00", "2019-05-14 18:00:00", 1, 10, 2, 1, 0, "abc");
      OpenPrsPerDay([open1, open2, merged]) == [Day("2019-05-14", 2)]
  {
    var open1 := SampleRow(1, "Open", "2019-05-14 09:15:13", 1, 10, 2, 1, 0, "abc");
    var open2 := SampleRow(2, "Open", "2019-05-14 17:40:00", 3, 5, 0, 2, 1, "def");
    var merged := SampleRow(1, "Merged 2019-05-14 18:00:00", "2019-05-14 18:00:00", 1, 10, 2, 1, 0, "abc");
    var day := "2019-05-14";
    assert DatePart(open1.time) == day;
    assert DatePart(open2.time) == day;
    assert merged.status != OPEN_TEXT by { assert merged.status[0] != OPEN_TEXT[0]; }
    assert [open1][..0] == [];
    assert OpenPrsPerDay([open1]) == [Day(day, 1)];
    assert [open1, open2][..1] == [open1];
    assert OpenPrsPerDay([open1, open2]) == [Day(day, 2)];
    OpenPrsPerDayIgnoresClosed([open1, open2], merged);
    assert [open1, open2] + [merged] == [open1, open2, merged];
  }

  /** A single Open sample gives its own day with count one. */
  lemma OneOpenSample(row: SampleRow)
    requires row.status == OPEN_TEXT
    ensures OpenPrsPerDay([row]) == [Day(DatePart(row.time), 1)]
  {
    assert [row][..0] == [];
  }

  /** A day before every reported day goes in front. */
  lemma TallyBeforeFirst(days: seq<Day>, day: string)
    requires days != [] && SortedDates(days) && TextLess(day, days[0].date)
    ensures Tally(days, day) == [Day(day, 1)] + days
  {
    TextLessIrreflexive(day);
  }

  /** Two Open samples, the second on an earlier day: the earlier day
      comes first. */
  lemma OpenSamplesOutOfOrder(a: SampleRow, b: SampleRow)
    requires a.status == OPEN_TEXT && b.status == OPEN_TEXT
    requires TextLess(DatePart(b.time), DatePart(a.time))
    ensures OpenPrsPerDay([a, b]) == [Day(DatePart(b.time), 1), Day(DatePart(a.time), 1)]
  {
    OneOpenSample(a);
    assert [a, b][..1] == [a];
    TallyBeforeFirst([Day(DatePart(a.time), 1)], DatePart(b.time));
  }

  /** Samples taken later in the table may be on an earlier day: the days
      still come out in date order. */
  lemma EarlierDayFirst()
    ensures
      var later := SampleRow(1, "Open", "2019-05-15 09:25:34", 1, 10, 2, 1, 0, "abc");
      var earlier := SampleRow(2, "Open", "2019-05-14 09:15:13", 3, 5, 0, 2, 1, "def");
      OpenPrsPerDay([later, earlier]) == [Day("2019-05-14", 1), Day("2019-05-15", 1)]
  {
    var later := SampleRow(1, "Open", "2019-05-15 09:25:34", 1, 10, 2, 1, 0, "abc");
    var earlier := SampleRow(2, "Open", "2019-05-14 09:15:13", 3, 5, 0, 2, 1, "def");
    assert DatePart(later.time) == "2019-05-1" + "5";
    assert DatePart(earlier.time) == "2019-05-1" + "4";
    TextLessAfterCommonPrefix("2019-05-1", "4", "5");
    OpenSamplesOutOfOrder(later, earlier);
    assert "2019-05-1" + "4" == "2019-05-14" && "2019-05-1" + "5" == "2019-05-15";
  }

  /** Texts that agree up to some point compare by what follows it. */
  lemma {:induction false} TextLessAfterCommonPrefix(p: string, a: string, b: string)
    requires TextLess(a, b)
    ensures TextLess(p + a, p + b)
  {
    if p != [] {
      assert (p + a)[1..] == p[1..] + a && (p + b)[1..] == p[1..] + b;
      TextLessAfterCommonPrefix(p[1..], a, b);
    } else {
      assert p + a == a && p + b == b;
    }
  }
}
