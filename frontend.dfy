/** The rollup shapes served by the frontend (src/frontend.rs:64-86). They
    sit in their own module because the store produces `Day` values and the
    frontend consumes the store. */
module Rollup {

  import opened Data

  /** Summary of a list of unsigned values. */
  datatype Distribution = Distribution(mean: U32, mode: U32, min: U32, max: U32)

  /** Weekly counts; `timeToMerge` is in minutes. */
  datatype Week = Week(
    startDate: string,
    mergedPrs: U32,
    closedPrs: U32,
    timeToMerge: Distribution,
    reviewComments: Distribution)

  /** Number of samples recorded as Open on one calendar day. */
  datatype Day = Day(date: string, openPrs: nat)
}

/** The cached rollup and its once-a-day refresh (src/frontend.rs:20-61).
    Time is a number of seconds supplied by the caller; the lock around the
    blob is not modelled. */
module Frontend {

  import opened Wrappers
  import opened Rollup
  import Store

  /** No point in refreshing more than once per day. */
  const REFRESH_INTERVAL: nat := 60 * 60 * 24

  /** `BlobInner`: when it was built, and the two rollups. */
  datatype BlobInner = BlobInner(lastUpdate: int, weeks: seq<Week>, days: seq<Day>)

  /** `BlobInner::default()` at time `now`: no rollups yet, and fresh
      until a day has passed. */
  function DefaultBlob(now: int): (b: BlobInner)
    ensures b.weeks == [] && b.days == []
    ensures forall later :: now <= later < now + REFRESH_INTERVAL ==> IsFresh(b, later)
    ensures !IsFresh(b, now + REFRESH_INTERVAL)
  {
    BlobInner(now, [], [])
  }

  /** `Instant::elapsed`: a monotonic clock never reports negative time. */
  function Elapsed(since: int, now: int): (seconds: nat)
  {
    if now >= since then now - since else 0
  }

  predicate IsFresh(b: BlobInner, now: int)
  {
    Elapsed(b.lastUpdate, now) < REFRESH_INTERVAL
  }

  datatype Refresh = Refresh(blob: BlobInner, outcome: Result<(), Store.StoreError>)

  /** What one `update` at time `now` leaves behind, given what getting a
      connection and the two queries return. A fresh blob is kept and the
      call succeeds; otherwise the first failure is returned and the old
      blob kept; otherwise the blob is replaced by a complete new one. */
  function Refreshed(
    b: BlobInner,
    now: int,
    connection: Result<(), Store.StoreError>,
    days: Result<seq<Day>, Store.StoreError>,
    weeks: Result<seq<Week>, Store.StoreError>): (r: Refresh)
    ensures r.outcome.Success? <==> IsFresh(b, now) || (connection.Success? && days.Success? && weeks.Success?)
    ensures r.blob == b || (weeks.Success? && days.Success? && r.blob == BlobInner(now, weeks.value, days.value))
    ensures !IsFresh(b, now) && r.outcome.Success? ==>
      weeks.Success? && days.Success? && r.blob == BlobInner(now, weeks.value, days.value)
    ensures r.outcome.Failure? ==> r.blob == b
    ensures r.outcome.Failure? ==>
      r.outcome.error == (if connection.Failure? then connection.error else if days.Failure? then days.error else weeks.error)
  {
    if IsFresh(b, now) then Refresh(b, Success(()))
    else if connection.Failure? then Refresh(b, Failure(connection.error))
    else if days.Failure? then Refresh(b, Failure(days.error))
    else if weeks.Failure? then Refresh(b, Failure(weeks.error))
    else
      var built := DefaultBlob(now).(days := days.value);
      Refresh(built.(weeks := weeks.value), Success(()))
  }

  /** Less than a day after the last refresh (or with the clock behind
      it), `update` changes nothing. */
  lemma FreshUpdateIsNoop(
    b: BlobInner, now: int, connection: Result<(), Store.StoreError>,
    days: Result<seq<Day>, Store.StoreError>, weeks: Result<seq<Week>, Store.StoreError>)
    requires IsFresh(b, now)
    ensures Refreshed(b, now, connection, days, weeks) == Refresh(b, Success(()))
  {
  }

  /** A stale blob that refreshes successfully is replaced as a whole and
      stamped with the time the refresh began. */
  lemma StaleUpdateReplaces(
    b: BlobInner, now: int, ds: seq<Day>, ws: seq<Week>)
    requires now >= b.lastUpdate + REFRESH_INTERVAL
    ensures Refreshed(b, now, Success(()), Success(ds), Success(ws)) == Refresh(BlobInner(now, ws, ds), Success(()))
  {
  }

  /** Right after a stale blob was refreshed, a second `update` within the
      day is a no-op, whatever the store would answer. */
  lemma SecondUpdateIsNoop(
    b: BlobInner, now: int, later: int, ds: seq<Day>, ws: seq<Week>,
    connection: Result<(), Store.StoreError>,
    days: Result<seq<Day>, Store.StoreError>, weeks: Result<seq<Week>, Store.StoreError>)
    requires !IsFresh(b, now)
    requires now <= later < now + REFRESH_INTERVAL
    ensures var first := Refreshed(b, now, Success(()), Success(ds), Success(ws));
      Refreshed(first.blob, later, connection, days, weeks) == Refresh(first.blob, Success(()))
  {
  }

  /** `BlobOuter`: owns the cached rollup and replaces it wholesale. */
  class Blob {
    var inner: BlobInner

    /** `BlobOuter::new`: an empty rollup built at time `now`. */
    constructor (now: int)
      ensures inner == BlobInner(now, [], [])
    {
      inner := DefaultBlob(now);
    }

    /** `BlobOuter::update`. `connection` is what getting a connection
        returns, `daysFault` whether the daily query fails, and `weekly`
        what the weekly query returns. */
    method Update(
      db: Store.Database,
      now: int,
      connection: Result<(), Store.StoreError>,
      daysFault: bool,
      weekly: Result<seq<Week>, Store.StoreError>) returns (res: Result<(), Store.StoreError>)
      modifies this
      ensures Refresh(inner, res) == Refreshed(
        old(inner), now, connection,
        if daysFault then Failure(Store.SqliteFailure) else Success(Store.OpenPrsPerDay(db.samples)),
        weekly)
    {
      if Elapsed(inner.lastUpdate, now) < REFRESH_INTERVAL {
        return Success(());
      }
      if connection.Failure? {
        return Failure(connection.error);
      }
      var newBlob := DefaultBlob(now);
      if daysFault {
        return Failure(Store.SqliteFailure);
      }
      newBlob := newBlob.(days := Store.OpenPrsPerDay(db.samples));
      if weekly.Failure? {
        return Failure(weekly.error);
      }
      newBlob := newBlob.(weeks := weekly.value);
      inner := newBlob;
      res := Success(());
    }
  }
}
