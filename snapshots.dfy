/**
 * The 60-second snapshot ingestion: one position row per (wallet, asset) for
 * every wallet of the universe whose clearinghouse state was fetched, the run
 * record, and the ingestion health derived from it.
 */
module Snapshots {
  import opened Wrappers
  import opened Clock
  import opened HyperliquidClient
  import Config
  import opened Ratios

  datatype RunStatus = Success | Partial | Failed

  datatype HealthState = Healthy | Degraded | Stale

  /** Why a run failed (the message text is not modelled). */
  datatype IngestError = NoWallets | CoverageTooLow(coveragePct: real) | IngestionFailed

  /** A row of `wallet_snapshots`, keyed by (snapshot time, wallet, asset). */
  datatype SnapshotRow = SnapshotRow(
    snapshotTs: int,
    walletId: string,
    asset: string,
    position: PositionRecord,
    isDirty: bool)

  /** A row of `ingest_runs`, keyed by snapshot time (duration is not modelled). */
  datatype RunMetadata = RunMetadata(
    snapshotTs: int,
    status: RunStatus,
    walletsExpected: nat,
    walletsSucceeded: nat,
    walletsFailed: int,
    rowsExpected: nat,
    rowsWritten: nat,
    coveragePct: real,
    error: Option<IngestError>)

  /** A row of `ingest_health`, keyed by health time. */
  datatype HealthRow = HealthRow(
    healthTs: int,
    lastSuccessTs: Option<int>,
    snapshotStatus: RunStatus,
    coveragePct: real,
    healthState: HealthState,
    error: Option<IngestError>)

  /** The current time floored to the minute. */
  function GetSnapshotTimestamp(now: int): (ts: int)
    ensures SecondOf(ts) == 0
    ensures ts <= now < ts + 60
    ensures MinuteOf(ts) == MinuteOf(now) && HourOf(ts) == HourOf(now)
  {
    now - SecondOf(now)
  }

  // ---------------------------------------------------------------------
  // Run outcome

  /** Number of wallets whose fetch returned data. */
  function CountFetched(responses: seq<Option<Json>>): (n: nat)
    ensures n <= |responses|
  {
    if responses == [] then 0
    else CountFetched(responses[..|responses| - 1]) + (if responses[|responses| - 1].Some? then 1 else 0)
  }

  /** Run status from coverage: success from 95%, partial from 5%, failed below. */
  function StatusFor(coveragePct: real): (r: (RunStatus, Option<IngestError>))
    ensures r.0 == Success <==> coveragePct >= 95.0
    ensures r.0 == Partial <==> 5.0 <= coveragePct < 95.0
    ensures r.0 == Failed <==> coveragePct < 5.0
    ensures r.1.Some? <==> r.0 == Failed
    ensures r.0 == Failed ==> r.1 == Some(CoverageTooLow(coveragePct))
  {
    if coveragePct >= 95.0 then (Success, None)
    else if coveragePct >= 5.0 then (Partial, None)
    else (Failed, Some(CoverageTooLow(coveragePct)))
  }

  /**
   * Health of ingestion: healthy after a successful run, degraded after a
   * partial run of at least 80% coverage, stale otherwise, and stale
   * whenever the last success is more than the stale threshold old.
   */
  function HealthStateFor(status: RunStatus, coveragePct: real, secondsSinceSuccess: int): (h: HealthState)
    ensures h == Healthy <==> status == Success && secondsSinceSuccess as real / 60.0 <= Config.STALE_THRESHOLD_MINUTES as real
    ensures h == Degraded <==> status == Partial && coveragePct >= 80.0 && secondsSinceSuccess as real / 60.0 <= Config.STALE_THRESHOLD_MINUTES as real
    ensures status == Failed ==> h == Stale
  {
    var h := if status == Success then Healthy
             else if status == Partial && coveragePct >= 80.0 then Degraded
             else Stale;
    if secondsSinceSuccess as real / 60.0 > Config.STALE_THRESHOLD_MINUTES as real then Stale else h
  }

  /** The latest snapshot time among successful runs. */
  function LatestSuccess(runs: seq<RunMetadata>): (r: Option<int>)
    ensures r.Some? <==> exists i :: 0 <= i < |runs| && runs[i].status == Success
    ensures r.Some? ==> exists i :: 0 <= i < |runs| && runs[i].status == Success && runs[i].snapshotTs == r.value
    ensures r.Some? ==> forall i :: 0 <= i < |runs| && runs[i].status == Success ==> runs[i].snapshotTs <= r.value
  {
    if runs == [] then None
    else
      var rest := LatestSuccess(runs[..|runs| - 1]);
      var last := runs[|runs| - 1];
      assert forall i :: 0 <= i < |runs| - 1 ==> runs[..|runs| - 1][i] == runs[i];
      if last.status != Success then rest
      else if rest.Some? && rest.value >= last.snapshotTs then rest
      else Some(last.snapshotTs)
  }

  // ---------------------------------------------------------------------
  // Upserts

  /** Position of the first run at snapshot time `ts`, if any. */
  function RunIndex(runs: seq<RunMetadata>, ts: int): (i: Option<nat>)
    ensures i.Some? ==> i.value < |runs| && runs[i.value].snapshotTs == ts
    ensures i.Some? ==> forall j :: 0 <= j < i.value ==> runs[j].snapshotTs != ts
    ensures i.None? ==> forall j :: 0 <= j < |runs| ==> runs[j].snapshotTs != ts
  {
    if runs == [] then None
    else if runs[0].snapshotTs == ts then Some(0)
    else
      var rest := RunIndex(runs[1..], ts);
      if rest.None? then None else Some(rest.value + 1)
  }

  /**
   * Insert a run, or on a run at the same snapshot time replace the status,
   * the succeeded and failed counts, the rows written, the coverage and the
   * error, keeping the expected counts of the stored run.
   */
  function UpsertRun(runs: seq<RunMetadata>, m: RunMetadata): (r: seq<RunMetadata>)
    ensures RunIndex(runs, m.snapshotTs).None? ==> r == runs + [m]
    ensures RunIndex(runs, m.snapshotTs).Some? ==>
              var i := RunIndex(runs, m.snapshotTs).value;
              r == runs[i := m.(walletsExpected := runs[i].walletsExpected, rowsExpected := runs[i].rowsExpected)]
    ensures exists x :: x in r && x.snapshotTs == m.snapshotTs && x.status == m.status
    ensures forall x :: x in runs && x.snapshotTs != m.snapshotTs ==> x in r
    ensures forall x :: x in r && x.snapshotTs != m.snapshotTs ==> x in runs
  {
    if runs == [] then
      assert m in [m];
      [m]
    else if runs[0].snapshotTs == m.snapshotTs then
      var updated := m.(walletsExpected := runs[0].walletsExpected, rowsExpected := runs[0].rowsExpected);
      assert updated in [updated] + runs[1..];
      [updated] + runs[1..]
    else
      var rest := UpsertRun(runs[1..], m);
      assert forall x :: x in runs ==> x == runs[0] || x in runs[1..];
      assert runs == [runs[0]] + runs[1..];
      assert RunIndex(runs[1..], m.snapshotTs).Some? ==>
               RunIndex(runs, m.snapshotTs) == Some(RunIndex(runs[1..], m.snapshotTs).value + 1);
      [runs[0]] + rest
  }

  /** Snapshot time is the key of the runs table. */
  predicate UniqueRunTimes(runs: seq<RunMetadata>) {
    forall i, j :: 0 <= i < j < |runs| ==> runs[i].snapshotTs != runs[j].snapshotTs
  }

  /** An upsert keeps one run per snapshot time, and that run carries the new status. */
  lemma UpsertRunKeepsKey(runs: seq<RunMetadata>, m: RunMetadata)
    requires UniqueRunTimes(runs)
    ensures UniqueRunTimes(UpsertRun(runs, m))
    ensures RunIndex(UpsertRun(runs, m), m.snapshotTs).Some?
    ensures UpsertRun(runs, m)[RunIndex(UpsertRun(runs, m), m.snapshotTs).value].status == m.status
  {
    var r := UpsertRun(runs, m);
    var k := RunIndex(runs, m.snapshotTs);
    if k.None? {
      assert r[|runs|].snapshotTs == m.snapshotTs;
    } else {
      assert r[k.value].snapshotTs == m.snapshotTs;
    }
  }

  predicate SameKey(a: SnapshotRow, b: SnapshotRow) {
    a.snapshotTs == b.snapshotTs && a.walletId == b.walletId && a.asset == b.asset
  }

  /** Insert a snapshot row, or replace the position of the row with the same key (keeping its dirty flag). */
  function UpsertSnapshot(table: seq<SnapshotRow>, row: SnapshotRow): (r: seq<SnapshotRow>)
    ensures exists x :: x in r && SameKey(x, row) && x.position == row.position
    ensures forall x :: x in table && !SameKey(x, row) ==> x in r
    ensures forall x :: x in r && !SameKey(x, row) ==> x in table
  {
    if table == [] then
      assert row in [row];
      [row]
    else if SameKey(table[0], row) then
      var updated := row.(isDirty := table[0].isDirty);
      assert updated in [updated] + table[1..];
      [updated] + table[1..]
    else
      var rest := UpsertSnapshot(table[1..], row);
      assert forall x :: x in table ==> x == table[0] || x in table[1..];
      [table[0]] + rest
  }

  /** Upserting rows in order. */
  function UpsertAll(table: seq<SnapshotRow>, rows: seq<SnapshotRow>): seq<SnapshotRow>
    decreases |rows|
  {
    if rows == [] then table else UpsertAll(UpsertSnapshot(table, rows[0]), rows[1..])
  }

  /** The row written for a wallet and asset. */
  function RowOf(ts: int, walletId: string, asset: string, p: PositionRecord): SnapshotRow {
    SnapshotRow(ts, walletId, asset, p, false)
  }

  /** The rows of one wallet for the first `j` assets (none when its fetch failed). */
  function WalletRows(ts: int, walletId: string, response: Option<Json>, assets: seq<string>, j: nat): Outcome<seq<SnapshotRow>>
    requires j <= |assets|
  {
    if j == 0 then Value([])
    else match WalletRows(ts, walletId, response, assets, j - 1)
      case Raises => Raises
      case Value(prev) =>
        if response.None? then Value(prev)
        else match PositionOutcome(response.value, assets[j - 1])
          case Raises => Raises
          case Value(p) => Value(prev + [RowOf(ts, walletId, assets[j - 1], p)])
  }

  /** The rows of the first `i` wallets, or Raises when reading some response raised. */
  function RowsUpTo(ts: int, universe: seq<string>, responses: seq<Option<Json>>, assets: seq<string>, i: nat): Outcome<seq<SnapshotRow>>
    requires i <= |universe| == |responses|
  {
    if i == 0 then Value([])
    else match RowsUpTo(ts, universe, responses, assets, i - 1)
      case Raises => Raises
      case Value(prev) =>
        match WalletRows(ts, universe[i - 1], responses[i - 1], assets, |assets|)
        case Raises => Raises
        case Value(rs) => Value(prev + rs)
  }

  /** A fetched wallet contributes one row per asset, a failed one none. */
  lemma {:induction false} WalletRowsCount(ts: int, w: string, response: Option<Json>, assets: seq<string>, j: nat)
    requires j <= |assets|
    requires WalletRows(ts, w, response, assets, j).Value?
    ensures |WalletRows(ts, w, response, assets, j).value| == if response.Some? then j else 0
    ensures forall x :: x in WalletRows(ts, w, response, assets, j).value ==> x.walletId == w && x.snapshotTs == ts && x.asset in assets
  {
    if j > 0 {
      WalletRowsCount(ts, w, response, assets, j - 1);
    }
  }

  /** Ingested rows: one per fetched wallet and asset, all stamped with the snapshot time. */
  lemma {:induction false} RowsCount(ts: int, universe: seq<string>, responses: seq<Option<Json>>, assets: seq<string>, i: nat)
    requires i <= |universe| == |responses|
    requires RowsUpTo(ts, universe, responses, assets, i).Value?
    ensures |RowsUpTo(ts, universe, responses, assets, i).value| == CountFetched(responses[..i]) * |assets|
    ensures forall x :: x in RowsUpTo(ts, universe, responses, assets, i).value ==>
              x.snapshotTs == ts && x.asset in assets &&
              exists k :: 0 <= k < i && universe[k] == x.walletId && responses[k].Some?
  {
    if i > 0 {
      RowsCount(ts, universe, responses, assets, i - 1);
      WalletRowsCount(ts, universe[i - 1], responses[i - 1], assets, |assets|);
      assert responses[..i][..i - 1] == responses[..i - 1];
      var c := CountFetched(responses[..i - 1]);
      var prev := RowsUpTo(ts, universe, responses, assets, i - 1).value;
      var rs := WalletRows(ts, universe[i - 1], responses[i - 1], assets, |assets|).value;
      assert RowsUpTo(ts, universe, responses, assets, i).value == prev + rs;
      MulStep(c, |assets|, responses[i - 1].Some?);
    }
  }

  lemma MulStep(c: nat, k: nat, b: bool)
    ensures (if b then c + 1 else c) * k == c * k + (if b then k else 0)
  {
  }

  /** Once reading a response raised, every longer prefix raises too. */
  lemma {:induction false} RaisesPersist(ts: int, universe: seq<string>, responses: seq<Option<Json>>, assets: seq<string>, i: nat, k: nat)
    requires i <= k <= |universe| == |responses|
    requires RowsUpTo(ts, universe, responses, assets, i).Raises?
    ensures RowsUpTo(ts, universe, responses, assets, k).Raises?
    decreases k - i
  {
    if i < k {
      RaisesPersist(ts, universe, responses, assets, i + 1, k);
    }
  }

  // ---------------------------------------------------------------------
  // The store and the ingestion run

  /** The ingestion tables: snapshot rows, runs and health. */
  class IngestStore {
    var snapshots: seq<SnapshotRow>
    var runs: seq<RunMetadata>
    var health: seq<HealthRow>

    constructor()
      ensures snapshots == [] && runs == [] && health == []
    {
      snapshots := [];
      runs := [];
      health := [];
    }

    /** Persist the run, then record the health it implies (the latest success includes this run). */
    method PersistRunAndHealth(m: RunMetadata, clock: int)
      modifies this
      ensures runs == UpsertRun(old(runs), m)
      ensures health == UpsertHealth(old(health), HealthAfter(runs, m, clock))
      ensures snapshots == old(snapshots)
    {
      runs := UpsertRun(runs, m);
      health := UpsertHealth(health, HealthAfter(runs, m, clock));
    }
  }

  /** The health row written after run `m`, given the runs table that already holds it. */
  function HealthAfter(runs: seq<RunMetadata>, m: RunMetadata, clock: int): (h: HealthRow)
    ensures h.healthTs == m.snapshotTs && h.snapshotStatus == m.status && h.lastSuccessTs.Some?
    ensures LatestSuccess(runs).Some? ==> h.lastSuccessTs == LatestSuccess(runs)
    ensures LatestSuccess(runs).None? ==> h.lastSuccessTs == Some(m.snapshotTs)
    ensures h.healthState == HealthStateFor(m.status, m.coveragePct, clock - h.lastSuccessTs.value)
    ensures h.coveragePct == m.coveragePct && h.error == m.error
    ensures m.status == Failed ==> h.healthState == Stale
    ensures h.healthState == Healthy ==> m.status == Success && clock - h.lastSuccessTs.value <= 180
  {
    var last := LatestSuccess(runs).GetOr(m.snapshotTs);
    HealthRow(m.snapshotTs, Some(last), m.status, m.coveragePct, HealthStateFor(m.status, m.coveragePct, clock - last), m.error)
  }

  /** Insert or replace the health row at the same health time. */
  function UpsertHealth(health: seq<HealthRow>, h: HealthRow): (r: seq<HealthRow>)
    ensures h in r
    ensures forall x :: x in health && x.healthTs != h.healthTs ==> x in r
    ensures forall x :: x in r ==> x == h || x in health
  {
    if health == [] then [h]
    else if health[0].healthTs == h.healthTs then [h] + health[1..]
    else
      assert forall x :: x in health ==> x == health[0] || x in health[1..];
      [health[0]] + UpsertHealth(health[1..], h)
  }

  /**
   * One ingestion run at time `now` over the universe (ordered by rank) and
   * the fetched clearinghouse states (None where the fetch failed). A
   * response that cannot be read aborts the run: its rows are rolled back
   * and the run is recorded as failed. `clock` is the time the health is
   * evaluated.
   */
  method IngestSnapshot(store: IngestStore, universe: seq<string>, responses: seq<Option<Json>>,
                        assets: seq<string>, now: int, clock: int) returns (m: RunMetadata)
    requires |responses| == |universe|
    modifies store
    ensures m.snapshotTs == GetSnapshotTimestamp(now)
    ensures m.walletsExpected == |universe| && m.rowsExpected == |universe| * |assets|
    ensures |universe| == 0 ==> m.status == Failed && m.error == Some(NoWallets) && store.snapshots == old(store.snapshots)
    ensures |universe| > 0 ==>
              m.walletsSucceeded == CountFetched(responses) &&
              m.walletsFailed == |universe| - CountFetched(responses) &&
              m.coveragePct == Percent(CountFetched(responses), |universe|)
    ensures |universe| > 0 && RowsUpTo(m.snapshotTs, universe, responses, assets, |universe|).Raises? ==>
              m.status == Failed && m.error == Some(IngestionFailed) && m.rowsWritten == 0 &&
              store.snapshots == old(store.snapshots)
    ensures |universe| > 0 && RowsUpTo(m.snapshotTs, universe, responses, assets, |universe|).Value? ==>
              var rows := RowsUpTo(m.snapshotTs, universe, responses, assets, |universe|).value;
              store.snapshots == UpsertAll(old(store.snapshots), rows) &&
              m.rowsWritten == |rows| == CountFetched(responses) * |assets| &&
              (m.status, m.error) == StatusFor(m.coveragePct)
    ensures store.runs == UpsertRun(old(store.runs), m)
    ensures store.health == UpsertHealth(old(store.health), HealthAfter(store.runs, m, clock))
  {
    var snapshotTs := GetSnapshotTimestamp(now);
    m := RunMetadata(snapshotTs, Failed, 0, 0, 0, 0, 0, 0.0, None);
    var walletCount := |universe|;
    m := m.(walletsExpected := walletCount, rowsExpected := walletCount * |assets|);
    if walletCount == 0 {
      m := m.(error := Some(NoWallets), status := Failed);
      store.PersistRunAndHealth(m, clock);
      return;
    }
    var succeeded := CountFetched(responses);
    m := m.(walletsSucceeded := succeeded, walletsFailed := walletCount - succeeded,
            coveragePct := Percent(succeeded, walletCount));

    // Rows staged inside the transaction; committed only if no response raises.
    var staged, raised := StageRows(snapshotTs, universe, responses, assets);
    if raised {
      m := m.(error := Some(IngestionFailed), status := Failed);
      store.PersistRunAndHealth(m, clock);
      return;
    }
    store.snapshots := UpsertAll(store.snapshots, staged);
    m := m.(rowsWritten := |staged|);
    RowsCount(snapshotTs, universe, responses, assets, |universe|);
    assert responses[..|universe|] == responses;
    var (status, error) := StatusFor(m.coveragePct);
    m := m.(status := status, error := error);
    store.PersistRunAndHealth(m, clock);
  }

  /** The rows of every fetched wallet, one per asset, stopping at the first response that raises. */
  method StageRows(ts: int, universe: seq<string>, responses: seq<Option<Json>>, assets: seq<string>)
    returns (staged: seq<SnapshotRow>, raised: bool)
    requires |responses| == |universe|
    ensures raised <==> RowsUpTo(ts, universe, responses, assets, |universe|).Raises?
    ensures !raised ==> RowsUpTo(ts, universe, responses, assets, |universe|) == Value(staged)
  {
    staged := [];
    raised := false;
    var i := 0;
    while i < |universe| && !raised
      invariant 0 <= i <= |universe|
      invariant !raised ==> RowsUpTo(ts, universe, responses, assets, i) == Value(staged)
      invariant raised ==> RowsUpTo(ts, universe, responses, assets, |universe|).Raises?
    {
      var walletRows, walletRaised := StageWallet(ts, universe[i], responses[i], assets);
      if walletRaised {
        raised := true;
        RaisesPersist(ts, universe, responses, assets, i + 1, |universe|);
      } else {
        staged := staged + walletRows;
      }
      i := i + 1;
    }
  }

  /** The rows of one wallet, one per asset (none when its fetch failed). */
  method StageWallet(ts: int, walletId: string, response: Option<Json>, assets: seq<string>)
    returns (rows: seq<SnapshotRow>, raised: bool)
    ensures raised <==> WalletRows(ts, walletId, response, assets, |assets|).Raises?
    ensures !raised ==> WalletRows(ts, walletId, response, assets, |assets|) == Value(rows)
  {
    rows := [];
    raised := false;
    var j := 0;
    while j < |assets| && !raised
      invariant 0 <= j <= |assets|
      invariant !raised ==> WalletRows(ts, walletId, response, assets, j) == Value(rows)
      invariant raised ==> WalletRows(ts, walletId, response, assets, |assets|).Raises?
    {
      if response.Some? {
        var position := ParsePositionData(response.value, assets[j]);
        if position.Raises? {
          raised := true;
          WalletRowsRaisePersist(ts, walletId, response, assets, j + 1);
        } else {
          rows := rows + [RowOf(ts, walletId, assets[j], position.value)];
        }
      }
      j := j + 1;
    }
  }

  /** A raise at asset `j` makes the whole wallet raise. */
  lemma {:induction false} WalletRowsRaisePersist(ts: int, w: string, response: Option<Json>, assets: seq<string>, j: nat)
    requires 0 < j <= |assets|
    requires WalletRows(ts, w, response, assets, j).Raises?
    ensures WalletRows(ts, w, response, assets, |assets|).Raises?
    decreases |assets| - j
  {
    if j < |assets| {
      WalletRowsRaisePersist(ts, w, response, assets, j + 1);
    }
  }

  /** Coverage of a run with wallets is a percentage. */
  lemma CoverageBounds(responses: seq<Option<Json>>)
    requires |responses| > 0
    ensures 0.0 <= Percent(CountFetched(responses), |responses|) <= 100.0
  {
    PercentBounds(CountFetched(responses), |responses|);
  }
}
