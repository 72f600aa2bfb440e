/**
 * Aggregation of wallet snapshots into per-wallet position deltas for one
 * 5-minute signal period, and the signal lock read from ingestion health.
 */
module Aggregator {
  import opened Wrappers
  import opened Clock
  import opened Snapshots

  const WINDOW_MINUTES: int := 5

  /** The current time floored to a 5-minute boundary. */
  function GetSignalTimestamp(now: int): (ts: int)
    ensures SecondOf(ts) == 0 && MinuteOf(ts) % 5 == 0
    ensures MinuteOf(ts) == MinuteOf(now) / 5 * 5 && HourOf(ts) == HourOf(now)
    ensures ts <= now < ts + 300
  {
    var minute := MinuteOf(now) / 5 * 5;
    Decompose(now);
    Compose(HourOf(now), minute, 0);
    HourOf(now) * SECONDS_PER_HOUR + minute * SECONDS_PER_MINUTE
  }

  predicate InWindow(r: SnapshotRow, asset: string, windowStart: int, windowEnd: int) {
    r.asset == asset && windowStart < r.snapshotTs <= windowEnd && !r.isDirty
  }

  /** The clean rows of the asset with window start < snapshot time <= window end, in table order. */
  function WindowRows(table: seq<SnapshotRow>, asset: string, windowStart: int, windowEnd: int): (rows: seq<SnapshotRow>)
    ensures forall r :: r in rows <==> r in table && InWindow(r, asset, windowStart, windowEnd)
  {
    if table == [] then []
    else
      var rest := WindowRows(table[1..], asset, windowStart, windowEnd);
      assert forall r :: r in table <==> r == table[0] || r in table[1..];
      if InWindow(table[0], asset, windowStart, windowEnd) then [table[0]] + rest else rest
  }

  // ---------------------------------------------------------------------
  // The window query's order: `ORDER BY wallet_id, snapshot_ts DESC`

  /** Code-point order on wallet ids, a prefix before its extensions. */
  predicate IdLe(a: string, b: string)
    decreases |a|
  {
    a == [] || (b != [] && (a[0] < b[0] || (a[0] == b[0] && IdLe(a[1..], b[1..]))))
  }

  lemma {:induction false} IdLeTotal(a: string, b: string)
    ensures IdLe(a, b) || IdLe(b, a)
    decreases |a|
  {
    if a != [] && b != [] && a[0] == b[0] {
      IdLeTotal(a[1..], b[1..]);
    }
  }

  lemma {:induction false} IdLeAntisymmetric(a: string, b: string)
    requires IdLe(a, b) && IdLe(b, a)
    ensures a == b
    decreases |a|
  {
    if a != [] {
      IdLeAntisymmetric(a[1..], b[1..]);
      assert a == [a[0]] + a[1..] && b == [b[0]] + b[1..];
    }
  }

  lemma {:induction false} IdLeTransitive(a: string, b: string, c: string)
    requires IdLe(a, b) && IdLe(b, c)
    ensures IdLe(a, c)
    decreases |a|
  {
    if a != [] && a[0] == b[0] && b[0] == c[0] {
      IdLeTransitive(a[1..], b[1..], c[1..]);
    }
  }

  /** `x` may come before `y`: wallets in ascending id order, each wallet's rows latest first. */
  predicate QueryBefore(x: SnapshotRow, y: SnapshotRow) {
    if x.walletId == y.walletId then x.snapshotTs >= y.snapshotTs else IdLe(x.walletId, y.walletId)
  }

  predicate InQueryOrder(rows: seq<SnapshotRow>) {
    forall i, j :: 0 <= i < j < |rows| ==> QueryBefore(rows[i], rows[j])
  }

  /** Each wallet's rows come latest first. */
  predicate NewestFirstPerWallet(rows: seq<SnapshotRow>) {
    forall i, j :: 0 <= i < j < |rows| && rows[i].walletId == rows[j].walletId ==> rows[i].snapshotTs >= rows[j].snapshotTs
  }

  lemma QueryBeforeTotal(x: SnapshotRow, y: SnapshotRow)
    ensures QueryBefore(x, y) || QueryBefore(y, x)
  {
    if x.walletId != y.walletId {
      IdLeTotal(x.walletId, y.walletId);
    }
  }

  lemma QueryBeforeTransitive(x: SnapshotRow, y: SnapshotRow, z: SnapshotRow)
    requires QueryBefore(x, y) && QueryBefore(y, z)
    ensures QueryBefore(x, z)
  {
    if x.walletId != y.walletId && y.walletId != z.walletId {
      IdLeTransitive(x.walletId, y.walletId, z.walletId);
      if x.walletId == z.walletId {
        IdLeAntisymmetric(x.walletId, y.walletId);
      }
    }
  }

  /** The query's order groups the rows by wallet and puts each wallet's latest row first. */
  lemma QueryOrderIsNewestFirst(rows: seq<SnapshotRow>)
    requires InQueryOrder(rows)
    ensures NewestFirstPerWallet(rows)
  {
  }

  /** Insert a row into rows already in the query's order. */
  function InsertRow(x: SnapshotRow, rows: seq<SnapshotRow>): (r: seq<SnapshotRow>)
    requires InQueryOrder(rows)
    ensures InQueryOrder(r)
    ensures multiset(r) == multiset(rows) + multiset{x}
    decreases |rows|
  {
    if rows == [] || QueryBefore(x, rows[0]) then
      InsertFirst(x, rows);
      [x] + rows
    else
      QueryBeforeTotal(x, rows[0]);
      var rest := InsertRow(x, rows[1..]);
      assert rows == [rows[0]] + rows[1..];
      InsertAfter(rows[0], x, rows[1..], rest);
      [rows[0]] + rest
  }

  lemma InsertFirst(x: SnapshotRow, rows: seq<SnapshotRow>)
    requires InQueryOrder(rows)
    requires rows == [] || QueryBefore(x, rows[0])
    ensures InQueryOrder([x] + rows)
  {
    forall j | 0 < j < |rows|
      ensures QueryBefore(x, rows[j])
    {
      QueryBeforeTransitive(x, rows[0], rows[j]);
    }
  }

  lemma InsertAfter(head: SnapshotRow, x: SnapshotRow, tail: seq<SnapshotRow>, rest: seq<SnapshotRow>)
    requires InQueryOrder([head] + tail) && QueryBefore(head, x)
    requires InQueryOrder(rest) && multiset(rest) == multiset(tail) + multiset{x}
    ensures InQueryOrder([head] + rest)
  {
    forall j | 0 <= j < |rest|
      ensures QueryBefore(head, rest[j])
    {
      assert rest[j] in multiset(rest);
      if rest[j] != x {
        assert rest[j] in tail;
        var k :| 0 <= k < |tail| && tail[k] == rest[j];
        assert ([head] + tail)[0] == head && ([head] + tail)[k + 1] == rest[j];
      }
    }
  }

  /** Insertion sort into the query's order. */
  function SortRows(rows: seq<SnapshotRow>): (r: seq<SnapshotRow>)
    ensures InQueryOrder(r)
    ensures multiset(r) == multiset(rows)
    decreases |rows|
  {
    if rows == [] then []
    else
      assert rows == rows[..|rows| - 1] + [rows[|rows| - 1]];
      InsertRow(rows[|rows| - 1], SortRows(rows[..|rows| - 1]))
  }

  /**
   * The clean snapshots of the `windowMinutes` minutes up to the signal
   * time, ordered by wallet id and, within a wallet, latest first.
   */
  function FetchSnapshotsForWindow(table: seq<SnapshotRow>, signalTs: int, asset: string, windowMinutes: int): (rows: seq<SnapshotRow>)
    ensures InQueryOrder(rows)
    ensures multiset(rows) == multiset(WindowRows(table, asset, signalTs - windowMinutes * 60, signalTs))
    ensures forall r :: r in rows <==> r in table && InWindow(r, asset, signalTs - windowMinutes * 60, signalTs)
  {
    var window := WindowRows(table, asset, signalTs - windowMinutes * 60, signalTs);
    var rows := SortRows(window);
    assert forall r :: r in rows <==> r in multiset(window);
    rows
  }

  /** The wallets that have a row. */
  function WalletsOf(rows: seq<SnapshotRow>): set<string> {
    set r | r in rows :: r.walletId
  }

  /** The wallet's first row in list order. */
  function FirstOf(rows: seq<SnapshotRow>, w: string): (r: SnapshotRow)
    requires w in WalletsOf(rows)
    ensures r in rows && r.walletId == w
    decreases |rows|
  {
    if rows[0].walletId == w then rows[0]
    else
      assert w in WalletsOf(rows[1..]) by {
        var x :| x in rows && x.walletId == w;
        assert x != rows[0];
        assert x in rows[1..];
      }
      FirstOf(rows[1..], w)
  }

  /** The row at the first position of a wallet is its first row. */
  lemma {:induction false} FirstOfAt(rows: seq<SnapshotRow>, w: string, i: int)
    requires 0 <= i < |rows| && rows[i].walletId == w
    requires forall j :: 0 <= j < i ==> rows[j].walletId != w
    ensures w in WalletsOf(rows) && FirstOf(rows, w) == rows[i]
    decreases i
  {
    assert rows[i] in rows;
    if i > 0 {
      assert rows[1..][i - 1] == rows[i];
      FirstOfAt(rows[1..], w, i - 1);
    }
  }

  /** Each wallet's first row. */
  function LatestPerWallet(rows: seq<SnapshotRow>): map<string, SnapshotRow> {
    map w | w in WalletsOf(rows) :: FirstOf(rows, w)
  }

  /** The wallet's first row is at the first position holding the wallet. */
  lemma {:induction false} FirstOfIsFirst(rows: seq<SnapshotRow>, w: string)
    requires w in WalletsOf(rows)
    ensures exists i :: 0 <= i < |rows| && rows[i] == FirstOf(rows, w) && forall j :: 0 <= j < i ==> rows[j].walletId != w
    decreases |rows|
  {
    if rows[0].walletId != w {
      assert w in WalletsOf(rows[1..]) by {
        var x :| x in rows && x.walletId == w;
        assert x != rows[0];
        assert x in rows[1..];
      }
      FirstOfIsFirst(rows[1..], w);
      var i :| 0 <= i < |rows[1..]| && rows[1..][i] == FirstOf(rows[1..], w) && forall j :: 0 <= j < i ==> rows[1..][j].walletId != w;
      assert rows[i + 1] == FirstOf(rows, w);
      assert forall j :: 0 < j < i + 1 ==> rows[j] == rows[1..][j - 1];
    }
  }

  /**
   * The first row of every wallet: when each wallet's rows come latest first, each
   * wallet's latest snapshot.
   */
  method GetLatestSnapshotPerWallet(rows: seq<SnapshotRow>) returns (latest: map<string, SnapshotRow>)
    ensures latest == LatestPerWallet(rows)
    ensures latest.Keys == WalletsOf(rows)
    ensures forall w :: w in latest ==> latest[w] in rows && latest[w].walletId == w
    ensures forall w :: w in latest ==>
              exists i :: 0 <= i < |rows| && rows[i] == latest[w] && forall j :: 0 <= j < i ==> rows[j].walletId != w
    ensures NewestFirstPerWallet(rows) ==>
              forall r :: r in rows ==> r.snapshotTs <= latest[r.walletId].snapshotTs
  {
    latest := map[];
    var i := 0;
    while i < |rows|
      invariant 0 <= i <= |rows|
      invariant latest.Keys == WalletsOf(rows[..i])
      invariant forall w :: w in latest ==> w in WalletsOf(rows) && latest[w] == FirstOf(rows, w)
    {
      var w := rows[i].walletId;
      assert rows[..i + 1] == rows[..i] + [rows[i]];
      if w !in latest {
        forall j | 0 <= j < i
          ensures rows[j].walletId != w
        {
          assert rows[j] == rows[..i][j];
        }
        FirstOfAt(rows, w, i);
        latest := latest[w := rows[i]];
      }
      i := i + 1;
    }
    assert rows[..|rows|] == rows;
    LatestPerWalletIsFirstAndLatest(rows);
  }

  /** Each kept row is its wallet's first row, and the latest when the rows come newest first. */
  lemma LatestPerWalletIsFirstAndLatest(rows: seq<SnapshotRow>)
    ensures forall w :: w in LatestPerWallet(rows) ==>
              exists i :: 0 <= i < |rows| && rows[i] == LatestPerWallet(rows)[w] && forall j :: 0 <= j < i ==> rows[j].walletId != w
    ensures NewestFirstPerWallet(rows) ==>
              forall r :: r in rows ==> r.walletId in LatestPerWallet(rows) && r.snapshotTs <= LatestPerWallet(rows)[r.walletId].snapshotTs
  {
    var latest := LatestPerWallet(rows);
    forall w | w in latest
      ensures exists i :: 0 <= i < |rows| && rows[i] == latest[w] && forall j :: 0 <= j < i ==> rows[j].walletId != w
    {
      FirstOfIsFirst(rows, w);
    }
    if NewestFirstPerWallet(rows) {
      forall r | r in rows
        ensures r.walletId in latest && r.snapshotTs <= latest[r.walletId].snapshotTs
      {
        FirstIsLatest(rows, r);
      }
    }
  }

  /** When each wallet's rows come latest first, a wallet's first row is its latest. */
  lemma {:induction false} FirstIsLatest(rows: seq<SnapshotRow>, r: SnapshotRow)
    requires NewestFirstPerWallet(rows)
    requires r in rows
    ensures r.walletId in WalletsOf(rows)
    ensures r.snapshotTs <= FirstOf(rows, r.walletId).snapshotTs
    decreases |rows|
  {
    if rows[0].walletId == r.walletId {
      var k :| 0 <= k < |rows| && rows[k] == r;
      if k > 0 {
        assert rows[0].snapshotTs >= rows[k].snapshotTs;
      }
    } else {
      assert r in rows[1..];
      assert NewestFirstPerWallet(rows[1..]) by {
        forall i, j | 0 <= i < j < |rows[1..]| && rows[1..][i].walletId == rows[1..][j].walletId
          ensures rows[1..][i].snapshotTs >= rows[1..][j].snapshotTs
        {
          assert rows[1..][i] == rows[i + 1] && rows[1..][j] == rows[j + 1];
        }
      }
      FirstIsLatest(rows[1..], r);
    }
  }

  /** A wallet's position change between two windows. */
  datatype DeltaInfo = DeltaInfo(
    sziCurrent: real,
    sziPrevious: Option<real>,
    deltaSzi: Option<real>,
    tsCurrent: int,
    tsPrevious: Option<int>)

  /**
   * Deltas for every wallet of the union of both windows that has a current
   * snapshot; wallets seen only in the previous window are skipped.
   */
  method BuildWalletDeltas(current: map<string, SnapshotRow>, previous: map<string, SnapshotRow>)
    returns (deltas: map<string, DeltaInfo>)
    ensures deltas.Keys == current.Keys
    ensures forall w :: w in deltas ==>
              deltas[w].sziCurrent == current[w].position.positionSzi &&
              deltas[w].tsCurrent == current[w].snapshotTs
    ensures forall w :: w in deltas ==>
              (deltas[w].deltaSzi.Some? <==> w in previous) &&
              (deltas[w].sziPrevious.Some? <==> w in previous) &&
              (deltas[w].tsPrevious.Some? <==> w in previous)
    ensures forall w :: w in deltas && w in previous ==>
              deltas[w].sziPrevious == Some(previous[w].position.positionSzi) &&
              deltas[w].deltaSzi == Some(current[w].position.positionSzi - previous[w].position.positionSzi) &&
              deltas[w].tsPrevious == Some(previous[w].snapshotTs)
    ensures deltas == DeltasOf(current, previous)
  {
    deltas := map[];
    var todo := current.Keys + previous.Keys;
    while todo != {}
      invariant todo <= current.Keys + previous.Keys
      invariant deltas.Keys == current.Keys - todo
      invariant forall w :: w in deltas ==> deltas[w] == DeltaFor(current[w], if w in previous then Some(previous[w]) else None)
      decreases todo
    {
      var w :| w in todo;
      todo := todo - {w};
      if w !in current {
        continue;
      }
      var cur := current[w];
      var prev := if w in previous then Some(previous[w]) else None;
      deltas := deltas[w := DeltaFor(cur, prev)];
    }
  }

  /** The deltas of the wallets with a current snapshot. */
  function DeltasOf(current: map<string, SnapshotRow>, previous: map<string, SnapshotRow>): map<string, DeltaInfo> {
    map w | w in current :: DeltaFor(current[w], if w in previous then Some(previous[w]) else None)
  }

  /** The delta record of a wallet from its current and (possibly missing) previous snapshot. */
  function DeltaFor(cur: SnapshotRow, prev: Option<SnapshotRow>): DeltaInfo {
    var sziCurrent := cur.position.positionSzi;
    match prev
    case None => DeltaInfo(sziCurrent, None, None, cur.snapshotTs, None)
    case Some(p) => DeltaInfo(sziCurrent, Some(p.position.positionSzi), Some(sziCurrent - p.position.positionSzi), cur.snapshotTs, Some(p.snapshotTs))
  }

  /** Wallets with a delta. */
  function ValidWallets(deltas: map<string, DeltaInfo>): set<string> {
    set w | w in deltas && deltas[w].deltaSzi.Some?
  }

  /** Wallets without previous-window data. */
  function MissingWallets(deltas: map<string, DeltaInfo>): set<string> {
    set w | w in deltas && deltas[w].deltaSzi.None?
  }

  /** Every wallet of the period is either counted as valid or as missing. */
  lemma ValidAndMissingPartition(deltas: map<string, DeltaInfo>)
    ensures |ValidWallets(deltas)| + |MissingWallets(deltas)| == |deltas|
  {
    var v, m := ValidWallets(deltas), MissingWallets(deltas);
    assert v !! m;
    assert v + m == deltas.Keys;
    assert |v + m| == |v| + |m|;
  }

  /** The deltas of a signal period and the numbers of wallets with and without a delta. */
  datatype Aggregate = Aggregate(deltas: map<string, DeltaInfo>, walletCount: nat, missingCount: nat)

  /**
   * The deltas of the period ending at `signalTs`, from each wallet's first
   * row in the current window (the 5 minutes up to it) and in the previous
   * window (the 5 minutes before that).
   */
  function PeriodDeltas(table: seq<SnapshotRow>, signalTs: int, asset: string): map<string, DeltaInfo> {
    DeltasOf(LatestPerWallet(FetchSnapshotsForWindow(table, signalTs, asset, WINDOW_MINUTES)),
             LatestPerWallet(FetchSnapshotsForWindow(table, signalTs - WINDOW_MINUTES * SECONDS_PER_MINUTE, asset, WINDOW_MINUTES)))
  }

  /**
   * Deltas for the period ending at `signalTs`: every wallet of the current
   * window, with the change from its latest previous-window row when it
   * has one.
   */
  method AggregateForSignalPeriod(table: seq<SnapshotRow>, signalTs: int, asset: string) returns (agg: Aggregate)
    ensures agg.deltas == PeriodDeltas(table, signalTs, asset)
    ensures agg.deltas.Keys == WalletsOf(FetchSnapshotsForWindow(table, signalTs, asset, WINDOW_MINUTES))
    ensures forall w :: w in agg.deltas ==>
              (agg.deltas[w].deltaSzi.Some? <==> w in WalletsOf(FetchSnapshotsForWindow(table, signalTs - 300, asset, WINDOW_MINUTES)))
    ensures agg.walletCount == |ValidWallets(agg.deltas)|
    ensures agg.missingCount == |MissingWallets(agg.deltas)|
    ensures agg.walletCount + agg.missingCount == |agg.deltas|
  {
    var currentRows := FetchSnapshotsForWindow(table, signalTs, asset, WINDOW_MINUTES);
    var previousTs := signalTs - WINDOW_MINUTES * SECONDS_PER_MINUTE;
    var previousRows := FetchSnapshotsForWindow(table, previousTs, asset, WINDOW_MINUTES);
    var current := GetLatestSnapshotPerWallet(currentRows);
    var previous := GetLatestSnapshotPerWallet(previousRows);
    var deltas := BuildWalletDeltas(current, previous);
    ValidAndMissingPartition(deltas);
    agg := Aggregate(deltas, |ValidWallets(deltas)|, |MissingWallets(deltas)|);
  }

  /** Position sizes of the wallet's clean snapshots of the asset in the 24 hours before `now`. */
  function Fetch24hHistory(table: seq<SnapshotRow>, walletId: string, asset: string, now: int): (h: seq<real>)
    ensures |h| <= |table|
    ensures forall r :: r in table && r.walletId == walletId && InWindow(r, asset, now - SECONDS_PER_DAY, r.snapshotTs) ==> r.position.positionSzi in h
  {
    if table == [] then []
    else
      var r := table[0];
      var rest := Fetch24hHistory(table[1..], walletId, asset, now);
      assert forall x :: x in table ==> x == r || x in table[1..];
      if r.walletId == walletId && r.asset == asset && r.snapshotTs > now - SECONDS_PER_DAY && !r.isDirty
      then [r.position.positionSzi] + rest else rest
  }

  /** The health row with the latest health time. */
  function LatestHealth(health: seq<HealthRow>): (r: Option<HealthRow>)
    ensures r.None? <==> health == []
    ensures r.Some? ==> r.value in health && forall h :: h in health ==> h.healthTs <= r.value.healthTs
  {
    if health == [] then None
    else
      var rest := LatestHealth(health[1..]);
      assert forall h :: h in health ==> h == health[0] || h in health[1..];
      if rest.Some? && rest.value.healthTs > health[0].healthTs then rest else Some(health[0])
  }

  /** Signals may be computed only when the latest health is neither stale nor from a failed run. */
  function CheckSignalLock(latest: Option<HealthRow>): (open: bool)
    ensures open <==> latest.Some? && latest.value.healthState != Stale && latest.value.snapshotStatus != Failed
  {
    if latest.None? then false
    else if latest.value.healthState == Stale then false
    else if latest.value.snapshotStatus == Failed then false
    else true
  }

  /**
   * When the latest health row is the one an ingestion run wrote, the lock
   * opens only after a run that did not fail and with a success at most
   * three minutes before the health evaluation.
   */
  lemma LockOpenAfterRecentSuccess(runs: seq<RunMetadata>, m: RunMetadata, clock: int)
    requires CheckSignalLock(Some(HealthAfter(runs, m, clock)))
    ensures m.status != Failed
    ensures clock - HealthAfter(runs, m, clock).lastSuccessTs.value <= 180
  {
    var h := HealthAfter(runs, m, clock);
    assert h.healthState == HealthStateFor(m.status, m.coveragePct, clock - h.lastSuccessTs.value);
  }
}
