/**
 * The wallet universe refresh: the leaderboard rows that parse are ranked by
 * 30-day PnL, the top N kept, and — when at least 90% of N arrived — the
 * current universe is replaced and the run and its members are recorded.
 */
module Universe {
  import opened Wrappers
  import opened Config
  import opened Sorting
  import opened HyperliquidClient

  datatype RunStatus = Success | Failed

  /** Why a run failed: too few valid wallets, or the fetch raised. */
  datatype RefreshError = InsufficientWallets(received: nat, required: nat) | RefreshFailed

  /** A row of `wallet_universe_runs` (the duration is not modelled). */
  datatype RunRecord = RunRecord(
    asOfTs: int,
    status: RunStatus,
    source: string,
    nRequested: nat,
    nReceived: nat,
    enteredCount: nat,
    exitedCount: nat,
    error: Option<RefreshError>)

  /** A row of `wallet_universe_members`; the run id is the run's position in the runs table. */
  datatype MemberRow = MemberRow(runId: nat, walletId: Json, rank: nat, monthPnl: real, monthRoi: real,
                                 accountValue: Option<real>)

  /** A row of `wallet_universe_current`. */
  datatype CurrentRow = CurrentRow(walletId: Json, rank: nat, monthPnl: real, monthRoi: real,
                                   accountValue: Option<real>, asOfTs: int)

  /** The ranking key. */
  function MonthPnl(w: WalletRecord): real {
    w.monthPnl
  }

  /** The wallets of the rows that parse, in leaderboard order. */
  function ParsedWallets(rows: seq<Json>): (r: seq<WalletRecord>)
    ensures |r| <= |rows|
    ensures forall w :: w in r ==> exists row :: row in rows && ParseLeaderboardRow(row) == Some(w)
    ensures forall row :: row in rows && ParseLeaderboardRow(row).Some? ==> ParseLeaderboardRow(row).value in r
    decreases |rows|
  {
    if rows == [] then []
    else
      var init := rows[..|rows| - 1];
      var p := ParseLeaderboardRow(rows[|rows| - 1]);
      assert forall row :: row in rows <==> row in init || row == rows[|rows| - 1];
      var r := ParsedWallets(init);
      if p.Some? then r + [p.value] else r
  }

  /** The parse loop: every row is parsed and the ones that parse are kept, in order. */
  method ParseRows(rows: seq<Json>) returns (parsed: seq<WalletRecord>)
    ensures parsed == ParsedWallets(rows)
  {
    parsed := [];
    for i := 0 to |rows|
      invariant parsed == ParsedWallets(rows[..i])
    {
      assert rows[..i + 1][..i] == rows[..i];
      var p := ParseLeaderboardRow(rows[i]);
      if p.Some? {
        parsed := parsed + [p.value];
      }
    }
    assert rows[..|rows|] == rows;
  }

  /** The `n` wallets with the largest month PnL, largest first. */
  function TopWallets(parsed: seq<WalletRecord>, n: nat): (r: seq<WalletRecord>)
    ensures |r| == if |parsed| < n then |parsed| else n
    ensures SortedDesc(r, MonthPnl)
    ensures multiset(r) <= multiset(parsed)
    ensures forall w :: w in r ==> w in parsed
  {
    var sorted := SortDesc(parsed, MonthPnl);
    var k := if |sorted| < n then |sorted| else n;
    assert sorted == sorted[..k] + sorted[k..];
    SortDescSameElements(parsed, MonthPnl);
    sorted[..k]
  }

  /** A parsed wallet left out of the top N has a month PnL no larger than any wallet kept. */
  lemma DroppedWalletsRankBelow(parsed: seq<WalletRecord>, n: nat, w: WalletRecord, x: WalletRecord)
    requires w in parsed && w !in TopWallets(parsed, n)
    requires x in TopWallets(parsed, n)
    ensures w.monthPnl <= x.monthPnl
  {
    var sorted := SortDesc(parsed, MonthPnl);
    var k := if |sorted| < n then |sorted| else n;
    assert TopWallets(parsed, n) == sorted[..k];
    SortDescSameElements(parsed, MonthPnl);
    var j :| 0 <= j < |sorted| && sorted[j] == w;
    var i :| 0 <= i < k && sorted[..k][i] == x;
    assert forall t :: 0 <= t < k ==> sorted[t] in sorted[..k];
    assert j >= k;
    assert MonthPnl(sorted[i]) >= MonthPnl(sorted[j]);
  }

  /** `int(size * 0.9)`: the largest whole number not above nine tenths of `size`. */
  function MinRequired(size: nat): (r: nat)
    ensures r * 10 <= size * 9 < (r + 1) * 10
  {
    size * 9 / 10
  }

  /** The configured universe of 200 wallets needs at least 180 valid ones. */
  lemma DefaultMinRequired()
    ensures MinRequired(UNIVERSE_SIZE) == 180
  {
  }

  /** The wallet ids of the selected wallets. */
  function WalletIds(ws: seq<WalletRecord>): set<Json> {
    set w | w in ws :: w.walletId
  }

  /** The wallet ids of the current universe (`_get_current_universe`). */
  function CurrentIds(rows: seq<CurrentRow>): set<Json> {
    set c | c in rows :: c.walletId
  }

  /**
   * The entered and exited sets partition the change: entered ids were not
   * in the previous universe, exited ids are not in the new one, the new
   * universe is what stayed plus what entered, and the size changes by the
   * difference of the two counts.
   */
  lemma UniverseDiff(previous: set<Json>, latest: set<Json>)
    ensures (latest - previous) * previous == {}
    ensures (previous - latest) * latest == {}
    ensures latest == (previous - (previous - latest)) + (latest - previous)
    ensures |latest| + |previous - latest| == |previous| + |latest - previous|
  {
    var stayed := latest * previous;
    assert latest == stayed + (latest - previous);
    assert previous == stayed + (previous - latest);
    assert stayed * (latest - previous) == {};
    assert stayed * (previous - latest) == {};
  }

  /** The member rows of run `runId`: ranks 1..n in the given order. */
  function MemberRows(runId: nat, wallets: seq<WalletRecord>): (r: seq<MemberRow>)
    ensures |r| == |wallets|
    ensures forall i :: 0 <= i < |r| ==>
              r[i] == MemberRow(runId, wallets[i].walletId, i + 1, wallets[i].monthPnl, wallets[i].monthRoi,
                                wallets[i].accountValue)
    decreases |wallets|
  {
    if wallets == [] then []
    else
      var w := wallets[|wallets| - 1];
      MemberRows(runId, wallets[..|wallets| - 1])
        + [MemberRow(runId, w.walletId, |wallets|, w.monthPnl, w.monthRoi, w.accountValue)]
  }

  /** The current-universe rows: ranks 1..n in the given order, all stamped with the run's time. */
  function CurrentRows(wallets: seq<WalletRecord>, asOfTs: int): (r: seq<CurrentRow>)
    ensures |r| == |wallets|
    ensures forall i :: 0 <= i < |r| ==>
              r[i] == CurrentRow(wallets[i].walletId, i + 1, wallets[i].monthPnl, wallets[i].monthRoi,
                                 wallets[i].accountValue, asOfTs)
    decreases |wallets|
  {
    if wallets == [] then []
    else
      var w := wallets[|wallets| - 1];
      CurrentRows(wallets[..|wallets| - 1], asOfTs)
        + [CurrentRow(w.walletId, |wallets|, w.monthPnl, w.monthRoi, w.accountValue, asOfTs)]
  }

  /**
   * Over the top wallets a better rank never has a smaller month PnL, and
   * the current universe holds exactly the selected wallet ids.
   */
  lemma RanksFollowPnl(wallets: seq<WalletRecord>, asOfTs: int)
    requires SortedDesc(wallets, MonthPnl)
    ensures var r := CurrentRows(wallets, asOfTs);
            forall i, j :: 0 <= i < j < |r| ==> r[i].rank < r[j].rank && r[i].monthPnl >= r[j].monthPnl
    ensures CurrentIds(CurrentRows(wallets, asOfTs)) == WalletIds(wallets)
  {
    var r := CurrentRows(wallets, asOfTs);
    forall i, j | 0 <= i < j < |r|
      ensures r[i].rank < r[j].rank && r[i].monthPnl >= r[j].monthPnl
    {
      assert MonthPnl(wallets[i]) >= MonthPnl(wallets[j]);
    }
    forall id | id in WalletIds(wallets)
      ensures id in CurrentIds(r)
    {
      var w :| w in wallets && w.walletId == id;
      var i :| 0 <= i < |wallets| && wallets[i] == w;
      assert r[i].walletId == id;
    }
    forall id | id in CurrentIds(r)
      ensures id in WalletIds(wallets)
    {
      var c :| c in r && c.walletId == id;
      var i :| 0 <= i < |r| && r[i] == c;
      assert wallets[i] in wallets;
    }
  }

  /** The universe tables. */
  class UniverseStore {
    var runs: seq<RunRecord>
    var members: seq<MemberRow>
    var current: seq<CurrentRow>

    constructor()
      ensures runs == [] && members == [] && current == []
    {
      runs := [];
      members := [];
      current := [];
    }

    /** `_persist_run_metadata`: only a run row is written. */
    method PersistRunMetadata(m: RunRecord)
      modifies this
      ensures runs == old(runs) + [m]
      ensures members == old(members) && current == old(current)
    {
      runs := runs + [m];
    }

    /**
     * `_persist_universe`: the run row, then one member row per wallet with
     * ranks from 1, then the current universe deleted and rewritten.
     */
    method PersistUniverse(wallets: seq<WalletRecord>, m: RunRecord) returns (runId: nat)
      modifies this
      ensures runId == |old(runs)|
      ensures runs == old(runs) + [m]
      ensures members == old(members) + MemberRows(runId, wallets)
      ensures current == CurrentRows(wallets, m.asOfTs)
    {
      runId := |runs|;
      runs := runs + [m];
      for i := 0 to |wallets|
        invariant runs == old(runs) + [m]
        invariant members == old(members) + MemberRows(runId, wallets[..i])
      {
        assert wallets[..i + 1][..i] == wallets[..i];
        var w := wallets[i];
        members := members + [MemberRow(runId, w.walletId, i + 1, w.monthPnl, w.monthRoi, w.accountValue)];
      }
      assert wallets[..|wallets|] == wallets;
      current := [];
      for i := 0 to |wallets|
        invariant runs == old(runs) + [m]
        invariant members == old(members) + MemberRows(runId, wallets)
        invariant current == CurrentRows(wallets[..i], m.asOfTs)
      {
        assert wallets[..i + 1][..i] == wallets[..i];
        var w := wallets[i];
        current := current + [CurrentRow(w.walletId, i + 1, w.monthPnl, w.monthRoi, w.accountValue, m.asOfTs)];
      }
      assert wallets[..|wallets|] == wallets;
    }
  }

  /** The refresher and the number of wallets it asks for. */
  class UniverseRefresher {
    var universeSize: nat

    constructor()
      ensures universeSize == UNIVERSE_SIZE
    {
      universeSize := UNIVERSE_SIZE;
    }

    /**
     * `refresh_universe`, with the leaderboard fetch as a parameter (`None`
     * when it raised). A failed fetch or too few valid wallets records a
     * failed run and keeps the current universe. Otherwise the universe is
     * persisted and the returned run is marked successful; the run row was
     * written before that, so the stored row keeps the status `failed`.
     */
    method RefreshUniverse(store: UniverseStore, leaderboard: Option<seq<Json>>, now: int) returns (m: RunRecord)
      modifies store
      ensures m.asOfTs == now && m.nRequested == universeSize
      ensures leaderboard.None? ==>
                && m == RunRecord(now, Failed, "unknown", universeSize, 0, 0, 0, Some(RefreshFailed))
                && store.runs == old(store.runs) + [m]
                && store.members == old(store.members) && store.current == old(store.current)
      ensures leaderboard.Some? ==>
                var top := TopWallets(ParsedWallets(leaderboard.value), universeSize);
                var previous := CurrentIds(old(store.current));
                && m.source == "stats-data"
                && m.nReceived == |top|
                && (|top| < MinRequired(universeSize) ==>
                      && m == RunRecord(now, Failed, "stats-data", universeSize, |top|, 0, 0,
                                        Some(InsufficientWallets(|top|, MinRequired(universeSize))))
                      && store.runs == old(store.runs) + [m]
                      && store.members == old(store.members) && store.current == old(store.current))
                && (|top| >= MinRequired(universeSize) ==>
                      && m.status == Success && m.error.None?
                      && m.enteredCount == |WalletIds(top) - previous|
                      && m.exitedCount == |previous - WalletIds(top)|
                      && store.runs == old(store.runs) + [m.(status := Failed)]
                      && store.members == old(store.members) + MemberRows(|old(store.runs)|, top)
                      && store.current == CurrentRows(top, now))
    {
      m := RunRecord(now, Failed, "unknown", universeSize, 0, 0, 0, None);
      if leaderboard.None? {
        m := m.(error := Some(RefreshFailed));
        store.PersistRunMetadata(m);
        return;
      }
      var rows := leaderboard.value;
      m := m.(source := "stats-data");
      var parsed := ParseRows(rows);
      var top := TopWallets(parsed, universeSize);
      m := m.(nReceived := |top|);
      var minRequired := MinRequired(universeSize);
      if |top| < minRequired {
        m := m.(error := Some(InsufficientWallets(|top|, minRequired)));
        store.PersistRunMetadata(m);
        return;
      }
      var previous := CurrentIds(store.current);
      var newIds := WalletIds(top);
      var entered := newIds - previous;
      var exited := previous - newIds;
      m := m.(enteredCount := |entered|, exitedCount := |exited|);
      var _ := store.PersistUniverse(top, m);
      m := m.(status := Success);
    }
  }
}
