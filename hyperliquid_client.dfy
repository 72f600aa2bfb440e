/**
 * Parsing of Hyperliquid API responses: leaderboard rows into wallet records
 * and clearinghouse states into one asset's position.
 */
module HyperliquidClient {
  import opened Wrappers

  /** A decoded JSON value. `JNull` is Python's `None`. */
  datatype Json =
    | JNull
    | JBool(b: bool)
    | JNum(n: real)
    | JStr(s: string)
    | JArr(items: seq<Json>)
    | JObj(fields: map<string, Json>)

  /** Outcome of a Python step that may raise. */
  datatype Outcome<+T> = Value(value: T) | Raises

  /** `d.get(key, default)`: the default only when the key is absent. */
  function GetOr(fields: map<string, Json>, key: string, default: Json): Json {
    if key in fields then fields[key] else default
  }

  /** Python truthiness of a JSON value. */
  predicate Truthy(j: Json) {
    match j
    case JNull => false
    case JBool(b) => b
    case JNum(n) => n != 0.0
    case JStr(s) => s != ""
    case JArr(items) => items != []
    case JObj(fields) => fields != map[]
  }

  // ---------------------------------------------------------------------
  // float()

  predicate IsDigit(c: char) {
    '0' <= c <= '9'
  }

  predicate AllDigits(s: string) {
    forall i :: 0 <= i < |s| ==> IsDigit(s[i])
  }

  /** Value of a string of decimal digits, most significant first. */
  function DigitsValue(s: string): (v: nat)
    requires AllDigits(s)
    decreases |s|
  {
    if s == [] then 0 else DigitsValue(s[..|s| - 1]) * 10 + (s[|s| - 1] as int - '0' as int)
  }

  function Pow10(n: nat): (p: nat)
    ensures p >= 1
  {
    if n == 0 then 1 else 10 * Pow10(n - 1)
  }

  /** Index of the first '.' in `s`, if any. */
  function DotIndex(s: string): (k: Option<nat>)
    ensures k.Some? ==> k.value < |s| && s[k.value] == '.' && forall i :: 0 <= i < k.value ==> s[i] != '.'
    ensures k.None? ==> forall i :: 0 <= i < |s| ==> s[i] != '.'
  {
    if s == [] then None
    else if s[0] == '.' then Some(0)
    else match DotIndex(s[1..])
      case None => None
      case Some(k) => Some(k + 1)
  }

  /** An unsigned decimal numeral `ddd`, `ddd.ddd`, `ddd.` or `.ddd` (at least one digit). */
  function UnsignedDecimal(s: string): (r: Option<real>)
    ensures r.Some? ==> r.value >= 0.0
  {
    match DotIndex(s)
    case None =>
      if s != [] && AllDigits(s) then Some(DigitsValue(s) as real) else None
    case Some(k) =>
      var whole, frac := s[..k], s[k + 1..];
      if |whole| + |frac| > 0 && AllDigits(whole) && AllDigits(frac) then
        Some(DigitsValue(whole) as real + DigitsValue(frac) as real / Pow10(|frac|) as real)
      else None
  }

  /** `float(s)` for a plain decimal string with an optional sign. */
  function ParseDecimal(s: string): (r: Option<real>)
    ensures s != [] && s[0] == '-' && r.Some? ==> r.value <= 0.0
    ensures s != [] && s[0] != '-' && r.Some? ==> r.value >= 0.0
  {
    if s != [] && s[0] == '-' then
      match UnsignedDecimal(s[1..])
      case None => None
      case Some(v) => Some(-v)
    else if s != [] && s[0] == '+' then UnsignedDecimal(s[1..])
    else UnsignedDecimal(s)
  }

  /** A leading minus sign negates the numeral it precedes. */
  lemma NegationSign(s: string)
    requires s == [] || (s[0] != '-' && s[0] != '+')
    ensures ParseDecimal(['-'] + s) == match ParseDecimal(s) case None => None case Some(v) => Some(-v)
  {
    assert (['-'] + s)[1..] == s;
  }

  /** `float(x)` for a JSON value; strings other than plain decimals, containers and `None` raise. */
  function ToFloat(j: Json): (r: Outcome<real>)
    ensures j.JNum? ==> r == Value(j.n)
    ensures j.JNull? || j.JArr? || j.JObj? ==> r.Raises?
    ensures j.JStr? ==> (r.Value? <==> ParseDecimal(j.s).Some?)
  {
    match j
    case JNum(n) => Value(n)
    case JBool(b) => Value(if b then 1.0 else 0.0)
    case JStr(s) =>
      (match ParseDecimal(s)
       case Some(v) => Value(v)
       case None => Raises)
    case _ => Raises
  }

  /** `float(x) if x is not None else None`. */
  function ToOptFloat(j: Json): (r: Outcome<Option<real>>)
    ensures j.JNull? ==> r == Value(None)
    ensures !j.JNull? ==> (r.Value? <==> ToFloat(j).Value?)
  {
    if j.JNull? then Value(None)
    else match ToFloat(j)
      case Value(v) => Value(Some(v))
      case Raises => Raises
  }

  lemma ParseExamples()
    ensures ParseDecimal("-2.5") == Some(-2.5)
    ensures ParseDecimal("5") == Some(5.0)
    ensures ParseDecimal("1500.0") == Some(1500.0)
    ensures ParseDecimal(".") == None
    ensures ParseDecimal("") == None
  {
    assert DotIndex("-2.5"[1..]) == Some(1);
    assert DotIndex("1500.0") == Some(4);
    assert DigitsValue("1500") == 1500 by {
      assert "1500"[..3] == "150";
      assert "150"[..2] == "15";
      assert "15"[..1] == "1";
      assert "1"[..0] == "";
    }
    assert "-2.5"[1..] == "2.5";
    assert "2.5"[..1] == "2";
    assert "2.5"[2..] == "5";
    assert DigitsValue("2") == 2 by { assert "2"[..0] == ""; }
    assert DigitsValue("5") == 5 by { assert "5"[..0] == ""; }
    assert DigitsValue("0") == 0 by { assert "0"[..0] == ""; }
    assert "1500.0"[..4] == "1500";
    assert "1500.0"[5..] == "0";
  }

  // ---------------------------------------------------------------------
  // dict()

  /** A JSON value usable as a dictionary key (hashable). */
  predicate Hashable(j: Json) {
    !j.JArr? && !j.JObj?
  }

  /**
   * The key and value `dict()` unpacks from one item: a two-element list
   * with a hashable first element, or a two-character string (its two
   * characters); `None` when unpacking raises.
   */
  function PairOf(item: Json): (p: Option<(Json, Json)>)
    ensures p.Some? <==> (item.JArr? && |item.items| == 2 && Hashable(item.items[0])) || (item.JStr? && |item.s| == 2)
    ensures p.Some? && item.JArr? ==> p.value == (item.items[0], item.items[1])
  {
    match item
    case JArr(xs) => if |xs| == 2 && Hashable(xs[0]) then Some((xs[0], xs[1])) else None
    case JStr(str) => if |str| == 2 then Some((JStr([str[0]]), JStr([str[1]]))) else None
    case _ => None
  }

  predicate AllPairs(items: seq<Json>) {
    forall i :: 0 <= i < |items| ==> PairOf(items[i]).Some?
  }

  /** The keys of the pairs. */
  function PairKeys(items: seq<Json>): set<Json>
    requires AllPairs(items)
  {
    set i | 0 <= i < |items| :: PairOf(items[i]).value.0
  }

  /** No later pair has the key of pair `i`. */
  predicate LastWithKey(items: seq<Json>, i: int)
    requires AllPairs(items) && 0 <= i < |items|
  {
    forall j :: i < j < |items| ==> PairOf(items[j]).value.0 != PairOf(items[i]).value.0
  }

  /** `dict(pairs)`: raises unless every item is a pair; otherwise maps exactly the pairs' keys. */
  function DictOfPairs(items: seq<Json>): (r: Outcome<map<Json, Json>>)
    ensures r.Value? <==> AllPairs(items)
    ensures r.Value? ==> r.value.Keys == PairKeys(items)
    decreases |items|
  {
    if items == [] then Value(map[])
    else
      var init := items[..|items| - 1];
      var last := items[|items| - 1];
      match DictOfPairs(init)
      case Raises =>
        assert !AllPairs(items) by {
          var i :| 0 <= i < |init| && PairOf(init[i]).None?;
          assert items[i] == init[i];
        }
        Raises
      case Value(m) =>
        match PairOf(last)
        case None => Raises
        case Some(kv) =>
          PairKeysStep(items);
          Value(m[kv.0 := kv.1])
  }

  lemma PairKeysStep(items: seq<Json>)
    requires items != [] && AllPairs(items)
    ensures AllPairs(items[..|items| - 1])
    ensures PairKeys(items) == PairKeys(items[..|items| - 1]) + {PairOf(items[|items| - 1]).value.0}
  {
    var init := items[..|items| - 1];
    assert forall i :: 0 <= i < |init| ==> init[i] == items[i];
    forall k | k in PairKeys(items)
      ensures k in PairKeys(init) + {PairOf(items[|items| - 1]).value.0}
    {
      var i :| 0 <= i < |items| && PairOf(items[i]).value.0 == k;
      if i < |init| {
        assert PairOf(init[i]).value.0 == k;
      }
    }
  }

  /** The value stored under a key is the one of the last pair with that key. */
  lemma {:induction false} DictOfPairsLastWins(items: seq<Json>, i: int)
    requires AllPairs(items) && 0 <= i < |items| && LastWithKey(items, i)
    ensures DictOfPairs(items).Value?
    ensures DictOfPairs(items).value[PairOf(items[i]).value.0] == PairOf(items[i]).value.1
    decreases |items|
  {
    var init := items[..|items| - 1];
    PairKeysStep(items);
    if i < |items| - 1 {
      assert init[i] == items[i];
      assert LastWithKey(init, i) by {
        forall j | i < j < |init|
          ensures PairOf(init[j]).value.0 != PairOf(init[i]).value.0
        {
          assert init[j] == items[j];
        }
      }
      DictOfPairsLastWins(init, i);
      assert PairOf(items[|items| - 1]).value.0 != PairOf(items[i]).value.0;
    }
  }

  /** `dict(x)`: a JSON object keeps its entries, a list is read as key/value pairs. */
  function DictOf(j: Json): (r: Outcome<map<Json, Json>>)
    ensures j.JObj? ==> r.Value? && forall k :: k in j.fields <==> JStr(k) in r.value
  {
    match j
    case JObj(fields) => Value(map k | k in fields :: JStr(k) := fields[k])
    case JArr(items) => DictOfPairs(items)
    case JStr(s) => if s == "" then Value(map[]) else Raises
    case _ => Raises
  }

  // ---------------------------------------------------------------------
  // Leaderboard rows

  /** A leaderboard row that parsed; the address keeps the JSON value found under `ethAddress`. */
  datatype WalletRecord = WalletRecord(walletId: Json, accountValue: Option<real>, monthPnl: real, monthRoi: real)

  /** `float(month.get(key, 0)) if month else 0.0`, where `month` must be a dictionary to be read. */
  function MonthFigure(month: Json, key: string): (r: Outcome<real>)
    ensures !Truthy(month) ==> r == Value(0.0)
    ensures Truthy(month) && month.JObj? && key !in month.fields ==> r == Value(0.0)
  {
    if !Truthy(month) then Value(0.0)
    else if !month.JObj? then Raises
    else ToFloat(GetOr(month.fields, key, JNum(0.0)))
  }

  /** `dict(windowPerformances) if windowPerformances else {}`. */
  function RowWindows(fields: map<string, Json>): Outcome<map<Json, Json>> {
    var wp := GetOr(fields, "windowPerformances", JArr([]));
    if Truthy(wp) then DictOf(wp) else Value(map[])
  }

  /** `windows.get("month", {})`. */
  function RowMonth(windows: map<Json, Json>): Json {
    if JStr("month") in windows then windows[JStr("month")] else JObj(map[])
  }

  /**
   * A leaderboard row as a wallet record, or None when the row has no
   * address or any field fails to convert.
   */
  function ParseLeaderboardRow(row: Json): (r: Option<WalletRecord>)
    ensures r.Some? <==>
              && row.JObj? && Truthy(GetOr(row.fields, "ethAddress", JNull))
              && RowWindows(row.fields).Value?
              && MonthFigure(RowMonth(RowWindows(row.fields).value), "pnl").Value?
              && MonthFigure(RowMonth(RowWindows(row.fields).value), "roi").Value?
              && ToOptFloat(GetOr(row.fields, "accountValue", JNull)).Value?
    ensures r.Some? ==> row.JObj? && Truthy(GetOr(row.fields, "ethAddress", JNull)) && r.value.walletId == row.fields["ethAddress"]
    ensures r.Some? ==>
              && r.value.monthPnl == MonthFigure(RowMonth(RowWindows(row.fields).value), "pnl").value
              && r.value.monthRoi == MonthFigure(RowMonth(RowWindows(row.fields).value), "roi").value
              && Value(r.value.accountValue) == ToOptFloat(GetOr(row.fields, "accountValue", JNull))
    ensures r.Some? ==> (r.value.accountValue.None? <==> GetOr(row.fields, "accountValue", JNull) == JNull)
    ensures row.JObj? && GetOr(row.fields, "accountValue", JNull).JNum? && r.Some? ==>
              r.value.accountValue == Some(row.fields["accountValue"].n)
  {
    if !row.JObj? then None
    else
      var walletId := GetOr(row.fields, "ethAddress", JNull);
      if !Truthy(walletId) then None
      else
        var windows := RowWindows(row.fields);
        if windows.Raises? then None
        else
          var month := RowMonth(windows.value);
          match (MonthFigure(month, "pnl"), MonthFigure(month, "roi"), ToOptFloat(GetOr(row.fields, "accountValue", JNull)))
          case (Value(pnl), Value(roi), Value(av)) => Some(WalletRecord(walletId, av, pnl, roi))
          case _ => None
  }

  /** The month figures of a row are the numbers stored in its month window. */
  lemma MonthFiguresAreStored(row: Json, pnl: real, roi: real)
    requires row.JObj? && Truthy(GetOr(row.fields, "ethAddress", JNull)) && "accountValue" !in row.fields
    requires GetOr(row.fields, "windowPerformances", JArr([])) == JArr([JArr([JStr("month"), JObj(map["pnl" := JNum(pnl), "roi" := JNum(roi)])])])
    ensures ParseLeaderboardRow(row) == Some(WalletRecord(row.fields["ethAddress"], None, pnl, roi))
  {
    var items := [JArr([JStr("month"), JObj(map["pnl" := JNum(pnl), "roi" := JNum(roi)])])];
    DictOfPairsLastWins(items, 0);
    assert RowWindows(row.fields).value.Keys == {JStr("month")};
  }

  /** A row without a monthly window still parses, with zero month figures. */
  lemma MissingMonthIsZero(row: Json)
    requires row.JObj? && Truthy(GetOr(row.fields, "ethAddress", JNull))
    requires "windowPerformances" !in row.fields
    requires "accountValue" !in row.fields
    ensures ParseLeaderboardRow(row) == Some(WalletRecord(row.fields["ethAddress"], None, 0.0, 0.0))
  {
  }

  // ---------------------------------------------------------------------
  // Clearinghouse positions

  /** The per-asset position fields stored in a snapshot row. */
  datatype PositionRecord = PositionRecord(
    positionSzi: real,
    entryPx: Option<real>,
    liqPx: Option<real>,
    leverage: Option<real>,
    marginUsed: Option<real>)

  /** The record for a wallet that holds no position in the asset. */
  const ExplicitZero := PositionRecord(0.0, None, None, None, None)

  /** The elements a Python `for` loop visits in a JSON value; None when iterating it raises. */
  function Iterated(j: Json): Option<seq<Json>> {
    match j
    case JArr(items) => Some(items)
    case JStr(s) => Some(seq(|s|, i requires 0 <= i < |s| => JStr([s[i]])))
    case JObj(fields) => if fields == map[] then Some([]) else None
    case _ => None
  }

  /** The position object of a list entry, `pos.get("position", {})`; raises unless both are dictionaries. */
  function PositionOf(entry: Json): Outcome<map<string, Json>> {
    if !entry.JObj? then Raises
    else
      var p := GetOr(entry.fields, "position", JObj(map[]));
      if p.JObj? then Value(p.fields) else Raises
  }

  predicate IsCoin(position: map<string, Json>, asset: string) {
    GetOr(position, "coin", JNull) == JStr(asset)
  }

  /** The first entry whose position names the asset (raising as soon as an entry cannot be read). */
  function FindPosition(entries: seq<Json>, asset: string): Outcome<Option<map<string, Json>>>
    decreases |entries|
  {
    if entries == [] then Value(None)
    else match PositionOf(entries[0])
      case Raises => Raises
      case Value(p) => if IsCoin(p, asset) then Value(Some(p)) else FindPosition(entries[1..], asset)
  }

  /** FindPosition returns the FIRST matching entry. */
  lemma {:induction false} FindPositionIsFirst(entries: seq<Json>, asset: string)
    requires FindPosition(entries, asset).Value? && FindPosition(entries, asset).value.Some?
    ensures exists i :: 0 <= i < |entries| && PositionOf(entries[i]) == Value(FindPosition(entries, asset).value.value)
                        && IsCoin(FindPosition(entries, asset).value.value, asset)
                        && forall j :: 0 <= j < i ==> PositionOf(entries[j]).Value? && !IsCoin(PositionOf(entries[j]).value, asset)
    decreases |entries|
  {
    var p := PositionOf(entries[0]);
    if IsCoin(p.value, asset) {
      assert PositionOf(entries[0]) == Value(FindPosition(entries, asset).value.value);
    } else {
      FindPositionIsFirst(entries[1..], asset);
      var i :| 0 <= i < |entries[1..]| && PositionOf(entries[1..][i]) == Value(FindPosition(entries[1..], asset).value.value)
                && IsCoin(FindPosition(entries[1..], asset).value.value, asset)
                && forall j :: 0 <= j < i ==> PositionOf(entries[1..][j]).Value? && !IsCoin(PositionOf(entries[1..][j]).value, asset);
      assert forall j :: 0 <= j < i + 1 ==> PositionOf(entries[j]).Value? && !IsCoin(PositionOf(entries[j]).value, asset) by {
        forall j | 0 <= j < i + 1
          ensures PositionOf(entries[j]).Value? && !IsCoin(PositionOf(entries[j]).value, asset)
        {
          if j > 0 { assert entries[j] == entries[1..][j - 1]; }
        }
      }
      assert entries[i + 1] == entries[1..][i];
    }
  }

  /** `float(leverage.get("value", 0))` for a dictionary, `float(x)` otherwise, None for None. */
  function LeverageOf(lev: Json): Outcome<Option<real>> {
    if lev.JObj? then
      match ToFloat(GetOr(lev.fields, "value", JNum(0.0)))
      case Value(v) => Value(Some(v))
      case Raises => Raises
    else ToOptFloat(lev)
  }

  /**
   * The position record read from a position object: the size is required
   * to convert, absent prices and margin are `None`, an absent leverage is
   * 0; any conversion failure gives the explicit zero.
   */
  function PositionFields(position: map<string, Json>): (r: PositionRecord)
    ensures ToFloat(GetOr(position, "szi", JNum(0.0))).Raises? ==> r == ExplicitZero
    ensures ToOptFloat(GetOr(position, "entryPx", JNull)).Raises? ==> r == ExplicitZero
    ensures ToOptFloat(GetOr(position, "liquidationPx", JNull)).Raises? ==> r == ExplicitZero
    ensures LeverageOf(GetOr(position, "leverage", JObj(map[]))).Raises? ==> r == ExplicitZero
    ensures ToOptFloat(GetOr(position, "marginUsed", JNull)).Raises? ==> r == ExplicitZero
    ensures r != ExplicitZero ==>
              && ToFloat(GetOr(position, "szi", JNum(0.0))) == Value(r.positionSzi)
              && ToOptFloat(GetOr(position, "entryPx", JNull)) == Value(r.entryPx)
              && ToOptFloat(GetOr(position, "liquidationPx", JNull)) == Value(r.liqPx)
              && LeverageOf(GetOr(position, "leverage", JObj(map[]))) == Value(r.leverage)
              && ToOptFloat(GetOr(position, "marginUsed", JNull)) == Value(r.marginUsed)
    ensures ToFloat(GetOr(position, "szi", JNum(0.0))).Value? && ToOptFloat(GetOr(position, "entryPx", JNull)).Value? &&
            ToOptFloat(GetOr(position, "liquidationPx", JNull)).Value? &&
            LeverageOf(GetOr(position, "leverage", JObj(map[]))).Value? && ToOptFloat(GetOr(position, "marginUsed", JNull)).Value? ==>
              r == PositionRecord(ToFloat(GetOr(position, "szi", JNum(0.0))).value,
                                  ToOptFloat(GetOr(position, "entryPx", JNull)).value,
                                  ToOptFloat(GetOr(position, "liquidationPx", JNull)).value,
                                  LeverageOf(GetOr(position, "leverage", JObj(map[]))).value,
                                  ToOptFloat(GetOr(position, "marginUsed", JNull)).value)
  {
    match (ToFloat(GetOr(position, "szi", JNum(0.0))),
           ToOptFloat(GetOr(position, "entryPx", JNull)),
           ToOptFloat(GetOr(position, "liquidationPx", JNull)),
           LeverageOf(GetOr(position, "leverage", JObj(map[]))),
           ToOptFloat(GetOr(position, "marginUsed", JNull)))
    case (Value(szi), Value(entry), Value(liq), Value(lev), Value(margin)) =>
      PositionRecord(szi, entry, liq, lev, margin)
    case _ => ExplicitZero
  }

  /** A position object holding only a numeric size: no prices, no margin, leverage 0. */
  lemma SizeOnlyPosition(n: real)
    ensures PositionFields(map["szi" := JNum(n)]) == PositionRecord(n, None, None, Some(0.0), None)
  {
    var position := map["szi" := JNum(n)];
    assert "entryPx" !in position && "liquidationPx" !in position && "leverage" !in position && "marginUsed" !in position;
  }

  /**
   * The position of `asset` in a clearinghouse response: reading the
   * response or its position list raises when they are not dictionaries /
   * lists of dictionaries; an absent asset is the explicit zero; the field
   * conversions never raise (a failure falls back to the explicit zero).
   */
  function PositionOutcome(data: Json, asset: string): Outcome<PositionRecord> {
    if !data.JObj? then Raises
    else match Iterated(GetOr(data.fields, "assetPositions", JArr([])))
      case None => Raises
      case Some(entries) =>
        match FindPosition(entries, asset)
        case Raises => Raises
        case Value(None) => Value(ExplicitZero)
        case Value(Some(p)) => Value(PositionFields(p))
  }

  /** A response without any position list reports the explicit zero for every asset. */
  lemma NoPositionsIsZero(data: Json, asset: string)
    requires data.JObj? && "assetPositions" !in data.fields
    ensures PositionOutcome(data, asset) == Value(ExplicitZero)
  {
  }

  /** The search of the position list, stopping at the first entry for the asset. */
  method ParsePositionData(data: Json, asset: string) returns (r: Outcome<PositionRecord>)
    ensures r == PositionOutcome(data, asset)
  {
    if !data.JObj? {
      return Raises;
    }
    var entries := Iterated(GetOr(data.fields, "assetPositions", JArr([])));
    if entries.None? {
      return Raises;
    }
    var es := entries.value;
    var position: Option<map<string, Json>> := None;
    var i := 0;
    while i < |es|
      invariant 0 <= i <= |es|
      invariant position.None? ==> FindPosition(es, asset) == FindPosition(es[i..], asset)
      invariant position.Some? ==> FindPosition(es, asset) == Value(position)
      decreases |es| - i, position.None?
    {
      assert es[i..][1..] == es[i + 1..];
      var p := PositionOf(es[i]);
      if p.Raises? {
        return Raises;
      }
      if IsCoin(p.value, asset) {
        position := Some(p.value);
        break;
      }
      i := i + 1;
    }
    if position.None? {
      assert es[i..] == [];
      return Value(ExplicitZero);
    }
    return Value(PositionFields(position.value));
  }

  /** A position whose size is the string "-2.5" is read as a short of 2.5, and leverage {"value": "5"} as 5. */
  lemma NegativeSizeString()
    ensures PositionFields(map["coin" := JStr("BTC"), "szi" := JStr("-2.5"), "leverage" := JObj(map["value" := JStr("5")])])
            == PositionRecord(-2.5, None, None, Some(5.0), None)
  {
    var position := map["coin" := JStr("BTC"), "szi" := JStr("-2.5"), "leverage" := JObj(map["value" := JStr("5")])];
    assert GetOr(position, "szi", JNum(0.0)) == JStr("-2.5");
    assert GetOr(position, "leverage", JObj(map[])) == JObj(map["value" := JStr("5")]);
    assert GetOr(position, "entryPx", JNull) == JNull;
    assert GetOr(position, "liquidationPx", JNull) == JNull;
    assert GetOr(position, "marginUsed", JNull) == JNull;
    SizeAndLeverageStrings();
  }

  lemma SizeAndLeverageStrings()
    ensures ToFloat(JStr("-2.5")) == Value(-2.5)
    ensures LeverageOf(JObj(map["value" := JStr("5")])) == Value(Some(5.0))
  {
    ParseExamples();
  }
}
