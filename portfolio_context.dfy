/** The portfolio store of PortfolioContext.jsx: the table from coin id to the
    recorded purchase, the durable slot it is written back to, and the two
    queries every view uses (profit/loss and the summary). */
module PortfolioContext {
  import opened JsValues

  /** A stored purchase: the record `setPurchasePrice` writes, or a bare number
      that an older release stored and that is still read back as it is. */
  datatype Entry =
    | Legacy(amount: real)
    | Rec(price: real, name: string, symbol: string, timestamp: string)

  /** `purchasePrices`: coin id to stored purchase. */
  type Table = map<string, Entry>

  /** What reading the slot 'crypto-purchase-prices' yields at startup: nothing
      (or an empty string), text that does not parse, or a parsed table. */
  datatype Saved = NothingSaved | Unparseable | Parsed(table: Table)

  /** The optional `coinData` argument; `None` stands for a missing field. */
  datatype CoinData = CoinData(name: Option<string>, symbol: Option<string>)

  /** The table the store starts from: a parsed table as it is, unvalidated;
      the empty table when nothing is stored or parsing throws. */
  function InitialTable(saved: Saved): Table {
    match saved
    case Parsed(t) => t
    case _ => map[]
  }

  /** `field || fallback` on a string field: missing and empty both fall back. */
  function OrElse(field: Option<string>, fallback: string): (r: string)
    ensures r != "" || fallback == ""
    ensures r == fallback || field == Some(r)
    ensures field.Some? && field.value != "" ==> r == field.value
    ensures field.None? || field == Some("") ==> r == fallback
  {
    if field.Some? && field.value != "" then field.value else fallback
  }

  /** The price check of `setPurchasePrice`: `None` is NaN from `parseFloat`. */
  predicate AcceptedPrice(parsed: Option<real>) {
    parsed.Some? && parsed.value > 0.0
  }

  /** The record `setPurchasePrice` writes for `coinId`. */
  function NewRecord(coinId: string, price: real, coin: CoinData, now: string): Entry {
    Rec(price, OrElse(coin.name, coinId), OrElse(coin.symbol, coinId), now)
  }

  /** The table after `setPurchasePrice(coinId, price, coinData)`, where
      `parsed` is `parseFloat(price)` and `now` the time of the call. */
  function AfterSet(t: Table, coinId: string, parsed: Option<real>, coin: CoinData, now: string): Table {
    if AcceptedPrice(parsed) then t[coinId := NewRecord(coinId, parsed.value, coin, now)] else t
  }

  /** The table after `deletePurchasePrice(coinId)`. */
  function AfterDelete(t: Table, coinId: string): Table {
    t - {coinId}
  }

  /** A rejected price leaves the table as it was. */
  lemma SetRejectsInvalid(t: Table, coinId: string, parsed: Option<real>, coin: CoinData, now: string)
    requires parsed.None? || parsed.value <= 0.0
    ensures AfterSet(t, coinId, parsed, coin, now) == t
  {
  }

  /** An accepted price stores a record for `coinId` with exactly that price,
      the given or defaulted name and symbol, and the time of the call; every
      other key keeps its entry and no key appears or disappears besides `coinId`. */
  lemma SetStoresRecord(t: Table, coinId: string, p: real, coin: CoinData, now: string)
    requires p > 0.0
    ensures var u := AfterSet(t, coinId, Some(p), coin, now);
      u.Keys == t.Keys + {coinId} &&
      u[coinId].Rec? && u[coinId].price == p && u[coinId].timestamp == now &&
      (coin.name.None? || coin.name == Some("") ==> u[coinId].name == coinId) &&
      (coin.name.Some? && coin.name.value != "" ==> u[coinId].name == coin.name.value) &&
      (coin.symbol.None? || coin.symbol == Some("") ==> u[coinId].symbol == coinId) &&
      (coin.symbol.Some? && coin.symbol.value != "" ==> u[coinId].symbol == coin.symbol.value) &&
      (forall k :: k in t && k != coinId ==> u[k] == t[k])
  {
  }

  /** Two successive accepted sets on one id leave one entry for it, carrying
      the later price: the same table as the later set alone. */
  lemma SetTwiceOverwrites(t: Table, coinId: string, p1: real, p2: real,
                           coin1: CoinData, coin2: CoinData, now1: string, now2: string)
    requires p1 > 0.0 && p2 > 0.0
    ensures var u := AfterSet(AfterSet(t, coinId, Some(p1), coin1, now1), coinId, Some(p2), coin2, now2);
      u == AfterSet(t, coinId, Some(p2), coin2, now2) && u[coinId].price == p2 &&
      |u| <= |t| + 1
  {
  }

  /** Deleting removes `coinId` and keeps every other entry; deleting an absent
      key changes nothing. */
  lemma DeleteRemovesOnlyKey(t: Table, coinId: string)
    ensures var u := AfterDelete(t, coinId);
      coinId !in u && u.Keys == t.Keys - {coinId} &&
      (forall k :: k in u ==> u[k] == t[k]) &&
      (coinId !in t ==> u == t)
  {
  }

  /** The summary `getPortfolioSummary` returns. */
  datatype Summary = Summary(totalItems: nat, coins: Table)

  function GetPortfolioSummary(t: Table): Summary {
    Summary(|t|, t)
  }

  /** The key count grows by one exactly when an accepted set adds a new id. */
  lemma SetCount(t: Table, coinId: string, parsed: Option<real>, coin: CoinData, now: string)
    ensures GetPortfolioSummary(AfterSet(t, coinId, parsed, coin, now)).totalItems
         == |t| + (if AcceptedPrice(parsed) && coinId !in t then 1 else 0)
  {
  }

  /** The key count shrinks by one exactly when a delete finds its id. */
  lemma DeleteCount(t: Table, coinId: string)
    ensures GetPortfolioSummary(AfterDelete(t, coinId)).totalItems
         == |t| - (if coinId in t then 1 else 0)
  {
  }

  /** The normal form the read sites resolve an entry to: a bare number reads as
      a record with that price, named by its id, without a timestamp. */
  function Normalize(coinId: string, e: Entry): (r: Entry)
    ensures r.Rec?
    ensures e.Rec? ==> r == e
  {
    match e
    case Legacy(n) => Rec(n, coinId, coinId, "")
    case Rec(_, _, _, _) => e
  }

  /** What `getProfitLoss` returns when it finds an entry. */
  datatype ProfitLoss = ProfitLoss(percent: Num, isProfit: bool)

  /** `!purchaseData` is false for every record and for every non-zero number. */
  predicate Truthy(e: Entry) {
    e.Legacy? ==> e.amount != 0.0
  }

  /** `purchaseData.price`: a bare number has no such field (undefined). */
  function PriceField(e: Entry): Option<real> {
    match e
    case Legacy(_) => None
    case Rec(p, _, _, _) => Some(p)
  }

  /** `((currentPrice - purchasePrice) / purchasePrice) * 100` in JavaScript
      arithmetic: undefined gives NaN, a zero purchase price an infinity or NaN. */
  function ChangePercent(purchase: Option<real>, current: real): (n: Num)
    ensures n.Finite? <==> purchase.Some? && purchase.value != 0.0
    ensures n == PosInf ==> purchase == Some(0.0) && current > 0.0
  {
    match purchase
    case None => NaN
    case Some(p) =>
      if p != 0.0 then Finite((current - p) / p * 100.0)
      else if current > 0.0 then PosInf
      else if current < 0.0 then NegInf
      else NaN
  }

  /** `getProfitLoss(coin, currentPrice)` over the table. It reads `.price`
      without normalising, so a bare-number entry yields a NaN percent. */
  function GetProfitLoss(t: Table, coinId: string, current: real): (r: Option<ProfitLoss>)
    ensures r.None? <==> coinId !in t || t[coinId] == Legacy(0.0)
    ensures r.Some? ==> (r.value.percent.Finite? <==> t[coinId].Rec? && t[coinId].price != 0.0)
    ensures r.Some? && t[coinId].Legacy? ==> r.value == ProfitLoss(NaN, false)
  {
    if coinId !in t || !Truthy(t[coinId]) then None
    else
      var raw := ChangePercent(PriceField(t[coinId]), current);
      Some(ProfitLoss(ToFixed2(raw), NonNegative(raw)))
  }

  /** For a record with a positive price the percent is the exact relative
      change rounded to two decimals (off by at most 0.005), and the entry is a
      profit exactly when the current price is at least the purchase price. */
  lemma ProfitLossOfRecord(t: Table, coinId: string, current: real)
    requires coinId in t && t[coinId].Rec? && t[coinId].price > 0.0
    ensures var p := t[coinId].price;
      var r := GetProfitLoss(t, coinId, current);
      r.Some? && r.value.percent.Finite? &&
      -0.005 <= r.value.percent.v - (current - p) / p * 100.0 <= 0.005 &&
      (r.value.isProfit <==> current >= p)
  {
  }

  /** Buying at p and reading at p again gives 0 % and counts as profit. */
  lemma BreakEvenAfterSet(t: Table, coinId: string, p: real, coin: CoinData, now: string)
    requires p > 0.0
    ensures GetProfitLoss(AfterSet(t, coinId, Some(p), coin, now), coinId, p)
         == Some(ProfitLoss(Finite(0.0), true))
  {
  }

  /** The profit flag is taken before rounding: a loss of 0.001 % shows a
      percent of 0 yet is not a profit. */
  lemma RoundedZeroLoss()
    ensures GetProfitLoss(map["x" := Rec(1000.0, "x", "x", "")], "x", 999.99)
         == Some(ProfitLoss(Finite(0.0), false))
  {
  }

  /** Buying "eth" at 2000.50 and reading at 1800 gives -10.02 %, a loss. */
  lemma EthScenario(now: string)
    ensures GetProfitLoss(AfterSet(map[], "eth", Some(2000.5), CoinData(Some("Ethereum"), Some("eth")), now), "eth", 1800.0)
         == Some(ProfitLoss(Finite(-10.02), false))
  {
  }

  /** A bare number 42000 read at 45000 yields a NaN percent and no profit:
      the bare-number shape is not normalised on this path. */
  lemma LegacyScenario()
    ensures GetProfitLoss(map["btc" := Legacy(42000.0)], "btc", 45000.0)
         == Some(ProfitLoss(NaN, false))
  {
  }

  /** The store object: the in-memory table, the last table handed to
      `localStorage.setItem`, and what the durable slot actually holds. */
  class PortfolioStore {
    /** `purchasePrices` */
    var table: Table
    /** The table most recently handed to `localStorage.setItem`; `None` before
        the first mutation. */
    var persisted: Option<Table>
    /** What the slot holds: replaced only by a write that succeeds. */
    var durable: Saved
    /** The ids whose entry `SetPurchasePrice` wrote and no delete removed since. */
    ghost var written: set<string>

    /** Every attempted write carried the whole current table, and every entry
        this store wrote itself is a record with a positive price (loaded
        entries carry no such guarantee). */
    ghost predicate Valid()
      reads this
    {
      (persisted.Some? ==> persisted.value == table) &&
      (forall k :: k in written ==> k in table && table[k].Rec? && table[k].price > 0.0)
    }

    /** The `useState` initialiser: read the slot once, falling back to the
        empty table. */
    constructor Load(saved: Saved)
      ensures Valid()
      ensures saved.Parsed? ==> table == saved.table
      ensures !saved.Parsed? ==> table == map[]
      ensures persisted == None && durable == saved && written == {}
    {
      table := InitialTable(saved);
      persisted := None;
      durable := saved;
      written := {};
    }

    /** `setPurchasePrice(coinId, price, coinData)`: `parsed` is
        `parseFloat(price)`, `now` the clock reading, `writeOk` whether
        `localStorage.setItem` succeeds. */
    method SetPurchasePrice(coinId: string, parsed: Option<real>, coin: CoinData, now: string, writeOk: bool)
      returns (ok: bool)
      requires Valid()
      modifies this
      ensures Valid()
      ensures ok <==> AcceptedPrice(parsed)
      ensures table == AfterSet(old(table), coinId, parsed, coin, now)
      ensures ok ==> persisted == Some(table) && written == old(written) + {coinId}
      ensures ok ==> durable == if writeOk then Parsed(table) else old(durable)
      ensures !ok ==> persisted == old(persisted) && durable == old(durable) && written == old(written)
    {
      if parsed.None? || parsed.value <= 0.0 {
        return false;
      }
      var updated := table[coinId := NewRecord(coinId, parsed.value, coin, now)];
      persisted := Some(updated);
      if writeOk {
        durable := Parsed(updated);
      }
      table := updated;
      written := written + {coinId};
      return true;
    }

    /** `deletePurchasePrice(coinId)`: writes back even when nothing was removed. */
    method DeletePurchasePrice(coinId: string, writeOk: bool)
      requires Valid()
      modifies this
      ensures Valid()
      ensures table == AfterDelete(old(table), coinId)
      ensures persisted == Some(table) && written == old(written) - {coinId}
      ensures durable == if writeOk then Parsed(table) else old(durable)
    {
      var updated := table - {coinId};
      persisted := Some(updated);
      if writeOk {
        durable := Parsed(updated);
      }
      table := updated;
      written := written - {coinId};
    }
  }

  /** Every entry the store wrote itself has a finite percent and is a profit
      exactly when the current price is at least the recorded one, whatever
      the loaded entries hold. */
  lemma WrittenEntryProfitLoss(s: PortfolioStore, coinId: string, current: real)
    requires s.Valid() && coinId in s.written
    ensures var r := GetProfitLoss(s.table, coinId, current);
      r.Some? && r.value.percent.Finite? &&
      (r.value.isProfit <==> current >= s.table[coinId].price)
  {
  }

  /** Two successive sets of one id through the store leave one entry with the
      later price; a store reloaded from a successfully written slot has the
      same table. */
  method OverwriteAndReload(now: string)
  {
    var s := new PortfolioStore.Load(Parsed(map[]));
    var ok1 := s.SetPurchasePrice("eth", Some(100.0), CoinData(None, None), now, true);
    var ok2 := s.SetPurchasePrice("eth", Some(200.0), CoinData(None, None), now, true);
    assert ok1 && ok2;
    assert s.table == map["eth" := Rec(200.0, "eth", "eth", now)];
    var reloaded := new PortfolioStore.Load(s.durable);
    assert reloaded.table == s.table;
    var ok3 := s.SetPurchasePrice("eth", Some(-1.0), CoinData(None, None), now, true);
    assert !ok3 && |s.table| == 1;
    s.DeletePurchasePrice("btc", false);
    assert s.table == reloaded.table && s.durable == Parsed(reloaded.table);
  }
}
