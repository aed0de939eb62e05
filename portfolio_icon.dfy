/** The portfolio button and its holdings list (PortfolioIcon.jsx): one row per
    stored entry, and the badge, tooltip, empty state and plural that depend on
    the key count alone. */
module PortfolioIcon {
  import opened JsValues
  import opened PortfolioContext

  /** The date cell: the record's timestamp (shown as a local date), or "Added". */
  datatype DateLabel = Added | AddedOn(timestamp: string)

  /** What one holdings row shows. */
  datatype Row = Row(coinId: string, name: string, symbol: string, price: real, date: DateLabel)

  /** The row for one `[coinId, data]` pair: an object entry supplies its own
      name, symbol, price and timestamp; a bare number stands for its price
      under the coin id. */
  function RowOf(coinId: string, data: Entry): Row {
    var isObjectFormat := data.Rec?;
    Row(coinId,
        if isObjectFormat then data.name else coinId,
        if isObjectFormat then data.symbol else coinId,
        if isObjectFormat then data.price else data.amount,
        if isObjectFormat && data.timestamp != "" then AddedOn(data.timestamp) else Added)
  }

  /** A row shows the normalised entry: a bare number and the record it
      normalises to give the same row, and a date appears only for a record
      that has a timestamp. */
  lemma RowIsNormalised(coinId: string, data: Entry)
    ensures RowOf(coinId, data) == RowOf(coinId, Normalize(coinId, data))
    ensures RowOf(coinId, data).price == Normalize(coinId, data).price
    ensures RowOf(coinId, data).date.AddedOn? <==> data.Rec? && data.timestamp != ""
  {
  }

  /** The row of a freshly set coin shows the price, the given or defaulted
      name and symbol, and the time of the set. */
  lemma RowAfterSet(t: Table, coinId: string, p: real, coin: CoinData, now: string)
    requires p > 0.0
    ensures RowOf(coinId, AfterSet(t, coinId, Some(p), coin, now)[coinId])
         == Row(coinId, OrElse(coin.name, coinId), OrElse(coin.symbol, coinId), p,
                if now != "" then AddedOn(now) else Added)
  {
  }

  predicate Distinct(s: seq<string>) {
    forall i, j :: 0 <= i < j < |s| ==> s[i] != s[j]
  }

  /** `order` is the order in which `Object.entries` lists the table's keys:
      each key exactly once. */
  predicate IsKeyOrder(t: Table, order: seq<string>) {
    Distinct(order) && (forall k :: k in order ==> k in t) && (forall k :: k in t ==> k in order)
  }

  /** `Object.entries(purchasePrices).map(...)`, with the entries taken in `order`. */
  function Rows(t: Table, order: seq<string>): (rows: seq<Row>)
    requires forall k :: k in order ==> k in t
    ensures |rows| == |order|
    ensures forall i :: 0 <= i < |order| ==> rows[i] == RowOf(order[i], t[order[i]])
  {
    if order == [] then [] else [RowOf(order[0], t[order[0]])] + Rows(t, order[1..])
  }

  /** A sequence without repeats has as many distinct elements as positions. */
  lemma {:induction false} DistinctCount(s: seq<string>)
    requires Distinct(s)
    ensures |set x | x in s| == |s|
  {
    if s != [] {
      DistinctCount(s[1..]);
      assert (set x | x in s) == {s[0]} + (set x | x in s[1..]);
      assert s[0] !in (set x | x in s[1..]);
    }
  }

  /** The holdings list has exactly one row per table key: as many rows as
      `totalItems`, no id twice, and every id of the table present. */
  lemma OneRowPerEntry(t: Table, order: seq<string>)
    requires IsKeyOrder(t, order)
    ensures var rows := Rows(t, order);
      |rows| == GetPortfolioSummary(t).totalItems &&
      (forall i, j :: 0 <= i < j < |rows| ==> rows[i].coinId != rows[j].coinId) &&
      (forall k :: k in t <==> exists i :: 0 <= i < |rows| && rows[i].coinId == k)
  {
    DistinctCount(order);
    assert (set x | x in order) == t.Keys;
    var rows := Rows(t, order);
    forall k | k in t ensures exists i :: 0 <= i < |rows| && rows[i].coinId == k {
      var i :| 0 <= i < |order| && order[i] == k;
      assert rows[i].coinId == k;
    }
  }

  /** `totalItems > 0`: the count badge on the button. */
  function ShowBadge(totalItems: nat): bool {
    totalItems > 0
  }

  /** The tooltip appears only while hovered and only for a non-empty portfolio. */
  function ShowTooltip(hovered: bool, totalItems: nat): bool {
    hovered && totalItems > 0
  }

  /** `totalItems === 0`: the modal shows the empty-portfolio view. */
  function ShowEmptyState(totalItems: nat): bool {
    totalItems == 0
  }

  /** "coin" followed by 's' unless the count is exactly 1. */
  function CoinWord(totalItems: nat): string {
    if totalItems != 1 then "coins" else "coin"
  }

  /** The count-driven parts agree with the holdings list: the badge shows
      exactly when there are rows, the empty view exactly when there are none,
      the tooltip never without the badge, and the singular exactly for one row. */
  lemma CountViewsMatchRows(t: Table, order: seq<string>, hovered: bool)
    requires IsKeyOrder(t, order)
    ensures var n := GetPortfolioSummary(t).totalItems;
      (ShowBadge(n) <==> Rows(t, order) != []) &&
      (ShowEmptyState(n) <==> Rows(t, order) == []) &&
      (ShowTooltip(hovered, n) <==> hovered && ShowBadge(n)) &&
      (CoinWord(n) == "coin" <==> |Rows(t, order)| == 1)
  {
    OneRowPerEntry(t, order);
  }

  /** After an accepted set the badge is shown; deleting the only entry brings
      back the empty view. */
  lemma CountViewsAfterMutation(t: Table, coinId: string, p: real, coin: CoinData, now: string)
    requires p > 0.0
    ensures ShowBadge(GetPortfolioSummary(AfterSet(t, coinId, Some(p), coin, now)).totalItems)
    ensures t.Keys == {coinId} ==> ShowEmptyState(GetPortfolioSummary(AfterDelete(t, coinId)).totalItems)
  {
  }
}
