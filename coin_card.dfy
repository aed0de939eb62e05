/** The purchase-price part of one coin card (CoinCard.jsx): how the card reads
    the stored entry, which border it gets, and the small form whose state is
    `showInput`, `isEditing` and `inputPrice`. */
module CoinCard {
  import opened JsValues
  import opened PortfolioContext

  /** The market-data fields the card reads from its `coin` prop. */
  datatype Coin = Coin(id: string, name: string, symbol: string, currentPrice: real)

  /** The value of `purchasePrice = purchaseData?.price || purchaseData`:
      undefined, a number, or (when a record's price is 0, which is falsy) the
      record object itself. */
  datatype Shown = Undefined | Amount(v: real) | RecordObject(e: Entry)

  /** JavaScript truthiness of that value. */
  predicate IsTruthy(s: Shown) {
    match s
    case Undefined => false
    case Amount(v) => v != 0.0
    case RecordObject(_) => true
  }

  function PurchasePriceOf(t: Table, coinId: string): Shown {
    if coinId !in t then Undefined
    else match t[coinId]
      case Legacy(n) => Amount(n)
      case Rec(p, _, _, _) => if p != 0.0 then Amount(p) else RecordObject(t[coinId])
  }

  /** The displayed purchase price is the price of the normalised entry: the
      record's price, or the bare number itself; it is present (truthy) exactly
      when `getProfitLoss` finds an entry. */
  lemma DisplayedPriceIsNormalised(t: Table, coinId: string)
    ensures coinId !in t ==> PurchasePriceOf(t, coinId) == Undefined
    ensures coinId in t && Normalize(coinId, t[coinId]).price != 0.0 ==>
      PurchasePriceOf(t, coinId) == Amount(Normalize(coinId, t[coinId]).price)
    ensures IsTruthy(PurchasePriceOf(t, coinId)) <==> coinId in t && Truthy(t[coinId])
  {
  }

  /** `profitLoss = purchasePrice ? getProfitLoss(coin, coin.current_price) : null` */
  function CardProfitLoss(t: Table, coin: Coin): Option<ProfitLoss> {
    if IsTruthy(PurchasePriceOf(t, coin.id)) then GetProfitLoss(t, coin.id, coin.currentPrice) else None
  }

  /** The gate adds nothing: `getProfitLoss` already answers null exactly when
      the displayed purchase price is falsy. */
  lemma GatingIsRedundant(t: Table, coin: Coin)
    ensures CardProfitLoss(t, coin) == GetProfitLoss(t, coin.id, coin.currentPrice)
  {
  }

  /** `getBorderClass()` */
  function BorderClass(t: Table, coin: Coin): string {
    var shown := PurchasePriceOf(t, coin.id);
    var pl := CardProfitLoss(t, coin);
    if !IsTruthy(shown) then ""
    else if pl.None? then ""
    else if pl.value.isProfit then "profit-border"
    else "loss-border"
  }

  /** The sign of the relative change `(cur - p) / p * 100` for a non-zero price. */
  lemma ChangeSign(p: real, cur: real)
    requires p != 0.0
    ensures (cur - p) / p * 100.0 >= 0.0 <==> (p > 0.0 && cur >= p) || (p < 0.0 && cur <= p)
  {
    assert (cur - p) / p * p == cur - p;
  }

  /** The border by stored entry: none without an entry (or for the falsy bare
      number 0); for a record, profit exactly when the relative change is not
      negative; for a non-zero bare number always the loss border, since its
      percent is NaN. */
  lemma BorderClassByEntry(t: Table, coin: Coin)
    ensures coin.id !in t ==> BorderClass(t, coin) == ""
    ensures coin.id in t && t[coin.id] == Legacy(0.0) ==> BorderClass(t, coin) == ""
    ensures coin.id in t && t[coin.id].Legacy? && t[coin.id].amount != 0.0 ==>
      BorderClass(t, coin) == "loss-border"
    ensures coin.id in t && t[coin.id].Rec? && t[coin.id].price > 0.0 ==>
      BorderClass(t, coin) == if coin.currentPrice >= t[coin.id].price then "profit-border" else "loss-border"
    ensures coin.id in t && t[coin.id].Rec? && t[coin.id].price < 0.0 ==>
      BorderClass(t, coin) == if coin.currentPrice <= t[coin.id].price then "profit-border" else "loss-border"
    ensures coin.id in t && t[coin.id].Rec? && t[coin.id].price == 0.0 ==>
      BorderClass(t, coin) == if coin.currentPrice > 0.0 then "profit-border" else "loss-border"
  {
    if coin.id in t && t[coin.id].Rec? && t[coin.id].price != 0.0 {
      ChangeSign(t[coin.id].price, coin.currentPrice);
    }
  }

  /** `formatPurchasePrice()` before `toFixed(2)`: the number the card prints,
      or `None` for the empty string. */
  function FormattedPrice(t: Table, coinId: string): Option<real> {
    var shown := PurchasePriceOf(t, coinId);
    if !IsTruthy(shown) then None
    else if shown.Amount? then Some(shown.v)
    else if coinId in t && t[coinId].Rec? && t[coinId].price != 0.0 then Some(t[coinId].price)
    else None
  }

  /** The card prints a price exactly when the normalised entry has a non-zero
      price, and then prints that price. */
  lemma FormattedPriceIsNormalised(t: Table, coinId: string, v: real)
    ensures FormattedPrice(t, coinId) == Some(v) <==>
      coinId in t && Normalize(coinId, t[coinId]).price == v && v != 0.0
  {
  }

  /** The state `inputPrice`: text typed into the field, or what `handleEdit`
      put there, which is `purchasePrice` itself (a number, or a record). */
  datatype Input = Text(s: string) | Number(n: real) | Object(e: Entry)

  /** `purchasePrice || ''`, the value `handleEdit` stores in `inputPrice`. */
  function EditPrefill(shown: Shown): (i: Input)
    ensures IsTruthy(shown) ==> !i.Text?
    ensures !IsTruthy(shown) ==> i == Text("")
  {
    match shown
    case Amount(v) => if v != 0.0 then Number(v) else Text("")
    case RecordObject(e) => Object(e)
    case Undefined => Text("")
  }

  /** How `handleSavePrice` ends before it reaches the store: one of its two
      alerts, a thrown TypeError, or the positive price it submits. */
  datatype SaveCheck = EmptyAlert | InvalidAlert | Throws | Submit(price: real)

  /** The checks of `handleSavePrice` as written: `parsed` is `parseFloat` of
      the typed text. `inputPrice.trim()` throws when `inputPrice` is not a
      string (what `handleEdit` leaves there). */
  function CheckInput(input: Input, parsed: Option<real>): (c: SaveCheck)
    ensures c.Submit? ==> c.price > 0.0 && parsed == Some(c.price)
    ensures c.Submit? || c == InvalidAlert ==> input.Text? && !IsBlank(input.s)
    ensures c == EmptyAlert <==> (input.Text? && IsBlank(input.s)) || input == Number(0.0)
    ensures c == Throws <==> !input.Text? && input != Number(0.0)
    ensures input.Text? && !IsBlank(input.s) && parsed.Some? && parsed.value > 0.0 ==>
      c == Submit(parsed.value)
  {
    match input
    case Text(s) =>
      TrimEmptyIffBlank(s);
      if s == "" || Trim(s) == "" then EmptyAlert
      else if parsed.None? || parsed.value <= 0.0 then InvalidAlert
      else Submit(parsed.value)
    case Number(n) => if n == 0.0 then EmptyAlert else Throws
    case Object(_) => Throws
  }

  /** The checks run on the string form of `inputPrice`, after the `!inputPrice`
      test: the number 0 is falsy and raises the first alert; another number
      prints as a decimal that parses back to itself; a record prints as
      "[object Object]", which parses to NaN. */
  function CheckInputFixed(input: Input, parsed: Option<real>): (c: SaveCheck)
    ensures c != Throws
    ensures c.Submit? ==> c.price > 0.0
    ensures CheckInput(input, parsed) != Throws ==> c == CheckInput(input, parsed)
  {
    match input
    case Text(_) => CheckInput(input, parsed)
    case Number(n) => if n == 0.0 then EmptyAlert else if n > 0.0 then Submit(n) else InvalidAlert
    case Object(_) => InvalidAlert
  }

  /** As written, Edit followed by Update without touching the field throws
      for every entry the card shows a purchase price for. */
  lemma EditThenSaveThrows(t: Table, coin: Coin, parsed: Option<real>)
    requires coin.id in t && Truthy(t[coin.id])
    ensures CheckInput(EditPrefill(PurchasePriceOf(t, coin.id)), parsed) == Throws
  {
  }

  /** With the check on the string form, Edit followed by Update re-submits the
      displayed price, for records and for bare numbers alike. */
  lemma EditThenSaveFixedResubmits(t: Table, coin: Coin, parsed: Option<real>)
    requires coin.id in t && Normalize(coin.id, t[coin.id]).price > 0.0
    ensures CheckInputFixed(EditPrefill(PurchasePriceOf(t, coin.id)), parsed)
         == Submit(Normalize(coin.id, t[coin.id]).price)
  {
  }

  /** The buttons of the purchase section. */
  datatype Button = SaveButton | UpdateButton | DeleteButton | CancelButton | EditButton | AddButton

  /** The form when `showInput`, else the Edit/Delete pair when there is a
      purchase price, else the Add prompt. */
  function Buttons(showInput: bool, isEditing: bool, shown: Shown): seq<Button> {
    if showInput then
      [if isEditing then UpdateButton else SaveButton] +
      (if isEditing then [DeleteButton] else []) + [CancelButton]
    else if IsTruthy(shown) then [EditButton, DeleteButton]
    else [AddButton]
  }

  /** Inside the form, Delete is offered exactly in edit mode; outside it,
      Edit and Delete exactly when a purchase price is shown. */
  lemma DeleteOfferedOnlyWhenEditing(showInput: bool, isEditing: bool, shown: Shown)
    ensures showInput ==> (DeleteButton in Buttons(showInput, isEditing, shown) <==> isEditing)
    ensures showInput ==> CancelButton in Buttons(showInput, isEditing, shown)
    ensures !showInput ==> (DeleteButton in Buttons(showInput, isEditing, shown) <==> IsTruthy(shown))
    ensures !showInput ==> (EditButton in Buttons(showInput, isEditing, shown) <==> IsTruthy(shown))
  {
  }

  /** The metadata `handleSavePrice` passes along (image and current price are
      not stored). */
  function CardCoinData(coin: Coin): CoinData {
    CoinData(Some(coin.name), Some(coin.symbol))
  }

  /** The form state of one card. */
  class CoinCardForm {
    var showInput: bool
    var isEditing: bool
    var inputPrice: Input

    /** Edit mode only ever exists with the form open. */
    ghost predicate Valid()
      reads this
    {
      isEditing ==> showInput
    }

    constructor ()
      ensures Valid()
      ensures !showInput && !isEditing && inputPrice == Text("")
    {
      showInput, isEditing, inputPrice := false, false, Text("");
    }

    /** `handleAddPrice` */
    method AddPrice()
      modifies this
      ensures Valid()
      ensures showInput && !isEditing && inputPrice == Text("")
    {
      showInput := true;
      isEditing := false;
      inputPrice := Text("");
    }

    /** `handleEdit`: opens the form in edit mode holding the current purchase
        price, or the empty string when there is none. */
    method Edit(store: PortfolioStore, coinId: string)
      modifies this
      ensures Valid()
      ensures showInput && isEditing
      ensures inputPrice == EditPrefill(PurchasePriceOf(store.table, coinId))
    {
      showInput := true;
      isEditing := true;
      inputPrice := EditPrefill(PurchasePriceOf(store.table, coinId));
    }

    /** The field's `onChange`: the typed text replaces `inputPrice`. */
    method Type(text: string)
      requires Valid()
      modifies this
      ensures Valid()
      ensures inputPrice == Text(text)
      ensures showInput == old(showInput) && isEditing == old(isEditing)
    {
      inputPrice := Text(text);
    }

    /** `handleCancel` */
    method Cancel()
      modifies this
      ensures Valid()
      ensures !showInput && !isEditing && inputPrice == Text("")
    {
      showInput := false;
      isEditing := false;
      inputPrice := Text("");
    }

    /** `handleDelete`, with `confirmed` the answer to `window.confirm`: removes
        the entry and closes the form, keeping whatever `inputPrice` held. */
    method Delete(store: PortfolioStore, coinId: string, confirmed: bool, writeOk: bool)
      requires Valid() && store.Valid()
      modifies this, store
      ensures Valid() && store.Valid()
      ensures inputPrice == old(inputPrice)
      ensures confirmed ==> !showInput && !isEditing
      ensures confirmed ==> store.table == AfterDelete(old(store.table), coinId)
      ensures confirmed ==> store.persisted == Some(store.table)
      ensures confirmed ==> store.durable == if writeOk then Parsed(store.table) else old(store.durable)
      ensures !confirmed ==> unchanged(this) && unchanged(store)
    {
      if confirmed {
        store.DeletePurchasePrice(coinId, writeOk);
        showInput := false;
        isEditing := false;
      }
    }

    /** The end of `handleSavePrice` once a positive price has passed the
        checks: `setPurchasePrice` accepts it, and the form closes and clears. */
    method Submit(store: PortfolioStore, coin: Coin, price: real, now: string, writeOk: bool)
      requires Valid() && store.Valid() && price > 0.0
      modifies this, store
      ensures Valid() && store.Valid()
      ensures !showInput && !isEditing && inputPrice == Text("")
      ensures store.table == AfterSet(old(store.table), coin.id, Some(price), CardCoinData(coin), now)
      ensures store.persisted == Some(store.table)
      ensures store.durable == if writeOk then Parsed(store.table) else old(store.durable)
    {
      var ok := store.SetPurchasePrice(coin.id, Some(price), CardCoinData(coin), now, writeOk);
      if ok {
        showInput := false;
        isEditing := false;
        inputPrice := Text("");
      }
    }

    /** `handleSavePrice` as written. `parsed` is `parseFloat` of the typed text.
        A rejected or throwing save changes neither the form nor the store; a
        submitted one stores the price and closes and clears the form. */
    method Save(store: PortfolioStore, coin: Coin, parsed: Option<real>, now: string, writeOk: bool)
      returns (check: SaveCheck)
      requires Valid() && store.Valid()
      modifies this, store
      ensures Valid() && store.Valid()
      ensures check == CheckInput(old(inputPrice), parsed)
      ensures check.Submit? ==> !showInput && !isEditing && inputPrice == Text("")
      ensures check.Submit? ==>
        store.table == AfterSet(old(store.table), coin.id, Some(check.price), CardCoinData(coin), now)
      ensures check.Submit? ==> store.persisted == Some(store.table)
      ensures check.Submit? ==> store.durable == if writeOk then Parsed(store.table) else old(store.durable)
      ensures !check.Submit? ==> unchanged(this) && unchanged(store)
    {
      check := CheckInput(inputPrice, parsed);
      if check.Submit? {
        Submit(store, coin, check.price, now, writeOk);
      }
    }

    /** `handleSavePrice` with the checks on the string form of `inputPrice`. */
    method SaveFixed(store: PortfolioStore, coin: Coin, parsed: Option<real>, now: string, writeOk: bool)
      returns (check: SaveCheck)
      requires Valid() && store.Valid()
      modifies this, store
      ensures Valid() && store.Valid()
      ensures check == CheckInputFixed(old(inputPrice), parsed)
      ensures check.Submit? ==> !showInput && !isEditing && inputPrice == Text("")
      ensures check.Submit? ==>
        store.table == AfterSet(old(store.table), coin.id, Some(check.price), CardCoinData(coin), now)
      ensures check.Submit? ==> store.persisted == Some(store.table)
      ensures check.Submit? ==> store.durable == if writeOk then Parsed(store.table) else old(store.durable)
      ensures !check.Submit? ==> unchanged(this) && unchanged(store)
    {
      check := CheckInputFixed(inputPrice, parsed);
      if check.Submit? {
        Submit(store, coin, check.price, now, writeOk);
      }
    }
  }

  /** Edit then Update on a recorded coin: as written the save throws and
      nothing changes; with the fix the same price is stored again. */
  method EditThenUpdate(now: string)
  {
    var store := new PortfolioStore.Load(Parsed(map["btc" := Rec(100.0, "Bitcoin", "btc", "t0")]));
    var coin := Coin("btc", "Bitcoin", "btc", 120.0);
    var form := new CoinCardForm();
    form.Edit(store, coin.id);
    assert form.inputPrice == Number(100.0);
    var check := form.Save(store, coin, None, now, true);
    assert check == Throws && form.showInput && store.table["btc"].timestamp == "t0";
    check := form.SaveFixed(store, coin, None, now, true);
    assert check == Submit(100.0) && !form.showInput;
    assert store.table == map["btc" := Rec(100.0, "Bitcoin", "btc", now)];
  }
}
