/**
 * The inline keyboards under the shopping-list message: the newer renderer
 * over product rows (`TelegramUiServiceImpl`) and the older one over bare
 * names (`TelegramUiService`), and how their tokens read back.
 */
module TelegramUi {
  import opened Wrappers
  import opened Strings
  import opened Telegram
  import opened Tables
  import CallBack

  /** The label prefix of a bought product. */
  const BOUGHT_MARK: string := "\U{2705} "

  /** The text of the clear-list button. */
  const CLEAR_LABEL: string := "\U{1F6A8} ОЧИСТИТЬ ВЕСЬ СПИСОК"

  /** A product's button label: marked when bought, the bare name otherwise. */
  function Label(p: Product): string {
    if p.isBought then BOUGHT_MARK + p.productName else p.productName
  }

  /** The token a product's button posts back: the `BUY` token followed by the decimal id. */
  function BuyToken(id: int): string {
    CallBack.Action.Buy.Prefix() + IntToString(id)
  }

  /**
   * `createShoppingListKeyboard`: one row with one button per product, in list
   * order, then, only when there are products, a row with the clear button.
   */
  function ShoppingListKeyboard(products: seq<Product>): (rows: Keyboard)
    ensures |rows| == |products| + (if products == [] then 0 else 1)
    ensures forall i :: 0 <= i < |products| ==>
      rows[i] == [CallbackButton(Label(products[i]), BuyToken(products[i].id))]
    ensures products != [] ==>
      rows[|products|] == [CallbackButton(CLEAR_LABEL, CallBack.Action.ConfirmClear.Prefix())]
  {
    var productRows := seq(|products|, i requires 0 <= i < |products| =>
      [CallbackButton(Label(products[i]), BuyToken(products[i].id))]);
    if products == [] then productRows
    else productRows + [[CallbackButton(CLEAR_LABEL, CallBack.Action.ConfirmClear.Prefix())]]
  }

  /**
   * The round trip of a product button: its token classifies as `BUY`, and
   * removing the `BUY` token and parsing what is left gives the id back.
   */
  lemma BuyTokenRoundTrip(id: int)
    requires IsInt32(id)
    ensures CallBack.GetAction(Some(BuyToken(id))) == CallBack.Buy
    ensures ParseInt(RemoveAll(BuyToken(id), CallBack.Action.Buy.Prefix())) == Some(id)
  {
    var digits := IntToString(id);
    CallBack.KnownTokens(digits);
    assert 'b' !in digits;
    NoFirstCharNoOccurrence(digits, "buy");
    RemoveAllLeading("buy", digits);
    ParseIntRoundTrip(id);
  }

  /**
   * Every button of the newer keyboard reads back as what it shows: a product
   * button as `BUY` of that product's id, the last button as `CONFIRM_CLEAR`.
   */
  lemma KeyboardReadsBack(products: seq<Product>, i: nat)
    requires i <= |products| && products != []
    requires forall p :: p in products ==> IsInt32(p.id)
    ensures var b := ShoppingListKeyboard(products)[i][0];
      b.CallbackButton? &&
      if i < |products| then
        CallBack.GetAction(Some(b.callbackData)) == CallBack.Buy &&
        ParseInt(RemoveAll(b.callbackData, CallBack.Action.Buy.Prefix())) == Some(products[i].id)
      else
        CallBack.GetAction(Some(b.callbackData)) == CallBack.ConfirmClear
  {
    if i < |products| {
      assert products[i] in products;
      BuyTokenRoundTrip(products[i].id);
    } else {
      CallBack.KnownTokens("");
    }
  }

  /** The token a button of the older keyboard posts back. */
  function LegacyBuyToken(name: string): string {
    "buy_" + name
  }

  /**
   * The older `createShoppingListKeyboard`: one row with one button per
   * name, in order, labelled with the name; no clear row.
   */
  function LegacyShoppingListKeyboard(names: seq<string>): (rows: Keyboard)
    ensures |rows| == |names|
    ensures forall i :: 0 <= i < |names| ==> rows[i] == [CallbackButton(names[i], LegacyBuyToken(names[i]))]
  {
    seq(|names|, i requires 0 <= i < |names| => [CallbackButton(names[i], LegacyBuyToken(names[i]))])
  }

  /**
   * Removing "buy_" from an older token gives the name back whenever the
   * name does not itself contain "buy_".
   */
  lemma LegacyTokenRoundTrip(name: string)
    requires !Contains(name, "buy_")
    ensures "buy_" <= LegacyBuyToken(name)
    ensures RemoveAll(LegacyBuyToken(name), "buy_") == name
  {
    RemoveAllLeading("buy_", name);
  }
}
