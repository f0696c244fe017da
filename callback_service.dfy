/**
 * `CallBackServiceImpl`: what a press on a product button and on the clear
 * button do.
 */
module CallBackService {
  import opened Wrappers
  import opened Strings
  import opened Telegram
  import opened Tables
  import CallBack
  import TelegramUi
  import ProductRepository
  import FamilyRepository
  import FanOut

  /** The status verb: bought when the product now reads bought, a cancelled purchase otherwise. */
  function Verb(p: Product): string {
    if p.isBought then "купил(а)" else "отменил(а) покупку"
  }

  /** The product id a `BUY` token carries: every "buy" removed, the rest read as an `int`. */
  function ProductIdOf(data: Option<string>): Option<int> {
    match data
    case None => None
    case Some(s) => ParseInt(RemoveAll(s, CallBack.Action.Buy.Prefix()))
  }

  /** What the transaction of `handleBuy` reads back, as written: the family id is passed where a chat id is expected. */
  function ListAfterToggle(users: seq<User>, rows: seq<Product>, familyId: int): seq<Product> {
    ProductRepository.AllProductsOrdered(users, rows, familyId)
  }

  /**
   * `handleBuy`. The id is parsed first; then, in one transaction, the
   * presser's row is read, the product is toggled in the family, the list is
   * read back and the family's members are read. If the product is in the
   * list read back, every member is shown it: an edit of the list message on
   * screen, or a fresh send. Finally the members whose fresh send succeeded
   * have the new message id stored. A bad id, an unknown presser or a
   * presser without a family fails before any call and leaves the tables as
   * they were.
   */
  method HandleBuy(db: Db, client: Client, query: CallbackQuery) returns (outcome: Outcome)
    requires db.Valid()
    modifies db, client
    ensures db.Valid()
    ensures db.families == old(db.families)
    ensures old(client.trace) <= client.trace
    ensures ProductIdOf(query.data).None? || FamilyIdOf(old(db.users), query.message.chatId).None? ==>
      outcome == Failed && client.trace == old(client.trace)
      && db.users == old(db.users) && db.shoppingList == old(db.shoppingList)
    ensures ProductIdOf(query.data).Some? && FamilyIdOf(old(db.users), query.message.chatId).Some? ==>
      var id := ProductIdOf(query.data).value;
      var familyId := FamilyIdOf(old(db.users), query.message.chatId).value;
      var rows := ProductRepository.InverseBought(old(db.shoppingList), familyId, id);
      var products := ListAfterToggle(old(db.users), rows, familyId);
      var roster := FamilyRepository.MembersOfFamily(old(db.users), familyId);
      outcome == Done && db.shoppingList == rows
      && match ProductWithId(products, id)
         case None =>
           client.trace == old(client.trace) && db.users == old(db.users)
         case Some(p) =>
           client.trace == old(client.trace) + FanOut.RoundEvents(FanOut.EditInPlace, roster,
             BuyStatus(query.fromFirstName, Verb(p), p.productName), TelegramUi.ShoppingListKeyboard(products))
           && db.users == FamilyRepository.Stamped(old(db.users), FanOut.Recorded(FanOut.EditInPlace, roster, old(client.replies)))
  {
    var productId := ProductIdOf(query.data);
    if productId.None? {
      return Failed;
    }
    var id := productId.value;
    var user := UserRow(db.users, query.message.chatId);
    if user.None? || user.value.familyId.None? {
      return Failed;
    }
    var familyId := user.value.familyId.value;
    ProductRepository.InverseBoughtStep(db, familyId, id);
    var products := ListAfterToggle(db.users, db.shoppingList, familyId);
    var roster := FamilyRepository.MembersOfFamily(db.users, familyId);
    var recorded: seq<User> := [];
    var found := ProductWithId(products, id);
    if found.Some? {
      var p := found.value;
      var text := BuyStatus(query.fromFirstName, Verb(p), p.productName);
      var _, r := FanOut.Broadcast(client, FanOut.EditInPlace, roster, text, TelegramUi.ShoppingListKeyboard(products));
      recorded := r;
    }
    FamilyRepository.UpdateLastMessageId(db, recorded);
    outcome := Done;
  }

  /** The confirmation keyboard: "yes, delete" posting `clear_all`, "cancel" posting `refresh_list`. */
  const CONFIRM_KEYBOARD: Keyboard :=
    [[CallbackButton("\U{2705} ДА, УДАЛИТЬ", "clear_all"), CallbackButton("\U{274C} ОТМЕНА", "refresh_list")]]

  /** The confirmation buttons read back as `CLEAR_ALL` and `REFRESH`. */
  lemma ConfirmKeyboardReadsBack()
    ensures |CONFIRM_KEYBOARD| == 1 && |CONFIRM_KEYBOARD[0]| == 2
    ensures CallBack.GetAction(Some(CONFIRM_KEYBOARD[0][0].callbackData)) == CallBack.ClearAll
    ensures CallBack.GetAction(Some(CONFIRM_KEYBOARD[0][1].callbackData)) == CallBack.Refresh
  {
    CallBack.KnownTokens("");
  }

  /** `handleConfirmClear`: the pressed message's keyboard becomes the confirmation keyboard; no table is touched. */
  method HandleConfirmClear(client: Client, query: CallbackQuery)
    modifies client
    ensures client.trace == old(client.trace) + [EditMessageReplyMarkup(query.message.chatId, query.message.messageId, CONFIRM_KEYBOARD)]
    ensures client.replies == old(client.replies)
  {
    client.EditMarkup(query.message.chatId, query.message.messageId, CONFIRM_KEYBOARD);
  }
}
