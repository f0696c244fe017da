/**
 * The older `service.HandleServiceImpl`: the same three entry points written
 * against the older repositories and keyboard, keyed by the caller's chat id
 * throughout.
 */
module LegacyHandleService {
  import opened Wrappers
  import opened Strings
  import opened Telegram
  import opened Tables
  import Command
  import ListParser
  import TelegramUi
  import ProductRepository
  import FamilyRepository
  import FanOut
  import CommandService

  /** The bot name the older handler builds its invite links with. */
  const LEGACY_BOT_NAME: string := "sync_family_bot"

  /** The fallback product name when the pressed id is not in the list read back. */
  const UNKNOWN_PRODUCT: string := "товара"

  /** The token prefix of the older product buttons. */
  const LEGACY_BUY_PREFIX: string := "buy_"

  // ---------------------------------------------------------------------------
  // `handleCommand`
  // ---------------------------------------------------------------------------

  /** Where the older handler sends a command text. */
  datatype Route = Greet | Join(code: string) | Create | Ignore

  /**
   * The older routing: exactly "/start" greets, a text starting "/start "
   * joins with its invite code, a text starting "/create_family" creates a
   * family, anything else is ignored.
   */
  function RouteOf(text: string): (r: Route)
    ensures r == Greet <==> text == "/start"
    ensures r.Join? <==> text != "/start" && CommandService.START_PAYLOAD_PREFIX <= text
    ensures r.Join? ==> r.code == CommandService.InviteCode(text)
    ensures r == Create <==> !(CommandService.START_PAYLOAD_PREFIX <= text) && "/create_family" <= text
  {
    if text == "/start" then Greet
    else if CommandService.START_PAYLOAD_PREFIX <= text then Join(CommandService.InviteCode(text))
    else if "/create_family" <= text then Create
    else Ignore
  }

  /** An invitation text reaches the join step carrying its code. */
  lemma LegacyRoutesInvite(code: string)
    requires IsTrimmed(code) && !Contains(code, CommandService.START_PAYLOAD_PREFIX)
    ensures RouteOf(CommandService.START_PAYLOAD_PREFIX + code) == Join(code)
  {
    var text := CommandService.START_PAYLOAD_PREFIX + code;
    assert text != "/start" by {
      assert |text| > |"/start"|;
    }
    CommandService.InviteCodeRoundTrip(code);
  }

  /**
   * Every text the older handler acts on is routed the way the reordered
   * command table routes it: greet as `START`, join as `START_WITH_INVITE`,
   * create as `CREATE_FAMILY`.
   */
  lemma LegacyAgreesWithReordered(text: string)
    ensures RouteOf(text) == Greet ==> Command.GetCommandReordered(Some(text)) == Command.Start
    ensures RouteOf(text).Join? ==> Command.GetCommandReordered(Some(text)) == Command.StartWithInvite
    ensures RouteOf(text) == Create ==> Command.GetCommandReordered(Some(text)) == Command.CreateFamily
  {
    var p := CommandService.START_PAYLOAD_PREFIX;
    if p <= text {
      assert text == p + text[|p|..];
      Command.ReorderedRoutesInvite(text[|p|..], text);
    } else {
      Command.ReorderedRoutesInvite("", text);
    }
  }

  /**
   * `handleCommand`. A message without text throws on the first comparison.
   * The join and the creation are the same steps as the newer command
   * service's, with the bot name fixed; `code` is the UUID a creation draws.
   */
  method LegacyHandleCommand(db: Db, client: Client, message: Message, code: string) returns (outcome: Outcome)
    requires db.Valid()
    modifies db, client
    ensures db.Valid()
    ensures db.shoppingList == old(db.shoppingList)
    ensures message.text.None? ==>
      outcome == Failed && client.trace == old(client.trace) && db.users == old(db.users) && db.families == old(db.families)
    ensures message.text.Some? && RouteOf(message.text.value) in {Greet, Ignore} ==>
      outcome == Done && db.users == old(db.users) && db.families == old(db.families)
      && client.trace == old(client.trace) +
           (if RouteOf(message.text.value) == Greet then [SendMessage(message.chatId, Greeting, None)] else [])
    ensures message.text.Some? && RouteOf(message.text.value).Join? ==>
      db.families == old(db.families)
      && var ids := FamilyRepository.FamiliesWithCode(old(db.families), RouteOf(message.text.value).code);
      if ids == [] then
        outcome == Done && db.users == old(db.users)
        && client.trace == old(client.trace) + [SendMessage(message.chatId, JoinFailed, None)]
      else if |ids| == 1 then
        outcome == Done && db.users == FamilyRepository.UpsertRows(old(db.users), message.chatId, ids[0], message.fromFirstName)
        && client.trace == old(client.trace) + [SendMessage(message.chatId, JoinSucceeded, None)]
      else
        outcome == Failed && db.users == old(db.users) && client.trace == old(client.trace)
    ensures message.text.Some? && RouteOf(message.text.value) == Create ==>
      outcome == Done
      && db.families == old(db.families) + [Family(old(db.nextFamilyId), code)]
      && db.users == FamilyRepository.UpsertRows(old(db.users), message.chatId, old(db.nextFamilyId), message.fromFirstName)
      && client.trace == old(client.trace) + [SendMessage(message.chatId, FamilyCreated,
           Some(CommandService.ShareKeyboard(CommandService.ShareUrl(CommandService.InviteLink(LEGACY_BOT_NAME, code)))))]
  {
    if message.text.None? {
      return Failed;
    }
    var route := RouteOf(message.text.value);
    if route == Greet {
      CommandService.Start(client, message);
      outcome := Done;
    } else if route.Join? {
      outcome := CommandService.StartWithInvite(db, client, message);
    } else if route == Create {
      CommandService.CreateFamily(db, client, message, LEGACY_BOT_NAME, code);
      outcome := Done;
    } else {
      outcome := Done;
    }
  }

  // ---------------------------------------------------------------------------
  // `handleTextMessage`
  // ---------------------------------------------------------------------------

  /** The product names the older keyboard is drawn from, in list order. */
  function Names(products: seq<Product>): (names: seq<string>)
    ensures |names| == |products|
    ensures forall i :: 0 <= i < |products| ==> names[i] == products[i].productName
  {
    seq(|products|, i requires 0 <= i < |products| => products[i].productName)
  }

  /**
   * `handleTextMessage`. The items are added under the sender's chat id, the
   * sender's family and list are read by that chat id, and every member has
   * the shown list deleted and a fresh one sent. No message id is stored.
   */
  method LegacyHandleTextMessage(db: Db, client: Client, message: Message, now: int)
    requires db.Valid()
    modifies db, client
    ensures db.Valid()
    ensures db.families == old(db.families) && db.users == old(db.users)
    ensures db.shoppingList == old(db.shoppingList) + ProductRepository.NewRows(old(db.nextProductId), message.chatId,
      ListParser.Parse(message.text), now, FamilyIdOf(old(db.users), message.chatId))
    ensures client.trace == old(client.trace) + FanOut.RoundEvents(FanOut.Resend,
      FamilyRepository.FamilyMembersOfChat(old(db.users), message.chatId), ListUpdated(message.fromFirstName),
      TelegramUi.LegacyShoppingListKeyboard(Names(ProductRepository.AllProductsOrdered(old(db.users), db.shoppingList, message.chatId))))
  {
    var items := ListParser.Parse(message.text);
    ProductRepository.AddProducts(db, message.chatId, items, now);
    var roster := FamilyRepository.FamilyMembersOfChat(db.users, message.chatId);
    var products := ProductRepository.AllProductsOrdered(db.users, db.shoppingList, message.chatId);
    var _, _ := FanOut.Broadcast(client, FanOut.Resend, roster, ListUpdated(message.fromFirstName),
      TelegramUi.LegacyShoppingListKeyboard(Names(products)));
  }

  // ---------------------------------------------------------------------------
  // `handleCallbackQuery`
  // ---------------------------------------------------------------------------

  /** The id an older token carries: every "buy_" removed, the rest read as an `int`. */
  function LegacyProductIdOf(data: string): Option<int> {
    ParseInt(RemoveAll(data, LEGACY_BUY_PREFIX))
  }

  /** The name in the status text: the first listed product with the id, or the fallback. */
  function ProductNameOr(products: seq<Product>, id: int): (name: string)
    ensures (forall i :: 0 <= i < |products| ==> products[i].id != id) ==> name == UNKNOWN_PRODUCT
    ensures (exists i :: 0 <= i < |products| && products[i].id == id) ==>
      exists i :: 0 <= i < |products| && products[i].id == id && name == products[i].productName
        && forall j :: 0 <= j < i ==> products[j].id != id
  {
    match ProductWithId(products, id)
    case None => UNKNOWN_PRODUCT
    case Some(p) => p.productName
  }

  /**
   * `handleCallbackQuery`. Data that does not start "buy_" is ignored without
   * an answer; data without an `int` after "buy_", or no data at all, throws
   * before the answer. Otherwise the press is answered, the product is marked
   * bought in the caller's scope, the list and the family are read by the
   * caller's chat id, every member has the shown list deleted and a fresh
   * one sent, and the members whose send succeeded have the new id stored.
   */
  method LegacyHandleCallbackQuery(db: Db, client: Client, query: CallbackQuery) returns (outcome: Outcome)
    requires db.Valid()
    modifies db, client
    ensures db.Valid()
    ensures db.families == old(db.families)
    ensures query.data.None? || (LEGACY_BUY_PREFIX <= query.data.value && LegacyProductIdOf(query.data.value).None?) ==>
      outcome == Failed && client.trace == old(client.trace)
      && db.users == old(db.users) && db.shoppingList == old(db.shoppingList)
    ensures query.data.Some? && !(LEGACY_BUY_PREFIX <= query.data.value) ==>
      outcome == Done && client.trace == old(client.trace)
      && db.users == old(db.users) && db.shoppingList == old(db.shoppingList)
    ensures query.data.Some? && LEGACY_BUY_PREFIX <= query.data.value && LegacyProductIdOf(query.data.value).Some? ==>
      var chatId := query.message.chatId;
      var id := LegacyProductIdOf(query.data.value).value;
      var rows := ProductRepository.MarkBought(old(db.shoppingList), ProductRepository.CallerScope(old(db.users), chatId), id);
      var products := ProductRepository.AllProductsOrdered(old(db.users), rows, chatId);
      var roster := FamilyRepository.FamilyMembersOfChat(old(db.users), chatId);
      outcome == Done && db.shoppingList == rows
      && client.trace == old(client.trace) + [AnswerCallbackQuery(query.id)] + FanOut.RoundEvents(FanOut.Resend, roster,
           LegacyBuyStatus(query.fromFirstName, ProductNameOr(products, id)),
           TelegramUi.LegacyShoppingListKeyboard(Names(products)))
      && db.users == FamilyRepository.Stamped(old(db.users), FanOut.Recorded(FanOut.Resend, roster, old(client.replies)))
  {
    if query.data.None? {
      return Failed;
    }
    var data := query.data.value;
    if !(LEGACY_BUY_PREFIX <= data) {
      return Done;
    }
    var productId := LegacyProductIdOf(data);
    if productId.None? {
      return Failed;
    }
    var id := productId.value;
    var chatId := query.message.chatId;
    client.AnswerCallback(query.id);
    ProductRepository.MarkAsBought(db, chatId, id);
    var products := ProductRepository.AllProductsOrdered(db.users, db.shoppingList, chatId);
    var roster := FamilyRepository.FamilyMembersOfChat(db.users, chatId);
    var _, recorded := FanOut.Broadcast(client, FanOut.Resend, roster,
      LegacyBuyStatus(query.fromFirstName, ProductNameOr(products, id)), TelegramUi.LegacyShoppingListKeyboard(Names(products)));
    FamilyRepository.UpdateLastMessageId(db, recorded);
    outcome := Done;
  }

  /**
   * The older keyboard and the older handler do not meet: a button named by
   * a word (an empty name, or one opening with a Latin or Cyrillic letter,
   * which `Character.digit` rejects in every script) is routed into the
   * "buy_" branch but carries no id, so pressing it fails before the press
   * is answered.
   */
  lemma LegacyButtonPressFails(name: string)
    requires !Contains(name, LEGACY_BUY_PREFIX) && (name == [] || IsCasedLetter(name[0]))
    ensures LEGACY_BUY_PREFIX <= TelegramUi.LegacyBuyToken(name)
    ensures LegacyProductIdOf(TelegramUi.LegacyBuyToken(name)) == None
  {
    TelegramUi.LegacyTokenRoundTrip(name);
  }
}
