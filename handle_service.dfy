/**
 * The newer `HandleServiceImpl`: a list message from a family member, the
 * routing of commands and the routing of button presses.
 */
module HandleService {
  import opened Wrappers
  import opened Telegram
  import opened Tables
  import Command
  import CallBack
  import ListParser
  import TelegramUi
  import ProductRepository
  import FamilyRepository
  import FanOut
  import CommandService
  import CallBackService

  /**
   * What the transaction of `handleTextMessage` adds, as written: the
   * sender's family id is passed where `addProducts` expects a chat id.
   */
  function RowsAfterAdd(users: seq<User>, rows: seq<Product>, first: int, familyId: int, items: seq<string>, now: int): seq<Product> {
    rows + ProductRepository.NewRows(first, familyId, items, now, FamilyIdOf(users, familyId))
  }

  /**
   * `handleTextMessage`. The text is split into items; in one transaction the
   * sender's row is read (a missing row or a missing family throws and rolls
   * back), the items are added, the list is read back and the family's
   * members are read; every member's shown list is deleted and a fresh one
   * sent; finally every member's row is written back with its new message
   * id. `now` is the database clock at the insert.
   */
  method HandleTextMessage(db: Db, client: Client, message: Message, now: int) returns (outcome: Outcome)
    requires db.Valid()
    modifies db, client
    ensures db.Valid()
    ensures db.families == old(db.families)
    ensures FamilyIdOf(old(db.users), message.chatId).None? ==>
      outcome == Failed && client.trace == old(client.trace)
      && db.users == old(db.users) && db.shoppingList == old(db.shoppingList)
    ensures FamilyIdOf(old(db.users), message.chatId).Some? ==>
      var familyId := FamilyIdOf(old(db.users), message.chatId).value;
      var rows := RowsAfterAdd(old(db.users), old(db.shoppingList), old(db.nextProductId), familyId, ListParser.Parse(message.text), now);
      var products := ProductRepository.AllProductsOrdered(old(db.users), rows, familyId);
      var roster := FamilyRepository.MembersOfFamily(old(db.users), familyId);
      outcome == Done && db.shoppingList == rows
      && client.trace == old(client.trace) + FanOut.RoundEvents(FanOut.Resend, roster,
           ListUpdated(message.fromFirstName), TelegramUi.ShoppingListKeyboard(products))
      && db.users == FamilyRepository.Stamped(old(db.users), FanOut.Refreshed(FanOut.Resend, roster, old(client.replies)))
  {
    var items := ListParser.Parse(message.text);
    var user := UserRow(db.users, message.chatId);
    if user.None? || user.value.familyId.None? {
      return Failed;
    }
    var familyId := user.value.familyId.value;
    ProductRepository.AddProducts(db, familyId, items, now);
    var products := ProductRepository.AllProductsOrdered(db.users, db.shoppingList, familyId);
    var roster := FamilyRepository.MembersOfFamily(db.users, familyId);
    var refreshed, _ := FanOut.Broadcast(client, FanOut.Resend, roster, ListUpdated(message.fromFirstName),
      TelegramUi.ShoppingListKeyboard(products));
    FamilyRepository.UpdateLastMessageId(db, refreshed);
    outcome := Done;
  }

  /**
   * `handleCommand`: the command the text classifies as picks the command
   * service's step; `UNKNOWN` does nothing. `botName` and `code` are the
   * configured bot name and the UUID a family creation draws.
   */
  method HandleCommand(db: Db, client: Client, message: Message, botName: string, code: string) returns (outcome: Outcome)
    requires db.Valid()
    modifies db, client
    ensures db.Valid()
    ensures db.shoppingList == old(db.shoppingList)
    ensures Command.GetCommand(message.text) == Command.Unknown ==>
      outcome == Done && client.trace == old(client.trace)
      && db.users == old(db.users) && db.families == old(db.families)
    ensures Command.GetCommand(message.text) == Command.Start ==>
      outcome == Done && client.trace == old(client.trace) + [SendMessage(message.chatId, Greeting, None)]
      && db.users == old(db.users) && db.families == old(db.families)
    ensures Command.GetCommand(message.text) == Command.CreateFamily ==>
      outcome == Done
      && db.families == old(db.families) + [Family(old(db.nextFamilyId), code)]
      && db.users == FamilyRepository.UpsertRows(old(db.users), message.chatId, old(db.nextFamilyId), message.fromFirstName)
      && client.trace == old(client.trace) + [SendMessage(message.chatId, FamilyCreated,
           Some(CommandService.ShareKeyboard(CommandService.ShareUrl(CommandService.InviteLink(botName, code)))))]
  {
    var command := Command.GetCommand(message.text);
    if command == Command.Start {
      CommandService.Start(client, message);
      outcome := Done;
    } else if command == Command.StartWithInvite {
      outcome := CommandService.StartWithInvite(db, client, message);
    } else if command == Command.CreateFamily {
      CommandService.CreateFamily(db, client, message, botName, code);
      outcome := Done;
    } else {
      outcome := Done;
    }
  }

  /**
   * `handleCallbackQuery`: the press is acknowledged first, whatever it
   * carries; then `BUY` and `CONFIRM_CLEAR` go to their handlers, `UNKNOWN`
   * does nothing, and `REFRESH` and `CLEAR_ALL` reach handlers that return
   * no pipeline at all, which fails.
   */
  method HandleCallbackQuery(db: Db, client: Client, query: CallbackQuery) returns (outcome: Outcome)
    requires db.Valid()
    modifies db, client
    ensures db.Valid()
    ensures db.families == old(db.families)
    ensures |client.trace| > |old(client.trace)|
    ensures client.trace[..|old(client.trace)| + 1] == old(client.trace) + [AnswerCallbackQuery(query.id)]
    ensures CallBack.GetAction(query.data) != CallBack.Buy ==>
      db.users == old(db.users) && db.shoppingList == old(db.shoppingList)
    ensures CallBack.GetAction(query.data) in {CallBack.Unknown, CallBack.Refresh, CallBack.ClearAll} ==>
      client.trace == old(client.trace) + [AnswerCallbackQuery(query.id)]
      && outcome == (if CallBack.GetAction(query.data) == CallBack.Unknown then Done else Failed)
    ensures CallBack.GetAction(query.data) == CallBack.ConfirmClear ==>
      outcome == Done && client.trace == old(client.trace) +
        [AnswerCallbackQuery(query.id), EditMessageReplyMarkup(query.message.chatId, query.message.messageId, CallBackService.CONFIRM_KEYBOARD)]
    ensures CallBack.GetAction(query.data) == CallBack.Buy ==>
      (outcome == Failed <==>
        CallBackService.ProductIdOf(query.data).None? || FamilyIdOf(old(db.users), query.message.chatId).None?)
    ensures CallBack.GetAction(query.data) == CallBack.Buy && outcome == Done ==>
      db.shoppingList == ProductRepository.InverseBought(old(db.shoppingList),
        FamilyIdOf(old(db.users), query.message.chatId).value, CallBackService.ProductIdOf(query.data).value)
    ensures CallBack.GetAction(query.data) == CallBack.Buy && outcome == Failed ==>
      client.trace == old(client.trace) + [AnswerCallbackQuery(query.id)]
      && db.users == old(db.users) && db.shoppingList == old(db.shoppingList)
    ensures CallBack.GetAction(query.data) == CallBack.Buy && outcome == Done ==>
      var id := CallBackService.ProductIdOf(query.data).value;
      var familyId := FamilyIdOf(old(db.users), query.message.chatId).value;
      var products := CallBackService.ListAfterToggle(old(db.users), db.shoppingList, familyId);
      var roster := FamilyRepository.MembersOfFamily(old(db.users), familyId);
      match ProductWithId(products, id)
      case None =>
        client.trace == old(client.trace) + [AnswerCallbackQuery(query.id)] && db.users == old(db.users)
      case Some(p) =>
        client.trace == old(client.trace) + [AnswerCallbackQuery(query.id)] + FanOut.RoundEvents(FanOut.EditInPlace, roster,
          BuyStatus(query.fromFirstName, CallBackService.Verb(p), p.productName), TelegramUi.ShoppingListKeyboard(products))
        && db.users == FamilyRepository.Stamped(old(db.users), FanOut.Recorded(FanOut.EditInPlace, roster, old(client.replies)))
  {
    var action := CallBack.GetAction(query.data);
    client.AnswerCallback(query.id);
    ghost var acked := client.trace;
    if action == CallBack.Buy {
      outcome := CallBackService.HandleBuy(db, client, query);
      assert acked <= client.trace;
    } else if action == CallBack.ConfirmClear {
      CallBackService.HandleConfirmClear(client, query);
      outcome := Done;
    } else if action == CallBack.Unknown {
      outcome := Done;
    } else {
      outcome := Failed;
    }
  }

  // ---------------------------------------------------------------------------
  // The family id passed as a chat id
  // ---------------------------------------------------------------------------

  /**
   * As written: a member of family 1 whose chat id is 100 sends "Milk". The
   * row is added under chat id 1 with no family, and the list read back for
   * "chat" 1 is empty, so the item never reaches anyone's keyboard.
   */
  lemma FamilyIdAsChatIdLosesItems()
    ensures var users := [User(100, "Anna", Some(1), None, false)];
      var rows := RowsAfterAdd(users, [], 0, 1, ["Milk"], 0);
      rows == [Product(0, 1, "Milk", false, 0, None)]
      && ProductRepository.AllProductsOrdered(users, rows, 1) == []
  {
    var users := [User(100, "Anna", Some(1), None, false)];
    assert UserRow(users, 1) == None;
  }

  /**
   * Corrected: when a member adds by their own chat id and reads back by it,
   * every new row carries the family id and appears in the list that is
   * shown to the family.
   */
  lemma MemberAddsReachFamilyList(users: seq<User>, rows: seq<Product>, i: nat, first: int, items: seq<string>, now: int, k: nat)
    requires UniqueChatIds(users) && i < |users| && users[i].familyId.Some? && k < |items|
    ensures var added := ProductRepository.NewRows(first, users[i].chatId, items, now, FamilyIdOf(users, users[i].chatId));
      added[k].familyId == users[i].familyId
      && added[k] in ProductRepository.AllProductsOrdered(users, rows + added, users[i].chatId)
  {
    UserRowAt(users, i);
    var added := ProductRepository.NewRows(first, users[i].chatId, items, now, FamilyIdOf(users, users[i].chatId));
    var all := rows + added;
    assert all[|rows| + k] == added[k];
    assert added[k] in multiset(all);
    assert multiset(ProductRepository.AllProductsOrdered(users, all, users[i].chatId))[added[k]] > 0;
  }

  /**
   * Corrected: a member's own chat id reads back exactly the rows of that
   * member's family.
   */
  lemma MemberReadsFamilyList(users: seq<User>, rows: seq<Product>, i: nat)
    requires UniqueChatIds(users) && i < |users| && users[i].familyId.Some?
    ensures multiset(ProductRepository.AllProductsOrdered(users, rows, users[i].chatId))
      == multiset(ProductRepository.FamilyRows(rows, users[i].familyId.value))
  {
    UserRowAt(users, i);
    var f := users[i].familyId.value;
    assert multiset(ProductRepository.AllProductsOrdered(users, rows, users[i].chatId))
      == multiset(ProductRepository.FamilyRows(rows, f));
  }
}
