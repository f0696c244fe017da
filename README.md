# sync_family_bot: the shared shopping-list rules, in Dafny

This project models the core of `sync_family_bot`, a Telegram bot that
keeps one shopping list per family. Family members share the list as
follows:

- A member writes items in free text.
- The bot adds them to the family's list.
- The bot then shows every member the list again, as a keyboard with one
  button per product.
- Pressing a product button marks it bought, or un-marks it, and shows the
  list to everyone again.
- `/create_family` creates a family and replies with an invitation link.
- Opening that link sends `/start <code>`, which joins the family.

The model covers these parts:

- **Classifiers.** The first-match prefix searches `Command.getCommand` and
  `CallBack.getAction`, and the update router `SyncFamilyBot.consume`.
- **The list parser.** `ListParser.parse` and `capitalize`.
- **The keyboard renderers.** The newer one, over product rows, and the
  older one, over names. Lemmas tie the rendered tokens back to the
  classifier and to the id parse.
- **The repositories.** The three tables (`families`, `users`,
  `shopping_list`) are fields of a class `Tables.Db`. Each statement, or
  each transaction body, is one method with a frame. The newer and the
  older repositories run the same statements, so each statement is modelled
  once.
- **The handlers.** The newer `HandleServiceImpl`, `CallBackServiceImpl`
  and `CommandServiceImpl`, and the older `service.HandleServiceImpl`.
  Their Bot API calls go to a class `Telegram.Client`, which appends every
  call to a trace.

The transport is scripted. `Client.replies` holds the answers the Bot API
will give to successive `sendMessage` calls: the new message's id, or
`None` when the call fails. A handler's effect is therefore a function of
its inputs and of that script.

A handler's effect is stated against specification functions:

- `FanOut.RoundEvents`: the calls of one fan-out round.
- `FanOut.Refreshed` and `FanOut.Recorded`: the users the round writes back.
- `FamilyRepository.Stamped`: the users table after a batch update.

The lemmas about these functions state the per-member promises. Each member
gets delete-then-send or edit-or-send. No other chat gets anything. Only a
fresh send that succeeded stores an id.

A transaction that throws rolls back (`db.async` runs
`transactionResult`). It is modelled as `Outcome.Failed`, with the tables
left as they were. The throwing cases are:

- a missing user row (`orElseThrow`);
- a family id of `null` unboxed to `long`;
- a malformed id (`Integer.parseInt`);
- a single-row fetch that finds two rows.

## Model

| member | source | states |
|---|---|---|
| PrefixTable.FirstMatch | src/main/java/ru/syncfamily/service/model/Command.java:18-23 | the index found holds a prefix of the input and no earlier entry does; falling through gives the table length |
| Command.GetCommand | src/main/java/ru/syncfamily/service/model/Command.java:16-24 | `null` is `UNKNOWN`; otherwise the result's text starts the input and no constant declared earlier has a text that starts it |
| Command.GetCommandCases | src/main/java/ru/syncfamily/service/model/Command.java:10-23 | `START` iff the text starts "/start"; `CREATE_FAMILY` iff it starts "/create_family"; `UNKNOWN` iff it starts neither; `START_WITH_INVITE` is never returned |
| Command.InviteDeepLinkMisrouted | src/main/java/ru/syncfamily/service/model/Command.java:10-11 | every deep-link text "/start " + code is classified `START` |
| Command.GetCommandReordered | src/main/java/ru/syncfamily/service/model/Command.java:10-24 | the first-match search over the table with `START_WITH_INVITE` before `START`: `null` is `UNKNOWN`, the result's text starts the input, and no constant placed earlier in that table starts it |
| Command.ReorderedRoutesInvite | src/main/java/ru/syncfamily/service/model/Command.java:10-12 | with the reordered table, "/start " + code reaches `START_WITH_INVITE`, "/start" still reaches `START` and "/create_family…" reaches `CREATE_FAMILY` |
| CallBack.GetAction | src/main/java/ru/syncfamily/service/model/CallBack.java:18-26 | `null` is `UNKNOWN`; otherwise the result's token starts the data and no token declared earlier does |
| CallBack.HeadDetermines | src/main/java/ru/syncfamily/service/model/CallBack.java:10-13 | each non-empty token is identified by its first two characters |
| CallBack.PrefixesIndependent | src/main/java/ru/syncfamily/service/model/CallBack.java:10-13 | none of the four non-empty tokens is a prefix of another |
| CallBack.UniqueMatch | src/main/java/ru/syncfamily/service/model/CallBack.java:10-13 | at most one non-empty token starts any given string |
| CallBack.GetActionCases | src/main/java/ru/syncfamily/service/model/CallBack.java:18-26 | each action is returned iff its token starts the data; `UNKNOWN` iff no non-empty token does |
| CallBack.OrderIrrelevant | src/main/java/ru/syncfamily/service/model/CallBack.java:10-14 | any ordering of the four non-empty tokens, followed by `UNKNOWN`, classifies every string the same way |
| CallBack.KnownTokens | src/main/java/ru/syncfamily/service/model/CallBack.java:10-13 | "confirm_clear", "clear_all", "refresh_list" and "buy" + anything classify as `CONFIRM_CLEAR`, `CLEAR_ALL`, `REFRESH` and `BUY` |
| SyncFamilyBot.Consume | src/main/java/ru/syncfamily/SyncFamilyBot.java:20-32 | a text message starting "/" goes to the command handler and any other text message to the text handler; otherwise a callback query goes to the callback handler; otherwise nothing is dispatched. Each case holds iff its condition holds |
| Strings.RemoveAll | src/main/java/ru/syncfamily/service/impl/CommandServiceImpl.java:54 | `replace(target, "")` never lengthens the string |
| Strings.RemoveAllAbsent | src/main/java/ru/syncfamily/service/impl/CallBackServiceImpl.java:49 | removing a target that does not occur changes nothing |
| Strings.RemoveAllLeading | src/main/java/ru/syncfamily/service/impl/CommandServiceImpl.java:54 | removing a leading target from a rest that does not contain it gives back the rest |
| Strings.Trim | src/main/java/ru/syncfamily/service/ListParser.java:21 | `trim` returns an infix of the input. Everything cut off before and after it is strippable (at most U+0020), and nothing strippable is left at either end. So it is exactly the input with its strippable ends removed, and the identity on trimmed input |
| Strings.IntToString | src/main/java/ru/syncfamily/service/impl/TelegramUiServiceImpl.java:25 | the decimal rendering of an id is non-empty and consists of digits and '-' |
| Strings.ParseInt | src/main/java/ru/syncfamily/service/impl/CallBackServiceImpl.java:49 | `Integer.parseInt` succeeds iff the text is an optional '+' or '-' followed by at least one ASCII digit and the signed value fits in 32 bits; the result is that signed value |
| Strings.ParseIntRoundTrip | src/main/java/ru/syncfamily/service/impl/CallBackServiceImpl.java:49 | parsing the decimal rendering of any Java `int` gives it back |
| ListParser.Token | src/main/java/ru/syncfamily/service/ListParser.java:20 | the first piece is no longer than the text and, when shorter, stops at a separator |
| ListParser.DropTrailingEmpty | src/main/java/ru/syncfamily/service/ListParser.java:20 | `split` drops exactly the trailing empty strings |
| ListParser.Clean | src/main/java/ru/syncfamily/service/ListParser.java:21-22 | every item is non-empty and trimmed (the per-piece content and the order are in CleanContents and CleanConcat) |
| ListParser.CleanContents | src/main/java/ru/syncfamily/service/ListParser.java:21-22 | a string is an item iff it is non-empty and some piece trims to it |
| ListParser.CleanConcat | src/main/java/ru/syncfamily/service/ListParser.java:21-22 | the pieces of two lists are cleaned list by list, in order |
| ListParser.Capitalize | src/main/java/ru/syncfamily/service/ListParser.java:27-30 | under the modelled per-character case mapping: keeps the length, upper-cases the first character and lower-cases the rest |
| ListParser.CapitalizeAll | src/main/java/ru/syncfamily/service/ListParser.java:23 | every item capitalised, in order |
| ListParser.Parse | src/main/java/ru/syncfamily/service/ListParser.java:15-25 | null or blank text gives no items. A non-blank text without separators gives its trimmed text, capitalised, or nothing when that is empty. Every item is non-empty, holds no ',' ';' or newline, and is trimmed. There is at most one more item than separators |
| ListParser.ItemsOfPiece | src/main/java/ru/syncfamily/service/ListParser.java:20-24 | a text without separators has as items its trimmed text, capitalised, or none when that is empty |
| ListParser.ParseJoin | src/main/java/ru/syncfamily/service/ListParser.java:15-25 | two non-blank texts joined by a separator parse to the items of the first followed by those of the second |
| ListParser.PiecesCount | src/main/java/ru/syncfamily/service/ListParser.java:20 | a text with n separators splits into at most n + 1 pieces |
| ListParser.PiecesConcat | src/main/java/ru/syncfamily/service/ListParser.java:20-22 | cutting a text at one separator: its cleaned pieces are those of the left part followed by those of the right part |
| ListParser.ItemsInOrder | src/main/java/ru/syncfamily/service/ListParser.java:20-24 | the items of two texts joined by a separator are the items of the first followed by those of the second |
| ListParser.CaseMappingKeepsClass | src/main/java/ru/syncfamily/service/ListParser.java:29 | case mapping never creates or removes a separator or a character `trim` strips |
| ListParser.CapitalizeIdempotent | src/main/java/ru/syncfamily/service/ListParser.java:27-30 | under the modelled per-character case mapping, capitalising twice is capitalising once |
| TelegramUi.ShoppingListKeyboard | src/main/java/ru/syncfamily/service/impl/TelegramUiServiceImpl.java:18-40 | one row per product, in order, labelled "✅ " + name when bought and posting "buy" + id; then a clear row posting "confirm_clear", present iff the list is non-empty |
| TelegramUi.BuyTokenRoundTrip | src/main/java/ru/syncfamily/service/impl/TelegramUiServiceImpl.java:25 | for every 32-bit id, "buy" + id classifies as `BUY`, and removing "buy" and parsing gives the id back |
| TelegramUi.KeyboardReadsBack | src/main/java/ru/syncfamily/service/impl/TelegramUiServiceImpl.java:19-37 | every button of a rendered keyboard reads back as what it shows: product i as `BUY` of its id, the last button as `CONFIRM_CLEAR` |
| TelegramUi.LegacyShoppingListKeyboard | src/main/java/ru/syncfamily/service/TelegramUiService.java:13-23 | one row per name, in order, each with one button labelled with the name and posting "buy_" + name; no clear row |
| TelegramUi.LegacyTokenRoundTrip | src/main/java/ru/syncfamily/service/TelegramUiService.java:17 | an older token starts "buy_", and removing "buy_" gives the name back when the name does not contain "buy_" |
| Tables.UserRow | src/main/java/ru/syncfamily/repository/impl/FamilyRepositoryImpl.java:34-39 | a row is found iff a row with that chat id exists, and the row found has that chat id |
| Tables.UserRowAt | src/main/java/ru/syncfamily/repository/impl/FamilyRepositoryImpl.java:34-39 | with chat ids a key, the lookup of a row's chat id finds that row |
| Tables.ProductWithId | src/main/java/ru/syncfamily/service/impl/CallBackServiceImpl.java:67-69 | nothing is found iff no listed product has the id; otherwise the product found is the first listed product with the id |
| Tables.RewriteLookup | src/main/java/ru/syncfamily/repository/impl/FamilyRepositoryImpl.java:102-110 | a keyed row rewrite changes only that chat's row, keeps chat ids a key, and changes nothing when the chat has no row |
| ProductRepository.GroupCondition | src/main/java/ru/syncfamily/repository/impl/ProductRepositoryImpl.java:90-96 | a row is in scope iff it has the family id, when one is given, or else the chat id |
| ProductRepository.AddProducts | src/main/java/ru/syncfamily/repository/impl/ProductRepositoryImpl.java:20-37 | the table becomes the old rows followed by one new row per name, in order, with the chat id, the name, not bought, and the caller's family id (none if the caller has no row or no family); no other table changes |
| ProductRepository.AddedRows | src/main/java/ru/syncfamily/repository/ProductRepository.java:45-62 | after the insert the old rows are a prefix, and row i of the new part carries name i, the chat id and the family id, not bought |
| ProductRepository.MarkBought | src/main/java/ru/syncfamily/repository/impl/ProductRepositoryImpl.java:45-49 | the update keeps the table's length |
| ProductRepository.MarkBoughtEffect | src/main/java/ru/syncfamily/repository/impl/ProductRepositoryImpl.java:45-49 | a row with the id and in scope becomes bought with every other field kept; every other row is unchanged |
| ProductRepository.MarkBoughtIdempotent | src/main/java/ru/syncfamily/repository/impl/ProductRepositoryImpl.java:46 | marking twice is marking once |
| ProductRepository.MarkBoughtOutOfScope | src/main/java/ru/syncfamily/repository/impl/ProductRepositoryImpl.java:47-48 | an id held by no in-scope row changes nothing |
| ProductRepository.MarkAsBought | src/main/java/ru/syncfamily/repository/impl/ProductRepositoryImpl.java:40-50 | the caller's scope is computed, then the update runs; no other table changes |
| ProductRepository.Unbought | src/main/java/ru/syncfamily/repository/ProductRepository.java:69-72 | the in-scope rows that are not bought, each as often as in the table, and no other row |
| ProductRepository.ActiveProducts | src/main/java/ru/syncfamily/repository/ProductRepository.java:64-74 | exactly the unbought rows of the caller's family, or of the caller's chat when the caller has no family, each as often as in the table |
| ProductRepository.FamilyRows | src/main/java/ru/syncfamily/repository/impl/ProductRepositoryImpl.java:66-67 | every row of the family, as often as in the table, and no other row |
| ProductRepository.Insert | src/main/java/ru/syncfamily/repository/impl/ProductRepositoryImpl.java:68-71 | inserting into a list in display order keeps it in display order and adds exactly the one row |
| ProductRepository.SortForDisplay | src/main/java/ru/syncfamily/repository/impl/ProductRepositoryImpl.java:68-71 | the result is in display order and a permutation of the input |
| ProductRepository.AllProductsOrdered | src/main/java/ru/syncfamily/repository/impl/ProductRepositoryImpl.java:53-74 | empty when the caller has no family id; otherwise a permutation of exactly the family's rows, in display order |
| ProductRepository.DisplayOrderGroups | src/main/java/ru/syncfamily/repository/ProductRepository.java:105-108 | in display order no bought row precedes an unbought one, and within a group `created_at` does not increase |
| ProductRepository.InverseBought | src/main/java/ru/syncfamily/service/impl/CallBackServiceImpl.java:55 | the toggle keeps the table's length (its effect is in InverseBoughtEffect) |
| ProductRepository.InverseBoughtEffect | src/main/java/ru/syncfamily/service/impl/CallBackServiceImpl.java:55 | only the bought flag can change, and it flips exactly on the rows of the family with the id |
| ProductRepository.InverseBoughtInvolution | src/main/java/ru/syncfamily/service/impl/CallBackServiceImpl.java:55 | pressing the same product twice restores the table |
| ProductRepository.InverseBoughtStep | src/main/java/ru/syncfamily/service/impl/CallBackServiceImpl.java:55 | the shopping list becomes the toggled table; no other table changes |
| FamilyRepository.UpsertLookup | src/main/java/ru/syncfamily/repository/impl/FamilyRepositoryImpl.java:102-110 | after the upsert, chat ids are still a key; the chat's row names the family, with the old name and message id kept (or the given name on a fresh row); every other chat's row is unchanged |
| FamilyRepository.UpsertUserFamily | src/main/java/ru/syncfamily/repository/FamilyRepository.java:71-79 | the users table becomes the upserted table; no other table changes |
| FamilyRepository.CreateFamilyAndGetCode | src/main/java/ru/syncfamily/repository/impl/FamilyRepositoryImpl.java:19-31 | exactly one family row, carrying the code, is appended under the next id; the creator is upserted into it; the code is returned |
| FamilyRepository.CreatorBound | src/main/java/ru/syncfamily/repository/FamilyRepository.java:27-34 | after creation the creator's family id is the new family's id |
| FamilyRepository.FamiliesWithCode | src/main/java/ru/syncfamily/repository/impl/FamilyRepositoryImpl.java:52-55 | each family id is listed exactly as many times as the families table holds that id with the code, so the count `joinFamily` branches on is the number of such families |
| FamilyRepository.JoinFamily | src/main/java/ru/syncfamily/repository/impl/FamilyRepositoryImpl.java:50-62 | an unknown code answers false and changes nothing; a code held by one family binds the caller and answers true; two families with the code make the fetch throw, and nothing changes; the families table is never touched |
| FamilyRepository.MembersOfFamily | src/main/java/ru/syncfamily/repository/impl/FamilyRepositoryImpl.java:42-47 | a user is listed iff it is a row with that family id; chat ids stay distinct |
| FamilyRepository.FamilyMembersOfChat | src/main/java/ru/syncfamily/repository/FamilyRepository.java:40-49 | empty when the caller has no family; otherwise a user is listed iff it shares the caller's family |
| FamilyRepository.FamilyChatIds | src/main/java/ru/syncfamily/repository/FamilyRepository.java:40-49 | one chat id per family member, and a chat id is listed iff the caller has a family and a user row with that chat id shares it |
| FamilyRepository.CallerIsMember | src/main/java/ru/syncfamily/repository/FamilyRepository.java:44-46 | a caller with a family is among the chat ids returned |
| FamilyRepository.StampedLookup | src/main/java/ru/syncfamily/repository/impl/FamilyRepositoryImpl.java:71-79 | after the batch, a listed chat's row carries the message id of its last entry with every other column kept; an unlisted chat's row is unchanged |
| FamilyRepository.UpdateLastMessageId | src/main/java/ru/syncfamily/repository/impl/FamilyRepositoryImpl.java:65-80 | the users table becomes the batch applied in order (unchanged for an empty list); no other table changes |
| FamilyRepository.EditModeLookup | src/main/java/ru/syncfamily/repository/impl/FamilyRepositoryImpl.java:85-88 | setting the flag changes only that chat's flag, keeps chat ids a key, and is idempotent |
| FamilyRepository.SetShoppingEditMode | src/main/java/ru/syncfamily/repository/impl/FamilyRepositoryImpl.java:83-90 | the returned user and the row both have the flag set; nothing else changes |
| FamilyRepository.DropShoppingEditMode | src/main/java/ru/syncfamily/repository/impl/FamilyRepositoryImpl.java:93-100 | the returned user and the row both have the flag cleared; nothing else changes |
| Telegram.Client.Send | src/main/java/ru/syncfamily/service/impl/SendServiceImpl.java:21-28 | the call is appended to the trace, and the next scripted answer is returned and used up |
| Telegram.Client.AnswerCallback | src/main/java/ru/syncfamily/service/impl/SendServiceImpl.java:31-39 | the answer is appended to the trace |
| FanOut.ShowList | src/main/java/ru/syncfamily/service/impl/CallBackServiceImpl.java:86-108 | one member's calls: an edit when editing in place and a list is on screen; otherwise a delete of the shown list, if any, then a send whose answer is returned |
| FanOut.Broadcast | src/main/java/ru/syncfamily/service/impl/HandleServiceImpl.java:62-75 | the loop makes exactly the round's calls, uses up one answer per send, and returns the updated roster and the members whose send succeeded |
| FanOut.NoEventsOutsideRoster | src/main/java/ru/syncfamily/service/impl/HandleServiceImpl.java:62-75 | a chat outside the roster receives no call |
| FanOut.PerMemberEvents | src/main/java/ru/syncfamily/service/impl/CallBackServiceImpl.java:77-109 | with distinct chat ids, the calls addressed to a member are exactly that member's delete-then-send or edit-or-send |
| FanOut.RefreshedFacts | src/main/java/ru/syncfamily/service/impl/HandleServiceImpl.java:71-74 | a member's copy keeps every field but the message id, which is the new id iff a send succeeded |
| FanOut.RefreshedStamps | src/main/java/ru/syncfamily/service/impl/HandleServiceImpl.java:71-80 | writing back the whole roster gives each member the new id when its send succeeded and the old id otherwise |
| FanOut.RecordedOutsideRoster | src/main/java/ru/syncfamily/service/impl/CallBackServiceImpl.java:115-117 | no chat outside the roster gets a stored id |
| FanOut.RecordedStamps | src/main/java/ru/syncfamily/service/impl/CallBackServiceImpl.java:104-108 | a member is written back, with its new id, iff it was sent a fresh message and the send succeeded |
| FanOut.EditedNotRecorded | src/main/java/ru/syncfamily/service/impl/CallBackServiceImpl.java:86-95 | with edits in place, a member whose list is on screen is never written back |
| CommandService.InviteCodeRoundTrip | src/main/java/ru/syncfamily/service/impl/CommandServiceImpl.java:54 | the code cut out of "/start " + code is the code, for a trimmed code without "/start " |
| CommandService.PercentBytes | src/main/java/ru/syncfamily/service/impl/CommandServiceImpl.java:75-76 | three characters per byte, only '%' and hex digits |
| CommandService.FormEncodeSafe | src/main/java/ru/syncfamily/service/impl/CommandServiceImpl.java:75-76 | the form encoding holds only unreserved characters, '+' and '%' |
| CommandService.FormEncodeUnreserved | src/main/java/ru/syncfamily/service/impl/CommandServiceImpl.java:75 | a string of unreserved characters, such as a UUID, is its own encoding |
| CommandService.NoAmpersand | src/main/java/ru/syncfamily/service/impl/CommandServiceImpl.java:75-76 | the encoding never holds '&' |
| CommandService.ShareUrlFields | src/main/java/ru/syncfamily/service/impl/CommandServiceImpl.java:74-76 | the share URL has exactly one '&', the one right after the encoded link, so neither part spills into another parameter |
| CommandService.ShareKeyboard | src/main/java/ru/syncfamily/service/impl/CommandServiceImpl.java:78-85 | one row with one URL button pointing at the share URL |
| CommandService.Start | src/main/java/ru/syncfamily/service/impl/CommandServiceImpl.java:33-45 | only the greeting is sent, to the requester, with no table touched |
| CommandService.StartWithInvite | src/main/java/ru/syncfamily/service/impl/CommandServiceImpl.java:48-63 | no text, or two families with the code: fails with nothing sent or changed; unknown code: the failure reply; one family: the caller is bound and gets the success reply |
| CommandService.CreateFamily | src/main/java/ru/syncfamily/service/impl/CommandServiceImpl.java:66-94 | one family with the code is created, the requester is bound to it, and one message is sent with the share keyboard for the invite link |
| CallBackService.HandleBuy | src/main/java/ru/syncfamily/service/impl/CallBackServiceImpl.java:42-120 | a bad id, an unknown presser or one without a family: fails with no call and no change. Otherwise the product is toggled in the family. If it is not in the list read back, nobody is messaged and no id is stored. If it is, the round edits or sends the status (verb by the product's state) with the keyboard of that list, and only the fresh sends that succeeded are stored |
| CallBackService.ConfirmKeyboardReadsBack | src/main/java/ru/syncfamily/service/impl/CallBackServiceImpl.java:128-133 | the two confirmation buttons classify as `CLEAR_ALL` and `REFRESH` |
| CallBackService.HandleConfirmClear | src/main/java/ru/syncfamily/service/impl/CallBackServiceImpl.java:123-145 | exactly one call: the pressed message's keyboard becomes the confirmation keyboard; no table is touched |
| HandleService.HandleTextMessage | src/main/java/ru/syncfamily/service/impl/HandleServiceImpl.java:44-83 | a sender without a row or a family: fails with no call and no change. Otherwise the items are added and read back (family id as chat id, as written), every member is sent delete-if-shown then the list, and the whole roster is written back with its new ids |
| HandleService.HandleCommand | src/main/java/ru/syncfamily/service/impl/HandleServiceImpl.java:86-96 | `UNKNOWN` changes nothing; `START` sends the greeting; `CREATE_FAMILY` creates the family and sends the share keyboard |
| HandleService.HandleCallbackQuery | src/main/java/ru/syncfamily/service/impl/HandleServiceImpl.java:99-116 | the press is answered first, always. `UNKNOWN` then does nothing, and `REFRESH` or `CLEAR_ALL` fail. `CONFIRM_CLEAR` swaps the keyboard. `BUY` fails iff the id or the family is missing, and then nothing follows the answer and no table changes. Otherwise it toggles the product, and after the answer comes the edit-or-send round of the status (or nothing when the product is not in the list read back), with only the fresh sends that succeeded stored |
| HandleService.FamilyIdAsChatIdLosesItems | src/main/java/ru/syncfamily/service/impl/HandleServiceImpl.java:55-56 | a member of family 1 with chat id 100 adds "Milk": the row gets chat id 1 and no family, and the list read back is empty |
| HandleService.MemberAddsReachFamilyList | src/main/java/ru/syncfamily/repository/impl/ProductRepositoryImpl.java:20-22 | added and read back by the member's own chat id, every new row carries the family id and is in the family's list |
| HandleService.MemberReadsFamilyList | src/main/java/ru/syncfamily/repository/impl/ProductRepositoryImpl.java:53-67 | read by a member's own chat id, the list is a permutation of the family's rows |
| LegacyHandleService.RouteOf | src/main/java/ru/syncfamily/service/HandleServiceImpl.java:82-131 | greet iff the text is exactly "/start"; join iff it starts "/start ", with the trimmed code; create iff it starts "/create_family" and not "/start "; anything else is ignored |
| LegacyHandleService.LegacyRoutesInvite | src/main/java/ru/syncfamily/service/HandleServiceImpl.java:93-94 | a deep-link text "/start " + code reaches the join with the code itself |
| LegacyHandleService.LegacyAgreesWithReordered | src/main/java/ru/syncfamily/service/HandleServiceImpl.java:82-104 | every text the older router acts on is routed as the reordered command table routes it |
| LegacyHandleService.LegacyHandleCommand | src/main/java/ru/syncfamily/service/HandleServiceImpl.java:77-132 | no text: fails with nothing sent. Greet sends the greeting. Join replies success or failure, or fails on two families with the code. Create creates the family and sends the share keyboard for the fixed bot name. Ignore does nothing |
| LegacyHandleService.Names | src/main/java/ru/syncfamily/service/HandleServiceImpl.java:67 | the names of the products read back, in list order |
| LegacyHandleService.LegacyHandleTextMessage | src/main/java/ru/syncfamily/service/HandleServiceImpl.java:46-74 | the items are added under the sender's chat id; every member of the sender's family gets delete-if-shown then the list; the users table is not written |
| LegacyHandleService.ProductNameOr | src/main/java/ru/syncfamily/service/HandleServiceImpl.java:164-168 | the name of the first listed product with the id, or "товара" when none is listed |
| LegacyHandleService.LegacyHandleCallbackQuery | src/main/java/ru/syncfamily/service/HandleServiceImpl.java:135-203 | data not starting "buy_" does nothing, unanswered; a missing id fails before the answer. Otherwise: answer, mark bought in the caller's scope, delete-if-shown then send to every member, and store only the successful sends |
| LegacyHandleService.LegacyButtonPressFails | src/main/java/ru/syncfamily/service/HandleServiceImpl.java:141-143 | the older keyboard's button for an empty name or a name opening with a Latin or Cyrillic letter enters the "buy_" branch but yields no id |

## Left out

- The reactive plumbing is not modelled: `Uni` chaining, worker pools,
  subscription callbacks and logging. Each handler is one sequential
  method. Concurrent updates from different members, and how their
  transactions interleave, are not modelled.
- The Telegram client and `SendServiceImpl` are replaced by the
  `Telegram.Client` trace. Whether a call succeeds comes from the scripted
  `replies`. Only `sendMessage` answers matter; failures of the other calls
  are swallowed in the source.
- The SQL engine and the jOOQ builders are not modelled. Each statement is
  its effect on sequences of rows. Serial ids are counters in `Tables.Db`.
  Rows that tie on `(is_bought, created_at)` come out in table order, as
  the stable insertion sort keeps them; SQL leaves that order unspecified.
- `UUID.randomUUID()` and the database clock are not modelled. They are the
  parameters `code` and `now`.
- The newer `BOT_NAME` comes from configuration that is not part of this
  model. It is a parameter.
- The `(int)` casts of chat ids in the product repository are not modelled.
  Chat ids are unbounded integers.
- `updateLastMessageId` with a `null` list is not modelled: sequences cannot
  be `null`.
- Message wording and Markdown are not modelled. The texts are the
  constructors of `Telegram.Text`, and carry only the parts that vary.
- Case mapping covers ASCII and the basic Cyrillic letters, one character
  at a time. Every other character is left unchanged, including Latin
  letters such as 'é', which Java maps. Java also upper-cases 'ß' to "SS",
  which changes the length. So the facts about `Capitalize` (it keeps the
  length, and CapitalizeIdempotent) hold for the modelled mapping only:
  Java turns "ßx" into "Ssx". `isBlank` uses the whitespace set of
  `Character.isWhitespace`.
- ParseInt: `Integer.parseInt` also accepts decimal digits of other scripts
  (`Character.digit`), such as Arabic-Indic digits. The model accepts only
  ASCII '0'-'9'. The newer keyboard renders ids with ASCII digits, so its
  tokens are not affected. The older keyboard's tokens are: they carry the
  product name, and for a name such as "٣" (an Arabic-Indic three) Java
  reads id 3 and marks that product bought, while LegacyHandleCallbackQuery
  fails with nothing sent. LegacyButtonPressFails is stated only for names
  that are empty or open with a Latin or Cyrillic letter, on which Java's
  `parseInt` throws too.
- Percent-decoding of the share URL by its receiver is not modelled. Only
  the encoder's output alphabet is.
- `handleClearAll` and `handleRefresh` return `null`, so their dispatch is
  `Failed` after the answer. There is nothing else to model.
- `inverseBought` has no body in the repository files here. It is modelled
  as a toggle of the product's bought flag within the family. This follows
  its name and the status verb that `handleBuy` derives from the row read
  back.
- Lists of users are mutated in place by the handlers. They are modelled as
  values, so aliasing between the loop's objects and the list written back
  is not captured. The loop updates every object of the list, and the model
  builds the updated list.
- LegacyHandleService.LegacyHandleTextMessage: the older handler passes
  `List<Product>` to the older keyboard renderer, which takes names, and
  uses the older family lookup as if it returned user rows. It also calls
  both repositories with a transaction context they do not take, so it does
  not compile against its own callees. The model renders the product names
  and uses the rows of the caller's family.
- LegacyHandleService.LegacyHandleCallbackQuery: the same mismatches apply
  as for the text handler.
- Both legacy handlers use the repository steps of the newer files. The
  older repository runs the same statements, each in its own unit rather
  than one transaction.
- CommandService.StartWithInvite is unreachable from
  `HandleService.HandleCommand`, because of Finding 1. The older handler
  reaches it through `LegacyHandleService.LegacyHandleCommand`.

## Findings

| source | as written | input that shows it | evidently intended | confidence | as-written member | corrected member |
|---|---|---|---|---|---|---|
| src/main/java/ru/syncfamily/service/model/Command.java:10-11 | `START("/start")` is declared before `START_WITH_INVITE("/start ")`, and the first match wins | "/start 3f2a…" (an invite deep link) is classified `START` and only greets | the invite text reaches `START_WITH_INVITE` and the join | high (not executed) | Command.InviteDeepLinkMisrouted | Command.ReorderedRoutesInvite |
| src/main/java/ru/syncfamily/service/impl/HandleServiceImpl.java:55-56 | the family id is passed as the chat id to `addProducts` and `getAllProductsOrdered`; the same happens at src/main/java/ru/syncfamily/service/impl/CallBackServiceImpl.java:56 | a member with chat id 100 in family 1 adds "Milk": the row is filed under chat 1 with no family, and the list read back for "chat 1" is empty | add and read by the member's own chat id, so new items carry the family id and appear in the family's list | medium (not executed) | HandleService.FamilyIdAsChatIdLosesItems | HandleService.MemberAddsReachFamilyList |
| src/main/java/ru/syncfamily/service/HandleServiceImpl.java:141-143 | the older keyboard posts "buy_" + product name (src/main/java/ru/syncfamily/service/TelegramUiService.java:17), and the older callback handler parses what follows "buy_" as an `int` | pressing the button of "Молоко": the data "buy_Молоко" enters the "buy_" branch, `parseInt("Молоко")` throws, and the press is never answered | the button carries the product id, as the newer keyboard's "buy" + id does, and parses back to it | high (not executed) | LegacyHandleService.LegacyButtonPressFails | TelegramUi.BuyTokenRoundTrip |
