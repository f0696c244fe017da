/**
 * The family repository: the `families` and `users` statements of
 * `FamilyRepositoryImpl` and of its older twin `FamilyRepository`.
 */
module FamilyRepository {
  import opened Wrappers
  import opened Tables

  // ---------------------------------------------------------------------------
  // `upsertUserFamily`
  // ---------------------------------------------------------------------------

  /** The row rewrites the statements below perform, each keeping the chat id. */
  function BindFamily(familyId: int): User -> User {
    (u: User) => u.(familyId := Some(familyId))
  }

  function SetStamp(messageId: Option<int>): User -> User {
    (u: User) => u.(lastMessageId := messageId)
  }

  function SetEditFlag(on: bool): User -> User {
    (u: User) => u.(shoppingListEditMode := on)
  }

  /**
   * The users table after `INSERT … ON DUPLICATE KEY UPDATE family_id`: a new
   * chat id gets a fresh row with the name, the family and nothing else; an
   * existing row has only its family id rewritten.
   */
  function UpsertRows(users: seq<User>, chatId: int, familyId: int, userName: string): seq<User> {
    if UserRow(users, chatId).Some? then Rewrite(users, chatId, BindFamily(familyId))
    else users + [User(chatId, userName, Some(familyId), None, false)]
  }

  /** The lookup of a chat id in a table with one row appended. */
  lemma {:induction false} UserRowAppend(users: seq<User>, row: User, c: int)
    ensures UserRow(users + [row], c) ==
      if UserRow(users, c).Some? then UserRow(users, c) else if row.chatId == c then Some(row) else None
    decreases |users|
  {
    if users != [] {
      assert (users + [row])[1..] == users[1..] + [row];
      UserRowAppend(users[1..], row, c);
    }
  }

  /**
   * The upsert keeps chat ids a key, binds `chatId` to the family, and keeps
   * every other column of an existing row; no other chat's row changes.
   */
  lemma UpsertLookup(users: seq<User>, chatId: int, familyId: int, userName: string, c: int)
    ensures UniqueChatIds(users) ==> UniqueChatIds(UpsertRows(users, chatId, familyId, userName))
    ensures UserRow(UpsertRows(users, chatId, familyId, userName), c) ==
      if c != chatId then UserRow(users, c)
      else if UserRow(users, c).Some? then Some(UserRow(users, c).value.(familyId := Some(familyId)))
      else Some(User(chatId, userName, Some(familyId), None, false))
  {
    var f := BindFamily(familyId);
    if UserRow(users, chatId).Some? {
      RewriteLookup(users, chatId, f, c);
    } else {
      var row := User(chatId, userName, Some(familyId), None, false);
      UserRowAppend(users, row, c);
      AppendFreshKeepsUnique(users, row);
    }
  }

  lemma AppendFreshKeepsUnique(users: seq<User>, row: User)
    requires UserRow(users, row.chatId).None?
    ensures UniqueChatIds(users) ==> UniqueChatIds(users + [row])
  {
    var all := users + [row];
    forall i, j | 0 <= i < j < |all| && UniqueChatIds(users) ensures all[i].chatId != all[j].chatId {
      assert all[i] == users[i];
      if j < |users| {
        assert all[j] == users[j];
      }
    }
  }

  method UpsertUserFamily(db: Db, chatId: int, familyId: int, userName: string)
    requires db.Valid()
    modifies db
    ensures db.Valid()
    ensures db.users == UpsertRows(old(db.users), chatId, familyId, userName)
    ensures db.families == old(db.families) && db.shoppingList == old(db.shoppingList)
    ensures db.nextFamilyId == old(db.nextFamilyId) && db.nextProductId == old(db.nextProductId)
  {
    UpsertLookup(db.users, chatId, familyId, userName, chatId);
    db.users := UpsertRows(db.users, chatId, familyId, userName);
  }

  // ---------------------------------------------------------------------------
  // `createFamilyAndGetCode`
  // ---------------------------------------------------------------------------

  /**
   * `createFamilyAndGetCode`: one new family row carrying `code` under the
   * next family id, the creator bound to it, and `code` returned. The code is
   * the random UUID the source draws, taken here as a parameter.
   */
  method CreateFamilyAndGetCode(db: Db, chatId: int, userName: string, code: string) returns (r: string)
    requires db.Valid()
    modifies db
    ensures db.Valid()
    ensures r == code
    ensures db.families == old(db.families) + [Family(old(db.nextFamilyId), code)]
    ensures db.nextFamilyId == old(db.nextFamilyId) + 1
    ensures db.users == UpsertRows(old(db.users), chatId, old(db.nextFamilyId), userName)
    ensures db.shoppingList == old(db.shoppingList) && db.nextProductId == old(db.nextProductId)
  {
    var familyId := db.nextFamilyId;
    db.families := db.families + [Family(familyId, code)];
    db.nextFamilyId := familyId + 1;
    UpsertUserFamily(db, chatId, familyId, userName);
    r := code;
  }

  /** After creation the creator's row names the new family. */
  lemma CreatorBound(users: seq<User>, chatId: int, familyId: int, userName: string)
    ensures FamilyIdOf(UpsertRows(users, chatId, familyId, userName), chatId) == Some(familyId)
  {
    UpsertLookup(users, chatId, familyId, userName, chatId);
  }

  // ---------------------------------------------------------------------------
  // `joinFamily`
  // ---------------------------------------------------------------------------

  /** `SELECT id FROM families WHERE invite_code = ?`: every matching id, in table order. */
  function FamiliesWithCode(families: seq<Family>, code: string): (ids: seq<int>)
    ensures forall id :: id in ids <==> Family(id, code) in families
    ensures forall id :: multiset(ids)[id] == multiset(families)[Family(id, code)]
  {
    if families == [] then []
    else
      assert families == [families[0]] + families[1..];
      (if families[0].inviteCode == code then [families[0].id] else []) + FamiliesWithCode(families[1..], code)
  }

  /**
   * `joinFamily`: an unknown code answers `false` and changes nothing; a code
   * held by one family binds the caller to it and answers `true`. Two families
   * with one code make the single-row fetch throw, which is `None`: the
   * transaction rolls back.
   */
  method JoinFamily(db: Db, chatId: int, code: string, userName: string) returns (joined: Option<bool>)
    requires db.Valid()
    modifies db
    ensures db.Valid()
    ensures db.families == old(db.families) && db.shoppingList == old(db.shoppingList)
    ensures db.nextFamilyId == old(db.nextFamilyId) && db.nextProductId == old(db.nextProductId)
    ensures var ids := FamiliesWithCode(old(db.families), code);
      if ids == [] then joined == Some(false) && db.users == old(db.users)
      else if |ids| == 1 then joined == Some(true) && db.users == UpsertRows(old(db.users), chatId, ids[0], userName)
      else joined == None && db.users == old(db.users)
  {
    var ids := FamiliesWithCode(db.families, code);
    if ids == [] {
      joined := Some(false);
    } else if |ids| == 1 {
      UpsertUserFamily(db, chatId, ids[0], userName);
      joined := Some(true);
    } else {
      joined := None;
    }
  }

  // ---------------------------------------------------------------------------
  // Reads: `getFamilyMemberByChatId` is `Tables.UserRow`
  // ---------------------------------------------------------------------------

  /** `getFamilyMembersByFamilyId`: the rows whose family id is `familyId`, in table order. */
  function MembersOfFamily(users: seq<User>, familyId: int): (r: seq<User>)
    ensures forall u :: u in r <==> u in users && u.familyId == Some(familyId)
    ensures UniqueChatIds(users) ==> UniqueChatIds(r)
  {
    if users == [] then []
    else
      var rest := MembersOfFamily(users[1..], familyId);
      if users[0].familyId == Some(familyId) then
        assert forall u :: u in rest ==> u in users[1..];
        assert UniqueChatIds(users) ==> forall u :: u in users[1..] ==> u.chatId != users[0].chatId;
        [users[0]] + rest
      else rest
  }

  /**
   * The older `getFamilyMembersByChatId` as the handlers use it: the rows
   * sharing the caller's family id; none when the caller has no family,
   * since `family_id = NULL` matches no row.
   */
  function FamilyMembersOfChat(users: seq<User>, chatId: int): (r: seq<User>)
    ensures FamilyIdOf(users, chatId).None? ==> r == []
    ensures FamilyIdOf(users, chatId).Some? ==>
      forall u :: u in r <==> u in users && u.familyId == FamilyIdOf(users, chatId)
    ensures UniqueChatIds(users) ==> UniqueChatIds(r)
  {
    match FamilyIdOf(users, chatId)
    case None => []
    case Some(f) => MembersOfFamily(users, f)
  }

  /** The older `getFamilyMembersByChatId` itself: the chat ids of those rows. */
  function FamilyChatIds(users: seq<User>, chatId: int): (ids: seq<int>)
    ensures |ids| == |FamilyMembersOfChat(users, chatId)|
    ensures forall c :: c in ids <==> (FamilyIdOf(users, chatId).Some?
      && exists u :: u in users && u.chatId == c && u.familyId == FamilyIdOf(users, chatId))
  {
    var members := FamilyMembersOfChat(users, chatId);
    var ids := seq(|members|, i requires 0 <= i < |members| => members[i].chatId);
    forall c ensures c in ids <==> (FamilyIdOf(users, chatId).Some?
      && exists u :: u in users && u.chatId == c && u.familyId == FamilyIdOf(users, chatId))
    {
      if c in ids {
        var i :| 0 <= i < |ids| && ids[i] == c;
        assert members[i] in members;
      }
      if FamilyIdOf(users, chatId).Some? && exists u :: u in users && u.chatId == c && u.familyId == FamilyIdOf(users, chatId) {
        var u :| u in users && u.chatId == c && u.familyId == FamilyIdOf(users, chatId);
        var i :| 0 <= i < |members| && members[i] == u;
        assert ids[i] == c;
      }
    }
    ids
  }

  /** A caller who belongs to a family is among its members. */
  lemma CallerIsMember(users: seq<User>, chatId: int)
    requires FamilyIdOf(users, chatId).Some?
    ensures chatId in FamilyChatIds(users, chatId)
  {
    var u := UserRow(users, chatId).value;
    var members := FamilyMembersOfChat(users, chatId);
    assert u in members;
    var i :| 0 <= i < |members| && members[i] == u;
    assert FamilyChatIds(users, chatId)[i] == chatId;
  }

  // ---------------------------------------------------------------------------
  // `updateLastMessageId`
  // ---------------------------------------------------------------------------

  /** Sets one chat's stored message id. */
  function StampRow(users: seq<User>, chatId: int, messageId: Option<int>): seq<User> {
    Rewrite(users, chatId, SetStamp(messageId))
  }

  /** The table after the batch of updates, one per listed user, applied in list order. */
  function Stamped(users: seq<User>, batch: seq<User>): seq<User>
    decreases |batch|
  {
    if batch == [] then users
    else StampRow(Stamped(users, batch[..|batch| - 1]), batch[|batch| - 1].chatId, batch[|batch| - 1].lastMessageId)
  }

  /** The message id the last listed entry for `chatId` carries, if the chat is listed. */
  function LastStampFor(batch: seq<User>, chatId: int): Option<Option<int>>
    decreases |batch|
  {
    if batch == [] then None
    else if batch[|batch| - 1].chatId == chatId then Some(batch[|batch| - 1].lastMessageId)
    else LastStampFor(batch[..|batch| - 1], chatId)
  }

  /**
   * After the batch, a listed chat's row carries the message id of its last
   * entry in the list and keeps every other column; an unlisted chat's row is
   * unchanged; chat ids stay a key.
   */
  lemma {:induction false} StampedLookup(users: seq<User>, batch: seq<User>, c: int)
    ensures UniqueChatIds(users) ==> UniqueChatIds(Stamped(users, batch))
    ensures UserRow(Stamped(users, batch), c) ==
      if LastStampFor(batch, c).Some? && UserRow(users, c).Some?
      then Some(UserRow(users, c).value.(lastMessageId := LastStampFor(batch, c).value))
      else UserRow(users, c)
    decreases |batch|
  {
    if batch != [] {
      var init := batch[..|batch| - 1];
      var last := batch[|batch| - 1];
      StampedLookup(users, init, c);
      RewriteLookup(Stamped(users, init), last.chatId, SetStamp(last.lastMessageId), c);
      if UniqueChatIds(users) {
        StampedLookup(users, init, c);
      }
    }
  }

  /**
   * `updateLastMessageId`: one update per listed user, in list order; an
   * empty list changes nothing.
   */
  method UpdateLastMessageId(db: Db, batch: seq<User>)
    requires db.Valid()
    modifies db
    ensures db.Valid()
    ensures db.users == Stamped(old(db.users), batch)
    ensures db.families == old(db.families) && db.shoppingList == old(db.shoppingList)
    ensures db.nextFamilyId == old(db.nextFamilyId) && db.nextProductId == old(db.nextProductId)
  {
    if batch == [] {
      return;
    }
    ghost var before := db.users;
    for i := 0 to |batch|
      invariant db.users == Stamped(before, batch[..i])
      invariant db.Valid()
      invariant db.families == old(db.families) && db.shoppingList == old(db.shoppingList)
      invariant db.nextFamilyId == old(db.nextFamilyId) && db.nextProductId == old(db.nextProductId)
    {
      assert batch[..i + 1][..i] == batch[..i];
      RewriteLookup(db.users, batch[i].chatId, SetStamp(batch[i].lastMessageId), 0);
      db.users := StampRow(db.users, batch[i].chatId, batch[i].lastMessageId);
    }
    assert batch[..|batch|] == batch;
  }

  // ---------------------------------------------------------------------------
  // `setShoppingEditMode`, `dropShoppingEditMode`
  // ---------------------------------------------------------------------------

  /** The users table with one chat's edit-mode flag set to `on`. */
  function WithEditMode(users: seq<User>, chatId: int, on: bool): seq<User> {
    Rewrite(users, chatId, SetEditFlag(on))
  }

  /**
   * Setting the flag changes only that chat's flag, keeps chat ids a key, and
   * setting it again changes nothing.
   */
  lemma EditModeLookup(users: seq<User>, chatId: int, on: bool, c: int)
    ensures UniqueChatIds(users) ==> UniqueChatIds(WithEditMode(users, chatId, on))
    ensures UserRow(WithEditMode(users, chatId, on), c) ==
      if c == chatId && UserRow(users, c).Some? then Some(UserRow(users, c).value.(shoppingListEditMode := on))
      else UserRow(users, c)
    ensures WithEditMode(WithEditMode(users, chatId, on), chatId, on) == WithEditMode(users, chatId, on)
  {
    RewriteLookup(users, chatId, SetEditFlag(on), c);
    var once := WithEditMode(users, chatId, on);
    var twice := WithEditMode(once, chatId, on);
    forall i | 0 <= i < |users| ensures twice[i] == once[i] {
      assert once[i].chatId == users[i].chatId;
    }
  }

  /** `setShoppingEditMode`: the flag goes up on the object and on its row. */
  method SetShoppingEditMode(db: Db, user: User) returns (r: User)
    requires db.Valid()
    modifies db
    ensures db.Valid()
    ensures r == user.(shoppingListEditMode := true)
    ensures db.users == WithEditMode(old(db.users), user.chatId, true)
    ensures db.families == old(db.families) && db.shoppingList == old(db.shoppingList)
    ensures db.nextFamilyId == old(db.nextFamilyId) && db.nextProductId == old(db.nextProductId)
  {
    r := user.(shoppingListEditMode := true);
    EditModeLookup(db.users, user.chatId, true, 0);
    db.users := WithEditMode(db.users, user.chatId, true);
  }

  /** `dropShoppingEditMode`: the flag goes down on the object and on its row. */
  method DropShoppingEditMode(db: Db, user: User) returns (r: User)
    requires db.Valid()
    modifies db
    ensures db.Valid()
    ensures r == user.(shoppingListEditMode := false)
    ensures db.users == WithEditMode(old(db.users), user.chatId, false)
    ensures db.families == old(db.families) && db.shoppingList == old(db.shoppingList)
    ensures db.nextFamilyId == old(db.nextFamilyId) && db.nextProductId == old(db.nextProductId)
  {
    r := user.(shoppingListEditMode := false);
    EditModeLookup(db.users, user.chatId, false, 0);
    db.users := WithEditMode(db.users, user.chatId, false);
  }
}
