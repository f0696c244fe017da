/**
 * The three tables the bot keeps (`families`, `users`, `shopping_list`), their
 * rows as values, and the database that holds them. Each `db.async` body of
 * the repositories becomes one method on a `Db`, atomic by construction.
 */
module Tables {
  import opened Wrappers

  /** A row of `shopping_list`; `createdAt` is the insertion timestamp. */
  datatype Product = Product(id: int, chatId: int, productName: string, isBought: bool, createdAt: int, familyId: Option<int>)

  /**
   * A row of `users`. `shoppingListEditMode` is the column the newer family
   * repository writes; chat ids are the table's primary key.
   */
  datatype User = User(chatId: int, username: string, familyId: Option<int>, lastMessageId: Option<int>, shoppingListEditMode: bool)

  /** A row of `families`. */
  datatype Family = Family(id: int, inviteCode: string)

  /** `chat_id` is a key of `users`. */
  predicate UniqueChatIds(users: seq<User>) {
    forall i, j :: 0 <= i < j < |users| ==> users[i].chatId != users[j].chatId
  }

  /** `SELECT * FROM users WHERE chat_id = ?`: the row with that chat id, if any. */
  function UserRow(users: seq<User>, chatId: int): (r: Option<User>)
    ensures r.Some? <==> exists i :: 0 <= i < |users| && users[i].chatId == chatId
    ensures r.Some? ==> r.value in users && r.value.chatId == chatId
  {
    if users == [] then None
    else if users[0].chatId == chatId then Some(users[0])
    else UserRow(users[1..], chatId)
  }

  /** With unique chat ids, the row found is the one at the index holding that chat id. */
  lemma {:induction false} UserRowAt(users: seq<User>, i: nat)
    requires UniqueChatIds(users) && i < |users|
    ensures UserRow(users, users[i].chatId) == Some(users[i])
  {
    if i > 0 {
      assert users[0].chatId != users[i].chatId;
      assert users[1..][i - 1] == users[i];
      UserRowAt(users[1..], i - 1);
    }
  }

  /** `SELECT family_id FROM users WHERE chat_id = ?`: `null` when there is no row or the row has no family. */
  function FamilyIdOf(users: seq<User>, chatId: int): Option<int> {
    match UserRow(users, chatId)
    case None => None
    case Some(u) => u.familyId
  }

  /** The first product in `products` with id `id`, as `stream().filter(..).findFirst()` finds it. */
  function ProductWithId(products: seq<Product>, id: int): (r: Option<Product>)
    ensures r.None? <==> forall i :: 0 <= i < |products| ==> products[i].id != id
    ensures r.Some? ==> r.value in products && r.value.id == id
    ensures r.Some? ==> exists i :: (0 <= i < |products| && products[i] == r.value
      && forall j :: 0 <= j < i ==> products[j].id != id)
  {
    if products == [] then None
    else if products[0].id == id then Some(products[0])
    else
      var r := ProductWithId(products[1..], id);
      assert r.Some? ==> exists i :: (0 < i < |products| && products[i] == r.value
        && forall j :: 0 <= j < i ==> products[j].id != id) by {
        if r.Some? {
          var k :| 0 <= k < |products[1..]| && products[1..][k] == r.value
            && forall j :: 0 <= j < k ==> products[1..][j].id != id;
          assert products[k + 1] == r.value;
          assert forall j :: 1 <= j < k + 1 ==> products[j].id == products[1..][j - 1].id;
        }
      }
      r
  }

  /** Rewrites the row with chat id `chatId` by `f`; every other row stays as it was. */
  function Rewrite(users: seq<User>, chatId: int, f: User -> User): (r: seq<User>)
    ensures |r| == |users|
  {
    seq(|users|, i requires 0 <= i < |users| => if users[i].chatId == chatId then f(users[i]) else users[i])
  }

  /**
   * A rewrite that keeps chat ids keeps the key, changes only the lookup of
   * `chatId`, and changes that one by `f`.
   */
  lemma {:induction false} RewriteLookup(users: seq<User>, chatId: int, f: User -> User, c: int)
    requires forall u :: f(u).chatId == u.chatId
    ensures UniqueChatIds(users) ==> UniqueChatIds(Rewrite(users, chatId, f))
    ensures UserRow(Rewrite(users, chatId, f), c) ==
      if c == chatId && UserRow(users, c).Some? then Some(f(UserRow(users, c).value)) else UserRow(users, c)
    decreases |users|
  {
    var r := Rewrite(users, chatId, f);
    if users != [] {
      assert r[1..] == Rewrite(users[1..], chatId, f);
      RewriteLookup(users[1..], chatId, f, c);
      if UniqueChatIds(users) {
        forall i, j | 0 <= i < j < |r| ensures r[i].chatId != r[j].chatId {
          assert r[i].chatId == users[i].chatId && r[j].chatId == users[j].chatId;
        }
      }
    }
  }

  /** The database: the three tables and the two identity sequences. */
  class Db {
    var families: seq<Family>
    var users: seq<User>
    var shoppingList: seq<Product>
    var nextFamilyId: int
    var nextProductId: int

    /** Keys are unique and every issued id is below its sequence's next value. */
    ghost predicate Valid()
      reads this
    {
      UniqueChatIds(users)
      && (forall f :: f in families ==> f.id < nextFamilyId)
      && (forall p :: p in shoppingList ==> p.id < nextProductId)
    }

    constructor ()
      ensures Valid()
      ensures families == [] && users == [] && shoppingList == []
    {
      families := [];
      users := [];
      shoppingList := [];
      nextFamilyId := 1;
      nextProductId := 1;
    }
  }
}
