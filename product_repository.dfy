/**
 * The product repository: the `shopping_list` statements of
 * `ProductRepositoryImpl` and of its older twin `ProductRepository`, which
 * run the same statements outside a shared transaction context.
 */
module ProductRepository {
  import opened Wrappers
  import opened Tables

  // ---------------------------------------------------------------------------
  // `getFamilyIdInternal` and `getGroupCondition`
  // ---------------------------------------------------------------------------

  /** The rows one statement may touch: a family's rows, or one chat's rows. */
  datatype Scope = FamilyScope(familyId: int) | ChatScope(chatId: int)

  predicate InScope(scope: Scope, p: Product) {
    match scope
    case FamilyScope(f) => p.familyId == Some(f)
    case ChatScope(c) => p.chatId == c
  }

  /** `getGroupCondition`: by family when the caller has one, else by the caller's chat. */
  function GroupCondition(chatId: int, familyId: Option<int>): (scope: Scope)
    ensures forall p: Product :: InScope(scope, p) <==>
      if familyId.Some? then p.familyId == familyId else p.chatId == chatId
  {
    if familyId.Some? then FamilyScope(familyId.value) else ChatScope(chatId)
  }

  /** The scope of the caller's statements: `getGroupCondition(chatId, getFamilyIdInternal(chatId))`. */
  function CallerScope(users: seq<User>, chatId: int): Scope {
    GroupCondition(chatId, FamilyIdOf(users, chatId))
  }

  // ---------------------------------------------------------------------------
  // `addProducts`
  // ---------------------------------------------------------------------------

  /** The rows one batch insert adds: ids from `first` on, not bought, stamped `now`. */
  function NewRows(first: int, chatId: int, names: seq<string>, now: int, familyId: Option<int>): seq<Product> {
    seq(|names|, i requires 0 <= i < |names| => Product(first + i, chatId, names[i], false, now, familyId))
  }

  /**
   * `addProducts`: one row per name, in order, each with the caller's chat
   * id, the name, not bought, the batch's timestamp `now` and the caller's
   * family id (`null` when the caller has no row or no family). Existing rows
   * are kept and names are not deduplicated.
   */
  method AddProducts(db: Db, chatId: int, names: seq<string>, now: int)
    requires db.Valid()
    modifies db
    ensures db.Valid()
    ensures db.families == old(db.families) && db.users == old(db.users) && db.nextFamilyId == old(db.nextFamilyId)
    ensures db.shoppingList == old(db.shoppingList) + NewRows(old(db.nextProductId), chatId, names, now, FamilyIdOf(old(db.users), chatId))
    ensures db.nextProductId == old(db.nextProductId) + |names|
  {
    var familyId := FamilyIdOf(db.users, chatId);
    var first := db.nextProductId;
    var batch: seq<Product> := [];
    for i := 0 to |names|
      invariant batch == NewRows(first, chatId, names[..i], now, familyId)
    {
      batch := batch + [Product(first + i, chatId, names[i], false, now, familyId)];
    }
    assert names[..|names|] == names;
    ghost var before := db.shoppingList;
    db.shoppingList := db.shoppingList + batch;
    db.nextProductId := first + |names|;
    forall p | p in db.shoppingList ensures p.id < db.nextProductId {
      if p !in before {
        var k :| 0 <= k < |db.shoppingList| && db.shoppingList[k] == p;
        assert batch[k - |before|] == p;
      }
    }
  }

  /**
   * The table after `addProducts` holds exactly the old rows and the new
   * names, each name once per occurrence and in order, none bought.
   */
  lemma AddedRows(rows: seq<Product>, first: int, chatId: int, names: seq<string>, now: int, familyId: Option<int>)
    ensures var r := rows + NewRows(first, chatId, names, now, familyId);
      |r| == |rows| + |names| && r[..|rows|] == rows
      && forall i :: 0 <= i < |names| ==>
           (r[|rows| + i].productName == names[i] && !r[|rows| + i].isBought
            && r[|rows| + i].chatId == chatId && r[|rows| + i].familyId == familyId)
  {
    var r := rows + NewRows(first, chatId, names, now, familyId);
    assert r[..|rows|] == rows;
  }

  // ---------------------------------------------------------------------------
  // `markAsBought`
  // ---------------------------------------------------------------------------

  /** The table after `UPDATE shopping_list SET is_bought = true WHERE <scope> AND id = productId`. */
  function MarkBought(rows: seq<Product>, scope: Scope, productId: int): (r: seq<Product>)
    ensures |r| == |rows|
  {
    seq(|rows|, i requires 0 <= i < |rows| =>
      if InScope(scope, rows[i]) && rows[i].id == productId then rows[i].(isBought := true) else rows[i])
  }

  /**
   * Exactly the in-scope rows carrying `productId` become bought; every row
   * keeps its other columns, and no other row changes.
   */
  lemma MarkBoughtEffect(rows: seq<Product>, scope: Scope, productId: int, i: nat)
    requires i < |rows|
    ensures MarkBought(rows, scope, productId)[i] == rows[i].(isBought := MarkBought(rows, scope, productId)[i].isBought)
    ensures MarkBought(rows, scope, productId)[i].isBought <==>
      rows[i].isBought || (InScope(scope, rows[i]) && rows[i].id == productId)
  {
  }

  /** Marking again changes nothing. */
  lemma MarkBoughtIdempotent(rows: seq<Product>, scope: Scope, productId: int)
    ensures MarkBought(MarkBought(rows, scope, productId), scope, productId) == MarkBought(rows, scope, productId)
  {
    var once := MarkBought(rows, scope, productId);
    var twice := MarkBought(once, scope, productId);
    forall i | 0 <= i < |rows| ensures twice[i] == once[i] {
      assert InScope(scope, once[i]) == InScope(scope, rows[i]);
    }
  }

  /** An id that no in-scope row carries changes nothing. */
  lemma MarkBoughtOutOfScope(rows: seq<Product>, scope: Scope, productId: int)
    requires forall p :: p in rows && InScope(scope, p) ==> p.id != productId
    ensures MarkBought(rows, scope, productId) == rows
  {
    var r := MarkBought(rows, scope, productId);
    forall i | 0 <= i < |rows| ensures r[i] == rows[i] {
      assert rows[i] in rows;
    }
  }

  /** `markAsBought`: the caller's scope is computed first, then the single update runs. */
  method MarkAsBought(db: Db, chatId: int, productId: int)
    requires db.Valid()
    modifies db
    ensures db.Valid()
    ensures db.families == old(db.families) && db.users == old(db.users)
    ensures db.nextFamilyId == old(db.nextFamilyId) && db.nextProductId == old(db.nextProductId)
    ensures db.shoppingList == MarkBought(old(db.shoppingList), CallerScope(old(db.users), chatId), productId)
  {
    var scope := CallerScope(db.users, chatId);
    ghost var before := db.shoppingList;
    db.shoppingList := MarkBought(db.shoppingList, scope, productId);
    forall p | p in db.shoppingList ensures p.id < db.nextProductId {
      var k :| 0 <= k < |db.shoppingList| && db.shoppingList[k] == p;
      assert p.id == before[k].id && before[k] in before;
    }
  }

  // ---------------------------------------------------------------------------
  // `getActiveProducts` (older repository only)
  // ---------------------------------------------------------------------------

  /** The rows in `scope` that are not bought, in table order. */
  function Unbought(rows: seq<Product>, scope: Scope): (r: seq<Product>)
    ensures forall p :: p in r <==> p in rows && InScope(scope, p) && !p.isBought
    ensures forall p :: multiset(r)[p] == if InScope(scope, p) && !p.isBought then multiset(rows)[p] else 0
  {
    if rows == [] then []
    else
      assert rows == [rows[0]] + rows[1..];
      (if InScope(scope, rows[0]) && !rows[0].isBought then [rows[0]] else []) + Unbought(rows[1..], scope)
  }

  /** `getActiveProducts`: exactly the caller's in-scope rows that are not bought. */
  function ActiveProducts(users: seq<User>, rows: seq<Product>, chatId: int): (r: seq<Product>)
    ensures forall p :: p in r <==> (p in rows && !p.isBought &&
      if FamilyIdOf(users, chatId).Some? then p.familyId == FamilyIdOf(users, chatId) else p.chatId == chatId)
    ensures forall p :: (multiset(r)[p] ==
      if !p.isBought && (if FamilyIdOf(users, chatId).Some? then p.familyId == FamilyIdOf(users, chatId) else p.chatId == chatId)
      then multiset(rows)[p] else 0)
  {
    Unbought(rows, CallerScope(users, chatId))
  }

  // ---------------------------------------------------------------------------
  // `getAllProductsOrdered`
  // ---------------------------------------------------------------------------

  /** `ORDER BY is_bought ASC, created_at DESC`: `p` may be listed before `q`. */
  predicate ShownBefore(p: Product, q: Product) {
    (!p.isBought && q.isBought) || (p.isBought == q.isBought && p.createdAt >= q.createdAt)
  }

  predicate InDisplayOrder(s: seq<Product>) {
    forall i, j :: 0 <= i < j < |s| ==> ShownBefore(s[i], s[j])
  }

  /** The rows of one family, in table order. */
  function FamilyRows(rows: seq<Product>, familyId: int): (r: seq<Product>)
    ensures forall p :: multiset(r)[p] == if p.familyId == Some(familyId) then multiset(rows)[p] else 0
  {
    if rows == [] then []
    else
      assert rows == [rows[0]] + rows[1..];
      (if rows[0].familyId == Some(familyId) then [rows[0]] else []) + FamilyRows(rows[1..], familyId)
  }

  /** A row listed before every row of an ordered list keeps it ordered. */
  lemma PrependOrdered(x: Product, s: seq<Product>)
    requires InDisplayOrder(s)
    requires forall y :: y in s ==> ShownBefore(x, y)
    ensures InDisplayOrder([x] + s)
  {
    var r := [x] + s;
    forall i, j | 0 <= i < j < |r| ensures ShownBefore(r[i], r[j]) {
      assert r[j] == s[j - 1];
      if i > 0 { assert r[i] == s[i - 1]; } else { assert s[j - 1] in s; }
    }
  }

  /** `p`, shown before the head of an ordered list, is shown before all of it. */
  lemma BeforeHeadBeforeAll(p: Product, s: seq<Product>)
    requires InDisplayOrder(s) && (s != [] ==> ShownBefore(p, s[0]))
    ensures forall y :: y in s ==> ShownBefore(p, y)
  {
    forall y | y in s ensures ShownBefore(p, y) {
      var k :| 0 <= k < |s| && s[k] == y;
      if k > 0 { assert ShownBefore(s[0], s[k]); }
    }
  }

  /** The head of an ordered list is shown before the rest of it with `p` inserted, when `p` does not go first. */
  lemma HeadBeforeInserted(p: Product, s: seq<Product>, rest: seq<Product>)
    requires InDisplayOrder(s) && s != [] && !ShownBefore(p, s[0])
    requires multiset(rest) == multiset(s[1..]) + multiset{p}
    ensures forall y :: y in rest ==> ShownBefore(s[0], y)
  {
    forall y | y in rest ensures ShownBefore(s[0], y) {
      assert y in multiset(rest);
      if y != p {
        assert y in multiset(s[1..]);
        var k :| 0 <= k < |s[1..]| && s[1..][k] == y;
        assert s[k + 1] == y;
      }
    }
  }

  /** Places `p` into a list in display order. */
  function Insert(p: Product, s: seq<Product>): (r: seq<Product>)
    requires InDisplayOrder(s)
    ensures InDisplayOrder(r)
    ensures multiset(r) == multiset(s) + multiset{p}
  {
    if s == [] || ShownBefore(p, s[0]) then
      BeforeHeadBeforeAll(p, s);
      PrependOrdered(p, s);
      [p] + s
    else
      var rest := Insert(p, s[1..]);
      assert s == [s[0]] + s[1..];
      HeadBeforeInserted(p, s, rest);
      PrependOrdered(s[0], rest);
      [s[0]] + rest
  }

  /** Insertion sort into display order; equal keys keep table order. */
  function SortForDisplay(s: seq<Product>): (r: seq<Product>)
    ensures InDisplayOrder(r)
    ensures multiset(r) == multiset(s)
  {
    if s == [] then []
    else
      assert s == [s[0]] + s[1..];
      Insert(s[0], SortForDisplay(s[1..]))
  }

  /**
   * `getAllProductsOrdered`: nothing when the caller has no family id;
   * otherwise exactly the family's rows, unbought before bought and newest
   * first within each group.
   */
  function AllProductsOrdered(users: seq<User>, rows: seq<Product>, chatId: int): (r: seq<Product>)
    ensures FamilyIdOf(users, chatId).None? ==> r == []
    ensures FamilyIdOf(users, chatId).Some? ==>
      forall p :: multiset(r)[p] == if p.familyId == FamilyIdOf(users, chatId) then multiset(rows)[p] else 0
    ensures InDisplayOrder(r)
  {
    match FamilyIdOf(users, chatId)
    case None => []
    case Some(f) => SortForDisplay(FamilyRows(rows, f))
  }

  /** Display order, spelled out: no bought row precedes an unbought one, and within a group the newer comes first. */
  lemma DisplayOrderGroups(s: seq<Product>, i: nat, j: nat)
    requires InDisplayOrder(s) && i < j < |s|
    ensures s[i].isBought ==> s[j].isBought
    ensures s[i].isBought == s[j].isBought ==> s[i].createdAt >= s[j].createdAt
  {
  }

  // ---------------------------------------------------------------------------
  // `inverseBought`
  // ---------------------------------------------------------------------------

  /**
   * The step the newer callback handler asks for: the row with `productId`
   * in the family flips between bought and not bought.
   */
  function InverseBought(rows: seq<Product>, familyId: int, productId: int): (r: seq<Product>)
    ensures |r| == |rows|
  {
    seq(|rows|, i requires 0 <= i < |rows| =>
      if rows[i].familyId == Some(familyId) && rows[i].id == productId then rows[i].(isBought := !rows[i].isBought) else rows[i])
  }

  /**
   * The toggle's effect: the table keeps its length, only the bought flag
   * may change, and it flips exactly on the row of the family with the id.
   */
  lemma InverseBoughtEffect(rows: seq<Product>, familyId: int, productId: int)
    ensures var r := InverseBought(rows, familyId, productId);
      |r| == |rows| && forall i :: 0 <= i < |rows| ==>
        && r[i].(isBought := rows[i].isBought) == rows[i]
        && (r[i].isBought != rows[i].isBought <==> rows[i].familyId == Some(familyId) && rows[i].id == productId)
  {
  }

  /** Pressing the same button twice restores the table. */
  lemma InverseBoughtInvolution(rows: seq<Product>, familyId: int, productId: int)
    ensures InverseBought(InverseBought(rows, familyId, productId), familyId, productId) == rows
  {
    var once := InverseBought(rows, familyId, productId);
    var twice := InverseBought(once, familyId, productId);
    forall i | 0 <= i < |rows| ensures twice[i] == rows[i] {
      assert once[i].familyId == rows[i].familyId && once[i].id == rows[i].id;
    }
  }

  method InverseBoughtStep(db: Db, familyId: int, productId: int)
    requires db.Valid()
    modifies db
    ensures db.Valid()
    ensures db.families == old(db.families) && db.users == old(db.users)
    ensures db.nextFamilyId == old(db.nextFamilyId) && db.nextProductId == old(db.nextProductId)
    ensures db.shoppingList == InverseBought(old(db.shoppingList), familyId, productId)
  {
    ghost var before := db.shoppingList;
    db.shoppingList := InverseBought(db.shoppingList, familyId, productId);
    forall p | p in db.shoppingList ensures p.id < db.nextProductId {
      var k :| 0 <= k < |db.shoppingList| && db.shoppingList[k] == p;
      assert p.id == before[k].id && before[k] in before;
    }
  }
}
