/**
 The device's local database: three object stores keyed by each record's
 `id` — `cart`, holding the working cart as the single record "current";
 `pendingSales`, holding every sale not yet confirmed by the server; and
 `products`, which is created alongside them.

 Each helper opens the database, performs one store operation and returns.
 `Valid` is what the stores always satisfy: rows in key order, every record
 filed under its own `id`. Every helper touches one store only.
 */
module LocalDb {
  import opened KeyOrder
  import opened ObjectStore
  import opened Cart

  /** The key of the one cart record. */
  const CurrentCart: Key := "current"

  datatype CartRecord = CartRecord(id: Key, items: CartLines)

  /** One line of a sale as the server receives it. */
  datatype SaleItem = SaleItem(productId: Key, qty: int)

  /** A sale waiting in the queue, under a random id. */
  datatype Sale = Sale(id: Key, items: seq<SaleItem>)

  datatype Db = Db(cart: Table<CartRecord>, pendingSales: Table<Sale>, products: Table<Product>)

  /** The three stores as the upgrade step creates them, empty. */
  const Fresh: Db := Db([], [], [])

  predicate Valid(db: Db)
  {
    && Sorted(db.cart) && Sorted(db.pendingSales) && Sorted(db.products)
    && (forall k :: k in Abs(db.cart) ==> Abs(db.cart)[k].id == k)
    && (forall k :: k in Abs(db.pendingSales) ==> Abs(db.pendingSales)[k].id == k)
    && (forall k :: k in Abs(db.products) ==> Abs(db.products)[k].id == k)
  }

  /** The pending sales by id. */
  function Pending(db: Db): map<Key, Sale>
  {
    Abs(db.pendingSales)
  }

  /** Writes the cart as the record "current", superseding the previous one. */
  function SaveCart(db: Db, c: CartLines): (r: Db)
    requires Valid(db)
    ensures Valid(r)
    ensures Abs(r.cart) == Abs(db.cart)[CurrentCart := CartRecord(CurrentCart, c)]
    ensures r.pendingSales == db.pendingSales && r.products == db.products
  {
    db.(cart := Put(db.cart, CurrentCart, CartRecord(CurrentCart, c)))
  }

  /** The stored cart, or the empty cart when no "current" record exists. */
  function LoadCart(db: Db): (c: CartLines)
    requires Valid(db)
    ensures CurrentCart !in Abs(db.cart) ==> c == []
    ensures CurrentCart in Abs(db.cart) ==> c == Abs(db.cart)[CurrentCart].items
  {
    match Get(db.cart, CurrentCart)
    case Some(rec) => rec.items
    case None => []
  }

  /** Files a sale under its id, replacing any sale already filed there. */
  function QueueSale(db: Db, s: Sale): (r: Db)
    requires Valid(db)
    ensures Valid(r)
    ensures Pending(r) == Pending(db)[s.id := s]
    ensures r.cart == db.cart && r.products == db.products
  {
    db.(pendingSales := Put(db.pendingSales, s.id, s))
  }

  /** Every pending sale, once each, in ascending order of id. */
  function GetPendingSales(db: Db): (r: seq<Sale>)
    requires Valid(db)
    ensures |r| == |Pending(db)|
    ensures forall s: Sale :: s in r <==> s.id in Pending(db) && Pending(db)[s.id] == s
    ensures forall i, j :: 0 <= i < j < |r| ==> Less(r[i].id, r[j].id)
  {
    var r := GetAll(db.pendingSales);
    ListsEveryPending(db, r);
    r
  }

  lemma ListsEveryPending(db: Db, r: seq<Sale>)
    requires Valid(db) && r == GetAll(db.pendingSales)
    ensures forall i :: 0 <= i < |r| ==> r[i].id == db.pendingSales[i].key
    ensures forall s: Sale :: s.id in Pending(db) && Pending(db)[s.id] == s ==> s in r
  {
    var t := db.pendingSales;
    forall s: Sale | s.id in Pending(db) && Pending(db)[s.id] == s
      ensures s in r
    {
      var i := AbsKeyRow(t, s.id);
      assert r[i] == s;
    }
  }

  /** Drops the pending sale filed under `id`, if there is one. */
  function ClearPendingSale(db: Db, id: Key): (r: Db)
    requires Valid(db)
    ensures Valid(r)
    ensures Pending(r) == Pending(db) - {id}
    ensures id !in Pending(db) ==> r == db
    ensures r.cart == db.cart && r.products == db.products
  {
    db.(pendingSales := Delete(db.pendingSales, id))
  }

  /** A freshly created database is valid and yields the empty cart. */
  lemma FreshIsEmpty()
    ensures Valid(Fresh) && LoadCart(Fresh) == [] && Pending(Fresh) == map[]
  {
  }

  /** Loading after saving yields the cart saved. */
  lemma LoadAfterSave(db: Db, c: CartLines)
    requires Valid(db)
    ensures LoadCart(SaveCart(db, c)) == c
  {
  }

  /** A second save supersedes the first: the store holds one cart record. */
  lemma SaveCartTwice(db: Db, c1: CartLines, c2: CartLines)
    requires Valid(db)
    ensures SaveCart(SaveCart(db, c1), c2) == SaveCart(db, c2)
  {
    PutPut(db.cart, CurrentCart, CartRecord(CurrentCart, c1), CartRecord(CurrentCart, c2));
  }

  /** Queuing a sale under an id already queued replaces the earlier sale. */
  lemma QueueSameIdReplaces(db: Db, s1: Sale, s2: Sale)
    requires Valid(db) && s1.id == s2.id
    ensures QueueSale(QueueSale(db, s1), s2) == QueueSale(db, s2)
  {
    PutPut(db.pendingSales, s1.id, s1, s2);
  }

  /** A queued sale is listed by the next read of the queue. */
  lemma QueuedIsListed(db: Db, s: Sale)
    requires Valid(db)
    ensures s in GetPendingSales(QueueSale(db, s))
  {
  }

  /** Clearing a sale that was just queued under a new id restores the database. */
  lemma ClearAfterQueue(db: Db, s: Sale)
    requires Valid(db) && s.id !in Pending(db)
    ensures ClearPendingSale(QueueSale(db, s), s.id) == db
  {
    DeleteAfterFreshPut(db.pendingSales, s.id, s);
  }
}
