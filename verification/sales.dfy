/**
 The sale lifecycle of the point-of-sale screen.

 Checkout turns a non-empty cart into sale items, calls the server's
 `create_sale_with_items` procedure once, queues the sale in `pendingSales`
 under a fresh random id when that call fails in any way, clears the cart and
 then drains the queue. A drain reads the queue once and calls the procedure
 once per queued sale, in the order the store lists them; it deletes a sale
 exactly when its call resolved without error, and carries on past failures.

 The server is an oracle: `submit` is the outcome of checkout's own call and
 `attempt(s)` the outcome of the one call a drain makes for the queued sale
 `s`. The procedure receives only the items, never the sale's id, so every
 call log below is a list of item lists.
 */
module Sales {
  import opened KeyOrder
  import opened Cart
  import opened LocalDb

  /** How one call of the sale procedure resolved. */
  datatype RpcOutcome =
    | Committed      // resolved with no error
    | ErrorReturned  // resolved with an error, e.g. the server declined the sale
    | Threw          // the call threw, e.g. the device is offline

  /** The cart as sale items: product id and quantity per line. */
  function SaleItems(c: CartLines): (items: seq<SaleItem>)
    ensures |items| == |c|
    ensures forall i :: 0 <= i < |c| ==> items[i].productId == c[i].id && items[i].qty == c[i].qty
  {
    seq(|c|, i requires 0 <= i < |c| => SaleItem(c[i].id, c[i].qty))
  }

  /** What a queued sale built from a well-formed cart looks like. */
  predicate SaleOk(s: Sale)
  {
    && |s.items| > 0
    && (forall i :: 0 <= i < |s.items| ==> s.items[i].qty >= 1)
    && (forall i, j :: 0 <= i < j < |s.items| ==> s.items[i].productId != s.items[j].productId)
  }

  /** A well-formed, non-empty cart yields a well-formed sale. */
  lemma SaleItemsOk(c: CartLines, id: Key)
    requires WellFormed(c) && c != []
    ensures SaleOk(Sale(id, SaleItems(c)))
  {
  }

  /** The ids a drain deletes: those of the sales whose call committed. */
  function Cleared(todo: seq<Sale>, attempt: Sale -> RpcOutcome): set<Key>
  {
    set s | s in todo && attempt(s) == Committed :: s.id
  }

  /** The database after a drain, and the item lists sent, one per call. */
  datatype Pass = Pass(db: Db, calls: seq<seq<SaleItem>>)

  /** The first sale of a drain list contributes its id exactly when its call committed. */
  lemma ClearedCons(todo: seq<Sale>, attempt: Sale -> RpcOutcome)
    requires todo != []
    ensures Cleared(todo, attempt) == Cleared(todo[1..], attempt) + (if attempt(todo[0]) == Committed then {todo[0].id} else {})
  {
    assert forall x :: x in todo <==> x == todo[0] || x in todo[1..];
  }

  /**
   The drain loop over a list of sales read from the queue: each is sent once,
   in list order, and deleted when its call committed.
   */
  function DrainEach(db: Db, todo: seq<Sale>, attempt: Sale -> RpcOutcome): (r: Pass)
    requires Valid(db)
    ensures Valid(r.db)
    ensures r.db.cart == db.cart && r.db.products == db.products
    ensures |r.calls| == |todo|
    ensures forall j :: 0 <= j < |todo| ==> r.calls[j] == todo[j].items
    ensures Pending(r.db) == Pending(db) - Cleared(todo, attempt)
    decreases |todo|
  {
    if todo == [] then
      assert Cleared(todo, attempt) == {};
      Pass(db, [])
    else
      var s := todo[0];
      var db1 := if attempt(s) == Committed then ClearPendingSale(db, s.id) else db;
      var done: set<Key> := if attempt(s) == Committed then {s.id} else {};
      assert Pending(db1) == Pending(db) - done;
      var rest := DrainEach(db1, todo[1..], attempt);
      ClearedCons(todo, attempt);
      assert Pending(rest.db) == Pending(db) - (Cleared(todo[1..], attempt) + done);
      var calls := [s.items] + rest.calls;
      assert forall j :: 0 < j < |todo| ==> calls[j] == rest.calls[j - 1] == todo[1..][j - 1].items;
      Pass(rest.db, calls)
  }

  /**
   Draining the whole queue: a queued sale is deleted exactly when its call
   committed, the sales that stay are unchanged, every queued sale is sent
   once in ascending order of id, and the cart is untouched.
   */
  function ProcessPending(db: Db, attempt: Sale -> RpcOutcome): (r: Pass)
    requires Valid(db)
    ensures Valid(r.db)
    ensures r.db.cart == db.cart && r.db.products == db.products
    ensures forall k :: k in Pending(db) ==> (k in Pending(r.db) <==> attempt(Pending(db)[k]) != Committed)
    ensures forall k :: k in Pending(r.db) ==> k in Pending(db) && Pending(r.db)[k] == Pending(db)[k]
    ensures |r.calls| == |Pending(db)|
    ensures forall j :: 0 <= j < |r.calls| ==> r.calls[j] == GetPendingSales(db)[j].items
  {
    var todo := GetPendingSales(db);
    var r := DrainEach(db, todo, attempt);
    assert forall k :: k in Pending(db) ==> (k in Cleared(todo, attempt) <==> attempt(Pending(db)[k]) == Committed) by {
      forall k | k in Pending(db)
        ensures k in Cleared(todo, attempt) <==> attempt(Pending(db)[k]) == Committed
      {
        assert Pending(db)[k] in todo;
      }
    }
    r
  }

  /** The screen's state: the cart it shows and the device's database. */
  datatype Pos = Pos(cart: CartLines, db: Db)

  /** The state after a checkout, and the item lists sent to the server, in order. */
  datatype CheckoutResult = CheckoutResult(pos: Pos, calls: seq<seq<SaleItem>>)

  /**
   The first call of a checkout and, when it fails, the queue write: a
   committed sale adds nothing to the queue, a failed one adds exactly the
   sale built from the cart under the fresh id.
   */
  function Submit(db: Db, c: CartLines, freshId: Key, submit: RpcOutcome): (r: Db)
    requires Valid(db) && freshId !in Pending(db)
    ensures Valid(r)
    ensures r.cart == db.cart && r.products == db.products
    ensures submit == Committed ==> Pending(r) == Pending(db)
    ensures submit != Committed ==> Pending(r) == Pending(db)[freshId := Sale(freshId, SaleItems(c))]
    ensures |Pending(r)| == |Pending(db)| + (if submit == Committed then 0 else 1)
  {
    if submit == Committed then db else QueueSale(db, Sale(freshId, SaleItems(c)))
  }

  /**
   Checkout. An empty cart is left alone: no call, no write. Otherwise the
   cart's items are sent first; the cart ends empty, and so does the stored
   cart; each sale queued before is deleted exactly when its drain call
   committed; the new sale is queued at the end exactly when both its own call
   and its drain call failed; no other sale appears and no sale changes.
   */
  function Checkout(pos: Pos, freshId: Key, submit: RpcOutcome, attempt: Sale -> RpcOutcome): (r: CheckoutResult)
    requires Valid(pos.db)
    requires pos.cart != [] ==> freshId !in Pending(pos.db)
    ensures pos.cart == [] ==> r == CheckoutResult(pos, [])
    ensures pos.cart != [] ==>
              && r.pos.cart == [] && Valid(r.pos.db) && LoadCart(r.pos.db) == []
              && r.pos.db.products == pos.db.products
              && |r.calls| == 1 + |Pending(pos.db)| + (if submit == Committed then 0 else 1)
              && r.calls[0] == SaleItems(pos.cart)
    ensures pos.cart != [] ==>
              forall k :: k in Pending(pos.db) ==> (k in Pending(r.pos.db) <==> attempt(Pending(pos.db)[k]) != Committed)
    ensures pos.cart != [] ==>
              forall k :: k in Pending(r.pos.db) ==>
                if k == freshId then Pending(r.pos.db)[k] == Sale(freshId, SaleItems(pos.cart))
                else k in Pending(pos.db) && Pending(r.pos.db)[k] == Pending(pos.db)[k]
    ensures pos.cart != [] ==>
              (freshId in Pending(r.pos.db) <==>
                 submit != Committed && attempt(Sale(freshId, SaleItems(pos.cart))) != Committed)
    ensures pos.cart != [] ==>
              && (forall k :: k in Pending(pos.db) ==> Pending(pos.db)[k].items in r.calls[1..])
              && (submit != Committed ==> SaleItems(pos.cart) in r.calls[1..])
              && (forall j :: 1 <= j < |r.calls| ==>
                    SentFrom(r.calls[j], Pending(pos.db), Sale(freshId, SaleItems(pos.cart)), submit != Committed))
  {
    if pos.cart == [] then CheckoutResult(pos, [])
    else
      var db1 := Submit(pos.db, pos.cart, freshId, submit);
      var db2 := SaveCart(db1, []);
      var pass := ProcessPending(db2, attempt);
      AfterSubmit(pos.db, pos.cart, freshId, submit, attempt);
      DrainCalls(pos.db, pos.cart, freshId, submit, attempt);
      var calls := [SaleItems(pos.cart)] + pass.calls;
      assert calls[1..] == pass.calls;
      CheckoutResult(Pos([], pass.db), calls)
  }

  /**
   The queue bookkeeping of a checkout on plain maps: `mid` is `before` with
   the new sale possibly added, and `after` keeps exactly the entries of `mid`
   whose drain call did not commit.
   */
  lemma QueueThenDrain(before: map<Key, Sale>, mid: map<Key, Sale>, after: map<Key, Sale>,
                       sale: Sale, queued: bool, attempt: Sale -> RpcOutcome)
    requires sale.id !in before
    requires mid == if queued then before[sale.id := sale] else before
    requires forall k :: k in mid ==> (k in after <==> attempt(mid[k]) != Committed)
    requires forall k :: k in after ==> k in mid && after[k] == mid[k]
    ensures forall k :: k in before ==> (k in after <==> attempt(before[k]) != Committed)
    ensures forall k :: k in after ==>
              if k == sale.id then after[k] == sale
              else k in before && after[k] == before[k]
    ensures sale.id in after <==> queued && attempt(sale) != Committed
  {
    forall k | k in before
      ensures k in mid && mid[k] == before[k]
    {
      assert k != sale.id;
    }
  }

  /** The queue after the submission, the cart write and the drain of a checkout. */
  lemma AfterSubmit(db: Db, c: CartLines, freshId: Key, submit: RpcOutcome, attempt: Sale -> RpcOutcome)
    requires Valid(db) && freshId !in Pending(db)
    ensures var after := ProcessPending(SaveCart(Submit(db, c, freshId, submit), []), attempt).db;
            && (forall k :: k in Pending(db) ==> (k in Pending(after) <==> attempt(Pending(db)[k]) != Committed))
            && (forall k :: k in Pending(after) ==>
                  if k == freshId then Pending(after)[k] == Sale(freshId, SaleItems(c))
                  else k in Pending(db) && Pending(after)[k] == Pending(db)[k])
            && (freshId in Pending(after) <==> submit != Committed && attempt(Sale(freshId, SaleItems(c))) != Committed)
  {
    var db2 := SaveCart(Submit(db, c, freshId, submit), []);
    var after := ProcessPending(db2, attempt).db;
    QueueThenDrain(Pending(db), Pending(db2), Pending(after), Sale(freshId, SaleItems(c)), submit != Committed, attempt);
  }

  /** An item list the drain of a checkout may send: an earlier sale's, or the new sale's when it was queued. */
  predicate SentFrom(items: seq<SaleItem>, before: map<Key, Sale>, sale: Sale, queued: bool)
  {
    (queued && items == sale.items) || exists k :: k in before && items == before[k].items
  }

  /**
   The calls of a drain on plain data: `todo` lists exactly the entries of
   `mid`, which is `before` with the new sale possibly added, and the drain
   sends each listed sale's items once.
   */
  lemma ListedCalls(before: map<Key, Sale>, mid: map<Key, Sale>, todo: seq<Sale>, calls: seq<seq<SaleItem>>,
                    sale: Sale, queued: bool)
    requires sale.id !in before
    requires forall k :: k in before ==> before[k].id == k
    requires mid == if queued then before[sale.id := sale] else before
    requires forall s: Sale :: s in todo <==> s.id in mid && mid[s.id] == s
    requires |calls| == |todo|
    requires forall j :: 0 <= j < |todo| ==> calls[j] == todo[j].items
    ensures forall k :: k in before ==> before[k].items in calls
    ensures queued ==> sale.items in calls
    ensures forall j :: 0 <= j < |calls| ==> SentFrom(calls[j], before, sale, queued)
  {
    forall k | k in before
      ensures before[k].items in calls
    {
      var s := before[k];
      assert s.id == k && s.id in mid && mid[s.id] == s;
      var j :| 0 <= j < |todo| && todo[j] == s;
      assert calls[j] == s.items;
    }
    if queued {
      assert sale.id in mid && mid[sale.id] == sale;
      var j :| 0 <= j < |todo| && todo[j] == sale;
      assert calls[j] == sale.items;
    }
    forall j | 0 <= j < |calls|
      ensures SentFrom(calls[j], before, sale, queued)
    {
      var s := todo[j];
      assert s in todo;
      assert s.id in mid && mid[s.id] == s;
      if !queued || s.id != sale.id {
        assert s.id in before && calls[j] == before[s.id].items;
      } else {
        assert s == sale;
      }
    }
  }

  /**
   What the drain of a checkout sends: the items of every sale queued before,
   the new sale's items when its own call failed, and nothing else.
   */
  lemma DrainCalls(db: Db, c: CartLines, freshId: Key, submit: RpcOutcome, attempt: Sale -> RpcOutcome)
    requires Valid(db) && freshId !in Pending(db)
    ensures var calls := ProcessPending(SaveCart(Submit(db, c, freshId, submit), []), attempt).calls;
            && (forall k :: k in Pending(db) ==> Pending(db)[k].items in calls)
            && (submit != Committed ==> SaleItems(c) in calls)
            && (forall j :: 0 <= j < |calls| ==>
                  SentFrom(calls[j], Pending(db), Sale(freshId, SaleItems(c)), submit != Committed))
  {
    var sale := Sale(freshId, SaleItems(c));
    var db1 := Submit(db, c, freshId, submit);
    var db2 := SaveCart(db1, []);
    var calls := ProcessPending(db2, attempt).calls;
    assert Pending(db2) == Pending(db1);
    assert Pending(db2) == if submit != Committed then Pending(db)[freshId := sale] else Pending(db);
    ListedCalls(Pending(db), Pending(db2), GetPendingSales(db2), calls, sale, submit != Committed);
  }

  /** A declined sale is queued and retried exactly like one that could not be sent. */
  lemma DeclinedSaleIsQueued(pos: Pos, freshId: Key, attempt: Sale -> RpcOutcome)
    requires Valid(pos.db) && pos.cart != [] && freshId !in Pending(pos.db)
    ensures Checkout(pos, freshId, ErrorReturned, attempt) == Checkout(pos, freshId, Threw, attempt)
    ensures freshId in Pending(Submit(pos.db, pos.cart, freshId, ErrorReturned))
  {
  }

  /**
   Writing the cart and draining the queue touch different stores, so the
   order in which the cart write and the drain of a checkout land does not
   matter.
   */
  lemma {:induction false} SaveCartCommutesWithDrain(db: Db, c: CartLines, todo: seq<Sale>, attempt: Sale -> RpcOutcome)
    requires Valid(db)
    ensures DrainEach(SaveCart(db, c), todo, attempt).db == SaveCart(DrainEach(db, todo, attempt).db, c)
    ensures DrainEach(SaveCart(db, c), todo, attempt).calls == DrainEach(db, todo, attempt).calls
    decreases |todo|
  {
    if todo != [] {
      var s := todo[0];
      if attempt(s) == Committed {
        assert ClearPendingSale(SaveCart(db, c), s.id) == SaveCart(ClearPendingSale(db, s.id), c);
        SaveCartCommutesWithDrain(ClearPendingSale(db, s.id), c, todo[1..], attempt);
      } else {
        SaveCartCommutesWithDrain(db, c, todo[1..], attempt);
      }
    }
  }

  /**
   The queue is drained in ascending order of id, not in the order sales were
   queued: a sale queued under "b" and then one under "a" are sent "a" first.
   */
  lemma DrainOrderIsKeyOrder(x: seq<SaleItem>, y: seq<SaleItem>)
    ensures GetPendingSales(QueueSale(QueueSale(Fresh, Sale("b", x)), Sale("a", y))) == [Sale("a", y), Sale("b", x)]
  {
    var db := QueueSale(QueueSale(Fresh, Sale("b", x)), Sale("a", y));
    var r := GetPendingSales(db);
    assert Less("a", "b");
    assert |r| == 2;
    assert Less(r[0].id, r[1].id);
    assert Sale("a", y) in r && Sale("b", x) in r;
    LessAsymmetric("a", "b");
  }
}
