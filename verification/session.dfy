/**
 The point-of-sale screen as a state machine over its cart and the device's
 database. The screen writes the cart to the database after every change to
 it, so each cart edit is modelled as the edit followed by that write; a
 checkout and a drain triggered by the browser's `online` event are the other
 steps. Each step is atomic: overlapping drains are not modelled.

 `Inv` collects what every reachable state satisfies: the stores are valid,
 the cart is well-formed and equal to the stored cart, and every queued sale
 is a well-formed sale.
 */
module Session {
  import opened KeyOrder
  import opened Cart
  import opened LocalDb
  import opened Sales

  datatype Event =
    | Add(p: Product)
    | Remove(id: Key)
    | Bump(id: Key, d: int)
    | CheckoutPressed(freshId: Key, submit: RpcOutcome, attempt: Sale -> RpcOutcome)
    | CameOnline(attempt: Sale -> RpcOutcome)

  /** Mounting the screen: the stored cart is loaded and written back. */
  function Mount(db: Db): (pos: Pos)
    requires Valid(db)
    ensures Valid(pos.db) && LoadCart(pos.db) == pos.cart == LoadCart(db)
    ensures pos.db.pendingSales == db.pendingSales && pos.db.products == db.products
  {
    Pos(LoadCart(db), SaveCart(db, LoadCart(db)))
  }

  /** The cart takes a new value and the new value is written to the store. */
  function Edit(pos: Pos, c: CartLines): (r: Pos)
    requires Valid(pos.db)
    ensures Valid(r.db) && r.cart == c && LoadCart(r.db) == c
    ensures Pending(r.db) == Pending(pos.db)
  {
    Pos(c, SaveCart(pos.db, c))
  }

  /** A fresh id for a checkout is one not already in the queue. */
  predicate Enabled(pos: Pos, e: Event)
  {
    e.CheckoutPressed? && pos.cart != [] ==> e.freshId !in Pending(pos.db)
  }

  /**
   One event: a cart edit followed by the cart write, a checkout, or a drain
   when the browser comes back online.
   */
  function Step(pos: Pos, e: Event): (r: Pos)
    requires Valid(pos.db) && Enabled(pos, e)
    ensures Valid(r.db)
    ensures (e.Add? || e.Remove? || e.Bump?) ==> LoadCart(r.db) == r.cart && Pending(r.db) == Pending(pos.db)
    ensures e.CameOnline? ==> r.cart == pos.cart && r.db.cart == pos.db.cart
    ensures e.CheckoutPressed? && pos.cart == [] ==> r == pos
    ensures e.CheckoutPressed? && pos.cart != [] ==> r.cart == [] && LoadCart(r.db) == []
  {
    match e
    case Add(p) => Edit(pos, AddToCart(pos.cart, p))
    case Remove(id) => Edit(pos, RemoveFromCart(pos.cart, id))
    case Bump(id, d) => Edit(pos, ChangeQty(pos.cart, id, d))
    case CheckoutPressed(freshId, submit, attempt) => Checkout(pos, freshId, submit, attempt).pos
    case CameOnline(attempt) => Pos(pos.cart, ProcessPending(pos.db, attempt).db)
  }

  predicate PendingOk(db: Db)
  {
    forall k :: k in Pending(db) ==> SaleOk(Pending(db)[k])
  }

  predicate Inv(pos: Pos)
  {
    && Valid(pos.db)
    && WellFormed(pos.cart)
    && LoadCart(pos.db) == pos.cart
    && PendingOk(pos.db)
  }

  /** On a freshly created database the screen starts with an empty cart and an empty queue. */
  lemma FreshStart()
    ensures Inv(Mount(Fresh))
    ensures Mount(Fresh).cart == [] && Pending(Mount(Fresh).db) == map[]
  {
    FreshIsEmpty();
  }

  lemma EditKeepsInv(pos: Pos, c: CartLines)
    requires Inv(pos) && WellFormed(c)
    ensures Inv(Edit(pos, c))
  {
    assert Pending(Edit(pos, c).db) == Pending(pos.db);
  }

  /** Checkout queues at most its own sale, which a well-formed cart makes well-formed. */
  lemma CheckoutPendingOk(pos: Pos, freshId: Key, submit: RpcOutcome, attempt: Sale -> RpcOutcome)
    requires Valid(pos.db) && PendingOk(pos.db) && WellFormed(pos.cart)
    requires pos.cart != [] && freshId !in Pending(pos.db)
    ensures PendingOk(Checkout(pos, freshId, submit, attempt).pos.db)
  {
    var before := Pending(pos.db);
    var after := Pending(Checkout(pos, freshId, submit, attempt).pos.db);
    SaleItemsOk(pos.cart, freshId);
    forall k | k in after
      ensures SaleOk(after[k])
    {
      if k != freshId {
        assert after[k] == before[k];
      }
    }
  }

  lemma CheckoutKeepsInv(pos: Pos, freshId: Key, submit: RpcOutcome, attempt: Sale -> RpcOutcome)
    requires Inv(pos) && (pos.cart != [] ==> freshId !in Pending(pos.db))
    ensures Inv(Checkout(pos, freshId, submit, attempt).pos)
  {
    var after := Checkout(pos, freshId, submit, attempt).pos;
    if pos.cart == [] {
      assert after == pos;
    } else {
      CheckoutPendingOk(pos, freshId, submit, attempt);
      assert after.cart == [] && Valid(after.db) && LoadCart(after.db) == [];
    }
  }

  lemma DrainKeepsInv(pos: Pos, attempt: Sale -> RpcOutcome)
    requires Inv(pos)
    ensures Inv(Pos(pos.cart, ProcessPending(pos.db, attempt).db))
  {
    var db := ProcessPending(pos.db, attempt).db;
    assert db.cart == pos.db.cart;
  }

  lemma EditStepKeepsInv(pos: Pos, e: Event)
    requires Inv(pos) && (e.Add? || e.Remove? || e.Bump?)
    ensures Inv(Step(pos, e))
  {
    var c := match e
      case Add(p) => AddToCart(pos.cart, p)
      case Remove(id) => RemoveFromCart(pos.cart, id)
      case Bump(id, d) => ChangeQty(pos.cart, id, d);
    assert Step(pos, e) == Edit(pos, c);
    match e
    case Add(p) => AddKeepsWellFormed(pos.cart, p);
    case Remove(id) => RemoveKeepsWellFormed(pos.cart, id);
    case Bump(id, d) => ChangeQtyKeepsWellFormed(pos.cart, id, d);
    EditKeepsInv(pos, c);
  }

  /** Every step keeps the invariant; in particular the stored cart never drifts from the shown one. */
  lemma StepKeepsInv(pos: Pos, e: Event)
    requires Inv(pos) && Enabled(pos, e)
    ensures Inv(Step(pos, e))
  {
    if e.CheckoutPressed? {
      CheckoutKeepsInv(pos, e.freshId, e.submit, e.attempt);
    } else if e.CameOnline? {
      DrainKeepsInv(pos, e.attempt);
    } else {
      EditStepKeepsInv(pos, e);
    }
  }

  /**
   A queued sale is never altered, and leaves the queue only in a checkout or
   a drain whose call for it committed; the only sale a step can add is the
   one a checkout queues under its fresh id.
   */
  lemma QueueChangesOnlyBySales(pos: Pos, e: Event)
    requires Valid(pos.db) && Enabled(pos, e)
    ensures var after := Pending(Step(pos, e).db);
            forall k :: k in Pending(pos.db) ==>
              if k in after then after[k] == Pending(pos.db)[k]
              else (e.CheckoutPressed? || e.CameOnline?) && e.attempt(Pending(pos.db)[k]) == Committed
    ensures var after := Pending(Step(pos, e).db);
            forall k :: k in after ==> k in Pending(pos.db) || (e.CheckoutPressed? && k == e.freshId)
  {
    match e
    case Add(p) =>
    case Remove(id) =>
    case Bump(id, d) =>
    case CheckoutPressed(freshId, submit, attempt) =>
    case CameOnline(attempt) =>
  }

  /**
   A checkout of a non-empty cart never loses the sale: its own call
   committed, or its drain call committed, or it is still queued.
   */
  lemma CheckoutLosesNoSale(pos: Pos, freshId: Key, submit: RpcOutcome, attempt: Sale -> RpcOutcome)
    requires Valid(pos.db) && pos.cart != [] && freshId !in Pending(pos.db)
    ensures var sale := Sale(freshId, SaleItems(pos.cart));
            var after := Checkout(pos, freshId, submit, attempt).pos.db;
            submit == Committed || attempt(sale) == Committed || (freshId in Pending(after) && Pending(after)[freshId] == sale)
  {
  }

  /**
   A reload after checkout's server call (and, when it failed, the queue
   write) but before the emptied cart is written back: the screen mounts with
   the sold cart again, and a failed sale is also already queued. Checking out
   again would sell the same goods a second time.
   */
  lemma ReloadMidCheckout(pos: Pos, freshId: Key, submit: RpcOutcome)
    requires Inv(pos) && pos.cart != [] && freshId !in Pending(pos.db)
    ensures var after := Mount(Submit(pos.db, pos.cart, freshId, submit));
            && after.cart == pos.cart
            && (submit != Committed ==>
                  freshId in Pending(after.db) && Pending(after.db)[freshId] == Sale(freshId, SaleItems(pos.cart)))
  {
  }

  /** An interrupted session resumes: remounting on the same database restores the cart and keeps the invariant. */
  lemma RemountResumes(pos: Pos)
    requires Inv(pos)
    ensures Mount(pos.db).cart == pos.cart && Inv(Mount(pos.db))
  {
    var m := Mount(pos.db);
    assert m.db.pendingSales == pos.db.pendingSales;
    assert Pending(m.db) == Pending(pos.db);
  }

  /**
   The write the screen makes on its first render: the cart state starts as the
   empty cart and is written to the store like every later value.
   */
  function InitialRender(db: Db): (r: Db)
    requires Valid(db)
    ensures Valid(r) && LoadCart(r) == []
    ensures Pending(r) == Pending(db) && r.products == db.products
  {
    SaveCart(db, [])
  }

  /**
   Every mount passes through a database whose stored cart is empty: the
   first-render write of the empty cart erases the stored one. When that write
   lands before the mount's load, the screen resumes with an empty cart; when
   the load lands first, the empty cart stays stored until the loaded cart is
   written back, and a reload in that gap resumes with an empty cart too. The
   queue survives either way.
   */
  lemma MountAfterInitialSave(pos: Pos)
    requires Inv(pos)
    ensures var m := Mount(InitialRender(pos.db));
            m.cart == [] && Pending(m.db) == Pending(pos.db)
  {
  }

  predicate RunEnabled(pos: Pos, es: seq<Event>)
    requires Valid(pos.db)
    decreases |es|
  {
    es == [] || (Enabled(pos, es[0]) && RunEnabled(Step(pos, es[0]), es[1..]))
  }

  function Run(pos: Pos, es: seq<Event>): (r: Pos)
    requires Valid(pos.db) && RunEnabled(pos, es)
    ensures Valid(r.db)
    decreases |es|
  {
    if es == [] then pos else Run(Step(pos, es[0]), es[1..])
  }

  /** The invariant holds after any run of enabled events. */
  lemma {:induction false} RunKeepsInv(pos: Pos, es: seq<Event>)
    requires Inv(pos) && RunEnabled(pos, es)
    ensures Inv(Run(pos, es))
    decreases |es|
  {
    if es != [] {
      StepKeepsInv(pos, es[0]);
      RunKeepsInv(Step(pos, es[0]), es[1..]);
    }
  }
}
