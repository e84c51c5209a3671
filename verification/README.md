# Offline sale queue of a point-of-sale web client, in Dafny

This project models the offline core of a small point-of-sale web client. The
model covers two parts.

- **The cart list operations and the sale lifecycle** of the POS screen
  (`src/pages/POS.jsx`):
  - adding a product, removing a line and changing a line's quantity;
  - the displayed total;
  - `checkout`: one call to the server's `create_sale_with_items` procedure,
    queueing the sale under a fresh random id when that call fails, clearing
    the cart, then draining the queue;
  - `processPending`: the drain, which sends every queued sale once and
    deletes the ones whose call succeeded.
- **The device's local database** (`src/lib/db.js`): three object stores keyed
  by `id` (`cart`, `pendingSales`, `products`) and the helpers `saveCart`,
  `loadCart`, `queueSale`, `getPendingSales` and `clearPendingSale`.
  `src/lib/supabase.js` lines 16-49 repeat these helpers line for line, so one
  model covers both files.

Layout, one module per file:

| file | module | models |
|---|---|---|
| `key_order.dfy` | `KeyOrder` | string keys and the ascending order a store lists them in |
| `object_store.dfy` | `ObjectStore` | one object store: its rows in key order, with `put`/`get`/`getAll`/`delete`, each specified against the key-value `map` the rows denote (`Abs`) |
| `local_db.dfy` | `LocalDb` | the three stores and the five helpers of `db.js` |
| `cart.dfy` | `Cart` | cart lines, `addToCart`, `removeFromCart`, `inc`, the total |
| `sales.dfy` | `Sales` | the first call and queue write of `checkout`, `processPending`, `checkout` |
| `session.dfy` | `Session` | the screen as a state machine over `(cart, database)`, with the cart written to the store after every edit |

The server is an oracle. `submit` is the outcome of checkout's own call.
`attempt(s)` is the outcome of the single call a drain makes for queued sale
`s`. Both range over `Committed`, `ErrorReturned` (the call resolved with an
error) and `Threw` (the call threw, e.g. offline). `crypto.randomUUID()`
becomes a parameter `freshId` with the precondition that no queued sale
already has that id. Store operations never fail in the model.

Some safeguards an offline queue might be expected to have are absent from
the code, and the model follows the code:
- the procedure receives only the items, never the sale's id, so no
  idempotency key exists (`Checkout` and `ProcessPending` log item lists);
- a sale the server declines is queued and retried like one that could not be
  sent (`DeclinedSaleIsQueued`);
- the queue drains in ascending order of id, which for random ids is not the
  order the sales were queued (`DrainOrderIsKeyOrder`);
- nothing stops two drains from running at once;
- the queue is never drained at start-up: mounting the screen loads the cart
  and the products but does not call `processPending`, so the queue drains only
  when the browser comes back online or after a checkout (`Mount`).

## Model

| member | source | states |
|---|---|---|
| `ObjectStore.Put` | src/lib/db.js:28 | a put keeps the rows in key order; the store then maps the key to the new record and leaves every other key as it was |
| `ObjectStore.Get` | src/lib/db.js:23 | a get finds a record exactly when the key is in the store, and returns the record filed under it |
| `ObjectStore.GetAll` | src/lib/db.js:33 | getAll returns one record per key of the store, each the record filed under its key, in ascending key order |
| `ObjectStore.Delete` | src/lib/db.js:38 | a delete keeps the rows in key order and removes exactly that key; deleting an absent key leaves the store identical |
| `ObjectStore.AbsInjective` | src/lib/db.js:9-11 | two key-ordered stores with the same key-value content are the same store, so row order carries no information |
| `ObjectStore.PutPut` | src/lib/supabase.js:28 | putting twice under one key gives the same store as putting the second record alone |
| `ObjectStore.DeleteAfterFreshPut` | src/lib/supabase.js:36-49 | deleting a key just put for the first time restores the original store exactly |
| `LocalDb.SaveCart` | src/lib/db.js:16-19 | saving files the cart as the single record "current", overwriting any earlier one; pendingSales and products are untouched |
| `LocalDb.LoadCart` | src/lib/db.js:21-24 | loading returns the items of the "current" record, and the empty cart when there is none |
| `LocalDb.QueueSale` | src/lib/db.js:26-29 | queuing files the sale under its own id, replacing any sale with that id; cart and products are untouched |
| `LocalDb.GetPendingSales` | src/lib/supabase.js:41-44 | the listing contains a sale exactly when it is the sale stored under its id, lists as many sales as are stored, and lists them in strictly ascending id order, so with no duplicates |
| `LocalDb.ClearPendingSale` | src/lib/db.js:36-39 | clearing removes exactly that id from the queue and is a no-op when the id is absent; cart and products are untouched |
| `LocalDb.FreshIsEmpty` | src/lib/db.js:6-13 | the freshly created stores are valid, hold no pending sale, and load as the empty cart |
| `LocalDb.LoadAfterSave` | src/lib/supabase.js:26-34 | loading after saving returns exactly the cart saved |
| `LocalDb.SaveCartTwice` | src/lib/supabase.js:26-29 | a second save supersedes the first completely |
| `LocalDb.QueueSameIdReplaces` | src/lib/supabase.js:36-39 | re-queuing under an id already queued replaces the earlier sale |
| `LocalDb.QueuedIsListed` | src/lib/db.js:26-34 | a sale just queued appears in the next listing of the queue |
| `LocalDb.ClearAfterQueue` | src/lib/supabase.js:46-49 | clearing a sale just queued under a new id restores the whole database |
| `Cart.FindIndex` | src/pages/POS.jsx:43 | the index is the first line with that id, and -1 exactly when no line has it |
| `Cart.AddToCart` | src/pages/POS.jsx:41-50 | with a line for the product, that line's qty rises by one and nothing else changes; without one, a line with qty 1 and the product's id, name and price is appended at the end |
| `Cart.RemoveFromCart` | src/pages/POS.jsx:52-54 | no line with the id remains, and the cart never grows |
| `Cart.RemoveKeepsOthers` | src/pages/POS.jsx:53 | a line is in the result exactly when it was in the cart and belongs to another product |
| `Cart.ChangeQty` | src/pages/POS.jsx:56-58 | the cart keeps its length and each line's id, name and price; lines of that id get qty max(1, qty + d), the others keep theirs |
| `Cart.Total` | src/pages/POS.jsx:122 | the displayed total, a left-to-right accumulation from 0, equals the independently defined sum of qty * price over the lines |
| `Cart.TotalAppend` | src/pages/POS.jsx:122 | the empty cart totals 0, and appending a line adds exactly qty * price |
| `Cart.TotalConcat` | src/pages/POS.jsx:122 | the total of two carts joined is the sum of their totals |
| `Cart.AddKeepsWellFormed` | src/pages/POS.jsx:42-49 | adding keeps line ids distinct and every qty at least 1 |
| `Cart.FindIndexSameIds` | src/pages/POS.jsx:43 | carts whose lines carry the same ids position by position find every id at the same index |
| `Cart.FindIndexAppend` | src/pages/POS.jsx:43 | after appending a line, an id is found where it was before, else at the new line when the line has that id, else nowhere |
| `Cart.AddRaisesQtyByOne` | src/pages/POS.jsx:42-49 | in any cart, adding raises the product's quantity by exactly one and leaves every other product's quantity unchanged |
| `Cart.BumpTotal` | src/pages/POS.jsx:45 | one more unit on a line raises the total by exactly that line's unit price |
| `Cart.AddTotal` | src/pages/POS.jsx:45-48 | adding raises the total by one unit price: the price stored in the existing line, or the product's price for a new line |
| `Cart.RemoveKeepsWellFormed` | src/pages/POS.jsx:53 | removing keeps line ids distinct and every qty at least 1 |
| `Cart.RemoveHead` | src/pages/POS.jsx:53 | with distinct ids, removing the product of the first line leaves exactly the lines after it |
| `Cart.RemoveConcat` | src/pages/POS.jsx:53 | removing from two carts joined is removing from each and joining the results, so the surviving lines keep their order in every cart |
| `Cart.RemoveOnly` | src/pages/POS.jsx:53 | with distinct ids, removing cuts out exactly the one line and keeps the lines before and after it in order |
| `Cart.RemoveAbsent` | src/pages/POS.jsx:53 | removing an id with no line leaves the cart identical |
| `Cart.RemoveTotal` | src/pages/POS.jsx:53 | removing a line lowers the total by exactly that line's amount |
| `Cart.ChangeQtyKeepsWellFormed` | src/pages/POS.jsx:57 | a quantity change keeps ids distinct and every qty at least 1, and the product's quantity becomes max(1, old + d) |
| `Cart.IncThenDecRestores` | src/pages/POS.jsx:151-153 | pressing + then - on a line restores the original cart |
| `Cart.IncIsAddAgain` | src/pages/POS.jsx:45 | pressing + on a line gives the same cart as adding its product again |
| `Sales.SaleItems` | src/pages/POS.jsx:73 | the snapshot has one item per cart line, in cart order, carrying that line's product id and quantity |
| `Sales.SaleItemsOk` | src/pages/POS.jsx:73 | the snapshot of a non-empty well-formed cart is non-empty, has distinct product ids and quantities of at least 1 |
| `Sales.DrainEach` | src/pages/POS.jsx:62-67 | every sale read is sent once, in list order, whatever the earlier outcomes; exactly the ids of sales whose call committed leave the queue; the cart is untouched |
| `Sales.ProcessPending` | src/pages/POS.jsx:60-68 | a queued sale is deleted exactly when its call committed; the sales that stay are unchanged; every queued sale is sent once, in ascending id order; cart and products are untouched |
| `Sales.Submit` | src/pages/POS.jsx:73-80 | a committed first call adds nothing to the queue; any failed one adds exactly one sale, the cart snapshot under the fresh id |
| `Sales.Checkout` | src/pages/POS.jsx:70-86 | an empty cart makes no call and changes nothing; otherwise the cart snapshot is sent first, the shown and stored carts end empty, earlier sales leave the queue exactly when their drain call committed, and the new sale is queued exactly when both its calls failed; the drain's calls send the items of every sale queued before, plus the new sale's items when its own call failed, and nothing else |
| `Sales.QueueThenDrain` | src/pages/POS.jsx:78-84 | queuing a new sale and then keeping the entries whose drain call failed removes exactly the committed old sales and leaves the new one exactly when it was queued and its drain call failed |
| `Sales.ListedCalls` | src/pages/POS.jsx:61-64 | when the listing holds exactly the earlier sales plus possibly the new one, the calls send each of their item lists and no other |
| `Sales.DrainCalls` | src/pages/POS.jsx:80-84 | the drain that ends a checkout sends the items of every sale queued before, the new sale's items when its own call failed, and nothing else |
| `Sales.DeclinedSaleIsQueued` | src/pages/POS.jsx:76-80 | a call that returns an error leads to the same queue and cart as one that throws |
| `Sales.SaveCartCommutesWithDrain` | src/pages/POS.jsx:82-84 | the cart write after a checkout and the drain give the same result in either order |
| `Sales.DrainOrderIsKeyOrder` | src/pages/POS.jsx:61-62 | a sale queued under "b" and then one under "a" are listed, and so sent, "a" first |
| `Session.Mount` | src/pages/POS.jsx:18 | when the load lands before the first-render write, the shown cart is the stored cart and is written back unchanged; the queue is untouched |
| `Session.Edit` | src/pages/POS.jsx:27 | after every cart edit the stored cart equals the shown cart, and the queue is untouched |
| `Session.Step` | src/pages/POS.jsx:27-92 | after a cart edit the stored cart equals the shown one and the queue is untouched; a drain leaves both carts alone; a checkout of an empty cart changes nothing, and of a non-empty cart leaves both carts empty |
| `Session.FreshStart` | src/pages/POS.jsx:17-18 | on a new device the screen starts with an empty cart and an empty queue, satisfying the invariant |
| `Session.StepKeepsInv` | src/pages/POS.jsx:41-92 | every step keeps the invariant: valid stores, distinct line ids, every qty at least 1, stored cart equal to shown cart, every queued sale well-formed |
| `Session.QueueChangesOnlyBySales` | src/pages/POS.jsx:60-92 | a queued sale is never altered; it leaves the queue only in a checkout or drain whose call for it committed; the only sale a step adds is checkout's own, under its fresh id |
| `Session.CheckoutLosesNoSale` | src/pages/POS.jsx:75-84 | a checked-out sale is committed by its own call, committed by the drain, or still queued unchanged |
| `Session.ReloadMidCheckout` | src/pages/POS.jsx:76-83 | a reload after checkout's server call and queue write but before the emptied cart is stored mounts with the sold cart again, and a sale whose call failed is also already queued |
| `Session.RemountResumes` | src/pages/POS.jsx:18 | when the load lands before the first-render write, remounting on the database of any reachable state restores the same cart and keeps the invariant |
| `Session.InitialRender` | src/pages/POS.jsx:27 | the first render stores the empty cart and leaves the queue and products alone |
| `Session.MountAfterInitialSave` | src/pages/POS.jsx:7-27 | a mount on the database the first-render write leaves behind shows an empty cart, whatever cart was stored; the queue survives |
| `Session.RunKeepsInv` | src/pages/POS.jsx:27-92 | the invariant holds after any sequence of enabled steps |

## Left out

- Storage failures. Every store operation succeeds in the model. In the code, a `queueSale` that throws inside `catch` still reaches `finally`, so the cart is cleared and the sale is lost (src/pages/POS.jsx:78-84). The model cannot show this.
- Concurrency. Each step is atomic. Three overlaps that the code allows are not modelled. First, the `online` handler's drain can run during checkout's drain (src/pages/POS.jsx:84, 88-92), and nothing guards against it, so the same sale can be sent twice. Second, the mount-time `loadCart` (src/pages/POS.jsx:18) races the effect's first write, which stores the initial empty cart (src/pages/POS.jsx:7, 27); see the Session.Mount item below. Third, only the checkout button is disabled while checkout awaits the server call or the queue write (src/pages/POS.jsx:76, 80, 164). The product + button and the cart's -, + and x buttons stay live (src/pages/POS.jsx:139, 151-156). A line added during that wait is not in the snapshot taken at src/pages/POS.jsx:73, and the `setCart([])` at src/pages/POS.jsx:83 then erases it, so it is neither sold nor queued.
- A reload or closed tab in the middle of a checkout. The stored cart is emptied only by the effect at src/pages/POS.jsx:27, which runs after `setCart([])` at src/pages/POS.jsx:83, so after the server call (src/pages/POS.jsx:76) and any queue write (src/pages/POS.jsx:80). A reload in between mounts with the sold cart again. A checkout is one atomic step of the session and the session has no reload event, so `RunKeepsInv` does not cover such runs. `ReloadMidCheckout` states the resulting state directly, and `RemountResumes` covers a reload between steps. Leaving for the products page does the same as a reload: the links and routes at src/App.jsx:30-31 and 37-38 unmount the screen, so when that happens while checkout awaits the server call or the queue write (src/pages/POS.jsx:76, 80), the `setCart([])` at src/pages/POS.jsx:83 runs on an unmounted screen, the emptied cart is never stored, and the next mount shows the sold cart again.
- Session.Mount: models only the ordering in which the load lands before the effect's first write, and so does `RemountResumes`. The screen mounts on every reload and on every return from the products page (src/App.jsx:30-31, 37-38), and every mount first writes the empty cart over the stored one (src/pages/POS.jsx:7, 27). If that write lands before the load, the stored cart is erased and the screen resumes empty. If the load lands first, the store holds the empty cart until `setCart` re-renders and the effect writes the loaded cart back (src/pages/POS.jsx:18, 27), and a reload in that gap also resumes empty. `MountAfterInitialSave` states the empty result for both cases.
- The `busy` flag that disables the checkout button (src/pages/POS.jsx:72, 82, 164). It is presentation.
- Server-side effects of `create_sale_with_items`, such as writing the sale and decrementing stock. The server appears only as an outcome oracle.
- Product loading and the realtime subscriptions (src/pages/POS.jsx:17-39). They are network I/O. The same goes for the today's-revenue total (src/pages/POS.jsx:33-38), which also depends on the clock and time zone.
- Search filtering (src/pages/POS.jsx:12-15). It relies on Unicode case mapping.
- Barcode scanning (src/pages/POS.jsx:95-120). It is camera I/O.
- Price formatting with `toFixed` (src/pages/POS.jsx:137, 155, 162, 167). It is float formatting.
- JavaScript number semantics. Quantities, prices and totals are unbounded integers here. In the code they are doubles, which lose precision above 2^53.
- `inc` with a non-integer step. The screen only passes +1 and -1.
- Key order. Keys are compared by character code point. The store compares UTF-16 code units. The two orders agree on ASCII keys such as UUIDs and "current".
- LoadCart: a stored "current" record whose `items` field is missing or falsy also loads as `[]` in the code. In the model every cart record has its items.
- Opening the database (`getDB`, database name and version). It is modelled as the three stores, starting from `Fresh`. The `products` store is never read or written by the modelled code. It is kept only so that isolation can be stated.
- The Supabase client construction (src/lib/supabase.js:1-10). The product editor, login screen, routing and service-worker registration are not part of this model either.
