/**
 The cart of the point-of-sale screen: an ordered list of lines, one per
 product, each carrying the product's name and unit price in cents as they
 were when the product was first added, and a quantity.

 `AddToCart`, `RemoveFromCart` and `ChangeQty` are the three list
 transformations the screen applies to its cart state; `Total` is the amount
 it displays. Well-formed carts (`WellFormed`: distinct product ids, every
 quantity at least 1) stay well-formed under all three, and `QtyOf` gives the
 cart's meaning as a bag of products, against which each operation is stated.
 */
module Cart {
  import opened KeyOrder

  /** A catalog entry as the screen receives it from the product list. */
  datatype Product = Product(id: Key, name: string, priceCents: int, stock: int)

  datatype Line = Line(id: Key, name: string, priceCents: int, qty: int)

  type CartLines = seq<Line>

  predicate HasLine(c: CartLines, id: Key)
  {
    exists i :: 0 <= i < |c| && c[i].id == id
  }

  predicate UniqueIds(c: CartLines)
  {
    forall i, j :: 0 <= i < j < |c| ==> c[i].id != c[j].id
  }

  predicate QtyPositive(c: CartLines)
  {
    forall i :: 0 <= i < |c| ==> c[i].qty >= 1
  }

  predicate WellFormed(c: CartLines)
  {
    UniqueIds(c) && QtyPositive(c)
  }

  function Max(a: int, b: int): int
  {
    if a >= b then a else b
  }

  /** Position of the first line for `id`, or -1 when the cart has none. */
  function FindIndex(c: CartLines, id: Key): (i: int)
    ensures -1 <= i < |c|
    ensures i >= 0 ==> c[i].id == id && forall j :: 0 <= j < i ==> c[j].id != id
    ensures i == -1 <==> !HasLine(c, id)
    decreases |c|
  {
    if c == [] then -1
    else if c[0].id == id then 0
    else
      var i := FindIndex(c[1..], id);
      assert forall j :: 0 < j < |c| ==> c[1..][j - 1] == c[j];
      if i < 0 then -1 else i + 1
  }

  /** Quantity of product `id` in the cart: that of its first line, or 0. */
  function QtyOf(c: CartLines, id: Key): int
  {
    var i := FindIndex(c, id);
    if i < 0 then 0 else c[i].qty
  }

  /**
   Adding a product bumps the quantity of its line when the cart already has
   one and otherwise appends a new line with quantity 1.
   */
  function AddToCart(c: CartLines, p: Product): (r: CartLines)
    ensures HasLine(c, p.id) ==>
              var i := FindIndex(c, p.id);
              && |r| == |c|
              && r[i] == c[i].(qty := c[i].qty + 1)
              && forall j :: 0 <= j < |c| && j != i ==> r[j] == c[j]
    ensures !HasLine(c, p.id) ==> r == c + [Line(p.id, p.name, p.priceCents, 1)]
  {
    var i := FindIndex(c, p.id);
    if i >= 0 then c[i := c[i].(qty := c[i].qty + 1)]
    else c + [Line(p.id, p.name, p.priceCents, 1)]
  }

  /** Drops every line of product `id`, keeping the others in order. */
  function RemoveFromCart(c: CartLines, id: Key): (r: CartLines)
    ensures !HasLine(r, id)
    ensures |r| <= |c|
    decreases |c|
  {
    if c == [] then []
    else
      var rest := RemoveFromCart(c[1..], id);
      if c[0].id == id then rest else [c[0]] + rest
  }

  /** Removing keeps exactly the lines of other products. */
  lemma {:induction false} RemoveKeepsOthers(c: CartLines, id: Key)
    ensures forall l :: l in RemoveFromCart(c, id) <==> l in c && l.id != id
    decreases |c|
  {
    if c != [] {
      RemoveKeepsOthers(c[1..], id);
      assert forall l :: l in c <==> l == c[0] || l in c[1..];
    }
  }

  /** Changes the quantity of product `id` by `d`, never letting it drop below 1. */
  function ChangeQty(c: CartLines, id: Key, d: int): (r: CartLines)
    ensures |r| == |c|
    ensures forall j :: 0 <= j < |c| ==>
              && r[j].id == c[j].id && r[j].name == c[j].name && r[j].priceCents == c[j].priceCents
              && r[j].qty == (if c[j].id == id then Max(1, c[j].qty + d) else c[j].qty)
  {
    seq(|c|, j requires 0 <= j < |c| => if c[j].id == id then c[j].(qty := Max(1, c[j].qty + d)) else c[j])
  }

  function LineTotal(l: Line): int
  {
    l.qty * l.priceCents
  }

  /**
   The displayed total: the lines' amounts accumulated from the left, starting
   at 0. Whatever the order of accumulation, it is the sum of the amounts.
   */
  function Total(c: CartLines): (t: int)
    ensures t == Sum(c)
  {
    AccumulateIsSum(c, 0);
    Accumulate(c, 0)
  }

  function Accumulate(c: CartLines, acc: int): int
    decreases |c|
  {
    if c == [] then acc else Accumulate(c[1..], acc + LineTotal(c[0]))
  }

  /** Reference sum of the line amounts, defined from the right. */
  function Sum(c: CartLines): int
    decreases |c|
  {
    if c == [] then 0 else LineTotal(c[0]) + Sum(c[1..])
  }

  lemma {:induction false} AccumulateIsSum(c: CartLines, acc: int)
    ensures Accumulate(c, acc) == acc + Sum(c)
    decreases |c|
  {
    if c != [] {
      AccumulateIsSum(c[1..], acc + LineTotal(c[0]));
    }
  }

  lemma {:induction false} SumConcat(a: CartLines, b: CartLines)
    ensures Sum(a + b) == Sum(a) + Sum(b)
    decreases |a|
  {
    if a != [] {
      assert (a + b)[0] == a[0];
      assert (a + b)[1..] == a[1..] + b;
      SumConcat(a[1..], b);
    } else {
      assert a + b == b;
    }
  }

  /** The empty cart totals 0, and appending a line adds exactly its amount. */
  lemma TotalAppend(c: CartLines, l: Line)
    ensures Total([]) == 0
    ensures Total(c + [l]) == Total(c) + LineTotal(l)
  {
    SumConcat(c, [l]);
  }

  lemma TotalConcat(a: CartLines, b: CartLines)
    ensures Total(a + b) == Total(a) + Total(b)
  {
    SumConcat(a, b);
  }

  /** Replacing one line changes the total by the difference of the two amounts. */
  lemma {:induction false} SumUpdate(c: CartLines, i: int, l: Line)
    requires 0 <= i < |c|
    ensures Sum(c[i := l]) == Sum(c) - LineTotal(c[i]) + LineTotal(l)
    decreases |c|
  {
    if i > 0 {
      assert c[i := l][1..] == c[1..][i - 1 := l];
      SumUpdate(c[1..], i - 1, l);
    } else {
      assert c[i := l][1..] == c[1..];
    }
  }

  /** In a cart with distinct ids, the first line of `id` is its only line. */
  lemma OnlyLine(c: CartLines, id: Key, i: int)
    requires UniqueIds(c) && 0 <= i < |c| && c[i].id == id
    ensures FindIndex(c, id) == i
    ensures forall j :: 0 <= j < |c| && j != i ==> c[j].id != id
  {
  }

  /** Adding a product keeps the cart well-formed. */
  lemma AddKeepsWellFormed(c: CartLines, p: Product)
    requires WellFormed(c)
    ensures WellFormed(AddToCart(c, p))
  {
    var r := AddToCart(c, p);
    if !HasLine(c, p.id) {
      forall i, j | 0 <= i < j < |r|
        ensures r[i].id != r[j].id
      {
        if j == |c| {
          assert r[i] == c[i];
        }
      }
    }
  }

  /** Carts whose lines carry the same ids position by position agree on every first index. */
  lemma {:induction false} FindIndexSameIds(a: CartLines, b: CartLines, id: Key)
    requires |a| == |b| && forall j :: 0 <= j < |a| ==> a[j].id == b[j].id
    ensures FindIndex(a, id) == FindIndex(b, id)
    decreases |a|
  {
    if a != [] && a[0].id != id {
      FindIndexSameIds(a[1..], b[1..], id);
    }
  }

  /** Appending a line finds `id` where it was before, or at the new line, or nowhere. */
  lemma {:induction false} FindIndexAppend(c: CartLines, l: Line, id: Key)
    ensures FindIndex(c + [l], id) ==
              if FindIndex(c, id) >= 0 then FindIndex(c, id) else if l.id == id then |c| else -1
    decreases |c|
  {
    if c == [] {
      assert c + [l] == [l];
    } else {
      assert (c + [l])[0] == c[0];
      assert (c + [l])[1..] == c[1..] + [l];
      FindIndexAppend(c[1..], l, id);
    }
  }

  /** Adding a product raises its quantity by exactly one and no other product's, in any cart. */
  lemma AddRaisesQtyByOne(c: CartLines, p: Product, other: Key)
    requires other != p.id
    ensures QtyOf(AddToCart(c, p), p.id) == QtyOf(c, p.id) + 1
    ensures QtyOf(AddToCart(c, p), other) == QtyOf(c, other)
  {
    var r := AddToCart(c, p);
    var i := FindIndex(c, p.id);
    if i >= 0 {
      assert r == c[i := c[i].(qty := c[i].qty + 1)];
      FindIndexSameIds(r, c, p.id);
      FindIndexSameIds(r, c, other);
    } else {
      var l := Line(p.id, p.name, p.priceCents, 1);
      assert r == c + [l];
      FindIndexAppend(c, l, p.id);
      FindIndexAppend(c, l, other);
    }
  }

  /** One more unit on a line adds one unit price to its amount. */
  lemma LineTotalInc(l: Line)
    ensures LineTotal(l.(qty := l.qty + 1)) == LineTotal(l) + l.priceCents
  {
    assert (l.qty + 1) * l.priceCents == l.qty * l.priceCents + l.priceCents;
  }

  /** One more unit on line `i` adds one unit price of that line to the total. */
  lemma BumpTotal(c: CartLines, i: int)
    requires 0 <= i < |c|
    ensures Total(c[i := c[i].(qty := c[i].qty + 1)]) == Total(c) + c[i].priceCents
  {
    var l := c[i].(qty := c[i].qty + 1);
    SumUpdate(c, i, l);
    LineTotalInc(c[i]);
  }

  /**
   Adding a product raises the total by one unit price: the price recorded
   in its existing line, or the product's current price for a new line.
   */
  lemma AddTotal(c: CartLines, p: Product)
    ensures var i := FindIndex(c, p.id);
            Total(AddToCart(c, p)) == Total(c) + (if i >= 0 then c[i].priceCents else p.priceCents)
  {
    var i := FindIndex(c, p.id);
    if i >= 0 {
      assert AddToCart(c, p) == c[i := c[i].(qty := c[i].qty + 1)];
      BumpTotal(c, i);
    } else {
      var l := Line(p.id, p.name, p.priceCents, 1);
      assert AddToCart(c, p) == c + [l];
      TotalAppend(c, l);
      assert LineTotal(l) == p.priceCents;
    }
  }

  /** Dropping one line of a well-formed cart leaves a well-formed cart. */
  lemma DropKeepsWellFormed(c: CartLines, i: int)
    requires WellFormed(c) && 0 <= i < |c|
    ensures WellFormed(c[..i] + c[i + 1..])
  {
    var r := c[..i] + c[i + 1..];
    assert forall a :: 0 <= a < |r| ==> r[a] == c[if a < i then a else a + 1];
  }

  /** Removing keeps the cart well-formed. */
  lemma RemoveKeepsWellFormed(c: CartLines, id: Key)
    requires WellFormed(c)
    ensures WellFormed(RemoveFromCart(c, id))
  {
    var i := FindIndex(c, id);
    if i >= 0 {
      RemoveOnly(c, id, i);
      DropKeepsWellFormed(c, i);
    } else {
      RemoveAbsent(c, id);
    }
  }

  /** Removing a product that has no line leaves the cart as it is. */
  lemma {:induction false} RemoveAbsent(c: CartLines, id: Key)
    requires !HasLine(c, id)
    ensures RemoveFromCart(c, id) == c
    decreases |c|
  {
    if c != [] {
      assert !HasLine(c[1..], id);
      RemoveAbsent(c[1..], id);
      assert c == [c[0]] + c[1..];
    }
  }

  /** With distinct ids, removing the first line's product drops just that line. */
  lemma RemoveHead(c: CartLines, id: Key)
    requires UniqueIds(c) && c != [] && c[0].id == id
    ensures RemoveFromCart(c, id) == c[1..]
  {
    var tail := c[1..];
    forall j | 0 <= j < |tail|
      ensures tail[j].id != id
    {
      assert tail[j] == c[j + 1];
    }
    RemoveAbsent(tail, id);
  }

  /** Removing distributes over concatenation, so the surviving lines keep their order in any cart. */
  lemma {:induction false} RemoveConcat(a: CartLines, b: CartLines, id: Key)
    ensures RemoveFromCart(a + b, id) == RemoveFromCart(a, id) + RemoveFromCart(b, id)
    decreases |a|
  {
    if a == [] {
      assert a + b == b;
    } else {
      assert (a + b)[0] == a[0];
      assert (a + b)[1..] == a[1..] + b;
      RemoveConcat(a[1..], b, id);
    }
  }

  /**
   In a cart with distinct ids, removing a product takes out exactly its one
   line and keeps the lines before and after it in their order.
   */
  lemma {:induction false} RemoveOnly(c: CartLines, id: Key, i: int)
    requires UniqueIds(c) && 0 <= i < |c| && c[i].id == id
    ensures RemoveFromCart(c, id) == c[..i] + c[i + 1..]
    decreases |c|
  {
    if i == 0 {
      RemoveHead(c, id);
    } else {
      var tail := c[1..];
      assert c[0].id != id;
      assert UniqueIds(tail) && tail[i - 1] == c[i];
      RemoveOnly(tail, id, i - 1);
      assert c[..i] == [c[0]] + tail[..i - 1];
      assert c[i + 1..] == tail[i..];
    }
  }

  /** Removing a product takes its line's amount off the total. */
  lemma RemoveTotal(c: CartLines, id: Key, i: int)
    requires UniqueIds(c) && 0 <= i < |c| && c[i].id == id
    ensures Total(RemoveFromCart(c, id)) == Total(c) - LineTotal(c[i])
  {
    RemoveOnly(c, id, i);
    assert c == c[..i] + [c[i]] + c[i + 1..];
    TotalConcat(c[..i], [c[i]]);
    TotalConcat(c[..i] + [c[i]], c[i + 1..]);
    TotalConcat(c[..i], c[i + 1..]);
    TotalAppend([], c[i]);
    assert [] + [c[i]] == [c[i]];
  }

  /** Quantity changes keep the cart well-formed; the changed line ends at least at 1. */
  lemma ChangeQtyKeepsWellFormed(c: CartLines, id: Key, d: int)
    requires WellFormed(c)
    ensures WellFormed(ChangeQty(c, id, d))
    ensures var i := FindIndex(c, id);
            i >= 0 ==> QtyOf(ChangeQty(c, id, d), id) == Max(1, c[i].qty + d)
  {
    var r := ChangeQty(c, id, d);
    assert forall j :: 0 <= j < |r| ==> r[j].id == c[j].id;
    assert UniqueIds(r);
    var i := FindIndex(c, id);
    if i >= 0 {
      OnlyLine(r, id, i);
    }
  }

  /** A `+` followed by a `-` on the same product restores a well-formed cart. */
  lemma IncThenDecRestores(c: CartLines, id: Key)
    requires WellFormed(c)
    ensures ChangeQty(ChangeQty(c, id, 1), id, -1) == c
  {
    var r := ChangeQty(ChangeQty(c, id, 1), id, -1);
    assert |r| == |c|;
    forall j | 0 <= j < |c|
      ensures r[j] == c[j]
    {
    }
  }

  /** The `+` button on an existing line is the same as adding the product again. */
  lemma IncIsAddAgain(c: CartLines, p: Product)
    requires WellFormed(c) && HasLine(c, p.id)
    ensures ChangeQty(c, p.id, 1) == AddToCart(c, p)
  {
    var i := FindIndex(c, p.id);
    OnlyLine(c, p.id, i);
    var a := ChangeQty(c, p.id, 1);
    var b := AddToCart(c, p);
    forall j | 0 <= j < |c|
      ensures a[j] == b[j]
    {
    }
  }
}
