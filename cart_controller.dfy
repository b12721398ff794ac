/** The web app's shopping cart: rows of (user name, product id, quantity)
    kept in the app's own SQL database, and the checkout that turns them
    into orders through the Functions API. */
module CartController {
  import opened Wrappers
  import opened Text
  import opened Seqs
  import FunctionsApiClient
  import OrderFunctions

  /** A row of the Cart table; `id` is the database-generated key. */
  datatype CartRow = CartRow(id: int, customerUsername: string, productId: string, quantity: int)

  /** What a cart action answers. */
  datatype CartResult = RedirectTo(controller: string, action: string) | CartView(items: seq<CartRow>) | Unhandled

  predicate SamePair(r: CartRow, username: string, productId: string) {
    r.customerUsername == username && r.productId == productId
  }

  /** The user's rows, as the `Where` on the user name selects them. */
  function OwnedBy(username: string): CartRow -> bool {
    (r: CartRow) => r.customerUsername == username
  }

  /** Every other user's rows. */
  function OthersOf(username: string): CartRow -> bool {
    (r: CartRow) => r.customerUsername != username
  }

  /** `FirstOrDefaultAsync` on the pair: the position of the first row of
      that user and product. */
  function FindRow(rows: seq<CartRow>, username: string, productId: string): (r: Option<nat>)
    ensures r.Some? ==> r.value < |rows| && SamePair(rows[r.value], username, productId)
    ensures r.Some? ==> forall j :: 0 <= j < r.value ==> !SamePair(rows[j], username, productId)
    ensures r.None? <==> forall j :: 0 <= j < |rows| ==> !SamePair(rows[j], username, productId)
  {
    if rows == [] then None
    else if SamePair(rows[0], username, productId) then Some(0)
    else
      match FindRow(rows[1..], username, productId)
      case None => None
      case Some(i) => Some(i + 1)
  }

  /** The quantity the cart holds for a user and product: that of the row
      the lookup finds, 0 when there is none. */
  function Quantity(rows: seq<CartRow>, username: string, productId: string): int {
    match FindRow(rows, username, productId)
    case Some(i) => rows[i].quantity
    case None => 0
  }

  /** At most one row per (user name, product id). */
  ghost predicate OneRowPerPair(rows: seq<CartRow>) {
    forall i, j :: 0 <= i < j < |rows| ==> !SamePair(rows[j], rows[i].customerUsername, rows[i].productId)
  }

  /** The change `Add` and `Remove` make once both names are known: the found
      row's quantity moves by `delta` in place, or, without one, a row with
      quantity 1 is appended under the key `newId`. */
  function Bumped(rows: seq<CartRow>, username: string, productId: string, delta: int, newId: int): seq<CartRow> {
    match FindRow(rows, username, productId)
    case Some(i) => rows[i := rows[i].(quantity := rows[i].quantity + delta)]
    case None => rows + [CartRow(newId, username, productId, 1)]
  }

  /** The rows after `Add`: unchanged without a user name or a product id. */
  function Added(rows: seq<CartRow>, username: Option<string>, productId: Option<string>, newId: int): seq<CartRow> {
    if IsNullOrEmpty(username) || IsNullOrEmpty(productId) then rows
    else Bumped(rows, username.value, productId.value, 1, newId)
  }

  /** The rows after `Remove`: the same shape as `Added` with the opposite
      step, and the same insertion of a quantity-1 row when nothing is found. */
  function Removed(rows: seq<CartRow>, username: Option<string>, productId: Option<string>, newId: int): seq<CartRow> {
    if IsNullOrEmpty(username) || IsNullOrEmpty(productId) then rows
    else Bumped(rows, username.value, productId.value, -1, newId)
  }

  /** Rows with the same users and products at the same positions, and
      possibly more rows behind them that match nothing earlier, find the
      same row. */
  lemma FindRowSamePairs(rows: seq<CartRow>, rows': seq<CartRow>, username: string, productId: string)
    requires |rows| <= |rows'|
    requires forall j :: 0 <= j < |rows| ==>
      rows'[j].customerUsername == rows[j].customerUsername && rows'[j].productId == rows[j].productId
    requires FindRow(rows, username, productId).None? ==>
      forall j :: |rows| <= j < |rows'| ==> !SamePair(rows'[j], username, productId)
    ensures FindRow(rows', username, productId) == FindRow(rows, username, productId)
  {
    var a := FindRow(rows, username, productId);
    if a.Some? {
      assert SamePair(rows'[a.value], username, productId);
      assert forall j :: 0 <= j < a.value ==> !SamePair(rows'[j], username, productId);
    } else {
      assert forall j :: 0 <= j < |rows'| ==> !SamePair(rows'[j], username, productId);
    }
  }

  /** `Bumped` keeps every row's key, user and product at its position, and
      adds a row only when the lookup found none. */
  lemma BumpedShape(rows: seq<CartRow>, username: string, productId: string, delta: int, newId: int)
    ensures var after := Bumped(rows, username, productId, delta, newId);
      && |rows| <= |after| <= |rows| + 1
      && (|after| == |rows| + 1 <==> FindRow(rows, username, productId).None?)
      && (forall j :: 0 <= j < |rows| ==> after[j].id == rows[j].id && SamePair(after[j], rows[j].customerUsername, rows[j].productId))
      && (forall j :: 0 <= j < |rows| && !SamePair(rows[j], username, productId) ==> after[j] == rows[j])
      && (FindRow(rows, username, productId).None? ==> after[|rows|] == CartRow(newId, username, productId, 1))
  {
  }

  /** `Bumped` leaves the quantity of every other user and product alone. */
  lemma BumpedOthers(rows: seq<CartRow>, username: string, productId: string, delta: int, newId: int,
                     u: string, p: string)
    requires !(u == username && p == productId)
    ensures Quantity(Bumped(rows, username, productId, delta, newId), u, p) == Quantity(rows, u, p)
  {
    BumpedShape(rows, username, productId, delta, newId);
    FindRowSamePairs(rows, Bumped(rows, username, productId, delta, newId), u, p);
  }

  /** `Bumped` moves the chosen pair's quantity by `delta`, or sets it to 1
      when there was no row. */
  lemma BumpedOwn(rows: seq<CartRow>, username: string, productId: string, delta: int, newId: int)
    ensures Quantity(Bumped(rows, username, productId, delta, newId), username, productId)
         == (if FindRow(rows, username, productId).Some? then Quantity(rows, username, productId) + delta else 1)
  {
    var after := Bumped(rows, username, productId, delta, newId);
    BumpedShape(rows, username, productId, delta, newId);
    if FindRow(rows, username, productId).Some? {
      FindRowSamePairs(rows, after, username, productId);
    } else {
      assert forall j :: 0 <= j < |rows| ==> after[j] == rows[j];
      assert SamePair(after[|rows|], username, productId);
      assert FindRow(after, username, productId) == Some(|rows|);
    }
  }

  /** What `Bumped` does, pair by pair: the chosen pair's quantity moves by
      `delta` (from an absent row, to 1), every other pair keeps its quantity,
      and no row is dropped or re-keyed. */
  lemma BumpedEffect(rows: seq<CartRow>, username: string, productId: string, delta: int, newId: int)
    ensures var after := Bumped(rows, username, productId, delta, newId);
      && Quantity(after, username, productId)
         == (if FindRow(rows, username, productId).Some? then Quantity(rows, username, productId) + delta else 1)
      && (forall u, p :: !(u == username && p == productId) ==> Quantity(after, u, p) == Quantity(rows, u, p))
      && |rows| <= |after| <= |rows| + 1
      && (|after| == |rows| + 1 <==> FindRow(rows, username, productId).None?)
      && (forall j :: 0 <= j < |rows| ==> after[j].id == rows[j].id && SamePair(after[j], rows[j].customerUsername, rows[j].productId))
      && (forall j :: 0 <= j < |rows| && !SamePair(rows[j], username, productId) ==> after[j] == rows[j])
  {
    BumpedShape(rows, username, productId, delta, newId);
    BumpedOwn(rows, username, productId, delta, newId);
    forall u, p | !(u == username && p == productId)
      ensures Quantity(Bumped(rows, username, productId, delta, newId), u, p) == Quantity(rows, u, p)
    {
      BumpedOthers(rows, username, productId, delta, newId, u, p);
    }
  }

  /** `Add` and `Remove` keep at most one row per user and product. */
  lemma BumpedKeepsOneRowPerPair(rows: seq<CartRow>, username: string, productId: string, delta: int, newId: int)
    requires OneRowPerPair(rows)
    ensures OneRowPerPair(Bumped(rows, username, productId, delta, newId))
  {
    var after := Bumped(rows, username, productId, delta, newId);
    BumpedEffect(rows, username, productId, delta, newId);
    forall i, j | 0 <= i < j < |after|
      ensures !SamePair(after[j], after[i].customerUsername, after[i].productId)
    {
      if j == |rows| {
        assert FindRow(rows, username, productId).None?;
        assert !SamePair(rows[i], username, productId);
      } else {
        assert !SamePair(rows[j], rows[i].customerUsername, rows[i].productId);
      }
    }
  }

  /** Removing a row that is not there creates it with quantity 1; removing
      one that is there never deletes it, whatever its quantity becomes. */
  lemma RemoveNeverDeletes(rows: seq<CartRow>, username: string, productId: string, newId: int)
    requires username != "" && productId != ""
    ensures var after := Removed(rows, Some(username), Some(productId), newId);
      && (forall j :: 0 <= j < |rows| ==> after[j].id == rows[j].id)
      && (FindRow(rows, username, productId).None? ==>
            after == rows + [CartRow(newId, username, productId, 1)] && Quantity(after, username, productId) == 1)
      && (FindRow(rows, username, productId).Some? ==>
            |after| == |rows| && Quantity(after, username, productId) == Quantity(rows, username, productId) - 1)
  {
    BumpedEffect(rows, username, productId, -1, newId);
  }

  /** Adding an item and removing it again leaves its row in the cart, with
      the quantity it had before, or 0 when it was not in the cart. */
  lemma AddThenRemove(rows: seq<CartRow>, username: string, productId: string, newId: int)
    requires username != "" && productId != ""
    ensures var after := Removed(Added(rows, Some(username), Some(productId), newId), Some(username), Some(productId), newId + 1);
      && FindRow(after, username, productId).Some?
      && Quantity(after, username, productId) == Quantity(rows, username, productId)
  {
    var added := Added(rows, Some(username), Some(productId), newId);
    BumpedEffect(rows, username, productId, 1, newId);
    BumpedEffect(added, username, productId, -1, newId + 1);
    var after := Bumped(added, username, productId, -1, newId + 1);
    assert FindRow(added, username, productId).Some?;
    FindRowSamePairs(added, after, username, productId);
  }

  /** The lookup on a row put in front of others. */
  lemma QuantityCons(x: CartRow, rest: seq<CartRow>, u: string, p: string)
    ensures Quantity([x] + rest, u, p) == if SamePair(x, u, p) then x.quantity else Quantity(rest, u, p)
  {
    var s := [x] + rest;
    assert s[0] == x;
    assert s[1..] == rest;
  }

  /** After checkout the user has nothing left in the cart, and every other
      user's quantities are what they were. */
  lemma {:induction false} CheckoutQuantities(rows: seq<CartRow>, username: string, u: string, p: string)
    ensures Quantity(Filter(rows, OthersOf(username)), u, p) == if u == username then 0 else Quantity(rows, u, p)
  {
    if rows != [] {
      var x := rows[0];
      var rest := rows[1..];
      assert rows == [x] + rest;
      FilterCons(x, rest, OthersOf(username));
      CheckoutQuantities(rest, username, u, p);
      QuantityCons(x, rest, u, p);
      if x.customerUsername != username {
        QuantityCons(x, Filter(rest, OthersOf(username)), u, p);
      }
    }
  }

  /** A row put in front of others keeps one row per pair exactly when the
      others do and none of them shares its pair. */
  lemma OneRowPerPairCons(x: CartRow, rest: seq<CartRow>)
    ensures OneRowPerPair([x] + rest) <==>
      OneRowPerPair(rest) && forall y :: y in rest ==> !SamePair(y, x.customerUsername, x.productId)
  {
    var s := [x] + rest;
    if OneRowPerPair(s) {
      forall i, j | 0 <= i < j < |rest|
        ensures !SamePair(rest[j], rest[i].customerUsername, rest[i].productId)
      {
        assert rest[i] == s[i + 1] && rest[j] == s[j + 1];
      }
      forall y | y in rest
        ensures !SamePair(y, x.customerUsername, x.productId)
      {
        var k :| 0 <= k < |rest| && rest[k] == y;
        assert s[0] == x && s[k + 1] == y;
        assert !SamePair(s[k + 1], s[0].customerUsername, s[0].productId);
      }
    }
    if OneRowPerPair(rest) && forall y :: y in rest ==> !SamePair(y, x.customerUsername, x.productId) {
      forall i, j | 0 <= i < j < |s|
        ensures !SamePair(s[j], s[i].customerUsername, s[i].productId)
      {
        assert s[j] == rest[j - 1];
        if i > 0 {
          assert s[i] == rest[i - 1];
        }
      }
    }
  }

  /** Taking rows out keeps at most one row per user and product. */
  lemma {:induction false} FilterKeepsOneRowPerPair(rows: seq<CartRow>, keep: CartRow -> bool)
    requires OneRowPerPair(rows)
    ensures OneRowPerPair(Filter(rows, keep))
  {
    if rows != [] {
      var x := rows[0];
      var rest := rows[1..];
      assert rows == [x] + rest;
      OneRowPerPairCons(x, rest);
      FilterKeepsOneRowPerPair(rest, keep);
      FilterCons(x, rest, keep);
      if keep(x) {
        var kept := Filter(rest, keep);
        forall y | y in kept
          ensures !SamePair(y, x.customerUsername, x.productId)
        {
          FilterMembership(rest, keep, y);
        }
        OneRowPerPairCons(x, kept);
      }
    }
  }

  /** Checkout's `foreach`: one create request per cart row, in row order,
      for the customer's id with the row's product and quantity. A request
      that fails is skipped over, so every row gets its request. */
  method PostOrders(customerId: string, items: seq<CartRow>) returns (sent: seq<OrderFunctions.OrderCreate>)
    ensures |sent| == |items|
    ensures forall i :: 0 <= i < |items| ==>
      sent[i] == FunctionsApiClient.CreateOrderPayload(Some(customerId), Some(items[i].productId), items[i].quantity)
  {
    sent := [];
    for i := 0 to |items|
      invariant |sent| == i
      invariant forall k :: 0 <= k < i ==>
        sent[k] == FunctionsApiClient.CreateOrderPayload(Some(customerId), Some(items[k].productId), items[k].quantity)
    {
      sent := sent + [FunctionsApiClient.CreateOrderPayload(Some(customerId), Some(items[i].productId), items[i].quantity)];
    }
  }

  /** The app's Cart table. */
  class CartDb {
    var rows: seq<CartRow>
    /** The key the database gives the next inserted row. */
    var nextId: int

    ghost predicate Valid()
      reads this
    {
      forall j :: 0 <= j < |rows| ==> rows[j].id < nextId
    }

    constructor ()
      ensures Valid() && rows == []
    {
      rows := [];
      nextId := 1;
    }

    /** `Index`: to the login page without a user name, else the user's rows
        in table order. */
    method Index(username: Option<string>) returns (result: CartResult)
      ensures IsNullOrEmpty(username) ==> result == RedirectTo("Login", "Index")
      ensures !IsNullOrEmpty(username) ==> result.CartView?
      ensures result.CartView? ==> result.items == Filter(rows, OwnedBy(username.value))
      ensures result.CartView? ==> forall r :: r in result.items <==> r in rows && r.customerUsername == username.value
    {
      if IsNullOrEmpty(username) {
        return RedirectTo("Login", "Index");
      }
      result := CartView(Filter(rows, OwnedBy(username.value)));
      forall r
        ensures r in result.items <==> r in rows && r.customerUsername == username.value
      {
        FilterMembership(rows, OwnedBy(username.value), r);
      }
    }

    /** Increments or inserts the row, as `Bumped` describes, and keys a new
        row with `nextId`. */
    method Bump(username: string, productId: string, delta: int)
      requires Valid()
      modifies this
      ensures Valid()
      ensures rows == Bumped(old(rows), username, productId, delta, old(nextId))
      ensures nextId == if |rows| == |old(rows)| then old(nextId) else old(nextId) + 1
    {
      BumpedEffect(rows, username, productId, delta, nextId);
      var found := FindRow(rows, username, productId);
      if found.Some? {
        var i := found.value;
        rows := rows[i := rows[i].(quantity := rows[i].quantity + delta)];
      } else {
        rows := rows + [CartRow(nextId, username, productId, 1)];
        nextId := nextId + 1;
      }
    }

    /** `Add`: always back to the cart page. */
    method Add(username: Option<string>, productId: Option<string>) returns (result: CartResult)
      requires Valid()
      modifies this
      ensures Valid()
      ensures result == RedirectTo("Cart", "Index")
      ensures rows == Added(old(rows), username, productId, old(nextId))
      ensures OneRowPerPair(old(rows)) ==> OneRowPerPair(rows)
    {
      if !IsNullOrEmpty(username) && !IsNullOrEmpty(productId) {
        if OneRowPerPair(rows) {
          BumpedKeepsOneRowPerPair(rows, username.value, productId.value, 1, nextId);
        }
        Bump(username.value, productId.value, 1);
      }
      result := RedirectTo("Cart", "Index");
    }

    /** `Remove`: always back to the cart page. */
    method Remove(username: Option<string>, productId: Option<string>) returns (result: CartResult)
      requires Valid()
      modifies this
      ensures Valid()
      ensures result == RedirectTo("Cart", "Index")
      ensures rows == Removed(old(rows), username, productId, old(nextId))
      ensures OneRowPerPair(old(rows)) ==> OneRowPerPair(rows)
    {
      if !IsNullOrEmpty(username) && !IsNullOrEmpty(productId) {
        if OneRowPerPair(rows) {
          BumpedKeepsOneRowPerPair(rows, username.value, productId.value, -1, nextId);
        }
        Bump(username.value, productId.value, -1);
      }
      result := RedirectTo("Cart", "Index");
    }

    /** `Checkout`. `customers` is the customer list `GetCustomerAsync`
        reads, None when that call fails (its exception is not caught);
        `sent` lists the create requests posted, whose failures are
        swallowed. */
    method Checkout(username: Option<string>, customers: Option<seq<FunctionsApiClient.Customer>>)
      returns (result: CartResult, sent: seq<OrderFunctions.OrderCreate>)
      requires Valid()
      modifies this
      ensures Valid() && nextId == old(nextId)
      ensures OneRowPerPair(old(rows)) ==> OneRowPerPair(rows)
      ensures IsNullOrEmpty(username) ==> result == RedirectTo("Cart", "Index") && sent == [] && rows == old(rows)
      ensures !IsNullOrEmpty(username) && customers.None? ==> result == Unhandled && sent == [] && rows == old(rows)
      ensures !IsNullOrEmpty(username) && customers.Some? && FunctionsApiClient.GetCustomer(customers.value, username.value).None? ==>
        result == RedirectTo("Cart", "Index") && sent == [] && rows == old(rows)
      ensures !IsNullOrEmpty(username) && Filter(old(rows), OwnedBy(username.value)) == [] ==>
        sent == [] && rows == old(rows) && (customers.Some? ==> result == RedirectTo("Cart", "Index"))
      ensures !IsNullOrEmpty(username) && customers.Some? && FunctionsApiClient.GetCustomer(customers.value, username.value).Some?
              && Filter(old(rows), OwnedBy(username.value)) != [] ==>
        var mine := Filter(old(rows), OwnedBy(username.value));
        var customer := FunctionsApiClient.GetCustomer(customers.value, username.value).value;
        && |sent| == |mine|
        && (forall i :: 0 <= i < |mine| ==>
              sent[i] == FunctionsApiClient.CreateOrderPayload(Some(customer.customerId), Some(mine[i].productId), mine[i].quantity))
        && rows == Filter(old(rows), OthersOf(username.value))
        && result == RedirectTo("Order", "MyOrders")
    {
      sent := [];
      if IsNullOrEmpty(username) {
        return RedirectTo("Cart", "Index"), sent;
      }
      var user := username.value;
      if customers.None? {
        return Unhandled, sent;
      }
      var customer := FunctionsApiClient.GetCustomer(customers.value, user);
      if customer.None? {
        return RedirectTo("Cart", "Index"), sent;
      }
      var items := Filter(rows, OwnedBy(user));
      if items == [] {
        return RedirectTo("Cart", "Index"), sent;
      }
      sent := PostOrders(customer.value.customerId, items);
      if OneRowPerPair(rows) {
        FilterKeepsOneRowPerPair(rows, OthersOf(user));
      }
      rows := Filter(rows, OthersOf(user));
      result := RedirectTo("Order", "MyOrders");
    }
  }
}
