/** The web app's order pages: who the current customer is, the create form's
    submission, and which orders each listing shows in which order. */
module OrderController {
  import opened Wrappers
  import opened Text
  import opened Seqs
  import opened FunctionsApiClient

  /** A claim of the signed-in user. */
  datatype Claim = Claim(claimType: string, value: string)

  const CustomerIdClaim: string := "CustomerId"
  const NameIdentifierClaim: string := "http://schemas.xmlsoap.org/ws/2005/05/identity/claims/nameidentifier"
  const NameClaim: string := "http://schemas.xmlsoap.org/ws/2005/05/identity/claims/name"

  /** Whether a claim is of the given type; claim types are compared with
      `StringComparison.OrdinalIgnoreCase`. */
  predicate HasType(c: Claim, claimType: string) {
    EqualsIgnoreCase(c.claimType, claimType)
  }

  /** `User.FindFirst(claimType)`: the first claim whose type matches,
      ignoring letter case. */
  function FindFirst(claims: seq<Claim>, claimType: string): (r: Option<Claim>)
    ensures r.Some? ==> r.value in claims && HasType(r.value, claimType)
    ensures r.Some? ==> exists i :: 0 <= i < |claims| && claims[i] == r.value &&
                          (forall j :: 0 <= j < i ==> !HasType(claims[j], claimType))
    ensures r.None? <==> forall i :: 0 <= i < |claims| ==> !HasType(claims[i], claimType)
  {
    if claims == [] then None
    else if HasType(claims[0], claimType) then Some(claims[0])
    else
      var r := FindFirst(claims[1..], claimType);
      assert forall i :: 1 <= i < |claims| ==> claims[i] == claims[1..][i - 1];
      r
  }

  /** `GetCurrentCustomerId`: the value of the first CustomerId claim, else of
      the first NameIdentifier claim, else of the first Name claim; failing
      all three, the identity's name when it is not empty; else null. */
  function CurrentCustomerId(claims: seq<Claim>, identityName: Option<string>): (r: Option<string>)
    ensures FindFirst(claims, CustomerIdClaim).Some? ==> r == Some(FindFirst(claims, CustomerIdClaim).value.value)
    ensures r.None? <==>
      && (forall i :: 0 <= i < |claims| ==>
            !HasType(claims[i], CustomerIdClaim) && !HasType(claims[i], NameIdentifierClaim) && !HasType(claims[i], NameClaim))
      && IsNullOrEmpty(identityName)
  {
    var found :=
      match FindFirst(claims, CustomerIdClaim)
      case Some(c) => Some(c)
      case None =>
        match FindFirst(claims, NameIdentifierClaim)
        case Some(c) => Some(c)
        case None => FindFirst(claims, NameClaim);
    if found.Some? then Some(found.value.value)
    else if !IsNullOrEmpty(identityName) then identityName
    else None
  }

  /** The fallback order: a claim of an earlier kind wins over any later one,
      and the identity's name is used only when there is no such claim. */
  lemma CustomerIdPrecedence(claims: seq<Claim>, identityName: Option<string>)
    ensures FindFirst(claims, CustomerIdClaim).None? && FindFirst(claims, NameIdentifierClaim).Some? ==>
      CurrentCustomerId(claims, identityName) == Some(FindFirst(claims, NameIdentifierClaim).value.value)
    ensures FindFirst(claims, CustomerIdClaim).None? && FindFirst(claims, NameIdentifierClaim).None?
            && FindFirst(claims, NameClaim).Some? ==>
      CurrentCustomerId(claims, identityName) == Some(FindFirst(claims, NameClaim).value.value)
    ensures (forall i :: 0 <= i < |claims| ==>
               !HasType(claims[i], CustomerIdClaim) && !HasType(claims[i], NameIdentifierClaim) && !HasType(claims[i], NameClaim))
            && !IsNullOrEmpty(identityName) ==>
      CurrentCustomerId(claims, identityName) == identityName
  {
  }

  /** A claim whose type spells "CustomerId" in another letter case still
      names the customer, ahead of any later NameIdentifier claim. */
  lemma CustomerIdClaimAnyCase(v: string, w: string, identityName: Option<string>)
    ensures CurrentCustomerId([Claim("customerid", v), Claim(NameIdentifierClaim, w)], identityName) == Some(v)
  {
    var claims := [Claim("customerid", v), Claim(NameIdentifierClaim, w)];
    assert HasType(claims[0], CustomerIdClaim) by {
      assert forall i :: 0 <= i < 10 ==> ToUpper("customerid"[i]) == ToUpper(CustomerIdClaim[i]);
    }
  }

  /** The order form as it is posted; a field left empty binds as null. */
  class OrderCreateViewModel {
    var customerId: Option<string>
    var productId: Option<string>
    var quantity: int
    var status: Option<string>

    constructor (customerId: Option<string>, productId: Option<string>, quantity: int, status: Option<string>)
      ensures this.customerId == customerId && this.productId == productId
      ensures this.quantity == quantity && this.status == status
    {
      this.customerId := customerId;
      this.productId := productId;
      this.quantity := quantity;
      this.status := status;
    }
  }

  /** What a controller action answers. */
  datatype ActionResult = RedirectTo(action: string) | ShowForm

  /** `Create` (POST). `isCustomer` is `User.IsInRole("Customer")`; `errors`
      holds the names of the form fields that failed validation when the
      form was bound; `apiOk` says whether the API accepts the order. The
      second result is the create request sent to the API, if any. */
  method CreatePost(model: OrderCreateViewModel, isCustomer: bool, claims: seq<Claim>, identityName: Option<string>,
                    errors: set<string>, apiOk: bool)
    returns (result: ActionResult, sent: Option<OrderFunctions.OrderCreate>)
    modifies model
    // A customer with no known id is sent back to the list; nothing is posted.
    ensures isCustomer && IsNullOrEmpty(CurrentCustomerId(claims, identityName)) ==>
      && result == RedirectTo("Index") && sent.None?
      && model.customerId == old(model.customerId) && model.status == old(model.status)
      && model.productId == old(model.productId) && model.quantity == old(model.quantity)
    ensures !(isCustomer && IsNullOrEmpty(CurrentCustomerId(claims, identityName))) ==>
      // A customer always orders for themselves; an admin's choice is kept.
      && model.customerId == (if isCustomer then CurrentCustomerId(claims, identityName) else old(model.customerId))
      && model.status == (if IsNullOrEmpty(old(model.status)) then Some("Submitted") else old(model.status))
      && model.productId == old(model.productId) && model.quantity == old(model.quantity)
      // The customer field's own validation error is forgiven for a customer.
      && var remaining := if isCustomer then errors - {"CustomerId"} else errors;
      && (remaining != {} ==> result == ShowForm && sent.None?)
      && (remaining == {} ==>
            && sent == Some(CreateOrderPayload(model.customerId, model.productId, model.quantity))
            && result == (if !apiOk then ShowForm else if isCustomer then RedirectTo("MyOrders") else RedirectTo("Index")))
  {
    var remaining := errors;
    if isCustomer {
      var current := CurrentCustomerId(claims, identityName);
      if IsNullOrEmpty(current) {
        return RedirectTo("Index"), None;
      }
      model.customerId := current;
      remaining := remaining - {"CustomerId"};
    }
    if IsNullOrEmpty(model.status) {
      model.status := Some("Submitted");
    }
    if remaining != {} {
      return ShowForm, None;
    }
    sent := Some(CreateOrderPayload(model.customerId, model.productId, model.quantity));
    if !apiOk {
      return ShowForm, sent;
    }
    result := if isCustomer then RedirectTo("MyOrders") else RedirectTo("Index");
  }

  // ---------- Listings ----------

  function ByDate(o: Order): int { o.orderDate }

  /** `orders.OrderByDescending(o => o.OrderDate)`, as `Index` and `Manage`
      show them. */
  function NewestFirst(orders: seq<Order>): (r: seq<Order>)
    ensures multiset(r) == multiset(orders)
    ensures SortedDesc(r, ByDate)
  {
    SortDesc(orders, ByDate)
  }

  predicate OwnedBy(o: Order, customerId: string) {
    o.customerId == customerId
  }

  /** `MyOrders`: a customer with a known id sees only their orders, newest
      first; a customer without one sees the whole list as it came; any other
      user sees every order, newest first. */
  function MyOrders(orders: seq<Order>, isCustomer: bool, claims: seq<Claim>, identityName: Option<string>): seq<Order> {
    if isCustomer then
      var id := CurrentCustomerId(claims, identityName);
      if !IsNullOrEmpty(id) then SortDesc(Filter(orders, o => OwnedBy(o, id.value)), ByDate)
      else orders
    else NewestFirst(orders)
  }

  /** A customer's page is the full newest-first listing with other
      customers' orders taken out: exactly their orders, newest first. */
  lemma MyOrdersIsFilteredListing(orders: seq<Order>, claims: seq<Claim>, identityName: Option<string>)
    requires !IsNullOrEmpty(CurrentCustomerId(claims, identityName))
    ensures var id := CurrentCustomerId(claims, identityName).value;
      var mine := MyOrders(orders, true, claims, identityName);
      && mine == Filter(NewestFirst(orders), o => OwnedBy(o, id))
      && (forall o :: o in mine <==> o in orders && o.customerId == id)
      && SortedDesc(mine, ByDate)
  {
    var id := CurrentCustomerId(claims, identityName).value;
    var own := o => OwnedBy(o, id);
    var mine := SortDesc(Filter(orders, own), ByDate);
    assert mine == MyOrders(orders, true, claims, identityName);
    FilterSort(orders, ByDate, own);
    forall o
      ensures o in mine <==> o in orders && o.customerId == id
    {
      SortDescMembership(Filter(orders, own), ByDate, o);
      FilterMembership(orders, own, o);
    }
  }

  /** Orders of one date keep, on a customer's page, the order in which the
      API listed them. */
  lemma MyOrdersSameDateKeepsOrder(orders: seq<Order>, claims: seq<Claim>, identityName: Option<string>, date: int)
    requires !IsNullOrEmpty(CurrentCustomerId(claims, identityName))
    ensures var id := CurrentCustomerId(claims, identityName).value;
      Filter(MyOrders(orders, true, claims, identityName), KeyIs(ByDate, date))
        == Filter(Filter(orders, o => OwnedBy(o, id)), KeyIs(ByDate, date))
  {
    var id := CurrentCustomerId(claims, identityName).value;
    Stable(Filter(orders, o => OwnedBy(o, id)), ByDate, date);
  }

  /** The other two cases of `MyOrders`. */
  lemma MyOrdersOtherCases(orders: seq<Order>, claims: seq<Claim>, identityName: Option<string>)
    ensures IsNullOrEmpty(CurrentCustomerId(claims, identityName)) ==> MyOrders(orders, true, claims, identityName) == orders
    ensures MyOrders(orders, false, claims, identityName) == NewestFirst(orders)
  {
  }
}
