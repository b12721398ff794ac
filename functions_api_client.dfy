/** The web app's client of the Functions API: its routes, the mapping of an
    order as the API returns it to the app's order, the two customer lookups
    by user name, and the multipart form it sends to create or update a
    product. */
module FunctionsApiClient {
  import opened Wrappers
  import opened Text
  import opened Entities
  import ProductFunctions
  import OrderFunctions

  // ---------- Routes ----------

  const CustomersRoute: string := "api/customer"
  const ProductsRoute: string := "api/products"
  const OrdersRoute: string := "api/orders"

  /** The route of one record: `{route}/{id}`. */
  function ItemRoute(route: string, id: string): string {
    route + "/" + id
  }

  /** The route of an order's status: `api/orders/{id}/status`. */
  function StatusRoute(id: string): string {
    ItemRoute(OrdersRoute, id) + "/status"
  }

  /** An item route gives back its collection route and its id, and the status
      route is the order's item route with "/status" after it. */
  lemma RoutesSplit(route: string, id: string)
    requires '/' !in id
    ensures var r := ItemRoute(route, id);
      && r[..|route|] == route && r[|route|] == '/' && r[|route| + 1..] == id
      && LastIndexOf(r, '/') == Some(|route|)
    ensures StatusRoute(id) == "api/orders/" + id + "/status"
  {
    var r := ItemRoute(route, id);
    assert r[|route| + 1..] == id;
    forall j | |route| < j < |r| ensures r[j] != '/' {
      assert r[j] == id[j - |route| - 1];
    }
  }

  // ---------- Orders ----------

  datatype OrderStatus = Submitted | Processing | Completed | Canceled

  function StatusName(s: OrderStatus): string {
    match s
    case Submitted => "Submitted"
    case Processing => "Processing"
    case Completed => "Completed"
    case Canceled => "Canceled"
  }

  /** `Enum.TryParse<OrderStatus>(text, ignoreCase: true, out s)` on member
      names: the status whose name the text spells in any letter case. */
  function ParseStatus(text: Option<string>): (r: Option<OrderStatus>)
    ensures r.Some? ==> text.Some? && EqualsIgnoreCase(text.value, StatusName(r.value))
    ensures r.None? ==> text.None? || forall s: OrderStatus :: !EqualsIgnoreCase(text.value, StatusName(s))
  {
    if text.None? then None
    else if EqualsIgnoreCase(text.value, "Submitted") then Some(Submitted)
    else if EqualsIgnoreCase(text.value, "Processing") then Some(Processing)
    else if EqualsIgnoreCase(text.value, "Completed") then Some(Completed)
    else if EqualsIgnoreCase(text.value, "Canceled") then Some(Canceled)
    else None
  }

  /** Any spelling of a status name, in any letter case, parses to that status. */
  lemma ParseStatusName(s: OrderStatus, text: string)
    requires EqualsIgnoreCase(text, StatusName(s))
    ensures ParseStatus(Some(text)) == Some(s)
  {
    // Distinct status names differ in length or in their upper-cased first
    // letter, so the text matches no other name.
    assert ToUpper(text[0]) == ToUpper(StatusName(s)[0]);
  }

  /** An order as the Functions API returns it; absent text is None. */
  datatype OrderDto = OrderDto(
    id: string,
    customerId: string,
    productId: string,
    productName: string,
    quantity: int,
    unitPrice: int,
    totalPrice: int,
    orderDateUtc: int,
    status: Option<string>)

  /** The app's order. */
  datatype Order = Order(
    orderId: string,
    customerId: string,
    productId: string,
    productName: string,
    quantity: int,
    unitPrice: int,
    totalPrice: int,
    orderDate: int,
    status: OrderStatus)

  /** `ToOrder`: the status parsed by name, Submitted when it does not parse;
      the total recomputed from price and quantity. */
  function ToOrder(d: OrderDto): Order {
    var status := ParseStatus(d.status).GetOr(Submitted);
    Order(d.id, d.customerId, d.productId, d.productName, d.quantity, d.unitPrice,
          d.unitPrice * d.quantity, d.orderDateUtc, status)
  }

  /** What ToOrder promises: the fields are copied, the DTO's own total is
      ignored in favour of price times quantity, a status name in any case
      maps to its status and anything else to Submitted. */
  lemma ToOrderMapping(d: OrderDto, total: int)
    ensures var o := ToOrder(d);
      && o.orderId == d.id && o.customerId == d.customerId && o.productId == d.productId
      && o.productName == d.productName && o.quantity == d.quantity && o.unitPrice == d.unitPrice
      && o.orderDate == d.orderDateUtc
      && o.totalPrice == o.unitPrice * o.quantity
      && ToOrder(d.(totalPrice := total)) == o
      && (forall s: OrderStatus :: d.status.Some? && EqualsIgnoreCase(d.status.value, StatusName(s)) ==> o.status == s)
      && (d.status.None? || (forall s: OrderStatus :: !EqualsIgnoreCase(d.status.value, StatusName(s))) ==> o.status == Submitted)
  {
    forall s: OrderStatus | d.status.Some? && EqualsIgnoreCase(d.status.value, StatusName(s))
      ensures ToOrder(d).status == s
    {
      ParseStatusName(s, d.status.value);
    }
  }

  /** The body `CreateOrderAsync` posts to the orders route: the order
      function's create request, with null ids passed on as absent. */
  function CreateOrderPayload(customerId: Option<string>, productId: Option<string>, quantity: int): OrderFunctions.OrderCreate {
    OrderFunctions.OrderCreate(customerId, productId, quantity)
  }

  // ---------- Customers ----------

  /** The app's customer. */
  datatype Customer = Customer(
    customerId: string,
    name: string,
    surname: string,
    username: string,
    email: string,
    shippingAddress: string)

  /** The position of the first customer satisfying `p`. */
  function FirstIndex(cs: seq<Customer>, p: Customer -> bool): (r: Option<nat>)
    ensures r.Some? ==> r.value < |cs| && p(cs[r.value])
    ensures r.Some? ==> forall j :: 0 <= j < r.value ==> !p(cs[j])
    ensures r.None? ==> forall j :: 0 <= j < |cs| ==> !p(cs[j])
  {
    if cs == [] then None
    else if p(cs[0]) then Some(0)
    else match FirstIndex(cs[1..], p)
      case None => None
      case Some(i) => Some(i + 1)
  }

  predicate HasUsername(c: Customer, username: string) {
    c.username == username
  }

  predicate HasUsernameIgnoreCase(c: Customer, username: string) {
    EqualsIgnoreCase(c.username, username)
  }

  /** `GetCustomerAsync`: the first customer, in list order, whose user name
      equals `username` exactly. */
  function GetCustomer(cs: seq<Customer>, username: string): (r: Option<Customer>)
    ensures r.Some? ==> r.value in cs && r.value.username == username
    ensures r.Some? ==> exists i :: 0 <= i < |cs| && cs[i] == r.value && forall j :: 0 <= j < i ==> cs[j].username != username
    ensures r.None? <==> forall j :: 0 <= j < |cs| ==> cs[j].username != username
  {
    match FirstIndex(cs, c => HasUsername(c, username))
    case None => None
    case Some(i) => Some(cs[i])
  }

  /** `GetCustomerByUsernameAsync`: the first customer whose user name equals
      `username` ignoring letter case. */
  function GetCustomerByUsername(cs: seq<Customer>, username: string): (r: Option<Customer>)
    ensures r.Some? ==> r.value in cs && EqualsIgnoreCase(r.value.username, username)
    ensures r.Some? ==> exists i :: 0 <= i < |cs| && cs[i] == r.value &&
                          (forall j :: 0 <= j < i ==> !EqualsIgnoreCase(cs[j].username, username))
    ensures r.None? <==> forall j :: 0 <= j < |cs| ==> !EqualsIgnoreCase(cs[j].username, username)
  {
    match FirstIndex(cs, c => HasUsernameIgnoreCase(c, username))
    case None => None
    case Some(i) => Some(cs[i])
  }

  /** Letter case is ignored beyond ASCII too: a customer registered as
      "ÉMILE" is found by "émile", and an earlier "Emile" is passed over. */
  lemma UsernameCaseFoldsAccents(c: Customer, other: Customer)
    requires c.username == "\U{00C9}MILE" && other.username == "Emile"
    ensures GetCustomerByUsername([other, c], "\U{00E9}mile") == Some(c)
  {
    assert !EqualsIgnoreCase(other.username, "\U{00E9}mile") by {
      assert ToUpper(other.username[0]) != ToUpper("\U{00E9}mile"[0]);
    }
    var cs := [other, c];
    assert cs[1] == c;
    assert EqualsIgnoreCase(c.username, "\U{00E9}mile") by {
      assert ToUpper(c.username[0]) == ToUpper("\U{00E9}mile"[0]);
    }
  }

  /** An exact match is a case-insensitive match, so the case-insensitive
      lookup finds a customer whenever the exact one does, at the same
      position or earlier. */
  lemma ExactMatchFoundIgnoringCase(cs: seq<Customer>, username: string)
    requires GetCustomer(cs, username).Some?
    ensures GetCustomerByUsername(cs, username).Some?
    ensures var i := FirstIndex(cs, c => HasUsername(c, username));
      var j := FirstIndex(cs, c => HasUsernameIgnoreCase(c, username));
      i.Some? && j.Some? && j.value <= i.value
  {
    var i := FirstIndex(cs, c => HasUsername(c, username));
    var j := FirstIndex(cs, c => HasUsernameIgnoreCase(c, username));
    assert HasUsernameIgnoreCase(cs[i.value], username);
  }

  // ---------- The product form ----------

  /** The app's product as the edit form fills it; Description and ImageUrl
      may be null. */
  datatype Product = Product(
    productName: string,
    description: Option<string>,
    price: int,
    stockAvailable: int,
    imageUrl: Option<string>)

  /** An uploaded file as the app receives it. */
  datatype UploadFile = UploadFile(fileName: string, length: nat)

  /** A part of a multipart body. */
  datatype Part = TextPart(name: string, value: string) | FileContent(name: string, fileName: string, length: nat)

  /** The parts `CreateProductAsync` and `UpdateProductAsync` send: name,
      description ("" for null), price and stock always; ImageUrl only when it
      is not blank; ImageFile only for a file with data. */
  function ProductFormParts(p: Product, file: Option<UploadFile>): seq<Part> {
    BaseParts(p)
    + (if !IsNullOrWhiteSpace(p.imageUrl) then [TextPart("ImageUrl", p.imageUrl.value)] else [])
    + (if file.Some? && file.value.length > 0 then [FileContent("ImageFile", file.value.fileName, file.value.length)] else [])
  }

  /** The four text parts every product form carries. */
  function BaseParts(p: Product): seq<Part> {
    [TextPart("ProductName", p.productName),
     TextPart("Description", p.description.GetOr("")),
     TextPart("Price", FormatInt(p.price)),
     TextPart("StockAvailable", FormatInt(p.stockAvailable))]
  }

  /** The form building of `CreateProductAsync` / `UpdateProductAsync`, one
      `form.Add` at a time. */
  method BuildProductForm(p: Product, file: Option<UploadFile>) returns (form: seq<Part>)
    ensures form == ProductFormParts(p, file)
  {
    form := [];
    form := form + [TextPart("ProductName", p.productName)];
    form := form + [TextPart("Description", p.description.GetOr(""))];
    form := form + [TextPart("Price", FormatInt(p.price))];
    form := form + [TextPart("StockAvailable", FormatInt(p.stockAvailable))];
    if !IsNullOrWhiteSpace(p.imageUrl) {
      form := form + [TextPart("ImageUrl", p.imageUrl.value)];
    }
    if file.Some? && file.value.length > 0 {
      form := form + [FileContent("ImageFile", file.value.fileName, file.value.length)];
    }
  }

  /** The form the Functions app reads from these parts: text parts by name
      (a later part with the same name wins), file parts in order. */
  function Received(parts: seq<Part>): ProductFunctions.Form {
    ProductFunctions.Form(TextFields(parts), FileParts(parts))
  }

  function TextFields(parts: seq<Part>): map<string, string> {
    if parts == [] then map[]
    else
      var rest := TextFields(parts[..|parts| - 1]);
      var last := parts[|parts| - 1];
      if last.TextPart? then rest[last.name := last.value] else rest
  }

  function FileParts(parts: seq<Part>): seq<ProductFunctions.FilePart> {
    if parts == [] then []
    else
      var rest := FileParts(parts[..|parts| - 1]);
      var last := parts[|parts| - 1];
      if last.FileContent? then rest + [ProductFunctions.FilePart(last.name, last.fileName, last.length)] else rest
  }

  /** Reading one more part. */
  lemma ReceivedSnoc(parts: seq<Part>, last: Part)
    ensures TextFields(parts + [last]) == if last.TextPart? then TextFields(parts)[last.name := last.value] else TextFields(parts)
    ensures FileParts(parts + [last]) == if last.FileContent? then FileParts(parts) + [ProductFunctions.FilePart(last.name, last.fileName, last.length)] else FileParts(parts)
  {
    assert (parts + [last])[..|parts|] == parts;
  }

  /** The four text parts read back: exactly those four fields, no file. */
  lemma ReceivedBaseParts(p: Product)
    ensures TextFields(BaseParts(p)) == map["ProductName" := p.productName, "Description" := p.description.GetOr(""),
                                            "Price" := FormatInt(p.price), "StockAvailable" := FormatInt(p.stockAvailable)]
    ensures FileParts(BaseParts(p)) == []
  {
    var s := BaseParts(p);
    ReceivedSnoc([], s[0]);
    assert [] + [s[0]] == s[..1];
    ReceivedSnoc(s[..1], s[1]);
    assert s[..1] + [s[1]] == s[..2];
    ReceivedSnoc(s[..2], s[2]);
    assert s[..2] + [s[2]] == s[..3];
    ReceivedSnoc(s[..3], s[3]);
    assert s[..3] + [s[3]] == s;
  }

  /** The text fields and files of the product form, read back. */
  lemma ReceivedProductForm(p: Product, file: Option<UploadFile>)
    ensures var f := Received(ProductFormParts(p, file));
      && f.text.Keys == {"ProductName", "Description", "Price", "StockAvailable"}
                        + (if !IsNullOrWhiteSpace(p.imageUrl) then {"ImageUrl"} else {})
      && f.text["ProductName"] == p.productName
      && f.text["Description"] == p.description.GetOr("")
      && f.text["Price"] == FormatInt(p.price)
      && f.text["StockAvailable"] == FormatInt(p.stockAvailable)
      && (!IsNullOrWhiteSpace(p.imageUrl) ==> f.text["ImageUrl"] == p.imageUrl.value)
      && f.files == (if file.Some? && file.value.length > 0
                     then [ProductFunctions.FilePart("ImageFile", file.value.fileName, file.value.length)] else [])
  {
    var s4 := BaseParts(p);
    ReceivedBaseParts(p);
    var s5 := s4;
    if !IsNullOrWhiteSpace(p.imageUrl) {
      s5 := s4 + [TextPart("ImageUrl", p.imageUrl.value)];
      ReceivedSnoc(s4, TextPart("ImageUrl", p.imageUrl.value));
    }
    var s6 := s5;
    if file.Some? && file.value.length > 0 {
      var part := FileContent("ImageFile", file.value.fileName, file.value.length);
      s6 := s5 + [part];
      ReceivedSnoc(s5, part);
    }
    assert s6 == ProductFormParts(p, file);
  }

  /** Creating a product through the form stores what the app sent: name,
      description, price and stock come back unchanged; the image URL is the
      uploaded file's, else the app's ImageUrl when not blank, else "". */
  lemma CreateRoundTrip(p: Product, file: Option<UploadFile>, uploadedUrl: string)
    requires IsInt32(p.price) && IsInt32(p.stockAvailable)
    ensures var got := ProductFunctions.FormProduct(Received(ProductFormParts(p, file)), uploadedUrl);
      && got.productName == p.productName
      && got.description == p.description.GetOr("")
      && got.price == p.price
      && got.stockAvailable == p.stockAvailable
      && got.imageUrl == (if file.Some? && file.value.length > 0 then uploadedUrl
                          else if !IsNullOrWhiteSpace(p.imageUrl) then p.imageUrl.value else "")
  {
    ReceivedProductForm(p, file);
    ParseFormat(p.price);
    ParseFormat(p.stockAvailable);
    var f := Received(ProductFormParts(p, file));
    if file.Some? && file.value.length > 0 {
      assert f.files[0].fieldName == ProductFunctions.ImageField;
    }
  }

  /** Updating through the form replaces name, description, price and stock,
      but a blank ImageUrl is not sent, so the stored image URL survives
      unless a file is uploaded. */
  lemma UpdateRoundTrip(stored: ProductEntity, p: Product, file: Option<UploadFile>)
    requires IsInt32(p.price) && IsInt32(p.stockAvailable)
    ensures var got := ProductFunctions.FormMerged(stored, Received(ProductFormParts(p, file)).text);
      && got.productName == p.productName
      && got.description == p.description.GetOr("")
      && got.price == p.price
      && got.stockAvailable == p.stockAvailable
      && got.imageUrl == (if !IsNullOrWhiteSpace(p.imageUrl) then p.imageUrl.value else stored.imageUrl)
  {
    ReceivedProductForm(p, file);
    ParseFormat(p.price);
    ParseFormat(p.stockAvailable);
  }
}
