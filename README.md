# ABC Retailers — order, product and customer core in Dafny

ABC Retailers has two parts. The Functions app (`ABCRetailersFunction`) is a set of
HTTP endpoints over three storage tables (orders, products, customers), an image
blob container, and the notification queues. The web app (`CLVD6212_POE`) is an
MVC site. It keeps a shopping cart in its own SQL table and talks to the
Functions app through `FunctionsApiClient`.

This project models both sides:

- **Functions app endpoints**:
  - order `Create`: validate, look up product then customer, check stock, insert the order, then decrement stock under the product's ETag, then notify;
  - order `UpdateStatus`, `Get`, `List`, `GetOrdersByCustomerId`, `Delete`, and the best-effort `SendToQueue`;
  - product `Create`, `Update` (multipart form or JSON), `Get`, `List`, `Delete`;
  - customer `Create`, `Update`, `Get`, `List`, `Delete`.
- **Web app client and controllers**:
  - the API client's routes, `ToOrder`, the two customer lookups, the order-create payload, and the product multipart form;
  - the order controller's current-customer claim chain, the create form's POST, and the `MyOrders`/`Index`/`Manage` listings;
  - the cart controller's `Index`, `Add`, `Remove` and `Checkout`.

Stateful parts are classes whose methods change their fields:

- `Storage.Table` holds rows as a map from (partition, row key) to a record and its ETag.
- `Storage.Queue` holds its messages as a sequence.
- `Storage.BlobContainer` holds its blob names.
- `CartController.CartDb` holds the cart rows as a sequence.
- `OrderController.OrderCreateViewModel` is the bound form.

Every endpoint method states its reply and the whole new state for each branch of the source. The pure functions beside the methods (`Refusal`, `NewCustomer`, `FormProduct`, `FormMerged`, `Added`, `Removed`, `CurrentCustomerId`, `MyOrders`, ...) carry the lemmas.

Inputs the code takes from its environment are parameters:

- new row keys, GUIDs and the clock;
- whether a queue accepts a message;
- another client's write that slips in between a read and a conditional update (`rival`);
- the set of form fields that failed validation;
- whether an API call succeeds.

Modules:

- `Wrappers` (Option);
- `Seqs` (LINQ `Where` and stable `OrderByDescending`);
- `Text` (.NET string helpers, `int.TryParse`, `Uri.LocalPath`, `Path.GetFileName`);
- `Entities`;
- `Storage`;
- `OrderFunctions`;
- `ProductFunctions`;
- `CustomerFunctions`;
- `FunctionsApiClient`;
- `OrderController`;
- `CartController`.

## Model

| member | source | states |
|---|---|---|
| OrderFunctions.Refusal | ABCRetailersFunction/Functions/OrderFunctions.cs:96-143 | The request goes on to the writes exactly when both ids are non-blank, Quantity ≥ 1, the product and the customer exist, and stock covers the quantity. Otherwise the refusal message is the first failing check, in the code's order. |
| OrderFunctions.ProductCheckedFirst | ABCRetailersFunction/Functions/OrderFunctions.cs:115-137 | An unknown product gives "Invalid ProductId: …" whatever the customer table holds. |
| OrderFunctions.NotificationsAgree | ABCRetailersFunction/Functions/OrderFunctions.cs:147-192 | OrderCreated's total is price × quantity with status Submitted. StockReduced's previous stock is the stock read; new = previous + change; 0 ≤ new < previous. |
| OrderFunctions.SendToQueue | ABCRetailersFunction/Functions/OrderFunctions.cs:273-286 | A delivered message is appended to the queue. A failed send changes nothing and is swallowed. |
| OrderFunctions.Create | ABCRetailersFunction/Functions/OrderFunctions.cs:91-201 | A refusal answers 400 and writes nothing. A taken order id answers 400 "Internal error". Otherwise the order (ids and quantity from the request, name and price from the product, Submitted) is inserted first. Then stock is reduced by the quantity under the ETag read, with both notifications and 201. A rival write makes the conditional update fail: 400 "Internal error", the order stays, no notification. |
| OrderFunctions.UpdateStatus | ABCRetailersFunction/Functions/OrderFunctions.cs:204-241 | A blank status answers 400 and a missing order 404. Otherwise the status is overwritten with any text and every other field is kept. A stale ETag answers 404. A failed notification answers 404 after the status was stored. |
| OrderFunctions.Get | ABCRetailersFunction/Functions/OrderFunctions.cs:56-70 | An existing order answers 200 with that order; a missing one answers 404 "Order not found". |
| OrderFunctions.ListWhere | ABCRetailersFunction/Functions/OrderFunctions.cs:47-52 | Every matching order-partition row appears exactly once, nothing else appears, and the list is sorted newest first. |
| OrderFunctions.List | ABCRetailersFunction/Functions/OrderFunctions.cs:40-54 | 200 with every order row exactly once, newest first. |
| OrderFunctions.GetOrdersByCustomerId | ABCRetailersFunction/Functions/OrderFunctions.cs:72-87 | 200 with exactly that customer's orders, each once, newest first. |
| OrderFunctions.Delete | ABCRetailersFunction/Functions/OrderFunctions.cs:243-270 | An existing order is deleted and answers 204, while a missing order answers 500 with nothing deleted, because the read throws before the dead 404 branch. |
| ProductFunctions.FirstFile | ABCRetailersFunction/Functions/ProductFunctions.cs:78 | The first file part with the given field name, or none when no part has it. |
| ProductFunctions.FormNumbersDefault | ABCRetailersFunction/Functions/ProductFunctions.cs:66-76 | A missing or unparseable Price or StockAvailable becomes 0; a parsing one is taken as it is. |
| ProductFunctions.FormImageChoice | ABCRetailersFunction/Functions/ProductFunctions.cs:78-91 | With an ImageFile part that has data, the image URL is the uploaded blob's. Otherwise it is the form's ImageUrl, or "". |
| ProductFunctions.SendToQueueManual | ABCRetailersFunction/Functions/ProductFunctions.cs:130-143 | A delivered message is appended; a failure changes nothing. |
| ProductFunctions.Create | ABCRetailersFunction/Functions/ProductFunctions.cs:57-127 | A blank name answers 400, after any image was uploaded, and inserts nothing. A JSON body with a non-null Price or StockAvailable throws. Otherwise the drafted product is inserted. An image-processing message is queued iff the image URL is non-empty and parses, carrying the file name of the URL's path; a URL `new Uri` rejects throws after the insert. |
| ProductFunctions.InsertAndQueue | ABCRetailersFunction/Functions/ProductFunctions.cs:114-126 | A taken key throws and writes nothing. Otherwise the row is inserted; a non-empty image URL that parses queues its file name (when the queue accepts it) and answers 201; one that does not parse throws after the insert. |
| ProductFunctions.ImageMessageNamesBlob | ABCRetailersFunction/Functions/ProductFunctions.cs:83-86 | For an uploaded image, the queued message is exactly the blob name. This relies on `ProductFunctions.cs:117-123`. |
| ProductFunctions.MergeForm | ABCRetailersFunction/Functions/ProductFunctions.cs:162-166 | Each present form key replaces its field; Price and StockAvailable are replaced only when they parse; absent keys keep the stored value. |
| ProductFunctions.MergeJson | ABCRetailersFunction/Functions/ProductFunctions.cs:182-186 | A present non-null text value replaces the field, a null one keeps it, and numbers are replaced when they parse. A null Price or StockAvailable throws. |
| ProductFunctions.FormMergeIdempotent | ABCRetailersFunction/Functions/ProductFunctions.cs:162-166 | Merging the same form twice equals merging it once; an empty form changes nothing. |
| ProductFunctions.UpdateStoresAnyStock | ABCRetailersFunction/Functions/ProductFunctions.cs:165 | Any 32-bit stock value sent, negative included, is stored. |
| ProductFunctions.Update | ABCRetailersFunction/Functions/ProductFunctions.cs:147-203 | A missing product, a JSON null number, a taken blob name or a stale ETag all answer 404. Otherwise the merged record, with the uploaded image URL when a file came, replaces the row. The stock-updates message is sent best-effort, with a 200 reply. |
| ProductFunctions.Get | ABCRetailersFunction/Functions/ProductFunctions.cs:41-55 | An existing product answers 200; a missing one answers 404 "Product not found". |
| ProductFunctions.List | ABCRetailersFunction/Functions/ProductFunctions.cs:27-39 | Exactly the product-partition rows, each once. |
| ProductFunctions.Delete | ABCRetailersFunction/Functions/ProductFunctions.cs:205-212 | Always 204; the row is gone afterwards and nothing else changes. |
| CustomerFunctions.NewCustomer | ABCRetailersFunction/Functions/CustomerFunctions.cs:61-75 | A customer is built iff Name and Email are present and not blank. Absent Surname, Username and ShippingAddress become "", and present fields are copied. |
| CustomerFunctions.Create | ABCRetailersFunction/Functions/CustomerFunctions.cs:57-79 | A refusal answers 200 "Name and Email are required" and writes nothing. A taken key throws. Otherwise the new customer is inserted, with a 200 reply. |
| CustomerFunctions.MergeLaws | ABCRetailersFunction/Functions/CustomerFunctions.cs:94-98 | The null-coalescing merge: an all-absent update changes nothing, an all-present one replaces the record, and merging twice equals merging once. |
| CustomerFunctions.Update | ABCRetailersFunction/Functions/CustomerFunctions.cs:81-107 | A null body answers 200 "Invalid body". A missing customer or a stale ETag answers 200 "Customer not found". Otherwise the merged record is stored; no other row changes. |
| CustomerFunctions.Get | ABCRetailersFunction/Functions/CustomerFunctions.cs:39-53 | An existing customer answers 200 with the record; a missing one answers 200 "Customer not found". |
| CustomerFunctions.List | ABCRetailersFunction/Functions/CustomerFunctions.cs:25-37 | Exactly the customer-partition rows, each once. |
| CustomerFunctions.Delete | ABCRetailersFunction/Functions/CustomerFunctions.cs:109-116 | Always 204; the row is gone afterwards. |
| Storage.QueryWhere | ABCRetailersFunction/Functions/CustomerFunctions.cs:32-34 | The `await foreach` over a partition query yields each matching row of that partition exactly once, and nothing else. |
| Storage.BlobUrlFileName | ABCRetailersFunction/Functions/ProductFunctions.cs:120 | `Path.GetFileName(new Uri(url).LocalPath)` of a blob URL with a non-empty host gives back the blob name. |
| Text.LocalPathNeedsHost | ABCRetailersFunction/Functions/ProductFunctions.cs:120 | `new Uri` rejects a URL with no host, such as "http://". |
| Text.LocalPathSchemeWithPlus | ABCRetailersFunction/Functions/ProductFunctions.cs:120 | A scheme may carry '+': the local path of "svn+ssh://h/a.png" is "/a.png". |
| Text.ParseFormat | ABCRetailersFunction/Functions/ProductFunctions.cs:75-76 | An int32 formatted with the invariant culture parses back to the same integer. |
| FunctionsApiClient.RoutesSplit | CLVD6212_POE/Service/FunctionsApiClient.cs:14-17 | An item route is the collection route, "/", then the id, and splits back at its last "/". The status route is "api/orders/{id}/status". |
| FunctionsApiClient.ParseStatus | CLVD6212_POE/Service/FunctionsApiClient.cs:316 | A result is a status whose name the text spells in any letter case. No result means no status name matches. |
| FunctionsApiClient.ParseStatusName | CLVD6212_POE/Service/FunctionsApiClient.cs:316-317 | Every case-insensitive spelling of a status name parses to exactly that status. |
| FunctionsApiClient.ToOrderMapping | CLVD6212_POE/Service/FunctionsApiClient.cs:314-331 | Fields are copied. The total is unit price × quantity whatever total the API sent. The status is the parsed one, or Submitted when the text does not parse. |
| FunctionsApiClient.FirstIndex | CLVD6212_POE/Service/FunctionsApiClient.cs:59 | The position of the first customer satisfying the test, none before it satisfying it, or none at all. |
| FunctionsApiClient.GetCustomer | CLVD6212_POE/Service/FunctionsApiClient.cs:50-59 | A customer whose user name equals the given one exactly, with no earlier customer having it; none iff no customer has it. |
| FunctionsApiClient.GetCustomerByUsername | CLVD6212_POE/Service/FunctionsApiClient.cs:333-337 | A customer whose user name matches under `OrdinalIgnoreCase`, with no earlier customer matching; none iff none matches. |
| FunctionsApiClient.UsernameCaseFoldsAccents | CLVD6212_POE/Service/FunctionsApiClient.cs:336 | Case is ignored beyond ASCII: "émile" finds the customer "ÉMILE" and passes over an earlier "Emile". |
| FunctionsApiClient.ExactMatchFoundIgnoringCase | CLVD6212_POE/Service/FunctionsApiClient.cs:336 | Whenever the exact lookup finds a customer, the case-insensitive one does too, at the same or an earlier position. |
| FunctionsApiClient.BuildProductForm | CLVD6212_POE/Service/FunctionsApiClient.cs:119-130 | The parts sent are ProductName, Description ("" for null), Price and StockAvailable. ImageUrl is added only when not blank, and ImageFile only for a file with data. |
| FunctionsApiClient.ReceivedBaseParts | CLVD6212_POE/Service/FunctionsApiClient.cs:137-140 | The four mandatory text parts are read back as exactly those four fields and no file. |
| FunctionsApiClient.ReceivedProductForm | CLVD6212_POE/Service/FunctionsApiClient.cs:136-147 | The Functions app reads back exactly those text fields with those values, and the file part only when one was sent. |
| FunctionsApiClient.CreateRoundTrip | CLVD6212_POE/Service/FunctionsApiClient.cs:119-130 | Creating through the form stores the app's name, description, price and stock unchanged. The image URL is the upload's, else the non-blank ImageUrl, else "". |
| FunctionsApiClient.UpdateRoundTrip | CLVD6212_POE/Service/FunctionsApiClient.cs:136-147 | Updating through the form replaces name, description, price and stock. A blank ImageUrl is not sent, so the stored image URL survives. |
| OrderController.FindFirst | CLVD6212_POE/Controllers/OrderController.cs:241-243 | A claim whose type matches the given one ignoring case, with no earlier claim matching; none iff no claim's type matches. |
| OrderController.CurrentCustomerId | CLVD6212_POE/Controllers/OrderController.cs:238-258 | A CustomerId claim's value wins. The result is null iff no claim's type matches CustomerId, NameIdentifier or Name ignoring case and the identity name is null or empty. |
| OrderController.CustomerIdPrecedence | CLVD6212_POE/Controllers/OrderController.cs:241-255 | NameIdentifier is used only without CustomerId, and Name only without both, each matched ignoring case. The identity name is used only without any of the three. |
| OrderController.CustomerIdClaimAnyCase | CLVD6212_POE/Controllers/OrderController.cs:241-246 | A "customerid" claim names the customer, ahead of a later NameIdentifier claim. |
| OrderController.CreatePost | CLVD6212_POE/Controllers/OrderController.cs:115-175 | A customer without an id is redirected to Index with nothing posted. A customer's id is forced onto the form and their CustomerId error dropped. An empty status becomes "Submitted". Remaining errors show the form. Otherwise the create request is posted: success goes to MyOrders for a customer and Index otherwise; failure shows the form. |
| OrderController.NewestFirst | CLVD6212_POE/Controllers/OrderController.cs:23 | A permutation of the orders, sorted by order date descending. The same ordering is used at `OrderController.cs:31`. |
| OrderController.MyOrdersIsFilteredListing | CLVD6212_POE/Controllers/OrderController.cs:427-436 | A customer with an id sees exactly their own orders, newest first. This equals the full newest-first listing with the others' orders removed. |
| OrderController.MyOrdersSameDateKeepsOrder | CLVD6212_POE/Controllers/OrderController.cs:432-434 | Orders of the same date keep the order the API listed them in. |
| OrderController.MyOrdersOtherCases | CLVD6212_POE/Controllers/OrderController.cs:427-443 | A customer without an id sees the list unchanged. Any other user sees every order, newest first. |
| CartController.FindRow | CLVD6212_POE/Controllers/CartController.cs:42 | The position of the first row of that user and product, or none iff there is no such row. |
| CartController.FindRowSamePairs | CLVD6212_POE/Controllers/CartController.cs:42 | Changing quantities or appending a non-matching row does not change which row the lookup finds. |
| CartController.BumpedShape | CLVD6212_POE/Controllers/CartController.cs:42-53 | Every existing row keeps its key, user and product at its position. Rows of other pairs are untouched. A row with quantity 1 is appended exactly when the lookup found none. |
| CartController.BumpedOthers | CLVD6212_POE/Controllers/CartController.cs:42-53 | The quantity of every other (user, product) pair is unchanged. |
| CartController.BumpedOwn | CLVD6212_POE/Controllers/CartController.cs:42-53 | The chosen pair's quantity moves by the step when it had a row, and is 1 otherwise. |
| CartController.BumpedEffect | CLVD6212_POE/Controllers/CartController.cs:42-56 | The chosen pair's quantity moves by the step, or becomes 1 when there was no row. Every other pair keeps its quantity. No row is dropped or re-keyed, and at most one row is added. |
| CartController.BumpedKeepsOneRowPerPair | CLVD6212_POE/Controllers/CartController.cs:42-53 | Add and Remove keep at most one row per (user, product). |
| CartController.RemoveNeverDeletes | CLVD6212_POE/Controllers/CartController.cs:66-77 | Remove decrements an existing row and never deletes it. With no row, it appends a new row with quantity 1. |
| CartController.AddThenRemove | CLVD6212_POE/Controllers/CartController.cs:42-77 | Add followed by Remove restores the quantity, and leaves a row, at 0, even for a product that was not in the cart. |
| CartController.CheckoutQuantities | CLVD6212_POE/Controllers/CartController.cs:159 | After checkout the user's quantities are all 0 and every other user's quantities are unchanged. |
| CartController.FilterKeepsOneRowPerPair | CLVD6212_POE/Controllers/CartController.cs:159 | Removing rows keeps at most one row per (user, product). |
| CartController.PostOrders | CLVD6212_POE/Controllers/CartController.cs:137-156 | Exactly one create request per cart row, in row order, each with the customer's id and that row's product and quantity. |
| CartController.CartDb.Bump | CLVD6212_POE/Controllers/CartController.cs:42-56 | The rows become `Bumped` of the old rows. The next key advances only when a row was inserted. Every key stays below the next key. |
| CartController.CartDb.Index | CLVD6212_POE/Controllers/CartController.cs:24-34 | Without a user name it redirects to the login page. Otherwise it shows exactly the rows of that user, in table order. |
| CartController.CartDb.Add | CLVD6212_POE/Controllers/CartController.cs:36-58 | Without a user name or product id the cart is unchanged. Otherwise the rows become `Added` of the old rows: increment, or insert one row with quantity 1. The one-row-per-pair invariant is kept. |
| CartController.CartDb.Remove | CLVD6212_POE/Controllers/CartController.cs:60-82 | The same guard. The rows become `Removed` of the old rows: decrement, or insert one row with quantity 1. The invariant is kept. |
| CartController.CartDb.Checkout | CLVD6212_POE/Controllers/CartController.cs:110-163 | With no user name, no matching customer, or an empty cart, nothing changes. A failing customer fetch throws. Otherwise one create request is posted per cart row, in order, with the customer's id; failures are swallowed. All of the user's rows are removed and every other row is kept. |

## Left out

- HTTP, JSON serialisation, the Azure Table, Queue and Blob SDKs and EF Core are not modelled as such.
  - Tables are maps with version stamps; queues are sequences; the blob container is a map of names.
  - Every exception the code does not catch is the reply `Unhandled`.
- `MultipartHelper`, the multipart parser, is not part of this model.
  - `FunctionsApiClient.Received` assumes it keeps the last text part of each name and the file parts in order.
- The DTO mapping `Map.ToDto` is not part of this model: replies carry the stored record and its row key.
- Prices are integers, not `double`/`decimal`; "F2"-style formatting and culture are left out.
  - The form and the JSON body parse Price with the same integer parse as StockAvailable, which takes no surrounding whitespace and only the 32-bit range.
- Text.ToUpper: `OrdinalIgnoreCase` is modelled for ASCII, the Latin-1 Supplement (µ included, which upper-cases to Greek capital mu), and the basic Greek and Cyrillic alphabets. Other letters, including the accented Greek ones and Latin Extended, are compared exactly.
- FunctionsApiClient.GetCustomerByUsername: user names that differ only in the case of a letter outside the ranges folded by `Text.ToUpper` are not matched, though .NET matches them.
- OrderController.FindFirst: claim types are compared with the same partial case folding, so a claim type differing from a wanted one only in a letter outside those ranges is missed. The wanted types are ASCII.
- OrderController.CurrentCustomerId: inherits the partial case folding of `OrderController.FindFirst`.
- OrderController.CustomerIdPrecedence: inherits the partial case folding of `OrderController.FindFirst`.
- FunctionsApiClient.ParseStatus: `Enum.TryParse` also accepts numeric strings and comma lists. These are not modelled; only the four member names in any letter case are.
- GUIDs, generated row keys and the clock are parameters, and so are queue-send success and API-call success.
- Concurrency is reduced to one interfering write (`rival`) between a read and its conditional update.
- The exact error-message text of the storage service is abstracted as the error code (`ErrorText`).
- Uri escaping is left out: a blob URL is taken as the plain concatenation `https://host/container/name`.
- ProductFunctions.Create: a non-blob ImageUrl goes through a simplified `new Uri` grammar (`Text.LocalPath`).
  - Accepted: a scheme (a letter, then letters, digits, '+', '-', '.'), then "//", then a non-empty host, except that "file" needs none.
  - .NET also accepts non-hierarchical URIs ("urn:isbn:1"), rooted file paths and drive letters. The model treats these as throwing, so it answers `Unhandled` after the insert where the source queues a name and answers 201.
  - Port, user-info and IPv6 syntax in the authority is not checked.
- CartController.SamePair, CartController.FindRow and CartController.CartDb's Index, Add, Remove and Checkout: two simplifications of the EF Core queries on SQL Server.
  - User names and product ids are compared exactly. SQL Server compares them under the column collation, by default ignoring case and trailing spaces.
  - Rows come back in table order. The `FirstOrDefaultAsync` and `Where` queries have no `OrderBy`, so the database guarantees no order.
- ProductFunctions.Update: the stock-updates message is a raw JSON string built by interpolation. It is modelled as the structured `ProductStockUpdated(id, name, stock)`.
- OrderFunctions.GetOrdersByCustomerId: the reply is modelled as 200 with the list. The synchronous `HttpJson.Ok` it calls is not part of this model.
- Client retries are left out: the PATCH→POST fallback of `UpdateOrderStatusAsync`, `UploadProofOfPaymentAsync` and the other pass-through client calls.
- Authentication, sessions and uploads are left out: login, registration and role setup.
  - The session user name and the user's claims and roles are parameters.
- Queue-processor and blob-trigger functions are left out: they only throw.
- UI pass-through controllers are left out: the product, customer, home and upload controllers.
- The view rendering and dropdown population of the order controller are left out.
- OrderController.CreatePost: `ModelState` is the set of field names whose validation failed.
  - Setting Status to "Submitted" does not clear an existing "Status" error, so such a form is still shown again. This follows the code.
- OrderFunctions: what the order code does not do.
  - `UpdateStatus` overwrites the status with any non-blank text; there is no transition rule.
  - There is no retry on an ETag conflict.
  - Insufficient stock answers 400.
  - `Create` inserts the order before the conditional stock update, so a lost race leaves an order whose stock was never taken.
