/** The product endpoints of the Functions app: creating a product from a
    multipart form or a JSON body (with an optional image upload and an
    image-processing notification), merging an update into the stored product,
    listing, reading and deleting products. */
module ProductFunctions {
  import opened Wrappers
  import opened Text
  import opened Entities
  import opened Storage

  /** A file part of a multipart body; `length` is the size of its data. */
  datatype FilePart = FilePart(fieldName: string, fileName: string, length: nat)

  /** A parsed multipart body: its text fields and its file parts in order. */
  datatype Form = Form(text: map<string, string>, files: seq<FilePart>)

  /** A value of a JSON object read as `Dictionary<string, object>`: JSON null,
      or an element, represented by the text its `ToString()` gives. */
  datatype JsonValue = JNull | JText(text: string)

  /** A request as the endpoint sees it: the Content-Type header, the body as
      the multipart parser reads it, and the body as the JSON reader reads it
      (None for a literal JSON `null`). Only the reading that the content type
      selects is used. */
  datatype ProductRequest = ProductRequest(contentType: string, form: Form, json: Option<map<string, JsonValue>>)

  const ImageField: string := "ImageFile"
  const NameRequired: string := "ProductName is required"
  const ProductNotFound: string := "Product not found"

  predicate IsMultipart(contentType: string) {
    StartsWithIgnoreCase(contentType, "multipart/form-data")
  }

  /** `files.FirstOrDefault(f => f.FieldName == field)`. */
  function FirstFile(files: seq<FilePart>, field: string): (r: Option<FilePart>)
    ensures r.None? <==> forall i :: 0 <= i < |files| ==> files[i].fieldName != field
    ensures r.Some? ==> (exists i :: 0 <= i < |files| && files[i] == r.value && files[i].fieldName == field
                                     && forall j :: 0 <= j < i ==> files[j].fieldName != field)
  {
    if files == [] then None
    else if files[0].fieldName == field then Some(files[0])
    else
      var r := FirstFile(files[1..], field);
      assert forall j :: 1 <= j < |files| ==> files[j] == files[1..][j - 1];
      r
  }

  /** The image file to upload: the first ImageFile part, when it has data. */
  function ImageToUpload(form: Form): Option<FilePart> {
    var f := FirstFile(form.files, ImageField);
    if f.Some? && f.value.length > 0 then f else None
  }

  /** The name given to an uploaded image: a fresh GUID, a dash, the file name. */
  function ImageBlobName(guid: string, file: FilePart): string {
    guid + "-" + file.fileName
  }

  /** The blob Create or Update uploads for a request, if any. */
  function UploadName(request: ProductRequest, guid: string): Option<string> {
    if IsMultipart(request.contentType) && ImageToUpload(request.form).Some?
    then Some(ImageBlobName(guid, ImageToUpload(request.form).value))
    else None
  }

  /** `text.GetValueOrDefault(key) ?? default`. */
  function TextOr(text: map<string, string>, key: string, default: string): string {
    if key in text then text[key] else default
  }

  /** `int.TryParse(s, out n)` read as a value: 0 when it fails. */
  function IntOr0(s: string): int {
    ParseInt(s).GetOr(0)
  }

  /** `v?.ToString() ?? ""` on a JSON value, "" when the key is absent. */
  function JsonTextOr(fields: map<string, JsonValue>, key: string, default: string): string {
    if key in fields && fields[key].JText? then fields[key].text else default
  }

  /** A key whose value is a JSON element, not null. */
  predicate HasElement(fields: map<string, JsonValue>, key: string) {
    key in fields && fields[key].JText?
  }

  // ---------- Create ----------

  /** The product Create builds from a form; `uploadedUrl` is the URL of the
      uploaded image, used only when there is one. */
  function FormProduct(form: Form, uploadedUrl: string): ProductEntity {
    ProductEntity(
      TextOr(form.text, "ProductName", ""),
      TextOr(form.text, "Description", ""),
      IntOr0(TextOr(form.text, "Price", "0")),
      IntOr0(TextOr(form.text, "StockAvailable", "0")),
      if ImageToUpload(form).Some? then uploadedUrl else TextOr(form.text, "ImageUrl", ""))
  }

  /** The product Create builds from a JSON object. `Convert.ToDouble` and
      `Convert.ToInt32` are given the boxed JSON element, which they cannot
      convert: a Price or StockAvailable that is present and not null throws
      (None); a null or absent one reads as 0. */
  function JsonProduct(fields: map<string, JsonValue>): Option<ProductEntity> {
    if HasElement(fields, "Price") || HasElement(fields, "StockAvailable") then None
    else Some(ProductEntity(
      JsonTextOr(fields, "ProductName", ""),
      JsonTextOr(fields, "Description", ""),
      0, 0,
      JsonTextOr(fields, "ImageUrl", "")))
  }

  /** The product a create request describes; None when reading it throws. */
  function Drafted(request: ProductRequest, uploadedUrl: string): Option<ProductEntity> {
    if IsMultipart(request.contentType) then Some(FormProduct(request.form, uploadedUrl))
    else JsonProduct(request.json.GetOr(map[]))
  }

  /** Missing or unparseable numbers in a form default to 0; present, parsing
      ones are taken as they are. */
  lemma FormNumbersDefault(form: Form, uploadedUrl: string)
    ensures var p := FormProduct(form, uploadedUrl);
      && (("Price" !in form.text || ParseInt(form.text["Price"]).None?) ==> p.price == 0)
      && ("Price" in form.text && ParseInt(form.text["Price"]).Some? ==> p.price == ParseInt(form.text["Price"]).value)
      && (("StockAvailable" !in form.text || ParseInt(form.text["StockAvailable"]).None?) ==> p.stockAvailable == 0)
      && ("StockAvailable" in form.text && ParseInt(form.text["StockAvailable"]).Some? ==>
            p.stockAvailable == ParseInt(form.text["StockAvailable"]).value)
  {
    assert ParseInt("0") == Some(0) by { ParseFormat(0); }
  }

  /** The image URL is the uploaded blob's when a file with data came with
      the form, otherwise the form's ImageUrl field, or "". */
  lemma FormImageChoice(form: Form, uploadedUrl: string)
    ensures var p := FormProduct(form, uploadedUrl);
      && ((exists i :: 0 <= i < |form.files| && form.files[i].fieldName == ImageField
                      && form.files[i].length > 0
                      && forall j :: 0 <= j < i ==> form.files[j].fieldName != ImageField)
          ==> p.imageUrl == uploadedUrl)
      && (ImageToUpload(form).None? ==> p.imageUrl == TextOr(form.text, "ImageUrl", ""))
  {
    var f := FirstFile(form.files, ImageField);
    if f.Some? {
      var i :| 0 <= i < |form.files| && form.files[i] == f.value && form.files[i].fieldName == ImageField
        && forall j :: 0 <= j < i ==> form.files[j].fieldName != ImageField;
    }
  }

  /** `SendToQueueManual`: sends the message and swallows a failure. */
  method SendToQueueManual<M>(queue: Queue<M>, m: M, delivered: bool)
    modifies queue
    ensures queue.messages == if delivered then old(queue.messages) + [m] else old(queue.messages)
  {
    var _ := queue.Send(m, delivered);
  }

  /** `Create` (POST products). `productId` and `guid` stand for the new row key
      and the GUID of an uploaded image's name; `queued` says whether the
      image-processing queue accepts its message. */
  method Create(request: ProductRequest, productId: string, guid: string, queued: bool,
                products: Table<ProductEntity>, images: BlobContainer, imageQueue: Queue<string>)
    returns (reply: Reply<Listed<ProductEntity>>)
    requires products.Valid()
    modifies products, images, imageQueue
    ensures products.Valid()
    // The image upload fails when its name is taken; nothing is written.
    ensures UploadName(request, guid).Some? && UploadName(request, guid).value in old(images.blobs) ==>
      && reply == Unhandled
      && products.rows == old(products.rows) && images.blobs == old(images.blobs)
      && imageQueue.messages == old(imageQueue.messages)
    ensures UploadName(request, guid).None? ==> images.blobs == old(images.blobs)
    ensures UploadName(request, guid).Some? && UploadName(request, guid).value !in old(images.blobs) ==>
      images.blobs == old(images.blobs)[UploadName(request, guid).value := ImageToUpload(request.form).value.length]
    ensures UploadName(request, guid).None? || UploadName(request, guid).value !in old(images.blobs) ==>
      var d := Drafted(request, BlobUrl(images.host, images.name, UploadName(request, guid).GetOr("")));
      var k := ProductKey(productId);
      && (d.None? ==>
            reply == Unhandled && products.rows == old(products.rows) && imageQueue.messages == old(imageQueue.messages))
      // A blank name is refused after the image was uploaded.
      && (d.Some? && IsBlank(d.value.productName) ==>
            && reply == Text(BadRequest, NameRequired)
            && products.rows == old(products.rows) && imageQueue.messages == old(imageQueue.messages))
      && (d.Some? && !IsBlank(d.value.productName) && k in old(products.rows) ==>
            reply == Unhandled && products.rows == old(products.rows) && imageQueue.messages == old(imageQueue.messages))
      && (d.Some? && !IsBlank(d.value.productName) && k !in old(products.rows) ==>
            var url := d.value.imageUrl;
            && products.rows == old(products.rows)[k := Row(d.value, old(products.nextTag))]
            && (url == "" ==>
                  reply == Json(Created, Listed(productId, d.value)) && imageQueue.messages == old(imageQueue.messages))
            // An image URL that is not an absolute URL throws after the insert.
            && (url != "" && LocalPath(url).None? ==>
                  reply == Unhandled && imageQueue.messages == old(imageQueue.messages))
            && (url != "" && LocalPath(url).Some? ==>
                  && reply == Json(Created, Listed(productId, d.value))
                  && imageQueue.messages == old(imageQueue.messages)
                       + (if queued then [FileName(LocalPath(url).value)] else [])))
  {
    var name, desc, imageUrl := "", "", "";
    var price, stock := 0, 0;
    if IsMultipart(request.contentType) {
      var form := request.form;
      name := TextOr(form.text, "ProductName", "");
      desc := TextOr(form.text, "Description", "");
      price := IntOr0(TextOr(form.text, "Price", "0"));
      stock := IntOr0(TextOr(form.text, "StockAvailable", "0"));
      var file := FirstFile(form.files, ImageField);
      if file.Some? && file.value.length > 0 {
        var blob := ImageBlobName(guid, file.value);
        var uploaded := images.Upload(blob, file.value.length);
        if !uploaded {
          return Unhandled;
        }
        imageUrl := BlobUrl(images.host, images.name, blob);
      } else {
        imageUrl := TextOr(form.text, "ImageUrl", "");
      }
    } else {
      var body := request.json.GetOr(map[]);
      name := JsonTextOr(body, "ProductName", "");
      desc := JsonTextOr(body, "Description", "");
      if HasElement(body, "Price") || HasElement(body, "StockAvailable") {
        return Unhandled;
      }
      imageUrl := JsonTextOr(body, "ImageUrl", "");
    }
    if IsBlank(name) {
      return Text(BadRequest, NameRequired);
    }
    var e := ProductEntity(name, desc, price, stock, imageUrl);
    reply := InsertAndQueue(productId, e, queued, products, imageQueue);
  }

  /** The end of `Create`: insert the row, then, for a non-empty image URL,
      queue the file name of its local path. */
  method InsertAndQueue(productId: string, e: ProductEntity, queued: bool,
                        products: Table<ProductEntity>, imageQueue: Queue<string>)
    returns (reply: Reply<Listed<ProductEntity>>)
    requires products.Valid()
    modifies products, imageQueue
    ensures products.Valid()
    ensures ProductKey(productId) in old(products.rows) ==>
      reply == Unhandled && products.rows == old(products.rows) && imageQueue.messages == old(imageQueue.messages)
    ensures ProductKey(productId) !in old(products.rows) ==>
      && products.rows == old(products.rows)[ProductKey(productId) := Row(e, old(products.nextTag))]
      && (e.imageUrl == "" ==>
            reply == Json(Created, Listed(productId, e)) && imageQueue.messages == old(imageQueue.messages))
      && (e.imageUrl != "" && LocalPath(e.imageUrl).None? ==>
            reply == Unhandled && imageQueue.messages == old(imageQueue.messages))
      && (e.imageUrl != "" && LocalPath(e.imageUrl).Some? ==>
            && reply == Json(Created, Listed(productId, e))
            && imageQueue.messages == old(imageQueue.messages)
                 + (if queued then [FileName(LocalPath(e.imageUrl).value)] else []))
  {
    var added := products.Add(ProductKey(productId), e);
    if !added {
      return Unhandled;
    }
    if e.imageUrl != "" {
      var path := LocalPath(e.imageUrl);
      if path.None? {
        return Unhandled;
      }
      SendToQueueManual(imageQueue, FileName(path.value), queued);
    }
    reply := Json(Created, Listed(productId, e));
  }

  /** The image-processing message names the blob that was uploaded, when the
      host, container and file name keep to one path segment each. */
  lemma ImageMessageNamesBlob(form: Form, host: string, container: string, guid: string)
    requires ImageToUpload(form).Some?
    requires IsHost(host) && IsSegment(container) && IsSegment(ImageBlobName(guid, ImageToUpload(form).value))
    ensures var blob := ImageBlobName(guid, ImageToUpload(form).value);
      var url := FormProduct(form, BlobUrl(host, container, blob)).imageUrl;
      url != "" && LocalPath(url).Some? && FileName(LocalPath(url).value) == blob
  {
    var blob := ImageBlobName(guid, ImageToUpload(form).value);
    BlobUrlFileName(host, container, blob);
  }

  // ---------- Update ----------

  /** A number field of a form applied to a stored value: replaced only when
      the key is present and its text parses. */
  function ParsedOr(text: map<string, string>, key: string, current: int): int {
    if key in text && ParseInt(text[key]).Some? then ParseInt(text[key]).value else current
  }

  /** The multipart merge of Update's text fields: each present field replaces
      the stored one (an empty text included); Price and StockAvailable only
      when they parse. */
  function FormMerged(e: ProductEntity, text: map<string, string>): ProductEntity {
    ProductEntity(
      TextOr(text, "ProductName", e.productName),
      TextOr(text, "Description", e.description),
      ParsedOr(text, "Price", e.price),
      ParsedOr(text, "StockAvailable", e.stockAvailable),
      TextOr(text, "ImageUrl", e.imageUrl))
  }

  /** The JSON merge of Update: a present, non-null text field replaces the
      stored one; a present number replaces it when its text parses; a present
      null Price or StockAvailable throws (None), as `ToString()` is called on
      null. */
  function JsonMerged(e: ProductEntity, fields: map<string, JsonValue>): Option<ProductEntity> {
    if ("Price" in fields && fields["Price"].JNull?) || ("StockAvailable" in fields && fields["StockAvailable"].JNull?)
    then None
    else
      var numbers := map k | k in fields.Keys && k in {"Price", "StockAvailable"} :: fields[k].text;
      Some(ProductEntity(
        JsonTextOr(fields, "ProductName", e.productName),
        JsonTextOr(fields, "Description", e.description),
        ParsedOr(numbers, "Price", e.price),
        ParsedOr(numbers, "StockAvailable", e.stockAvailable),
        JsonTextOr(fields, "ImageUrl", e.imageUrl)))
  }

  /** The form branch of Update, field by field on the fetched entity. */
  method MergeForm(e: ProductEntity, text: map<string, string>) returns (r: ProductEntity)
    ensures r == FormMerged(e, text)
    // Absent fields keep their values.
    ensures "ProductName" !in text ==> r.productName == e.productName
    ensures "Description" !in text ==> r.description == e.description
    ensures "Price" !in text ==> r.price == e.price
    ensures "StockAvailable" !in text ==> r.stockAvailable == e.stockAvailable
    ensures "ImageUrl" !in text ==> r.imageUrl == e.imageUrl
  {
    r := e;
    if "ProductName" in text { r := r.(productName := text["ProductName"]); }
    if "Description" in text { r := r.(description := text["Description"]); }
    if "Price" in text {
      var price := ParseInt(text["Price"]);
      if price.Some? { r := r.(price := price.value); }
    }
    if "StockAvailable" in text {
      var stock := ParseInt(text["StockAvailable"]);
      if stock.Some? { r := r.(stockAvailable := stock.value); }
    }
    if "ImageUrl" in text { r := r.(imageUrl := text["ImageUrl"]); }
  }

  /** The JSON branch of Update, field by field on the fetched entity; None
      where it throws. */
  method MergeJson(e: ProductEntity, fields: map<string, JsonValue>) returns (r: Option<ProductEntity>)
    ensures r == JsonMerged(e, fields)
    ensures r.None? <==> ("Price" in fields && fields["Price"].JNull?)
                         || ("StockAvailable" in fields && fields["StockAvailable"].JNull?)
  {
    var x := e;
    if "ProductName" in fields && fields["ProductName"].JText? {
      x := x.(productName := fields["ProductName"].text);
    }
    if "Description" in fields && fields["Description"].JText? {
      x := x.(description := fields["Description"].text);
    }
    if "Price" in fields {
      if fields["Price"].JNull? {
        return None;
      }
      var price := ParseInt(fields["Price"].text);
      if price.Some? { x := x.(price := price.value); }
    }
    if "StockAvailable" in fields {
      if fields["StockAvailable"].JNull? {
        return None;
      }
      var stock := ParseInt(fields["StockAvailable"].text);
      if stock.Some? { x := x.(stockAvailable := stock.value); }
    }
    if "ImageUrl" in fields && fields["ImageUrl"].JText? {
      x := x.(imageUrl := fields["ImageUrl"].text);
    }
    r := Some(x);
  }

  /** Applying the same form twice is applying it once, and an empty form
      changes nothing. */
  lemma FormMergeIdempotent(e: ProductEntity, text: map<string, string>)
    ensures FormMerged(FormMerged(e, text), text) == FormMerged(e, text)
    ensures FormMerged(e, map[]) == e
  {
  }

  /** Update puts no lower bound on the stock: any parsing value is stored,
      a negative one included. */
  lemma UpdateStoresAnyStock(e: ProductEntity, n: int)
    requires IsInt32(n)
    ensures FormMerged(e, map["StockAvailable" := FormatInt(n)]).stockAvailable == n
  {
    ParseFormat(n);
  }

  /** `Update` (PUT products/{id}). `guid` stands for the GUID of an uploaded
      image's name; `rival` is another client's write to the product between
      the read and the update; `sent` says whether the stock queue accepts
      the notification. */
  method Update(id: string, request: ProductRequest, guid: string, rival: Option<ProductEntity>, sent: bool,
                products: Table<ProductEntity>, images: BlobContainer, stockQueue: Queue<Message>)
    returns (reply: Reply<Listed<ProductEntity>>)
    requires products.Valid()
    modifies products, images, stockQueue
    ensures products.Valid()
    ensures ProductKey(id) !in old(products.rows) ==>
      && reply == Text(NotFound, ProductNotFound)
      && products.rows == old(products.rows) && images.blobs == old(images.blobs)
      && stockQueue.messages == old(stockQueue.messages)
    ensures ProductKey(id) in old(products.rows) ==>
      var k := ProductKey(id);
      var before := old(products.rows)[k].value;
      var up := UploadName(request, guid);
      var merged :=
        if IsMultipart(request.contentType) then
          var m := FormMerged(before, request.form.text);
          Some(if up.Some? then m.(imageUrl := BlobUrl(images.host, images.name, up.value)) else m)
        else JsonMerged(before, request.json.GetOr(map[]));
      var failed := merged.None? || (up.Some? && up.value in old(images.blobs)) || rival.Some?;
      // Every failure answers "not found".
      && (failed ==> reply == Text(NotFound, ProductNotFound) && stockQueue.messages == old(stockQueue.messages))
      && (up.Some? && up.value !in old(images.blobs) ==>
            images.blobs == old(images.blobs)[up.value := ImageToUpload(request.form).value.length])
      && (up.None? || up.value in old(images.blobs) ==> images.blobs == old(images.blobs))
      && (merged.None? || (up.Some? && up.value in old(images.blobs)) ==> products.rows == old(products.rows))
      && (merged.Some? && !(up.Some? && up.value in old(images.blobs)) && rival.Some? ==>
            products.rows == old(products.rows)[k := Row(rival.value, old(products.nextTag))])
      && (!failed ==>
            && products.rows.Keys == old(products.rows).Keys
            && products.rows[k].value == merged.value
            && (forall j :: j in old(products.rows) && j != k ==> products.rows[j] == old(products.rows)[j])
            && reply == Json(Ok, Listed(id, merged.value))
            && stockQueue.messages == old(stockQueue.messages)
                 + (if sent then [ProductStockUpdated(id, merged.value.productName, merged.value.stockAvailable)] else []))
  {
    var k := ProductKey(id);
    if k !in products.rows {
      return Text(NotFound, ProductNotFound);
    }
    var read := products.rows[k];
    var e := read.value;
    if IsMultipart(request.contentType) {
      var form := request.form;
      e := MergeForm(e, form.text);
      var file := FirstFile(form.files, ImageField);
      if file.Some? && file.value.length > 0 {
        var blob := ImageBlobName(guid, file.value);
        var uploaded := images.Upload(blob, file.value.length);
        if !uploaded {
          return Text(NotFound, ProductNotFound);
        }
        e := e.(imageUrl := BlobUrl(images.host, images.name, blob));
      }
    } else {
      var merged := MergeJson(e, request.json.GetOr(map[]));
      if merged.None? {
        return Text(NotFound, ProductNotFound);
      }
      e := merged.value;
    }
    if rival.Some? {
      products.Upsert(k, rival.value);
    }
    var updated := products.UpdateIfMatch(k, e, read.etag);
    if !updated {
      return Text(NotFound, ProductNotFound);
    }
    SendToQueueManual(stockQueue, ProductStockUpdated(id, e.productName, e.stockAvailable), sent);
    reply := Json(Ok, Listed(id, e));
  }

  // ---------- Get, List, Delete ----------

  /** `Get` (GET products/{id}). */
  method Get(id: string, products: Table<ProductEntity>) returns (reply: Reply<Listed<ProductEntity>>)
    ensures ProductKey(id) in products.rows ==> reply == Json(Ok, Listed(id, products.rows[ProductKey(id)].value))
    ensures ProductKey(id) !in products.rows ==> reply == Text(NotFound, ProductNotFound)
  {
    var k := ProductKey(id);
    if k in products.rows {
      reply := Json(Ok, Listed(id, products.rows[k].value));
    } else {
      reply := Text(NotFound, ProductNotFound);
    }
  }

  /** `List` (GET products): every row of the product partition, once, in the
      order the table enumerates them. */
  method List(products: Table<ProductEntity>) returns (reply: Reply<seq<Listed<ProductEntity>>>)
    ensures reply.Json? && reply.code == Ok
    ensures forall l :: l in reply.body ==>
      ProductKey(l.rowKey) in products.rows && products.rows[ProductKey(l.rowKey)].value == l.entity
    ensures forall k :: k in products.rows && k.partition == ProductPartition ==>
      multiset(reply.body)[Listed(k.rowKey, products.rows[k].value)] == 1
  {
    var items := QueryWhere(products.rows, ProductPartition, (p: ProductEntity) => true);
    reply := Json(Ok, items);
  }

  /** `Delete` (DELETE products/{id}): removes the row if there is one and
      answers 204 either way. */
  method Delete(id: string, products: Table<ProductEntity>) returns (reply: Reply<Listed<ProductEntity>>)
    requires products.Valid()
    modifies products
    ensures products.Valid()
    ensures reply == NoBody(NoContent)
    ensures products.rows == old(products.rows) - {ProductKey(id)}
  {
    products.Delete(ProductKey(id));
    reply := NoBody(NoContent);
  }
}
