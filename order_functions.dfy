/** The order endpoints of the Functions app: placing an order against the
    product and customer tables, overwriting an order's status, listing,
    reading and deleting orders, and the best-effort queue notifications.
    Each endpoint is a method over the storage tables; its reply is one of the
    app's HTTP outcomes. */
module OrderFunctions {
  import opened Wrappers
  import opened Text
  import opened Seqs
  import opened Entities
  import opened Storage

  /** The body of a create request; a JSON field that is absent is None, an
      absent quantity is 0. */
  datatype OrderCreate = OrderCreate(customerId: Option<string>, productId: Option<string>, quantity: int)

  /** The body of a status update. */
  datatype OrderStatusUpdate = OrderStatusUpdate(status: Option<string>)

  const CreateRequired: string := "CustomerId, ProductId, Quantity >= 1 required"
  const StatusRequired: string := "Status is required"
  const OrderNotFound: string := "Order not found"
  const InitialStatus: string := "Submitted"

  /** A create request that passes the first check: both ids non-blank and a
      quantity of at least one. */
  predicate ValidOrderCreate(input: Option<OrderCreate>) {
    input.Some? && !IsNullOrWhiteSpace(input.value.customerId)
    && !IsNullOrWhiteSpace(input.value.productId) && input.value.quantity >= 1
  }

  /** The refusal a create request meets before anything is written, checked
      in the code's order: the request, then the product, then the customer,
      then the stock; None when the request goes on to the writes. */
  function Refusal(input: Option<OrderCreate>, products: map<Key, Row<ProductEntity>>,
                   customers: map<Key, Row<CustomerEntity>>): (r: Option<string>)
    ensures r.None? <==>
      ValidOrderCreate(input)
      && ProductKey(input.value.productId.value) in products
      && CustomerKey(input.value.customerId.value) in customers
      && products[ProductKey(input.value.productId.value)].value.stockAvailable >= input.value.quantity
  {
    if !ValidOrderCreate(input) then Some(CreateRequired)
    else
      var req := input.value;
      var pk := ProductKey(req.productId.value);
      if pk !in products then Some("Invalid ProductId: " + req.productId.value)
      else if CustomerKey(req.customerId.value) !in customers then Some("Invalid CustomerId: " + req.customerId.value)
      else if products[pk].value.stockAvailable < req.quantity then
        Some("Insufficient stock. Available: " + FormatInt(products[pk].value.stockAvailable))
      else None
  }

  /** The product is looked up before the customer: an unknown product is
      reported whatever the customer table holds. */
  lemma ProductCheckedFirst(input: Option<OrderCreate>, products: map<Key, Row<ProductEntity>>,
                            customers: map<Key, Row<CustomerEntity>>)
    requires ValidOrderCreate(input) && ProductKey(input.value.productId.value) !in products
    ensures Refusal(input, products, customers) == Some("Invalid ProductId: " + input.value.productId.value)
    ensures forall other :: Refusal(input, products, other) == Refusal(input, products, customers)
  {
  }

  /** The order row a request creates: ids and quantity from the request,
      name and price copied from the product as read, status Submitted. */
  function NewOrder(req: OrderCreate, product: ProductEntity, now: int): OrderEntity
    requires req.customerId.Some? && req.productId.Some?
  {
    OrderEntity(req.customerId.value, req.productId.value, product.productName,
                req.quantity, product.price, now, InitialStatus)
  }

  /** The `OrderCreated` notification for a stored order. */
  function OrderCreatedMessage(orderId: string, order: OrderEntity): Message {
    OrderCreated(orderId, order.customerId, order.productId, order.productName,
                 order.quantity, order.unitPrice, order.unitPrice * order.quantity,
                 order.orderDate, order.status)
  }

  /** The `StockReduced` notification for a product whose stock is now
      `reduced.stockAvailable` after taking `quantity` for `orderId`. */
  function StockReducedMessage(productId: string, reduced: ProductEntity, quantity: int, orderId: string): Message {
    StockReduced(productId, reduced.productName, reduced.stockAvailable + quantity,
                 reduced.stockAvailable, -quantity, "OrderCreated", orderId)
  }

  /** The notifications agree with the order: the total is price times
      quantity, and the stock movement balances and never goes below zero. */
  lemma NotificationsAgree(req: OrderCreate, product: ProductEntity, now: int, orderId: string)
    requires req.customerId.Some? && req.productId.Some?
    requires 1 <= req.quantity <= product.stockAvailable
    ensures var order := NewOrder(req, product, now);
      var reduced := product.(stockAvailable := product.stockAvailable - req.quantity);
      var m := OrderCreatedMessage(orderId, order);
      var s := StockReducedMessage(req.productId.value, reduced, req.quantity, orderId);
      && m.totalAmount == product.price * req.quantity
      && m.quantity == req.quantity && m.status == InitialStatus
      && s.previousStock == product.stockAvailable
      && s.newStock == s.previousStock + s.change
      && 0 <= s.newStock < s.previousStock
  {
  }

  /** `SendToQueue`: sends the message and swallows a failure. */
  method SendToQueue(queue: Queue<Message>, m: Message, delivered: bool)
    modifies queue
    ensures queue.messages == if delivered then old(queue.messages) + [m] else old(queue.messages)
  {
    var _ := queue.Send(m, delivered);
  }

  /** `Create` (POST orders). `orderId` and `now` stand for the new row key and
      the clock; `rival`, when present, is another client's write to the
      product between this call's read and its stock update; `orderSent` and
      `stockSent` say whether each queue accepts its message. */
  method Create(input: Option<OrderCreate>, orderId: string, now: int, rival: Option<ProductEntity>,
                orderSent: bool, stockSent: bool,
                orders: Table<OrderEntity>, products: Table<ProductEntity>, customers: Table<CustomerEntity>,
                orderQueue: Queue<Message>, stockQueue: Queue<Message>)
    returns (reply: Reply<Listed<OrderEntity>>)
    requires orders.Valid() && products.Valid() && customers.Valid()
    requires orderQueue != stockQueue
    modifies orders, products, orderQueue, stockQueue
    ensures orders.Valid() && products.Valid()
    // Refused before any write: nothing changes.
    ensures Refusal(input, old(products.rows), customers.rows).Some? ==>
      && reply == Text(BadRequest, Refusal(input, old(products.rows), customers.rows).value)
      && orders.rows == old(orders.rows) && products.rows == old(products.rows)
      && orderQueue.messages == old(orderQueue.messages) && stockQueue.messages == old(stockQueue.messages)
    // The order id is taken: the insert fails and nothing changes.
    ensures Refusal(input, old(products.rows), customers.rows).None? && OrderKey(orderId) in old(orders.rows) ==>
      && reply == Text(BadRequest, "Internal error: " + ErrorText(EntityAlreadyExists))
      && orders.rows == old(orders.rows) && products.rows == old(products.rows)
      && orderQueue.messages == old(orderQueue.messages) && stockQueue.messages == old(stockQueue.messages)
    ensures Refusal(input, old(products.rows), customers.rows).None? && OrderKey(orderId) !in old(orders.rows) ==>
      var req := input.value;
      var pk := ProductKey(req.productId.value);
      var product := old(products.rows)[pk].value;
      var order := NewOrder(req, product, now);
      var reduced := product.(stockAvailable := product.stockAvailable - req.quantity);
      // The order is inserted whatever happens to the stock update.
      && orders.rows == old(orders.rows)[OrderKey(orderId) := Row(order, old(orders.nextTag))]
      && (rival.None? ==>
            && reply == Json(Created, Listed(orderId, order))
            && products.rows.Keys == old(products.rows).Keys
            && products.rows[pk].value == reduced
            && (forall k :: k in old(products.rows) && k != pk ==> products.rows[k] == old(products.rows)[k])
            && orderQueue.messages == old(orderQueue.messages) + (if orderSent then [OrderCreatedMessage(orderId, order)] else [])
            && stockQueue.messages == old(stockQueue.messages)
                 + (if stockSent then [StockReducedMessage(req.productId.value, reduced, req.quantity, orderId)] else []))
      // Another write to the product in between makes its token stale: the
      // stock update is rejected and the order stays without its stock.
      && (rival.Some? ==>
            && reply == Text(BadRequest, "Internal error: " + ErrorText(UpdateConditionNotSatisfied))
            && products.rows.Keys == old(products.rows).Keys
            && products.rows[pk].value == rival.value
            && (forall k :: k in old(products.rows) && k != pk ==> products.rows[k] == old(products.rows)[k])
            && orderQueue.messages == old(orderQueue.messages) && stockQueue.messages == old(stockQueue.messages))
  {
    var refusal := Refusal(input, products.rows, customers.rows);
    if refusal.Some? {
      return Text(BadRequest, refusal.value);
    }
    var req := input.value;
    var pk := ProductKey(req.productId.value);
    var read := products.rows[pk];
    var product := read.value;
    var order := NewOrder(req, product, now);
    var added := orders.Add(OrderKey(orderId), order);
    if !added {
      return Text(BadRequest, "Internal error: " + ErrorText(EntityAlreadyExists));
    }
    if rival.Some? {
      products.Upsert(pk, rival.value);
    }
    var reduced := product.(stockAvailable := product.stockAvailable - req.quantity);
    var updated := products.UpdateIfMatch(pk, reduced, read.etag);
    if !updated {
      return Text(BadRequest, "Internal error: " + ErrorText(UpdateConditionNotSatisfied));
    }
    SendToQueue(orderQueue, OrderCreatedMessage(orderId, order), orderSent);
    SendToQueue(stockQueue, StockReducedMessage(req.productId.value, reduced, req.quantity, orderId), stockSent);
    reply := Json(Created, Listed(orderId, order));
  }

  /** `UpdateStatus` (PATCH/POST/PUT orders/{id}/status): overwrites the status
      with the given text, with no rule about which status may follow which.
      `rival` is another client's write to the order between the read and the
      update; `sent` says whether the order queue accepts the notification. */
  method UpdateStatus(input: Option<OrderStatusUpdate>, id: string, now: int, rival: Option<OrderEntity>,
                      sent: bool, orders: Table<OrderEntity>, orderQueue: Queue<Message>)
    returns (reply: Reply<Listed<OrderEntity>>)
    requires orders.Valid()
    modifies orders, orderQueue
    ensures orders.Valid()
    ensures (input.None? || IsNullOrWhiteSpace(input.value.status)) ==>
      && reply == Text(BadRequest, StatusRequired)
      && orders.rows == old(orders.rows) && orderQueue.messages == old(orderQueue.messages)
    ensures input.Some? && !IsNullOrWhiteSpace(input.value.status) && OrderKey(id) !in old(orders.rows) ==>
      && reply == Text(NotFound, OrderNotFound)
      && orders.rows == old(orders.rows) && orderQueue.messages == old(orderQueue.messages)
    ensures input.Some? && !IsNullOrWhiteSpace(input.value.status) && OrderKey(id) in old(orders.rows) ==>
      var k := OrderKey(id);
      var before := old(orders.rows)[k].value;
      var after := before.(status := input.value.status.value);
      && (rival.Some? ==>
            && reply == Text(NotFound, OrderNotFound)
            && orders.rows == old(orders.rows)[k := Row(rival.value, old(orders.nextTag))]
            && orderQueue.messages == old(orderQueue.messages))
      && (rival.None? ==>
            && orders.rows.Keys == old(orders.rows).Keys
            && orders.rows[k].value == after
            && (forall j :: j in old(orders.rows) && j != k ==> orders.rows[j] == old(orders.rows)[j])
            // The status is stored before the notification; a failed send
            // still answers "not found".
            && reply == (if sent then Json(Ok, Listed(id, after)) else Text(NotFound, OrderNotFound))
            && orderQueue.messages == old(orderQueue.messages)
                 + (if sent then [OrderStatusUpdated(id, before.status, after.status, now, "System")] else []))
  {
    if input.None? || IsNullOrWhiteSpace(input.value.status) {
      return Text(BadRequest, StatusRequired);
    }
    var k := OrderKey(id);
    if k !in orders.rows {
      return Text(NotFound, OrderNotFound);
    }
    var read := orders.rows[k];
    var previous := read.value.status;
    var e := read.value.(status := input.value.status.value);
    if rival.Some? {
      orders.Upsert(k, rival.value);
    }
    var updated := orders.UpdateIfMatch(k, e, read.etag);
    if !updated {
      return Text(NotFound, OrderNotFound);
    }
    var delivered := orderQueue.Send(OrderStatusUpdated(id, previous, e.status, now, "System"), sent);
    if !delivered {
      return Text(NotFound, OrderNotFound);
    }
    reply := Json(Ok, Listed(id, e));
  }

  /** `Get` (GET orders/{id}). */
  method Get(id: string, orders: Table<OrderEntity>) returns (reply: Reply<Listed<OrderEntity>>)
    ensures OrderKey(id) in orders.rows ==> reply == Json(Ok, Listed(id, orders.rows[OrderKey(id)].value))
    ensures OrderKey(id) !in orders.rows ==> reply == Text(NotFound, OrderNotFound)
  {
    var k := OrderKey(id);
    if k in orders.rows {
      reply := Json(Ok, Listed(id, orders.rows[k].value));
    } else {
      reply := Text(NotFound, OrderNotFound);
    }
  }

  /** Orders, newest first. */
  function ByOrderDate(l: Listed<OrderEntity>): int { l.entity.orderDate }

  /** The rows of the order partition that satisfy `pred`, each exactly once,
      sorted by order date, newest first; the common body of `List` and
      `GetOrdersByCustomerId`. */
  method ListWhere(orders: Table<OrderEntity>, pred: OrderEntity -> bool)
    returns (r: seq<Listed<OrderEntity>>)
    ensures forall l :: l in r ==>
      OrderKey(l.rowKey) in orders.rows && orders.rows[OrderKey(l.rowKey)].value == l.entity && pred(l.entity)
    ensures forall k :: k in orders.rows && k.partition == OrderPartition && pred(orders.rows[k].value) ==>
      multiset(r)[Listed(k.rowKey, orders.rows[k].value)] == 1
    ensures SortedDesc(r, ByOrderDate)
  {
    var items := QueryWhere(orders.rows, OrderPartition, pred);
    r := SortDesc(items, ByOrderDate);
    forall l | l in r
      ensures l in items
    {
      SortDescMembership(items, ByOrderDate, l);
    }
  }

  /** `List` (GET orders). */
  method List(orders: Table<OrderEntity>) returns (reply: Reply<seq<Listed<OrderEntity>>>)
    ensures reply.Json? && reply.code == Ok
    ensures forall l :: l in reply.body ==>
      OrderKey(l.rowKey) in orders.rows && orders.rows[OrderKey(l.rowKey)].value == l.entity
    ensures forall k :: k in orders.rows && k.partition == OrderPartition ==>
      multiset(reply.body)[Listed(k.rowKey, orders.rows[k].value)] == 1
    ensures SortedDesc(reply.body, ByOrderDate)
  {
    var r := ListWhere(orders, (o: OrderEntity) => true);
    reply := Json(Ok, r);
  }

  /** `GetOrdersByCustomerId` (GET orders/by-customer/{customerId}). */
  method GetOrdersByCustomerId(customerId: string, orders: Table<OrderEntity>)
    returns (reply: Reply<seq<Listed<OrderEntity>>>)
    ensures reply.Json? && reply.code == Ok
    ensures forall l :: l in reply.body ==>
      OrderKey(l.rowKey) in orders.rows && orders.rows[OrderKey(l.rowKey)].value == l.entity
      && l.entity.customerId == customerId
    ensures forall k :: k in orders.rows && k.partition == OrderPartition
                        && orders.rows[k].value.customerId == customerId ==>
      multiset(reply.body)[Listed(k.rowKey, orders.rows[k].value)] == 1
    ensures SortedDesc(reply.body, ByOrderDate)
  {
    var r := ListWhere(orders, (o: OrderEntity) => o.customerId == customerId);
    reply := Json(Ok, r);
  }

  /** `Delete` (DELETE orders/{id}): a missing order makes the read throw,
      which answers 500 with the storage error. */
  method Delete(id: string, orders: Table<OrderEntity>) returns (reply: Reply<Listed<OrderEntity>>)
    requires orders.Valid()
    modifies orders
    ensures orders.Valid()
    ensures OrderKey(id) in old(orders.rows) ==> reply == NoBody(NoContent) && orders.rows == old(orders.rows) - {OrderKey(id)}
    ensures OrderKey(id) !in old(orders.rows) ==>
      reply == Text(InternalServerError, ErrorText(ResourceNotFound)) && orders.rows == old(orders.rows)
  {
    var k := OrderKey(id);
    if k !in orders.rows {
      return Text(InternalServerError, ErrorText(ResourceNotFound));
    }
    orders.Delete(k);
    reply := NoBody(NoContent);
  }
}
