/** The records the Functions app keeps in Azure tables, the messages it puts
    on queues, and the shape of its HTTP replies. */
module Entities {

  /** The address of a table row: partition key and row key. */
  datatype Key = Key(partition: string, rowKey: string)

  /** A stored record together with the version token (ETag) the table
      stamped on it at its last write. */
  datatype Row<T> = Row(value: T, etag: nat)

  /** A record as a listing or a lookup hands it back: row key and record. */
  datatype Listed<T> = Listed(rowKey: string, entity: T)

  const OrderPartition: string := "Order"
  const ProductPartition: string := "Product"
  const CustomerPartition: string := "Customer"

  function OrderKey(orderId: string): Key { Key(OrderPartition, orderId) }
  function ProductKey(productId: string): Key { Key(ProductPartition, productId) }
  function CustomerKey(customerId: string): Key { Key(CustomerPartition, customerId) }

  /** An order row. Prices are integer amounts; `orderDate` is a timestamp
      supplied by the caller in place of the clock. */
  datatype OrderEntity = OrderEntity(
    customerId: string,
    productId: string,
    productName: string,
    quantity: int,
    unitPrice: int,
    orderDate: int,
    status: string)

  datatype ProductEntity = ProductEntity(
    productName: string,
    description: string,
    price: int,
    stockAvailable: int,
    imageUrl: string)

  datatype CustomerEntity = CustomerEntity(
    name: string,
    surname: string,
    username: string,
    email: string,
    shippingAddress: string)

  /** The queue payloads, one constructor per `Type` the code writes. */
  datatype Message =
    | OrderCreated(orderId: string, customerId: string, productId: string, productName: string,
                   quantity: int, unitPrice: int, totalAmount: int, orderDate: int, status: string)
    | StockReduced(productId: string, productName: string, previousStock: int, newStock: int,
                   change: int, reason: string, orderId: string)
    | OrderStatusUpdated(orderId: string, previousStatus: string, newStatus: string,
                         updatedDateUtc: int, updatedBy: string)
    | ProductStockUpdated(productId: string, productName: string, stock: int)

  /** The storage service's failures that the code can meet. */
  datatype StorageError = EntityAlreadyExists | UpdateConditionNotSatisfied | ResourceNotFound | BlobAlreadyExists

  /** The error code that the storage exception's message carries. */
  function ErrorText(e: StorageError): string {
    match e
    case EntityAlreadyExists => "EntityAlreadyExists"
    case UpdateConditionNotSatisfied => "UpdateConditionNotSatisfied"
    case ResourceNotFound => "ResourceNotFound"
    case BlobAlreadyExists => "BlobAlreadyExists"
  }

  const Ok: int := 200
  const Created: int := 201
  const NoContent: int := 204
  const BadRequest: int := 400
  const NotFound: int := 404
  const InternalServerError: int := 500

  /** An HTTP reply of a function. */
  datatype Reply<T> =
    | Json(code: int, body: T)           // a serialized record or list
    | Text(code: int, message: string)   // a message string
    | NoBody(code: int)                  // a bare status
    | Unhandled                          // an exception escaped; the host answers 500
}
