/** The customer endpoints of the Functions app. Their refusals are answered
    with status 200 and a message, never with an error status. */
module CustomerFunctions {
  import opened Wrappers
  import opened Text
  import opened Entities
  import opened Storage

  /** The body of a create or update request; each field may be absent. */
  datatype CustomerCreateUpdate = CustomerCreateUpdate(
    name: Option<string>,
    surname: Option<string>,
    username: Option<string>,
    email: Option<string>,
    shippingAddress: Option<string>)

  const NameEmailRequired: string := "Name and Email are required"
  const InvalidBody: string := "Invalid body"
  const CustomerNotFound: string := "Customer not found"

  /** The customer a create request describes: None unless Name and Email
      are present and not blank; absent optional fields become "". */
  function NewCustomer(input: Option<CustomerCreateUpdate>): (r: Option<CustomerEntity>)
    ensures r.Some? <==> input.Some? && !IsNullOrWhiteSpace(input.value.name) && !IsNullOrWhiteSpace(input.value.email)
    ensures r.Some? ==>
      && r.value.name == input.value.name.value && r.value.email == input.value.email.value
      && !IsBlank(r.value.name) && !IsBlank(r.value.email)
      && (input.value.surname.None? ==> r.value.surname == "")
      && (input.value.username.None? ==> r.value.username == "")
      && (input.value.shippingAddress.None? ==> r.value.shippingAddress == "")
      && (input.value.surname.Some? ==> r.value.surname == input.value.surname.value)
      && (input.value.username.Some? ==> r.value.username == input.value.username.value)
      && (input.value.shippingAddress.Some? ==> r.value.shippingAddress == input.value.shippingAddress.value)
  {
    if input.None? || IsNullOrWhiteSpace(input.value.name) || IsNullOrWhiteSpace(input.value.email) then None
    else
      var c := input.value;
      Some(CustomerEntity(c.name.value, c.surname.GetOr(""), c.username.GetOr(""), c.email.value,
                          c.shippingAddress.GetOr("")))
  }

  /** `Create` (POST customer). `customerId` stands for the new row key. */
  method Create(input: Option<CustomerCreateUpdate>, customerId: string, customers: Table<CustomerEntity>)
    returns (reply: Reply<Listed<CustomerEntity>>)
    requires customers.Valid()
    modifies customers
    ensures customers.Valid()
    ensures NewCustomer(input).None? ==>
      reply == Text(Ok, NameEmailRequired) && customers.rows == old(customers.rows)
    ensures NewCustomer(input).Some? && CustomerKey(customerId) in old(customers.rows) ==>
      reply == Unhandled && customers.rows == old(customers.rows)
    ensures NewCustomer(input).Some? && CustomerKey(customerId) !in old(customers.rows) ==>
      && reply == Json(Ok, Listed(customerId, NewCustomer(input).value))
      && customers.rows == old(customers.rows)[CustomerKey(customerId) := Row(NewCustomer(input).value, old(customers.nextTag))]
  {
    var e := NewCustomer(input);
    if e.None? {
      return Text(Ok, NameEmailRequired);
    }
    var added := customers.Add(CustomerKey(customerId), e.value);
    if !added {
      return Unhandled;
    }
    reply := Json(Ok, Listed(customerId, e.value));
  }

  /** Update's merge: each field given replaces the stored one, each absent
      field keeps it (`input.X ?? e.X`). */
  function Merged(e: CustomerEntity, input: CustomerCreateUpdate): CustomerEntity {
    CustomerEntity(input.name.GetOr(e.name), input.surname.GetOr(e.surname), input.username.GetOr(e.username),
                   input.email.GetOr(e.email), input.shippingAddress.GetOr(e.shippingAddress))
  }

  /** An update with every field absent changes nothing; one with every field
      given replaces the record; applying an update twice is applying it once. */
  lemma MergeLaws(e: CustomerEntity, input: CustomerCreateUpdate)
    ensures Merged(e, CustomerCreateUpdate(None, None, None, None, None)) == e
    ensures var f := CustomerCreateUpdate(Some(e.name), Some(e.surname), Some(e.username),
                                          Some(e.email), Some(e.shippingAddress));
      forall other :: Merged(other, f) == e
    ensures Merged(Merged(e, input), input) == Merged(e, input)
  {
  }

  /** `Update` (PUT customer/{id}), assigning the fetched record's fields in
      place. `rival` is another client's write to the customer between the
      read and the update. */
  method Update(id: string, input: Option<CustomerCreateUpdate>, rival: Option<CustomerEntity>,
                customers: Table<CustomerEntity>)
    returns (reply: Reply<Listed<CustomerEntity>>)
    requires customers.Valid()
    modifies customers
    ensures customers.Valid()
    ensures input.None? ==> reply == Text(Ok, InvalidBody) && customers.rows == old(customers.rows)
    ensures input.Some? && CustomerKey(id) !in old(customers.rows) ==>
      reply == Text(Ok, CustomerNotFound) && customers.rows == old(customers.rows)
    ensures input.Some? && CustomerKey(id) in old(customers.rows) && rival.Some? ==>
      && reply == Text(Ok, CustomerNotFound)
      && customers.rows == old(customers.rows)[CustomerKey(id) := Row(rival.value, old(customers.nextTag))]
    ensures input.Some? && CustomerKey(id) in old(customers.rows) && rival.None? ==>
      var k := CustomerKey(id);
      var after := Merged(old(customers.rows)[k].value, input.value);
      && reply == Json(Ok, Listed(id, after))
      && customers.rows.Keys == old(customers.rows).Keys
      && customers.rows[k].value == after
      && (forall j :: j in old(customers.rows) && j != k ==> customers.rows[j] == old(customers.rows)[j])
  {
    if input.None? {
      return Text(Ok, InvalidBody);
    }
    var k := CustomerKey(id);
    if k !in customers.rows {
      return Text(Ok, CustomerNotFound);
    }
    var read := customers.rows[k];
    var e := read.value;
    var c := input.value;
    e := e.(name := c.name.GetOr(e.name));
    e := e.(surname := c.surname.GetOr(e.surname));
    e := e.(username := c.username.GetOr(e.username));
    e := e.(email := c.email.GetOr(e.email));
    e := e.(shippingAddress := c.shippingAddress.GetOr(e.shippingAddress));
    if rival.Some? {
      customers.Upsert(k, rival.value);
    }
    var updated := customers.UpdateIfMatch(k, e, read.etag);
    if !updated {
      return Text(Ok, CustomerNotFound);
    }
    reply := Json(Ok, Listed(id, e));
  }

  /** `Get` (GET customer/{id}): a missing customer is answered with 200 and a
      message. */
  method Get(id: string, customers: Table<CustomerEntity>) returns (reply: Reply<Listed<CustomerEntity>>)
    ensures CustomerKey(id) in customers.rows ==> reply == Json(Ok, Listed(id, customers.rows[CustomerKey(id)].value))
    ensures CustomerKey(id) !in customers.rows ==> reply == Text(Ok, CustomerNotFound)
  {
    var k := CustomerKey(id);
    if k in customers.rows {
      reply := Json(Ok, Listed(id, customers.rows[k].value));
    } else {
      reply := Text(Ok, CustomerNotFound);
    }
  }

  /** `List` (GET customer): every row of the customer partition, once. */
  method List(customers: Table<CustomerEntity>) returns (reply: Reply<seq<Listed<CustomerEntity>>>)
    ensures reply.Json? && reply.code == Ok
    ensures forall l :: l in reply.body ==>
      CustomerKey(l.rowKey) in customers.rows && customers.rows[CustomerKey(l.rowKey)].value == l.entity
    ensures forall k :: k in customers.rows && k.partition == CustomerPartition ==>
      multiset(reply.body)[Listed(k.rowKey, customers.rows[k].value)] == 1
  {
    var items := QueryWhere(customers.rows, CustomerPartition, (c: CustomerEntity) => true);
    reply := Json(Ok, items);
  }

  /** `Delete` (DELETE customer/{id}): answers 204 whether or not the row was there. */
  method Delete(id: string, customers: Table<CustomerEntity>) returns (reply: Reply<Listed<CustomerEntity>>)
    requires customers.Valid()
    modifies customers
    ensures customers.Valid()
    ensures reply == NoBody(NoContent)
    ensures customers.rows == old(customers.rows) - {CustomerKey(id)}
  {
    customers.Delete(CustomerKey(id));
    reply := NoBody(NoContent);
  }
}
