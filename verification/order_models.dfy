/** The order record of `orders/models.py`: status choices, defaults and the
    formatting helpers. */
module OrderModels {
  import opened Common
  import opened AccountModels

  /** The four order statuses. */
  datatype Status = New | Accepted | Completed | Cancelled

  /** The declared choices (stored value, label). */
  const StatusChoices: seq<(string, string)> :=
    [("New", "New"), ("Accepted", "Accepted"), ("Completed", "Completed"), ("Cancelled", "Cancelled")]

  /** The stored value of a status. */
  function StatusValue(s: Status): (v: string)
    ensures (v, v) in StatusChoices
    ensures |v| <= 10
  {
    match s
    case New => "New"
    case Accepted => "Accepted"
    case Completed => "Completed"
    case Cancelled => "Cancelled"
  }

  /** The status stored under a value, if it is one of the choices. */
  function StatusOfValue(v: string): (s: Option<Status>)
    ensures s.Some? ==> StatusValue(s.value) == v
  {
    if v == "New" then Some(New)
    else if v == "Accepted" then Some(Accepted)
    else if v == "Completed" then Some(Completed)
    else if v == "Cancelled" then Some(Cancelled)
    else None
  }

  /** Statuses and their stored values correspond one to one. */
  lemma StatusValues(s: Status)
    ensures StatusOfValue(StatusValue(s)) == Some(s)
  {
  }

  /** The customer fields posted with an order. */
  datatype Customer = Customer(
    firstName: string, lastName: string, email: string, phone: string,
    addressLine1: string, addressLine2: string, city: string, state: string,
    country: string, orderNote: string)

  /** An order row. `orderTotal` is a float column and `tax` a text column;
      both are kept here as exact reals. */
  datatype Order = Order(
    id: int,
    user: int,
    orderNumber: string,
    customer: Customer,
    orderTotal: real,
    tax: real,
    status: Status,
    ip: string,
    isOrdered: bool)

  /** An order as created from the posted fields: status New, `is_ordered`
      set, and the order number still blank. */
  function NewOrder(id: int, user: int, customer: Customer, orderTotal: real, tax: real, ip: string): (o: Order)
    ensures o.status == New && o.isOrdered && o.orderNumber == ""
    ensures o.id == id && o.user == user && o.customer == customer
    ensures o.orderTotal == orderTotal && o.tax == tax && o.ip == ip
  {
    Order(id, user, "", customer, orderTotal, tax, New, ip, true)
  }

  /** `full_name`: the first name, one space, the last name. */
  function FullName(o: Order): (s: string)
    ensures |s| == |o.customer.firstName| + 1 + |o.customer.lastName|
    ensures s[..|o.customer.firstName|] == o.customer.firstName
    ensures s[|o.customer.firstName|] == ' '
    ensures s[|o.customer.firstName| + 1..] == o.customer.lastName
  {
    o.customer.firstName + " " + o.customer.lastName
  }

  /** `full_address`: address line 1, one space, address line 2. */
  function FullAddress(o: Order): (s: string)
    ensures |s| == |o.customer.addressLine1| + 1 + |o.customer.addressLine2|
    ensures s[..|o.customer.addressLine1|] == o.customer.addressLine1
    ensures s[|o.customer.addressLine1|] == ' '
    ensures s[|o.customer.addressLine1| + 1..] == o.customer.addressLine2
  {
    o.customer.addressLine1 + " " + o.customer.addressLine2
  }

  /** With a blank second line the address still ends in the separating space. */
  lemma FullAddressBlankSecondLine(o: Order)
    requires o.customer.addressLine2 == ""
    ensures FullAddress(o) == o.customer.addressLine1 + " "
  {
  }

  /** The string form of an order: the owning account's first name and phone
      number joined by `-`; the order's own customer fields play no part. */
  function OrderLabel(o: Order, owner: Account): (s: string)
    reads owner
    requires owner.id == o.user
    ensures |s| == |owner.firstName| + 1 + |owner.phoneNumber|
    ensures s[..|owner.firstName|] == owner.firstName && s[|owner.firstName|] == '-'
    ensures s[|owner.firstName| + 1..] == owner.phoneNumber
  {
    owner.firstName + "-" + owner.phoneNumber
  }

  /** Changing the order's own customer fields does not change its string form. */
  lemma OrderLabelIgnoresCustomer(o: Order, c: Customer, owner: Account)
    requires owner.id == o.user
    ensures OrderLabel(o.(customer := c), owner) == OrderLabel(o, owner)
  {
  }
}
