/** Values as they travel between the pages and the order endpoint: JSON
    scalars with Python's truthiness, the two order row shapes the endpoint
    returns, and the three ways a page's `fetch` of the order list can end. */
module Wire {

  /** A JSON scalar as `json.loads` hands it to the handler (`None` for `null`). */
  datatype Value = Str(s: string) | Int(i: int) | Bool(b: bool) | Null

  /** Python truthiness of a decoded JSON scalar: empty string, zero, `False`
      and `None` are falsy. */
  predicate Truthy(v: Value)
  {
    match v
    case Str(s) => s != ""
    case Int(i) => i != 0
    case Bool(b) => b
    case Null => false
  }

  /** `body.get(key)`: a missing key reads as `None`. */
  function Field(fields: map<string, Value>, key: string): Value
  {
    if key in fields then fields[key] else Null
  }

  /** One row of the administrator listing (`AdminOrder` on the admin page). */
  datatype AdminOrder = AdminOrder(
    id: int,
    userName: Value,
    userEmail: Value,
    userPhone: Value,
    address: Value,
    planName: string,
    price: int,
    status: string,
    createdAt: int,
    startDate: int,
    endDate: int)

  /** One row of a customer's own listing (`Order` on the customer page). */
  datatype UserOrder = UserOrder(
    id: int,
    address: Value,
    planName: string,
    price: int,
    status: string,
    createdAt: int,
    startDate: int,
    endDate: int)

  /** How a page's `fetch(...).json()` of the order list ends: a body whose
      `orders` field is present, a body without it (an error body, say), or a
      thrown exception (network failure, unparsable JSON). */
  datatype Fetch<T> = Received(orders: seq<T>) | NoOrders | Threw

  /** How a page's `POST` or `PUT` ends: `response.ok`, a non-2xx answer, or a
      thrown exception. */
  datatype Sent = Ok | NotOk | SendThrew

}
