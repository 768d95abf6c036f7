/** The four order statuses the endpoint accepts and the admin page offers. */
module OrderStatus {

  const Pending: string := "pending"
  const Active: string := "active"
  const Completed: string := "completed"
  const Cancelled: string := "cancelled"

  /** The whitelist of `update_order`, in its order. */
  const Known: seq<string> := [Pending, Active, Completed, Cancelled]

  predicate IsKnown(s: string)
  {
    s in Known
  }

}
