/** Values shared by the store and the two form components. */
module Types {

  datatype Option<+T> = None | Some(value: T)

  /** A product; its name identifies it. */
  datatype Product = Product(name: string)

  /** One inventory record: a product name and a quantity. */
  datatype InventoryItem = InventoryItem(name: string, quantity: int)

  /** What an HTTP write returns: the `ok` status flag and the decoded JSON body. */
  datatype Reply<+T> = Reply(ok: bool, data: T)

  /** A value thrown by a promise: an `Error` object with its message, or anything else. */
  datatype Thrown = ErrorObject(message: string) | OtherValue

  /** How an awaited callback settled. */
  datatype Outcome = Resolved | Rejected(reason: Thrown)

  /** JavaScript truthiness of a `string | null`: neither null nor the empty string. */
  predicate Truthy(s: Option<string>)
  {
    s.Some? && s.value != ""
  }
}
