/**
 * The transaction record kept in the store, and the shapes the route
 * handlers answer with.
 */
module Transactions {

  datatype Option<T> = None | Some(value: T)

  function Min(a: int, b: int): int { if a <= b then a else b }

  /** What a route handler sends back: 200 with a value, 400, or 500. */
  datatype Response<T> = Ok(value: T) | BadRequest | Error

  /**
   * One stored document. `dateOfSale` is a time value in the sense of
   * ECMA-262: milliseconds since 1 January 1970 UTC, the number that the
   * store compares against the bounds of a month window. Prices are
   * exact reals rather than IEEE doubles.
   */
  datatype Transaction = Transaction(
    title: string,
    description: string,
    price: real,
    dateOfSale: int,
    sold: bool)
}
