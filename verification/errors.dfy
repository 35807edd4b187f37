/** The errors the request handlers answer with instead of a new state. */
module Errors {

  datatype Error =
    | AttributeBudgetExceeded  // base attributes sum to more than 10 (HTTP 400 "Soma > 10")
    | WrongSpecCount           // not exactly three specializations (HTTP 400 "Specs != 3")
    | EmptyItemName            // inventory item name missing or blank (HTTP 400)
    | InvalidDie               // die name outside the permitted list (HTTP 400)
    | NotFound                 // no player with the requested id (HTTP 404)
}
