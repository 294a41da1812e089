/** The controllers' responses: the status code and the part of the JSON body the
    callers rely on. */
module Http {
  import opened Table

  /** Why a request was refused with 400. */
  datatype Invalid = MissingField | BadAmount | DuplicateName

  /** Which lookup answered 404. */
  datatype Entity = CategoryEntity | ExpenseEntity | BudgetEntity

  datatype Reply<T> =
    | Ok(body: T)                 // 200
    | Created(body: T)            // 201
    | BadRequest(why: Invalid)    // 400
    | NotFound(what: Entity)      // 404
    | Conflict(existing: Id)      // 409, carrying the clashing document's id
    | ServerError                 // 500, the `catch` branch

  function Code<T>(r: Reply<T>): int
  {
    match r
    case Ok(_) => 200
    case Created(_) => 201
    case BadRequest(_) => 400
    case NotFound(_) => 404
    case Conflict(_) => 409
    case ServerError => 500
  }
}
