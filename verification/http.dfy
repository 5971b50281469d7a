/** The HTTP statuses the action views answer with. */
module Http {
  /** `ServerError500` is the uncaught MultipleObjectsReturned that `get_object_or_404`
      raises when several rows match. */
  datatype Status = Created201 | NoContent204 | BadRequest400 | NotFound404 | ServerError500
}
