/** The `HTTPException`s the routes raise, as values. */
module Http {
  /** An HTTP error response: its status code and its `detail` text. */
  datatype HttpError = HttpError(status: nat, detail: string)

  /** The 404 both history stores raise for an id they do not hold. */
  const NOT_FOUND := HttpError(404, "Analysis not found")
}
