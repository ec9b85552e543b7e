/** The error the backend routes raise as `HTTPException`. */
module Http {
  /** Status code and detail text of an `HTTPException`. */
  datatype HttpError = HttpError(status: int, detail: string)
}
