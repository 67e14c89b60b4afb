/** The shape of a JSON route's answer: the body with status 200, or an error
    status with `{error}`. */
module Http {
  datatype Response<+T> = Json(body: T) | Status(code: int, error: string)

  const BadRequest := 400
  const NotFound := 404
}
