/** The part of net/http the controllers use to answer a request. */
module Http {

  /** A finished response: status code and body text. */
  datatype Response = Response(code: nat, body: string)

  const StatusOK: nat := 200
  const StatusBadRequest: nat := 400
  const StatusNotFound: nat := 404
  const StatusInternalServerError: nat := 500

  /** `http.Error`: the given code, and the message followed by a newline as the body. */
  function Error(msg: string, code: nat): Response
  {
    Response(code, msg + "\n")
  }

  /** `ResponseWriter.Write` without an explicit header: the code defaults to 200. */
  function Written(body: string): Response
  {
    Response(StatusOK, body)
  }
}
