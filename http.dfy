/**
  The response every handler sends: a status code and a message, wrapped by
  the response helper into an envelope whose `status` word is decided by the
  code alone.
*/
module Http {
  datatype Response = Response(code: int, message: string) {
    /** The envelope's `status` field. */
    function Word(): (w: string)
      ensures w == "success" || w == "error"
      ensures w == "success" <==> code < 400
    {
      if code < 400 then "success" else "error"
    }
  }

  const InternalError := "Internal server error"
}
