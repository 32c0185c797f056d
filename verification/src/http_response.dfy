/**
 * An `http.ResponseWriter` as the handlers use it. The first header write
 * fixes the status (`status == 0` until then) and later ones are ignored;
 * a body write without a header first fixes the status at 200. JSON
 * encoding is not modelled: a JSON body is the text it encodes.
 */
module Http {
  import opened Wrappers
  import opened WrapErrors
  import SendResponse

  const StatusOK := 200
  const StatusFound := 302
  const StatusBadRequest := 400
  const StatusNotFound := 404
  const StatusGone := 410
  const StatusInternalServerError := 500

  /** A piece of the response body; a `Line` is a text `http.Error` ends with a newline. */
  datatype Chunk =
    | Line(text: string)
    | Json(json: string)
    | Envelope(response: SendResponse.Response<string>)
    | ErrorBody(message: string, error: Option<Error>)

  /**
   * The status after a header write with `code`: only the first write counts.
   * (net/http panics on a code outside 100-999; here a code of 0 leaves the
   * status unset, and the next body write fixes it at 200.)
   */
  function Fixed(status: int, code: int): int {
    if status == 0 then code else status
  }

  class Writer {
    var status: int
    var body: seq<Chunk>
    var location: Option<string>

    constructor ()
      ensures status == 0 && body == [] && location == None
    {
      status := 0;
      body := [];
      location := None;
    }

    /** Nothing written yet: the writer a handler is given for each request. */
    predicate Fresh()
      reads this
    {
      status == 0 && body == [] && location == None
    }

    method WriteHeader(code: int)
      modifies this`status
      ensures status == Fixed(old(status), code)
    {
      if status == 0 {
        status := code;
      }
    }

    method Write(c: Chunk)
      modifies this`status, this`body
      ensures status == Fixed(old(status), StatusOK) && body == old(body) + [c]
    {
      WriteHeader(StatusOK);
      body := body + [c];
    }

    /** `http.Error`: the status, then the message and a newline. */
    method Error(message: string, code: int)
      modifies this`status, this`body
      ensures status == Fixed(Fixed(old(status), code), StatusOK) && body == old(body) + [Line(message)]
    {
      WriteHeader(code);
      Write(Line(message));
    }

    /**
     * `http.Redirect`: the `Location` header, then the status; a header set
     * after the status is lost. The URL is taken to be absolute, so it is
     * stored as given.
     */
    method Redirect(url: string, code: int)
      modifies this`status, this`location
      ensures location == (if old(status) == 0 then Some(url) else old(location))
      ensures status == Fixed(old(status), code)
    {
      if status == 0 {
        location := Some(url);
      }
      WriteHeader(code);
    }

    /** `sendJSON`. */
    method SendJSON(json: string)
      modifies this`status, this`body
      ensures status == Fixed(old(status), StatusOK) && body == old(body) + [Json(json)]
    {
      Write(Json(json));
    }

    /** `hooks.WriteJSON` of a `SendResponse` reply. */
    method SendReply(reply: SendResponse.Reply<string>)
      modifies this`status, this`body
      ensures status == Fixed(Fixed(old(status), reply.status), StatusOK) && body == old(body) + [Envelope(reply.body)]
    {
      WriteHeader(reply.status);
      Write(Envelope(reply.body));
    }

    /** `utils.SendErrors`: an `*AppError`'s own code and message, or 500 for anything else. */
    method SendErrors(err: Error)
      modifies this`status, this`body
      ensures AsApp(err).Some? ==> (status == Fixed(Fixed(old(status), AsApp(err).value.code), StatusOK) &&
        body == old(body) + [ErrorBody(AsApp(err).value.message, AsApp(err).value.cause)])
      ensures AsApp(err).None? ==> (status == Fixed(old(status), StatusInternalServerError) &&
        body == old(body) + [ErrorBody("Unexpected error", Some(err))])
    {
      var app := AsApp(err);
      if app.Some? {
        WriteHeader(app.value.code);
        Write(ErrorBody(app.value.message, app.value.cause));
      } else {
        WriteHeader(StatusInternalServerError);
        Write(ErrorBody("Unexpected error", Some(err)));
      }
    }
  }
}
