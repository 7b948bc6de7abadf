/** The shape of what the game-data API hands back, as `fetch_data` in app.py sees it.

    The network itself is not modelled: an upstream call is a value of type `Wire`,
    either the HTTP answer (status and JSON body read into the endpoint's shape) or
    a failure raised while sending, receiving or decoding. */
module Upstream {

  /** What the GET for one URL produced. */
  datatype Wire<T> =
    | Responded(status: int, payload: T)
    | Failed(message: string)

  /** A JSON body: the endpoint's own document, or the `{"error": message}`
      envelope that `fetch_data` builds itself. */
  datatype Body<T> = Data(value: T) | ErrorEnvelope(message: string)

  /** The `(payload, status)` pair that `fetch_data` returns. */
  datatype Reply<T> = Reply(body: Body<T>, status: int)

  /** The status every caller in app.py compares with. */
  const StatusOk := 200
  const InternalServerError := 500
  const NoTokenMessage := "No access token available."

  /** The `try`/`except` around the GET in `fetch_data`: an answered request passes its
      body and status through unchanged, whatever the status; any exception becomes the
      error envelope with status 500. */
  function Normalize<T>(w: Wire<T>): (r: Reply<T>)
    ensures r.body.ErrorEnvelope? <==> w.Failed?
    ensures r.body.ErrorEnvelope? ==> r.status == InternalServerError
    ensures w.Responded? ==> r.body == Data(w.payload) && r.status == w.status
  {
    match w
    case Responded(status, payload) => Reply(Data(payload), status)
    case Failed(message) => Reply(ErrorEnvelope(message), InternalServerError)
  }
}
