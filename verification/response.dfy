/** The uniform response envelope `{success, statusCode, message, data}` and the
    reply that carries it: the transport (HTTP) status next to the envelope. */
module Response {
  import opened Wrappers

  /** `data == None` stands for a JSON `null` payload. */
  datatype Envelope<T> = Envelope(success: bool, statusCode: int, message: string, data: Option<T>)

  /** `status` is the transport status the controller sets with `res.status`
      (200 when it only calls `res.json`); `body` is the envelope it sends. */
  datatype Reply<T> = Reply(status: int, body: Envelope<T>)

  /** `Response.ok(data, message = "OK")`: an absent message falls back to "OK". */
  function Ok<T>(data: Option<T>, message: Option<string>): (e: Envelope<T>)
    ensures e.success && e.statusCode == 200
    ensures e.data == data
    ensures message.None? ==> e.message == "OK"
    ensures message.Some? ==> e.message == message.value
  {
    Envelope(true, 200, message.GetOr("OK"), data)
  }

  /** `Response.created(data, message = "Created")`. */
  function Created<T>(data: Option<T>, message: Option<string>): (e: Envelope<T>)
    ensures e.success && e.statusCode == 201
    ensures e.data == data
    ensures message.None? ==> e.message == "Created"
    ensures message.Some? ==> e.message == message.value
  {
    Envelope(true, 201, message.GetOr("Created"), data)
  }

  /** `Response.error(statusCode, message)`: never successful, never a payload. */
  function Error<T>(statusCode: int, message: string): (e: Envelope<T>)
    ensures !e.success && e.data.None?
    ensures e.statusCode == statusCode && e.message == message
  {
    Envelope(false, statusCode, message, None)
  }

  /** `res.json(e)`: the envelope goes out with transport status 200, whatever
      its own `statusCode` says. */
  function Json<T>(e: Envelope<T>): (r: Reply<T>)
    ensures r.status == 200 && r.body == e
  {
    Reply(200, e)
  }

  /** `res.status(500).json(Response.error(500, message))`: the only reply
      whose transport status is not 200. */
  function ServerError<T>(message: string): (r: Reply<T>)
    ensures r.status == 500 && r.body.statusCode == 500
    ensures !r.body.success && r.body.data.None? && r.body.message == message
  {
    Reply(500, Error(500, message))
  }

  /** Success codes the envelope constructors use. */
  predicate IsSuccessCode(code: int) {
    code == 200 || code == 201
  }

  /** The envelope shape every controller keeps: `success` exactly when the
      semantic code is a success code, and no payload on failure. */
  predicate WellFormed<T>(e: Envelope<T>) {
    && (e.success <==> IsSuccessCode(e.statusCode))
    && (!e.success ==> e.data.None?)
  }

  /** `success` tells the constructors apart: an envelope built by `Error`
      is never equal to one built by `Ok` or `Created`, and every envelope
      they build is well formed as long as the error code is a failure code. */
  lemma SuccessIdentifiesConstructor<T>(d: Option<T>, m: Option<string>, code: int, msg: string)
    ensures Error<T>(code, msg) != Ok(d, m) && Error<T>(code, msg) != Created(d, m)
    ensures WellFormed(Ok(d, m)) && WellFormed(Created(d, m))
    ensures WellFormed(Error<T>(code, msg)) <==> !IsSuccessCode(code)
  {
  }
}
