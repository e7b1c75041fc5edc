/** Go's nil pointers, as an optional value. */
module Wrappers {

  datatype Option<+T> = None | Some(value: T)
}

/** The parts of net/http that the retrying transport touches: the request it forwards,
    the response it classifies, the error it passes on, and the wrapped transport itself. */
module Http {
  import opened Wrappers

  datatype Request = Request(verb: string, url: string)

  /** A response is reduced to its status code. */
  datatype Response = Response(statusCode: int)

  datatype TransportError = TransportError(message: string)

  /** The `(*http.Response, error)` pair a round trip returns; either half may be nil. */
  datatype Exchange = Exchange(res: Option<Response>, err: Option<TransportError>)

  /** The pair of Go zero values, what a function with named results returns before assigning them. */
  const NoExchange: Exchange := Exchange(None, None)

  /** What a transport that keeps the http.RoundTripper contract may return: when it reports
      no error, it returns a response (a response together with an error is not excluded). */
  type Reply = x: Exchange | x.err.Some? || x.res.Some?
    witness Exchange(None, Some(TransportError("")))

  /** The wrapped transport as an oracle: `respond(req, n)` is its reply to `req` when that is
      the n-th call it receives (counting from 0), so any behaviour over time can be plugged in.
      `calls` records every request received, in order. */
  class Transport {
    const respond: (Request, nat) -> Reply
    var calls: seq<Request>

    constructor (respond: (Request, nat) -> Reply)
      ensures this.respond == respond && calls == []
    {
      this.respond := respond;
      calls := [];
    }

    method RoundTrip(req: Request) returns (x: Reply)
      modifies this`calls
      ensures x == respond(req, |old(calls)|)
      ensures calls == old(calls) + [req]
    {
      x := respond(req, |calls|);
      calls := calls + [req];
    }
  }
}
