/**
 * The response side of tritonhttp/response.go: the `Response` record and
 * the three handlers that turn it into a 400, 404 or 200 response. The
 * `Date` header value, which the server formats from the clock, is a
 * parameter of each handler.
 */
module HttpResponse {
  import opened Wrappers
  import opened HttpServer

  /** The fields of a `Response` at one moment. */
  datatype ResponseState = ResponseState(
    proto: string, statusCode: int, statusText: string,
    headers: HeaderMap, request: Request?, filePath: string)

  /** What every handler does: the protocol, the status code and its text
      are set, a nil header map is replaced by an empty one, and `Date` is
      stored in it; every other header, the request and the file path stay
      as they were. */
  function Respond(r: ResponseState, code: int, text: string, date: string): (r': ResponseState)
    ensures r'.proto == "HTTP/1.1" && r'.statusCode == code && r'.statusText == text
    ensures r'.headers.Some? && Lookup(r'.headers, "Date") == date
    ensures r'.headers.value.Keys == {"Date"} + (if r.headers.Some? then r.headers.value.Keys else {})
    ensures forall key | key != "Date" :: Lookup(r'.headers, key) == Lookup(r.headers, key)
    ensures r'.request == r.request && r'.filePath == r.filePath
  {
    var m := if r.headers.Some? then r.headers.value else map[];
    r.(proto := "HTTP/1.1", statusCode := code, statusText := text, headers := Some(m["Date" := date]))
  }

  /** Handling a response twice in the same way is handling it once. */
  lemma RespondIdempotent(r: ResponseState, code: int, text: string, date: string)
    ensures Respond(Respond(r, code, text, date), code, text, date) == Respond(r, code, text, date)
  {
    var m := if r.headers.Some? then r.headers.value else map[];
    assert m["Date" := date]["Date" := date] == m["Date" := date];
  }

  /** Of two handlers applied in turn, the second decides the status line
      and the date; the first leaves no trace. */
  lemma RespondLastWins(r: ResponseState, c1: int, t1: string, d1: string, c2: int, t2: string, d2: string)
    ensures Respond(Respond(r, c1, t1, d1), c2, t2, d2) == Respond(r, c2, t2, d2)
  {
    var m := if r.headers.Some? then r.headers.value else map[];
    assert m["Date" := d1]["Date" := d2] == m["Date" := d2];
  }

  /** A response that had no header map ends up with `Date` as its only
      header. */
  lemma RespondFromNil(r: ResponseState, code: int, text: string, date: string)
    requires r.headers.None?
    ensures Respond(r, code, text, date).headers == Some(map["Date" := date])
  {
  }

  /** `Response`. */
  class Response {
    var Proto: string
    var StatusCode: int
    var StatusText: string
    var Headers: HeaderMap
    var Request: HttpServer.Request?
    var FilePath: string

    /** `&Response{}`: every field holds its zero value. */
    constructor ()
      ensures State() == ResponseState([], 0, [], None, null, [])
    {
      Proto, StatusCode, StatusText := [], 0, [];
      Headers := None;
      Request := null;
      FilePath := [];
    }

    function State(): ResponseState
      reads this
    {
      ResponseState(Proto, StatusCode, StatusText, Headers, Request, FilePath)
    }

    /** `HandleBadRequest`: 400 Bad Request. */
    method HandleBadRequest(date: string)
      modifies this
      ensures State() == Respond(old(State()), 400, "Bad Request", date)
    {
      Proto := "HTTP/1.1";
      StatusCode := 400;
      StatusText := "Bad Request";
      if Headers.None? {
        Headers := Some(map[]);
      }
      Headers := Some(Headers.value["Date" := date]);
    }

    /** `HandleStatusNotFound`: 404 Not Found. */
    method HandleStatusNotFound(date: string)
      modifies this
      ensures State() == Respond(old(State()), 404, "Not Found", date)
    {
      Proto := "HTTP/1.1";
      StatusCode := 404;
      StatusText := "Not Found";
      if Headers.None? {
        Headers := Some(map[]);
      }
      Headers := Some(Headers.value["Date" := date]);
    }

    /** `HandleOK`: 200 OK. */
    method HandleOK(date: string)
      modifies this
      ensures State() == Respond(old(State()), 200, "OK", date)
    {
      Proto := "HTTP/1.1";
      StatusCode := 200;
      StatusText := "OK";
      if Headers.None? {
        Headers := Some(map[]);
      }
      Headers := Some(Headers.value["Date" := date]);
    }
  }
}
