# TritonHTTP request parser and response handlers, in Dafny

This project models the protocol core of a small HTTP/1.1 static-file server
written in Go (package `tritonhttp`), and proves properties of the model:

- **Request parsing** (`tritonhttp/server.go`). `ReadRequest` reads the
  request line from a buffered reader and checks it with `parseFirstLine`.
  It then reads the header block with `parseHeaders` and derives `Host` and
  `Close` from the headers.
- **Response handlers** (`tritonhttp/response.go`). The `Response` record
  and its three handlers, `HandleBadRequest`, `HandleStatusNotFound` and
  `HandleOK`. Each one sets the protocol, the status code and the status
  text, and stamps a `Date` header.

Layout:

- `wrappers.dfy`: `Option` and `Result`.
- `go_strings.dfy` (module `GoStrings`): the Go library functions the parser
  relies on, defined as Go defines them.
  - `strings.TrimSpace` uses the white-space set of `unicode.IsSpace`.
  - `strings.Split`, `strings.SplitN(_, _, 2)` and `strings.HasPrefix` are
    included too.
- `bufio_reader.dfy` (module `Bufio`): a `bufio.Reader` over a connection,
  modelled as the characters the peer sends plus a read position.
  `ReadString('\n')` returns everything up to and including the next line
  feed. When no line feed is left, it consumes the rest of the input and
  reports end of input (Go's `io.EOF`).
- `server.dfy` (module `HttpServer`):
  - the `Request` class;
  - the methods `ParseFirstLineInto` (`parseFirstLine`), `ParseHeaders`
    (`parseHeaders`) and `ReadRequest`;
  - the specification functions they are proved against: `ParseFirstLine`,
    `ScanHeaders` and `ScanRequest`. Each describes what the Go code does to
    the unread input.
- `server_proofs.dfy` (module `HttpServerProofs`): what the parser accepts
  and what it produces, stated over the lines of a request.
  - Which request lines are accepted.
  - A header block is accepted exactly when it is header lines followed by
    a blank line.
  - Errors and truncated input.
  - `Host`/`Close` come from the last header line alone.
- `response.dfy` (module `HttpResponse`): the `Response` class. Each handler
  is proved against the function `Respond`.
- `header_findings.dfy` (module `HeaderFindings`): the header-map defect
  described under Findings. It holds the as-written counterexample and the
  corrected header scan with its property proved.

The model keeps these behaviours of the code:

- **Header map.** `parseHeaders` makes a new header map for every header
  line, so only the last header *line* survives, whatever its name. The
  consequences are proved (`CloseLosesHost`, `LaterHeaderDropsHost`), and
  the corrected scan is under Findings.
- **Request-line splitting.** The request line is split on single spaces.
  It is not split on runs of white space, which section 3.5 of RFC 7230
  allows a server to accept. Two spaces in a row make an empty field, which
  gives the wrong field count. A tab is not a separator.
- **Trimming.** Only the third field is trimmed, which removes the CR LF.
  The method and the URL are compared untrimmed.
- **Line ends.** A line ends at LF. A preceding CR is white space that
  trimming removes.
- **End of input.** End of input in the request line and end of input in
  the header block are the same `io.EOF` error (`EndOfInput`). The model
  has no separate case for a client that closes the connection between
  requests.
- **Header names.** Names are stored and looked up case-sensitively.
  Section 3.2 of RFC 7230 makes field names case-insensitive.

## Model

| member | source | states |
|---|---|---|
| HttpServer.ParseFirstLine | tritonhttp/server.go:160-187 | the line is rejected as malformed exactly when it does not hold exactly two spaces; an accepted line has method `GET`, a URL that starts with `/` and holds no space, and protocol `HTTP/1.1` |
| HttpServerProofs.FirstLineFields | tritonhttp/server.go:160-187 | a line `m url raw` with no other spaces is judged field by field, in order: a method other than `GET` is rejected, then a URL without a leading `/`, then a protocol that does not trim to `HTTP/1.1`; otherwise it is accepted with those fields |
| HttpServerProofs.FirstLineSound | tritonhttp/server.go:160-187 | conversely, every accepted line is `GET <url> <raw>` where `raw` holds no space and trims to `HTTP/1.1` |
| HttpServer.ParseFirstLineInto | tritonhttp/server.go:160-187 | `parseFirstLine` on a `*Request`: returns the error of `ParseFirstLine`, stores method, URL and protocol on success, and after a rejected URL or protocol leaves the fields it already checked written into the request |
| HttpServer.ScanHeaders | tritonhttp/server.go:135-158 | `parseHeaders` on the unread input: it consumes no more than the input, stops right after a line feed unless the input ended, reports only end of input or an invalid header as errors, and leaves either the initial map or a map of exactly one entry |
| HttpServer.ParseHeaders | tritonhttp/server.go:135-158 | the loop's error, the request's new header map and how far the reader advanced are exactly those of `ScanHeaders` on the unread input and the old map |
| HttpServerProofs.ScanHeaderLines | tritonhttp/server.go:136-156 | header lines are consumed one by one, and the map they leave is the field of the last line alone |
| HttpServerProofs.HeaderBlockAccepted | tritonhttp/server.go:135-158 | header lines followed by a line that is blank once trimmed are accepted; exactly they are consumed and the map holds the last line's trimmed key and value |
| HttpServerProofs.HeaderBlockSound | tritonhttp/server.go:135-158 | conversely, whatever `parseHeaders` accepts begins with header lines and a blank line, which is exactly what it consumed, and its map is the last line's field |
| HttpServerProofs.HeaderLineStep | tritonhttp/server.go:137-155 | on accepted input the first line read is a whole line; a blank one ends the block with the map unchanged, any other holds a colon and its field replaces the map |
| HttpServerProofs.HeaderLineRejected | tritonhttp/server.go:147-150 | a non-blank line without a colon after the header lines is an invalid-header error, with that line consumed and the map left by the lines before it |
| HttpServerProofs.HeadersTruncated | tritonhttp/server.go:137-141 | input that ends inside the header block is an end-of-input error and is consumed to its end |
| HttpServerProofs.ScanHeadersStep | tritonhttp/server.go:143-155 | a line with a colon is split at its first colon into a trimmed key and value, which become the only entry of a new map |
| HttpServer.ScanRequest | tritonhttp/server.go:101-133 | `ReadRequest` on the unread input: consumes no more than the input; a request it accepts has method `GET` and protocol `HTTP/1.1` and ends right after a line feed |
| HttpServer.ReadRequest | tritonhttp/server.go:101-133 | on failure returns no request and the error; on success a newly allocated request whose fields are those of `ScanRequest`; either way the reader advances by exactly what was consumed |
| HttpServerProofs.RequestAccepted | tritonhttp/server.go:101-133 | a good request line, header lines and a blank line are read in full, the rest is left unread, and `Host` and `Close` are looked up in the last header line's map |
| HttpServerProofs.RequestLineRejected | tritonhttp/server.go:107-117 | a request line that `parseFirstLine` rejects ends the read right after that line with its error |
| HttpServerProofs.RequestHeadersRejected | tritonhttp/server.go:119-124 | an error in the header block after a good request line is returned unchanged, with everything up to it consumed |
| HttpServerProofs.AcceptedHeaders | tritonhttp/server.go:126-128 | an accepted request's `Host` is the map's `Host` entry or "", and `Close` holds exactly when its `Connection` entry is `close`; the map is nil or has one entry |
| HttpServerProofs.CloseLosesHost | tritonhttp/server.go:127-128 | a request read with `Close` set has an empty `Host` and `Connection: close` as its only header |
| HttpServer.Request.constructor | tritonhttp/server.go:103 | `&Request{}`: every field starts at its zero value, the header map nil |
| Bufio.Reader.ReadString | tritonhttp/server.go:137-141 | returns exactly the unread input up to and including the next line feed and advances past it; without a line feed it returns and consumes all the rest and reports end of input |
| Bufio.LineEnd | tritonhttp/server.go:107 | there is no line end exactly when the input holds no line feed; otherwise it is just after the first one |
| Bufio.LineEndOfLine | tritonhttp/server.go:137 | whatever follows a whole line, reading stops right after that line |
| GoStrings.TrimSpace | tritonhttp/server.go:143 | the result is no longer than the input and neither starts nor ends with white space |
| GoStrings.TrimSpaceSlice | tritonhttp/server.go:143 | trimming cuts off a run of white space at each end and nothing else |
| GoStrings.TrimSpaceEmpty | tritonhttp/server.go:143-146 | a line trims to nothing exactly when it is all white space |
| GoStrings.TrimSpaceKeeps | tritonhttp/server.go:143-148 | trimming keeps every character that is not white space, so a colon survives it |
| GoStrings.TrimSpaceAround | tritonhttp/server.go:180-181 | white space around a string with non-blank ends is exactly what trimming removes |
| GoStrings.Split | tritonhttp/server.go:161 | one part more than there are separators, no part holds a separator, and joining the parts gives the line back |
| GoStrings.SplitJoin | tritonhttp/server.go:161 | splitting undoes joining parts that hold no separator |
| GoStrings.SplitAfter | tritonhttp/server.go:161 | a separator-free run followed by the separator is split off as the first part |
| GoStrings.SplitWhole | tritonhttp/server.go:161 | a string without the separator is a single part |
| GoStrings.SplitFirst | tritonhttp/server.go:147 | two parts exactly when the separator occurs, split at its first occurrence so that the parts joined by it give the input back; otherwise the input as the only part |
| GoStrings.IsSpace | tritonhttp/server.go:143 | the white-space set of `unicode.IsSpace` that `strings.TrimSpace` removes: the ASCII blank and TAB to CR, NEL, NBSP and the other Unicode White_Space characters |
| GoStrings.AsciiSpace | tritonhttp/server.go:143 | within ASCII, exactly the blank and TAB, LF, VT, FF and CR are white space; the colon is not |
| GoStrings.HasPrefix | tritonhttp/server.go:173 | holds exactly when the prefix is no longer than the string and agrees with it position by position |
| HttpServer.Lookup | tritonhttp/server.go:127-128 | Go's `m[key]`: a stored key gives its value; any non-empty answer is the value stored under the key, so a nil map or a missing key gives "" |
| GoStrings.IndexOf | tritonhttp/server.go:147 | the position of the first occurrence of the character |
| HttpResponse.Respond | tritonhttp/response.go:23-51 | a handled response has protocol `HTTP/1.1`, the given code and text and a header map that exists; `Date` is set to the given date, exactly `Date` is added to the keys, every other header keeps its value, and the request and file path are unchanged |
| HttpResponse.Response.HandleBadRequest | tritonhttp/response.go:23-31 | the new response is `Respond(old response, 400, "Bad Request", date)` |
| HttpResponse.Response.HandleStatusNotFound | tritonhttp/response.go:33-41 | the new response is `Respond(old response, 404, "Not Found", date)` |
| HttpResponse.Response.HandleOK | tritonhttp/response.go:43-51 | the new response is `Respond(old response, 200, "OK", date)` |
| HttpResponse.Response.constructor | tritonhttp/response.go:5-21 | `&Response{}`: every field at its zero value, no header map, no request |
| HttpResponse.RespondIdempotent | tritonhttp/response.go:23-51 | a handler applied twice with the same date is the handler applied once |
| HttpResponse.RespondLastWins | tritonhttp/response.go:23-51 | of two handlers applied in turn, the second alone decides status line and date |
| HttpResponse.RespondFromNil | tritonhttp/response.go:27-30 | a response without a header map ends with `Date` as its only header |
| HeaderFindings.LaterHeaderDropsHost | tritonhttp/server.go:154-155 | as written, `GET / HTTP/1.1` with `Host: h` and then `Connection: close` is read with an empty `Host` and only the `Connection` header |
| HeaderFindings.ExampleLosesHost | tritonhttp/server.go:154-155 | the concrete instance with `Host: example.com` |
| HeaderFindings.AccumulateHeaders | tritonhttp/server.go:135-158 | corrected `parseHeaders`: the map is made only when none exists and every line is stored into it; consumes no more than the input |
| HeaderFindings.AccumulatedLookup | tritonhttp/server.go:135-158 | corrected: a header block is accepted as before, and afterwards each name maps to the value of its last line, while names no line mentions keep their old value |
| HeaderFindings.StoreAllLookup | tritonhttp/server.go:154-155 | storing fields one after another leaves under each name the value of the last field with that name |
| HeaderFindings.AccumulatedKeepsHost | tritonhttp/server.go:154-155 | corrected, on the failing request: both `Host` and `Connection` are kept |
| HeaderFindings.FieldOfLine | tritonhttp/server.go:143-152 | `name: value` CRLF is one header line, and its field is `(name, value)` when neither has white space at its ends |

## Left out

- `ListenAndServe`, `HandleConnection` and `ValidateServerSetup` are not modelled. They cover network listening, accepting connections, the five-second read deadline, the per-connection loop and the file checks of the server setup. They are network and file-system I/O, and they run concurrently.
- Routing a request to a file, its MIME type, `Content-Length`/`Last-Modified`, and writing the response as bytes are not part of this model. `cmd/tritonhttpd/main.go` is not part of this model either.
- The `Date` header value is a parameter of each handler. `FormatTime(time.Now())` reads the clock.
- The `fmt.Println` logging in the parser is left out. It has no effect on the result.
- Reader errors other than end of input are not modelled. Examples are a timeout or a reset connection. The only reader error the model has is end of input.
- The model works on characters, not bytes. It does not model UTF-8 decoding.
- `ParseError` keeps the kind of each error, not its message text.
- The declaration of the `Request` struct is not part of this model. Its fields are the ones `ReadRequest` and `parseFirstLine` set.
- Header maps are modelled as values. Go maps are references, so the aliasing between a request's map and other holders of it is not captured. The parser only ever stores a new map, so this has no effect on it. The handlers are different: `HandleBadRequest`, `HandleStatusNotFound` and `HandleOK` (tritonhttp/response.go:27-30, 37-40, 47-50) write `Date` into the response's existing map in place. Another holder of that map would see the new `Date`. The model gives the response a new map value, so it does not capture that.
- ParseFirstLineInto: the fields it writes before rejecting a line are modelled, but `ReadRequest` discards the request on any error, so nobody observes them.

## Findings

| source | as written | input that shows it | evidently intended | confidence | as-written member | corrected member |
|---|---|---|---|---|---|---|
| tritonhttp/server.go:154-155 | `req.Headers = make(map[string]string)` runs for every header line, so each line discards the map with all earlier headers | `GET / HTTP/1.1\r\nHost: example.com\r\nConnection: close\r\n\r\n`: read with `Host` "" and headers `{Connection: close}` | create the map once, when it is nil, and store every line into it, so each name keeps its last value and `Host` is kept | high; not executed | HeaderFindings.LaterHeaderDropsHost | HeaderFindings.AccumulatedLookup |
