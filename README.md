# Caching proxy: verified model of the command line and the request handler

The system is a forward HTTP caching proxy written in C#, in one file
(`Program.cs`). `Main` reads `--origin <url>`, `--port <number>` and
`--clear-cache` from the command line. It then does one of three things:
it clears the cache and stops, it prints the usage text and stops, or it
listens on `http://localhost:<port>/`. Each request is handled by
`HandleRequest` against a process-wide `ConcurrentDictionary<string, string>`.
The cache key is the origin URL followed by the request's path and query. On a
hit the stored body is returned with `X-Cache: HIT`. On a miss the request is
forwarded with the same method. The origin's body is stored, whatever its status
code, and relayed with `X-Cache: MISS`. If forwarding throws, nothing is stored
and the client gets a 500 with the body `Internal server error`. Every response
is written by `WriteResponse`: JSON content type, then the body, then close.

The Dafny model has five modules:

- `Wrappers` (wrappers.dfy): `Option`, which stands for C#'s `null`.
- `Numerals` (numerals.dfy): `int.Parse` with .NET's default number style. It
  skips white space at both ends, takes an optional sign and decimal digits, and
  keeps to the 32-bit range. `Format` is its reference inverse.
- `CommandLine` (command_line.dfy): the argument loop as a method with a `for`
  loop (`ParseArgs`). It is proved equal to `Parse`, a specification written
  without reference to the scan order. `LastValue` looks for the last valued
  occurrence of an option from the END of the arguments. `SelectMode` is the mode choice.
- `Http` (http.dfy): the inbound request, the forwarded request, the origin's
  reply as an input value (`Received(status, body)` or `TransportFailure`), and
  `Response`, a class for `HttpListenerResponse`. On `Response`, headers, status
  and content type can be set only until the first body bytes are written. So
  the verifier checks that `WriteResponse` sets the content type before the body.
- `Proxy` (proxy.dfy): `CachingProxyServer`, a class whose `cache: map<string,
  string>` field is the dictionary. `Start` is `Main` up to the listener.
  `HandleRequest` and `WriteResponse` are the handler. `RequestTwice` is a
  client that sends one request twice.

Quirks of the code that the model keeps:

- Every index of `args` is scanned, including an option's value. So
  `--origin --clear-cache` sets the origin to `--clear-cache` and also clears.
  And `--port --origin x` passes `--origin` to `int.Parse`, which throws.
- The last valued occurrence of `--origin` or `--port` wins. A final `--origin`
  or `--port` that has nothing after it is ignored.
- `int.Parse` throws at the first malformed `--port` value, and the exception
  is not caught. So `--clear-cache --port abc` ends the process before clearing.
  "`--clear-cache` anywhere means clear mode" holds only when no `--port` value
  is malformed (`ClearCacheOverridesOtherOptions`). One might expect clear mode
  to ignore port and origin. The code does not, because `int.Parse` runs first.
- `--port 0` falls back to the usage text, like a missing `--port`.
- There is no URL normalisation. The path and query always begin with `/`, so
  an origin with a trailing slash gives `//` in the key and in the forwarded URL
  (`CacheKeyKeepsDoubleSlash`).

## Model

| member | source | states |
|---|---|---|
| `CommandLine.ParseArgs` | Program.cs:11-30 | The argument loop's outcome equals `Parse(args)`. It is `MalformedPort` exactly when some valued `--port` is followed by text `int.Parse` refuses. Otherwise the origin is the last valued `--origin`, the port is the last valued `--port` (0 if none), and `clearCache` holds exactly when `--clear-cache` is among the arguments. |
| `CommandLine.LastValueIsLastOccurrence` | Program.cs:16-25 | Last occurrence wins. An option's value is absent exactly when no occurrence of the option has an element after it. Otherwise it is the element after the last such occurrence, in both directions. |
| `CommandLine.TrailingArgumentIgnored` | Program.cs:18-29 | Appending any argument other than `--clear-cache` leaves the outcome unchanged, unless it becomes the value of an `--origin` or `--port` just before it. In particular a final `--origin` or `--port` without a value is ignored. |
| `CommandLine.UnrecognisedArgumentIgnored` | Program.cs:18-29 | An argument that is not one of the three options, and is not the value of `--origin` or `--port`, can be removed without changing the outcome. |
| `CommandLine.OptionValueIsRescanned` | Program.cs:16-28 | `--origin --clear-cache` sets the origin to `--clear-cache`, leaves the port at 0, and sets `clearCache`, because i is not advanced past a value. |
| `CommandLine.PortValueIsAnOption` | Program.cs:23-24 | `--port --origin x` hands `--origin` to `int.Parse`, and the process ends with its exception. |
| `CommandLine.SelectMode` | Program.cs:32-43 | Clear mode exactly when `clearCache`. Serve exactly when not clearing, the port is non-zero and an origin is set, with that port and origin. The usage text in every other case. |
| `CommandLine.ClearCacheOverridesOtherOptions` | Program.cs:24-37 | With `--clear-cache` among the arguments, the mode is clear whatever the port and origin, unless a malformed `--port` value made the scan throw first. |
| `CommandLine.ServeNeedsPortAndOrigin` | Program.cs:32-43 | On arguments that parse, serve mode is entered exactly when there is no `--clear-cache`, the last valued `--port` is non-zero and some `--origin` has a value. |
| `Numerals.ParseInt32` | Program.cs:24 | `int.Parse` succeeds exactly when the text, with leading and trailing white space removed, is an optional sign followed by at least one decimal digit, and its value is in the 32-bit range. On success the result is that value. |
| `Numerals.ParseFormatRoundTrip` | Program.cs:24 | Every 32-bit integer written in decimal, with any white space around it, is read back by `int.Parse` as itself. |
| `Numerals.ParseRejectsBlank` | Program.cs:24 | Empty or all-white-space text throws. |
| `Numerals.ParseRejectsBareSign` | Program.cs:24 | A sign with no digits throws. |
| `Numerals.ParseRejectsNonDigit` | Program.cs:24 | Unpadded text with a non-digit anywhere after its first character throws. |
| `Numerals.ParseRejectsOverflow` | Program.cs:24 | A numeral with an optional sign, eleven or more digits after the sign and no leading zero is outside the range of `int` and throws, with any white space around it. |
| `Proxy.CacheKey` | Program.cs:62-63 | The key is the origin URL followed by the path and query: its prefix is exactly the origin and its suffix exactly the path and query. |
| `Proxy.CacheKeyInjective` | Program.cs:62-63 | Under one origin, two requests share a cache entry exactly when their paths and queries are equal. |
| `Proxy.CacheKeyKeepsDoubleSlash` | Program.cs:62-63 | Take an origin ending in `/` and a path and query starting with `/`, as `PathAndQuery` always does. The key then has `//` where they meet, and it differs from the key for the same origin without its trailing slash: no normalisation. |
| `Proxy.CachingProxyServer.constructor` | Program.cs:6 | A process starts with an empty cache. |
| `Proxy.CachingProxyServer.Start` | Program.cs:11-43 | `Main` ends with the `int.Parse` exception exactly when `Parse` says `MalformedPort`, and otherwise in `SelectMode` of the parsed configuration. The cache is emptied exactly in clear mode and is otherwise unchanged. |
| `Proxy.CachingProxyServer.HandleRequest` | Program.cs:60-97 | Hit: no forwarded request, cache unchanged, `X-Cache: HIT`, status unchanged, body is the stored value. Miss: exactly one request that the handler attempts to send to the origin, with the inbound method and the key as URL, and `X-Cache: MISS`. Answered miss, any status: the cache gains exactly that key with the body, and that body is relayed. Failed miss: the cache is unchanged, status 500, body `Internal server error`. Always: JSON content type and the response closed. No stored entry ever changes, and keys stay under the origin. |
| `Proxy.CachingProxyServer.WriteResponse` | Program.cs:99-107 | Sets the JSON content type before any body bytes, appends exactly the given body, closes the response, and leaves status and headers alone. |
| `Proxy.RequestTwice` | Program.cs:66-88 | On a key not yet cached, a request followed by the same request gives a MISS that asks the origin and stores its body, then a HIT with status 200 that returns the same body without asking the origin. |

## Left out

- The listener: `HttpListener` setup, the prefix `http://localhost:<port>/`, the endless accept loop and `GetContextAsync` (Program.cs:45-57). This is network I/O. `Start` returning `Serve(port, origin)` stands for it. `SelectMode` gives `Serve` for any non-zero 32-bit port, such as `--port -1` or `--port 70000`. The listener setup at Program.cs:45-48 would then throw for a port outside 1-65535, and the model does not reach that point.
- `Task.Run` and concurrency (Program.cs:6, 56). The model is sequential. Races between concurrent misses on the same key, and the last-write-wins behaviour of `ConcurrentDictionary`, are not modelled. Hence `HandleRequest` can promise that a stored entry never changes, which a concurrent run does not guarantee.
- `HttpClient.SendAsync` and `ReadAsStringAsync` (Program.cs:81-83) are replaced by the `OriginReply` input. Every exception from building, sending or reading the forwarded request (Program.cs:80-83) becomes `TransportFailure`, including one thrown while building the request (an invalid method or URL). The origin's reply headers are not modelled.
- Byte-level output: `StreamWriter` and UTF-8 encoding (Program.cs:102-105). The written body is a string.
- Failures while writing to the client, such as a disconnected client inside the `try` followed by a second exception in the `catch`, are not modelled.
- Console output (Program.cs:35, 41, 50-51, 68, 74, 92).
- `int.Parse` culture: the invariant-culture signs `-` and `+` are assumed, and the trailing NUL characters .NET also accepts are not modelled.
- Persistence: the cache lives in one process. Clearing empties this process's fresh cache and says nothing about later runs.
- The inbound request's headers and body, which the code never forwards.
