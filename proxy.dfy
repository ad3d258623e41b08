/**
 * The caching proxy: start-up (`Main` up to the listener) and the handling of
 * one request against the shared cache (`HandleRequest`, `WriteResponse`).
 */
module Proxy {
  import opened Wrappers
  import opened CommandLine
  import opened Http

  const X_CACHE_HEADER: string := "X-Cache"
  const HIT: string := "HIT"
  const MISS: string := "MISS"
  const JSON_CONTENT_TYPE: string := "application/json"
  const INTERNAL_SERVER_ERROR: int := 500
  const INTERNAL_SERVER_ERROR_BODY: string := "Internal server error"

  /**
   * The cache key, which is also the URL forwarded to the origin: the origin
   * base URL followed by the path and query, with nothing added, removed or
   * re-encoded in between.
   */
  function CacheKey(originUrl: string, pathAndQuery: string): (key: string)
    ensures |key| == |originUrl| + |pathAndQuery|
    ensures key[..|originUrl|] == originUrl && key[|originUrl|..] == pathAndQuery
  {
    originUrl + pathAndQuery
  }

  /** Under one origin, two requests share a cache entry exactly when their paths and queries are equal. */
  lemma CacheKeyInjective(originUrl: string, path1: string, path2: string)
    ensures CacheKey(originUrl, path1) == CacheKey(originUrl, path2) <==> path1 == path2
  {
  }

  /**
   * The key is not normalised: `PathAndQuery` always begins with `/`, so an
   * origin given with a trailing slash yields `//` in the key (and the
   * forwarded URL), and that key differs from the one for the same origin
   * without the slash.
   */
  lemma CacheKeyKeepsDoubleSlash(originUrl: string, pathAndQuery: string)
    requires originUrl != [] && originUrl[|originUrl| - 1] == '/'
    requires pathAndQuery != [] && pathAndQuery[0] == '/'
    ensures CacheKey(originUrl, pathAndQuery)[|originUrl| - 1..|originUrl| + 1] == "//"
    ensures CacheKey(originUrl, pathAndQuery) != CacheKey(originUrl[..|originUrl| - 1], pathAndQuery)
  {
    var key := CacheKey(originUrl, pathAndQuery);
    assert key[|originUrl| - 1] == '/' && key[|originUrl|] == '/';
  }

  /** How `Main` ends: in one of its modes, or with the exception `int.Parse` throws. */
  datatype Launch = Launched(mode: Mode) | Aborted

  class CachingProxyServer {
    /** The shared `ConcurrentDictionary`: request URL to response body. */
    var cache: map<string, string>

    /** A process starts with an empty cache. */
    constructor ()
      ensures cache == map[]
    {
      cache := map[];
    }

    /** Every cached key starts with the origin base URL. */
    ghost predicate KeysUnder(originUrl: string)
      reads this
    {
      forall key :: key in cache ==> originUrl <= key
    }

    /**
     * `Main` up to the listener: scan the arguments, then clear the cache and
     * stop, print the usage text and stop, or go on to serve.
     */
    method Start(args: seq<string>) returns (launch: Launch)
      modifies this
      ensures launch == match Parse(args)
        case MalformedPort => Aborted
        case Parsed(config) => Launched(SelectMode(config))
      ensures cache == if launch == Launched(ClearCacheAndExit) then map[] else old(cache)
    {
      var parsed := ParseArgs(args);
      if parsed.MalformedPort? {
        return Aborted;
      }
      var mode := SelectMode(parsed.config);
      if mode == ClearCacheAndExit {
        cache := map[];
      }
      launch := Launched(mode);
    }

    /**
     * One request. `reply` is what the origin would answer if it were asked;
     * `forwarded` is the request the handler attempts to send to it, if any;
     * a `TransportFailure` covers a request that never left the process.
     */
    method HandleRequest(originUrl: string, request: Request, reply: OriginReply, response: Response)
      returns (forwarded: Option<ForwardedRequest>)
      requires !response.headersSent && !response.closed
      modifies this, response
      // Hit: the stored body, no origin call, the cache as it was.
      ensures var key := CacheKey(originUrl, request.pathAndQuery);
        key in old(cache) ==>
          && forwarded == None
          && cache == old(cache)
          && response.headers == old(response.headers)[X_CACHE_HEADER := HIT]
          && response.statusCode == old(response.statusCode)
          && response.body == old(response.body) + old(cache)[key]
      // Miss: one forwarded request, with the inbound method, to the key as URL.
      ensures var key := CacheKey(originUrl, request.pathAndQuery);
        key !in old(cache) ==>
          && forwarded == Some(ForwardedRequest(request.httpMethod, key))
          && response.headers == old(response.headers)[X_CACHE_HEADER := MISS]
      // Miss answered, whatever its status code: the body is stored under the key and relayed.
      ensures var key := CacheKey(originUrl, request.pathAndQuery);
        key !in old(cache) && reply.Received? ==>
          && cache == old(cache)[key := reply.body]
          && response.statusCode == old(response.statusCode)
          && response.body == old(response.body) + reply.body
      // Miss not answered: nothing stored, a fixed 500.
      ensures var key := CacheKey(originUrl, request.pathAndQuery);
        key !in old(cache) && reply.TransportFailure? ==>
          && cache == old(cache)
          && response.statusCode == INTERNAL_SERVER_ERROR
          && response.body == old(response.body) + INTERNAL_SERVER_ERROR_BODY
      // Every path: JSON content type, response closed.
      ensures response.contentType == Some(JSON_CONTENT_TYPE) && response.closed
      // A stored entry is never changed or dropped by a request.
      ensures forall key :: key in old(cache) ==> key in cache && cache[key] == old(cache)[key]
      ensures old(KeysUnder(originUrl)) ==> KeysUnder(originUrl)
    {
      var requestUrl := CacheKey(originUrl, request.pathAndQuery);
      if requestUrl in cache {
        var cachedResponse := cache[requestUrl];
        response.SetHeader(X_CACHE_HEADER, HIT);
        WriteResponse(response, cachedResponse);
        forwarded := None;
      } else {
        response.SetHeader(X_CACHE_HEADER, MISS);
        forwarded := Some(ForwardedRequest(request.httpMethod, requestUrl));
        match reply {
          case Received(_, responseBody) =>
            cache := cache[requestUrl := responseBody];
            WriteResponse(response, responseBody);
          case TransportFailure =>
            response.SetStatusCode(INTERNAL_SERVER_ERROR);
            WriteResponse(response, INTERNAL_SERVER_ERROR_BODY);
        }
      }
    }

    /** Set the JSON content type, write the body, close: headers always go out before the body. */
    static method WriteResponse(response: Response, responseBody: string)
      requires !response.headersSent && !response.closed
      modifies response
      ensures response.contentType == Some(JSON_CONTENT_TYPE)
      ensures response.body == old(response.body) + responseBody
      ensures response.closed
      ensures response.statusCode == old(response.statusCode) && response.headers == old(response.headers)
    {
      response.SetContentType(JSON_CONTENT_TYPE);
      response.Write(responseBody);
      response.Close();
    }
  }

  /**
   * The same request twice on a key not yet cached: the first is a miss that
   * asks the origin and stores its body; the second is a hit that returns that
   * body and does not ask the origin, whatever the origin would now say.
   */
  method RequestTwice(server: CachingProxyServer, originUrl: string, request: Request,
                      first: OriginReply, second: OriginReply)
    returns (firstResponse: Response, firstForwarded: Option<ForwardedRequest>,
             secondResponse: Response, secondForwarded: Option<ForwardedRequest>)
    requires CacheKey(originUrl, request.pathAndQuery) !in server.cache
    requires first.Received?
    modifies server
    ensures var key := CacheKey(originUrl, request.pathAndQuery);
      && firstForwarded == Some(ForwardedRequest(request.httpMethod, key))
      && firstResponse.headers == map[X_CACHE_HEADER := MISS]
      && secondForwarded == None
      && secondResponse.headers == map[X_CACHE_HEADER := HIT]
      && secondResponse.statusCode == 200
      && firstResponse.body == secondResponse.body == first.body
      && server.cache == old(server.cache)[key := first.body]
  {
    firstResponse := new Response();
    firstForwarded := server.HandleRequest(originUrl, request, first, firstResponse);
    secondResponse := new Response();
    secondForwarded := server.HandleRequest(originUrl, request, second, secondResponse);
  }
}
