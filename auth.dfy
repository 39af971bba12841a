/** The API-key check of the HTTP and websocket endpoints, and the rule that picks the client
    address that the manager's per-IP limits are keyed by. */
module Auth {
  import opened Wrappers

  /** An `HTTPException` raised to the client. */
  datatype HttpError = HttpError(status: int, detail: string)

  const Unauthorized := HttpError(401, "Missing or invalid API key")
  const NoClientIp := HttpError(400, "Could not determine client IP")

  /** `check_api_key`: exact equality with the configured key. */
  predicate CheckApiKey(apiKey: string, configured: string)
  {
    apiKey == configured
  }

  /** `validate_api_key` (and `validate_ws_api_key`, which passes its `token` header on): the key
      itself on a match, 401 otherwise. */
  function ValidateApiKey(header: string, configured: string): (r: Result<string, HttpError>)
    ensures r.Ok? <==> header == configured
    ensures r.Ok? ==> r.value == configured
    ensures r.Err? ==> r.error.status == 401
  {
    if CheckApiKey(header, configured) then Ok(header) else Err(Unauthorized)
  }

  /** What an HTTP request or a websocket tells about its peer: the `X-Forwarded-For` header, if
      sent, and the host of the transport's client address, if known. */
  datatype Peer = Peer(forwardedFor: Option<string>, clientHost: Option<string>)

  /** Python's truthiness of an optional string: present and non-empty. */
  predicate Given(s: Option<string>)
  {
    s.Some? && s.value != ""
  }

  /** `get_request_client_ip` and `get_websocket_client_ip`, which apply the same rule: a non-empty
      forwarded header wins, else the client host, else 400. */
  function ClientIp(peer: Peer): (r: Result<string, HttpError>)
    ensures r.Ok? <==> Given(peer.forwardedFor) || Given(peer.clientHost)
    ensures Given(peer.forwardedFor) ==> r == Ok(peer.forwardedFor.value)
    ensures !Given(peer.forwardedFor) && Given(peer.clientHost) ==> r == Ok(peer.clientHost.value)
    ensures r.Ok? ==> r.value != ""
    ensures r.Err? ==> r.error.status == 400
  {
    var ip := if !Given(peer.forwardedFor) && peer.clientHost.Some? then peer.clientHost else peer.forwardedFor;
    if !Given(ip) then Err(NoClientIp) else Ok(ip.value)
  }

  /** `get_client_ip(request, ws)`: the request when there is one, else the websocket, else 400.
      A request whose address cannot be found is not rescued by the websocket. */
  function GetClientIp(request: Option<Peer>, ws: Option<Peer>): (r: Result<string, HttpError>)
    ensures request.None? && ws.None? ==> r == Err(NoClientIp)
    ensures r.Ok? ==> r.value != ""
    ensures r.Err? ==> r.error.status == 400
  {
    if request.Some? then ClientIp(request.value)
    else if ws.Some? then ClientIp(ws.value)
    else Err(NoClientIp)
  }

  /** An address is found exactly when the connection consulted (the request if there is one,
      else the websocket) has a usable header or host; the request's own failure stands even when
      a websocket with an address is also given. */
  lemma ClientIpFound(request: Option<Peer>, ws: Option<Peer>)
    ensures GetClientIp(request, ws).Ok? <==>
      (request.Some? && (Given(request.value.forwardedFor) || Given(request.value.clientHost)))
      || (request.None? && ws.Some? && (Given(ws.value.forwardedFor) || Given(ws.value.clientHost)))
    ensures request.Some? && GetClientIp(request, ws).Ok? ==>
      var ip := GetClientIp(request, ws).value;
      (Given(request.value.forwardedFor) && ip == request.value.forwardedFor.value)
      || (Given(request.value.clientHost) && ip == request.value.clientHost.value)
  {
  }
}
