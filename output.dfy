/** The ComfyUI output node `ComfyApiImageOutput`: it checks the `request_id` input before the
    graph runs, and sends every image of its batch to the client as a preview frame tagged with
    that id. */
module Output {
  import opened Wrappers
  import opened Strings
  import opened SocketIo

  /** The node's default `request_id` input. */
  const DefaultRequestId := "output_id"

  /** Length of the request ids the queue endpoint generates (the first 24 hex digits of a uuid). */
  const QueuedIdLen := 24

  /** The two ValueErrors of `VALIDATE_INPUTS`. */
  datatype ValidationError =
    | NotEncodable  // the id has a character outside ASCII
    | TooLong       // the id has more than `MAX_REQUEST_ID_LEN` characters

  /** `ComfyApiImageOutput.VALIDATE_INPUTS(request_id)`: ASCII encoding is attempted first, so a
      long non-ASCII id is reported as not encodable. */
  function ValidateInputs(requestId: string): (r: Result<bool, ValidationError>)
    ensures r.Ok? <==> AsciiText(requestId) && |requestId| <= MaxRequestIdLen
    ensures r.Ok? ==> r.value
    ensures r == Err(NotEncodable) <==> !AsciiText(requestId)
    ensures r == Err(TooLong) <==> AsciiText(requestId) && |requestId| > MaxRequestIdLen
  {
    if !AsciiText(requestId) then Err(NotEncodable)
    else if |requestId| > MaxRequestIdLen then Err(TooLong)
    else Ok(true)
  }

  /** An accepted id reaches the frame unchanged: `send_image`'s truncation and ascii-replace
      leave it alone, and its bytes decode back to it. */
  lemma AcceptedIdUnchanged(requestId: string)
    requires ValidateInputs(requestId).Ok?
    ensures RequestIdField(requestId)
         == EncodeAsciiReplace(requestId) + Nuls(MaxRequestIdLen - |requestId|)
    ensures DecodeAscii(RequestIdField(requestId)[..|requestId|]) == requestId
  {
    FieldOfShortAscii(requestId);
  }

  /** The node's default id and every id the queue endpoint makes are accepted. */
  lemma UsualIdsAccepted(u: seq<byte>)
    requires IsUuid(u)
    ensures ValidateInputs(DefaultRequestId) == Ok(true)
    ensures ValidateInputs(UuidHex(u)[..QueuedIdLen]) == Ok(true)
  {
    var id := UuidHex(u)[..QueuedIdLen];
    HexDigits(u);
    forall i | 0 <= i < |id| ensures IsAscii(id[i]) {
      assert id[i] in Hex(u);
    }
  }

  /** What the server delivers for a batch: one preview frame per image, each to the client's
      socket and each carrying the same request id; nothing when the client is not registered. */
  function RunEffects(sockets: map<string, Connections.Handle>, clientId: string, fileType: string,
                      requestId: string, images: seq<seq<byte>>): seq<Effect>
  {
    if images == [] then []
    else RunEffects(sockets, clientId, fileType, requestId, images[..|images| - 1])
         + BytesDelivery(sockets, ImageFrame(fileType, requestId, images[|images| - 1]), clientId)
  }

  /** One frame per image, in batch order, all for the same client and request id. */
  lemma {:induction false} RunEffectsFrames(sockets: map<string, Connections.Handle>, clientId: string,
                                            fileType: string, requestId: string,
                                            images: seq<seq<byte>>)
    ensures var e := RunEffects(sockets, clientId, fileType, requestId, images);
      |e| == (if clientId in sockets then |images| else 0)
      && forall i :: 0 <= i < |e| ==>
           e[i] == SentBytes(sockets[clientId], ImageFrame(fileType, requestId, images[i]))
  {
    if images != [] {
      var init := images[..|images| - 1];
      RunEffectsFrames(sockets, clientId, fileType, requestId, init);
      var e := RunEffects(sockets, clientId, fileType, requestId, images);
      var e0 := RunEffects(sockets, clientId, fileType, requestId, init);
      forall i | 0 <= i < |e|
        ensures e[i] == SentBytes(sockets[clientId], ImageFrame(fileType, requestId, images[i]))
      {
        if i < |e0| {
          assert e[i] == e0[i] && init[i] == images[i];
        }
      }
    }
  }

  /** What a client reads from each forwarded frame of a batch with an accepted id that does not
      end in NUL: the request id it submitted, then that image's bytes. */
  lemma RunPreviewsCarryId(sockets: map<string, Connections.Handle>, clientId: string,
                           fileType: string, requestId: string, images: seq<seq<byte>>, i: int)
    requires ValidateInputs(requestId).Ok?
    requires requestId == [] || requestId[|requestId| - 1] != '\0'
    requires clientId in sockets && 0 <= i < |images|
    ensures var e := RunEffects(sockets, clientId, fileType, requestId, images);
      i < |e| && e[i].SentBytes?
      && var got := Connections.ForwardedBytes(e[i].message);
      |got| == MaxRequestIdLen + |images[i]|
      && DecodeAscii(StripTrailingNul(got[..MaxRequestIdLen])) == requestId
      && got[MaxRequestIdLen..] == images[i]
  {
    RunEffectsFrames(sockets, clientId, fileType, requestId, images);
    ClientReadsPreview(fileType, requestId, images[i]);
  }

  /** `ComfyApiImageOutput.run`: `send_image` once per image of the batch, to `clientId`, with
      `requestId`; `images` are the encoded bytes of the batch's tensors. */
  method Run(server: ComfyApiServer, requestId: string, images: seq<seq<byte>>, fileType: string,
             clientId: string)
    modifies server`effects
    ensures server.effects
         == old(server.effects) + RunEffects(server.sockets, clientId, fileType, requestId, images)
  {
    var i := 0;
    while i < |images|
      invariant 0 <= i <= |images|
      invariant server.effects
             == old(server.effects) + RunEffects(server.sockets, clientId, fileType, requestId, images[..i])
    {
      server.SendImage(fileType, images[i], clientId, requestId);
      assert images[..i + 1][..i] == images[..i];
      i := i + 1;
    }
    assert images[..i] == images;
  }
}
