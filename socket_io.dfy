/** The websocket server that the ComfyUI custom nodes run inside ComfyUI: the binary framing of
    preview images (a 4-byte event tag, a 4-byte type code and a 32-byte request-id field before
    the image bytes), and the `sockets` registry that maps a client id to its open websocket. */
module SocketIo {
  import opened Wrappers
  import opened Strings
  import opened JsonValues
  import Connections

  /** `BinaryEventTypes.PREVIEW_IMAGE`. */
  const PreviewImage := 1

  /** `MAX_REQUEST_ID_LEN`: the width of the request-id field. */
  const MaxRequestIdLen := 32

  /** One more than the largest value `struct.pack(">I", n)` accepts. */
  const Two32 := 0x1_0000_0000

  /** The close code sent to a websocket that a newer connection with the same id replaces. */
  const GoingAway := 1001

  // ---------------------------------------------------------------------------------------------
  // Big-endian 32-bit words

  /** `struct.pack(">I", n)`: four bytes, the most significant first. */
  function PackU32(n: int): (r: seq<byte>)
    requires 0 <= n < Two32
    ensures |r| == 4
  {
    var x1 := n / 256;
    var x2 := x1 / 256;
    [x2 / 256, x2 % 256, x1 % 256, n % 256]
  }

  /** `struct.unpack(">I", bs)[0]`. */
  function UnpackU32(bs: seq<byte>): (n: int)
    requires |bs| == 4
    ensures 0 <= n < Two32
  {
    ((bs[0] as int * 256 + bs[1]) * 256 + bs[2]) * 256 + bs[3]
  }

  /** Unpacking inverts packing. */
  lemma UnpackPack(n: int)
    requires 0 <= n < Two32
    ensures UnpackU32(PackU32(n)) == n
  {
    var x1 := n / 256;
    var x2 := x1 / 256;
    assert n == x1 * 256 + n % 256;
    assert x1 == x2 * 256 + x1 % 256;
    assert x2 == (x2 / 256) * 256 + x2 % 256;
  }

  /** Packing inverts unpacking: every 4-byte word is the packing of exactly one number. */
  lemma PackUnpack(bs: seq<byte>)
    requires |bs| == 4
    ensures PackU32(UnpackU32(bs)) == bs
  {
    var x2 := bs[0] as int * 256 + bs[1];
    var x1 := x2 * 256 + bs[2];
    var n := x1 * 256 + bs[3];
    assert n / 256 == x1 && n % 256 == bs[3];
    assert x1 / 256 == x2 && x1 % 256 == bs[2];
    assert x2 / 256 == bs[0] && x2 % 256 == bs[1];
  }

  // ---------------------------------------------------------------------------------------------
  // encode_bytes

  /** The `event` argument of `encode_bytes`: a Python `int`, or a value of any other type. */
  datatype Event = IntEvent(n: int) | NonIntEvent

  /** What `encode_bytes` raises. */
  datatype EncodeError =
    | NotAnInteger  // the RuntimeError of the `isinstance` test
    | OutOfRange    // `struct.error`: ">I" packs only 0 .. 2^32 - 1

  /** A binary websocket message: the event as a 4-byte big-endian word, then the data. */
  function Framed(event: int, data: seq<byte>): seq<byte>
    requires 0 <= event < Two32
  {
    PackU32(event) + data
  }

  /** `ComfyApiServer.encode_bytes(event, data)`. */
  function EncodeBytes(event: Event, data: seq<byte>): (r: Result<seq<byte>, EncodeError>)
    ensures r.Ok? <==> event.IntEvent? && 0 <= event.n < Two32
    ensures event.NonIntEvent? ==> r == Err(NotAnInteger)
    ensures r.Ok? ==> |r.value| == |data| + 4 && r.value[4..] == data
    ensures r.Ok? ==> UnpackU32(r.value[..4]) == event.n
  {
    match event
    case NonIntEvent => Err(NotAnInteger)
    case IntEvent(n) =>
      if 0 <= n < Two32 then
        var m := Framed(n, data);
        assert m[..4] == PackU32(n);
        UnpackPack(n);
        Ok(m)
      else Err(OutOfRange)
  }

  // ---------------------------------------------------------------------------------------------
  // The request-id field

  /** A character `str.encode("ascii")` accepts. */
  predicate IsAscii(c: char)
  {
    (c as int) < 128
  }

  /** Text that `str.encode("ascii")` encodes without raising. */
  predicate AsciiText(s: string)
  {
    forall i :: 0 <= i < |s| ==> IsAscii(s[i])
  }

  /** The byte `encode("ascii", "replace")` writes for one character. */
  function AsciiByte(c: char): byte
  {
    if IsAscii(c) then c as int else '?' as int
  }

  /** `s.encode("ascii", "replace")`: one byte per character, `?` for each non-ASCII one. */
  function EncodeAsciiReplace(s: string): (r: seq<byte>)
    ensures |r| == |s|
  {
    if s == [] then [] else [AsciiByte(s[0])] + EncodeAsciiReplace(s[1..])
  }

  /** `bs.decode("ascii")` for bytes below 128. */
  function DecodeAscii(bs: seq<byte>): (r: string)
    ensures |r| == |bs|
  {
    if bs == [] then [] else [bs[0] as char] + DecodeAscii(bs[1..])
  }

  /** `s.ljust(width, fill)`. */
  function Ljust(s: string, width: nat, fill: char): (r: string)
    ensures |r| == if |s| < width then width else |s|
  {
    if |s| < width then s + Fill(width - |s|, fill) else s
  }

  /** `n` copies of `c`. */
  function Fill(n: nat, c: char): (r: string)
    ensures |r| == n
  {
    if n == 0 then [] else Fill(n - 1, c) + [c]
  }

  /** `bs.rstrip(b"\x00")`. */
  function StripTrailingNul(bs: seq<byte>): (r: seq<byte>)
    ensures |r| <= |bs| && r == bs[..|r|]
    ensures r == [] || r[|r| - 1] != 0
  {
    if bs != [] && bs[|bs| - 1] == 0 then StripTrailingNul(bs[..|bs| - 1]) else bs
  }

  /** `send_image`'s request-id field: at most 32 characters of the id, right-padded with NUL to
      32, ASCII-encoded with replacement. */
  function RequestIdField(reqId: string): (r: seq<byte>)
    ensures |r| == MaxRequestIdLen
  {
    var kept := if |reqId| <= MaxRequestIdLen then reqId else reqId[..MaxRequestIdLen];
    EncodeAsciiReplace(Ljust(kept, MaxRequestIdLen, '\0'))
  }

  /** `n` NUL bytes. */
  function Nuls(n: nat): (r: seq<byte>)
    ensures |r| == n
  {
    if n == 0 then [] else Nuls(n - 1) + [0]
  }

  lemma {:induction false} EncodeAppend(a: string, b: string)
    ensures EncodeAsciiReplace(a + b) == EncodeAsciiReplace(a) + EncodeAsciiReplace(b)
  {
    if a == [] {
      assert a + b == b;
    } else {
      assert (a + b)[0] == a[0];
      assert (a + b)[1..] == a[1..] + b;
      EncodeAppend(a[1..], b);
    }
  }

  lemma {:induction false} EncodeNuls(n: nat)
    ensures EncodeAsciiReplace(Fill(n, '\0')) == Nuls(n)
  {
    if n > 0 {
      EncodeNuls(n - 1);
      EncodeAppend(Fill(n - 1, '\0'), ['\0']);
    }
  }

  /** The i-th byte of the encoding is the i-th character's byte. */
  lemma {:induction false} EncodeAt(s: string, i: int)
    requires 0 <= i < |s|
    ensures EncodeAsciiReplace(s)[i] == AsciiByte(s[i])
  {
    if i > 0 {
      EncodeAt(s[1..], i - 1);
    }
  }

  /** ASCII text survives the replace-encoding: decoding gives it back. */
  lemma {:induction false} DecodeEncode(s: string)
    requires AsciiText(s)
    ensures DecodeAscii(EncodeAsciiReplace(s)) == s
  {
    if s != [] {
      assert AsciiText(s[1..]) by {
        forall i | 0 <= i < |s[1..]| ensures IsAscii(s[1..][i]) {
          assert s[1..][i] == s[i + 1];
        }
      }
      DecodeEncode(s[1..]);
      assert IsAscii(s[0]);
    }
  }

  /** Stripping trailing NULs removes exactly the padding after a byte string that does not end
      in NUL. */
  lemma {:induction false} StripPadding(bs: seq<byte>, n: nat)
    requires bs == [] || bs[|bs| - 1] != 0
    ensures StripTrailingNul(bs + Nuls(n)) == bs
  {
    if n == 0 {
      assert bs + Nuls(0) == bs;
    } else {
      var padded := bs + Nuls(n);
      assert padded == (bs + Nuls(n - 1)) + [0];
      assert padded[..|padded| - 1] == bs + Nuls(n - 1);
      StripPadding(bs, n - 1);
    }
  }

  /** An ASCII id of at most 32 characters passes through the field unchanged: its bytes, then
      NUL padding. */
  lemma FieldOfShortAscii(reqId: string)
    requires AsciiText(reqId) && |reqId| <= MaxRequestIdLen
    ensures RequestIdField(reqId) == EncodeAsciiReplace(reqId) + Nuls(MaxRequestIdLen - |reqId|)
    ensures DecodeAscii(RequestIdField(reqId)[..|reqId|]) == reqId
  {
    var pad := Fill(MaxRequestIdLen - |reqId|, '\0');
    assert Ljust(reqId, MaxRequestIdLen, '\0') == reqId + pad;
    EncodeAppend(reqId, pad);
    EncodeNuls(MaxRequestIdLen - |reqId|);
    var enc := EncodeAsciiReplace(reqId);
    assert RequestIdField(reqId) == enc + Nuls(MaxRequestIdLen - |reqId|);
    assert (enc + Nuls(MaxRequestIdLen - |reqId|))[..|reqId|] == enc;
    DecodeEncode(reqId);
  }

  /** A longer id is cut to its first 32 characters. */
  lemma FieldOfLong(reqId: string)
    requires |reqId| > MaxRequestIdLen
    ensures RequestIdField(reqId) == EncodeAsciiReplace(reqId[..MaxRequestIdLen])
  {
  }

  /** Round trip: for an ASCII id of at most 32 characters that does not end in NUL, stripping the
      padding and decoding the field gives the id back. */
  lemma RequestIdRoundTrip(reqId: string)
    requires AsciiText(reqId) && |reqId| <= MaxRequestIdLen
    requires reqId == [] || reqId[|reqId| - 1] != '\0'
    ensures DecodeAscii(StripTrailingNul(RequestIdField(reqId))) == reqId
  {
    FieldOfShortAscii(reqId);
    var enc := EncodeAsciiReplace(reqId);
    if reqId != [] {
      EncodeAt(reqId, |reqId| - 1);
      assert IsAscii(reqId[|reqId| - 1]);
    }
    StripPadding(enc, MaxRequestIdLen - |reqId|);
    DecodeEncode(reqId);
  }

  // ---------------------------------------------------------------------------------------------
  // Image frames

  /** The image format a type code stands for. */
  function FormatName(code: int): string
  {
    if code == 2 then "PNG" else if code == 3 then "WEBP" else "JPEG"
  }

  /** `send_image`'s `type_num`. */
  function TypeCode(imageType: string): (r: int)
    ensures 1 <= r <= 3
    ensures imageType in ["JPEG", "PNG", "WEBP"] ==> FormatName(r) == imageType
    ensures imageType !in ["PNG", "WEBP"] ==> r == 1
  {
    if imageType == "JPEG" then 1
    else if imageType == "PNG" then 2
    else if imageType == "WEBP" then 3
    else 1
  }

  /** What `send_image` hands to `send_bytes`: the type code, the request-id field, the image. */
  function ImagePayload(imageType: string, reqId: string, image: seq<byte>): seq<byte>
  {
    PackU32(TypeCode(imageType)) + RequestIdField(reqId) + image
  }

  /** The whole binary message of one preview image. */
  function ImageFrame(imageType: string, reqId: string, image: seq<byte>): seq<byte>
  {
    Framed(PreviewImage, ImagePayload(imageType, reqId, image))
  }

  /** `send_bytes` never fails on an image: the preview event packs. */
  lemma ImageFrameEncodes(imageType: string, reqId: string, image: seq<byte>)
    ensures EncodeBytes(IntEvent(PreviewImage), ImagePayload(imageType, reqId, image))
         == Ok(ImageFrame(imageType, reqId, image))
  {
  }

  /** The layout of an image frame: event, type code, request-id field, image. */
  lemma ImageFrameLayout(imageType: string, reqId: string, image: seq<byte>)
    ensures var f := ImageFrame(imageType, reqId, image);
      |f| == 40 + |image|
      && UnpackU32(f[..4]) == PreviewImage
      && UnpackU32(f[4..8]) == TypeCode(imageType)
      && f[8..40] == RequestIdField(reqId)
      && f[40..] == image
  {
    var f := ImageFrame(imageType, reqId, image);
    assert f[..4] == PackU32(PreviewImage);
    assert f[4..8] == PackU32(TypeCode(imageType));
    UnpackPack(PreviewImage);
    UnpackPack(TypeCode(imageType));
  }

  /** After the proxy drops the first 8 bytes, the client holds the request-id field and the
      image: the event tag and the type code are both gone. */
  lemma ImageFrameForwarded(imageType: string, reqId: string, image: seq<byte>)
    ensures Connections.ForwardedBytes(ImageFrame(imageType, reqId, image))
         == RequestIdField(reqId) + image
  {
    var header := PackU32(PreviewImage) + PackU32(TypeCode(imageType));
    assert ImageFrame(imageType, reqId, image) == header + (RequestIdField(reqId) + image);
    Connections.ForwardedBytesDropsHeader(header, RequestIdField(reqId) + image);
  }

  /** What a client reads from a forwarded preview: the first 32 bytes, NUL-stripped, are the
      request id it submitted, and the rest is the image. */
  lemma ClientReadsPreview(imageType: string, reqId: string, image: seq<byte>)
    requires AsciiText(reqId) && |reqId| <= MaxRequestIdLen
    requires reqId == [] || reqId[|reqId| - 1] != '\0'
    ensures var got := Connections.ForwardedBytes(ImageFrame(imageType, reqId, image));
      |got| == MaxRequestIdLen + |image|
      && DecodeAscii(StripTrailingNul(got[..MaxRequestIdLen])) == reqId
      && got[MaxRequestIdLen..] == image
  {
    ImageFrameForwarded(imageType, reqId, image);
    var got := RequestIdField(reqId) + image;
    assert got[..MaxRequestIdLen] == RequestIdField(reqId);
    RequestIdRoundTrip(reqId);
  }

  // ---------------------------------------------------------------------------------------------
  // The server and its socket registry

  /** One thing the server does to a websocket. */
  datatype Effect =
    | SentBytes(ws: Connections.Handle, message: seq<byte>)
    | SentJson(ws: Connections.Handle, json: Json)
    | ClosedSocket(ws: Connections.Handle, code: int)

  /** The JSON text message of `send_json`: `{"event": event, "data": data}`. */
  function Envelope(event: string, data: Json): Json
  {
    Obj([("event", Str(event)), ("data", data)])
  }

  /** The payload of the greeting a new connection receives: `{"sid": sid}`. */
  function StatusData(sid: string): Json
  {
    Obj([("sid", Str(sid))])
  }

  /** What `send_json` delivers: one message to the sid's socket when the sid is non-empty,
      registered and its socket open; nothing otherwise. */
  function JsonDelivery(sockets: map<string, Connections.Handle>, closed: set<Connections.Handle>,
                        event: string, data: Json, sid: string): (r: seq<Effect>)
    ensures |r| <= 1
    ensures r != [] <==> sid != "" && sid in sockets && sockets[sid] !in closed
    ensures r != [] ==> r[0].SentJson? && r[0].ws == sockets[sid]
  {
    if sid != "" && sid in sockets && sockets[sid] !in closed
    then [SentJson(sockets[sid], Envelope(event, data))]
    else []
  }

  /** What `send_bytes` delivers: one message to the sid's socket when the sid is registered,
      open or not; nothing otherwise. */
  function BytesDelivery(sockets: map<string, Connections.Handle>, message: seq<byte>,
                         sid: string): (r: seq<Effect>)
    ensures |r| <= 1
    ensures r != [] <==> sid in sockets
    ensures r != [] ==> r[0] == SentBytes(sockets[sid], message)
  {
    if sid in sockets then [SentBytes(sockets[sid], message)] else []
  }

  /** The socket a connection with `clientId` replaces and closes: the registered one, if the id
      is non-empty, registered, and its socket still open. */
  function Replaced(sockets: map<string, Connections.Handle>, closed: set<Connections.Handle>,
                    clientId: string): (r: set<Connections.Handle>)
    ensures r != {} <==> clientId != "" && clientId in sockets && sockets[clientId] !in closed
    ensures forall w :: w in r ==> w == sockets[clientId]
  {
    if clientId != "" && clientId in sockets && sockets[clientId] !in closed
    then {sockets[clientId]}
    else {}
  }

  /** `ComfyApiServer`: the registry of client websockets by client id, which sockets it has
      closed, and everything it has sent or closed, in order. */
  class ComfyApiServer {
    var sockets: map<string, Connections.Handle>
    var closed: set<Connections.Handle>
    var effects: seq<Effect>

    constructor()
      ensures sockets == map[] && closed == {} && effects == []
    {
      sockets := map[];
      closed := {};
      effects := [];
    }

    /** `send_json(event, data, sid)`. */
    method SendJson(event: string, data: Json, sid: string)
      modifies this`effects
      ensures effects == old(effects) + JsonDelivery(sockets, closed, event, data, sid)
    {
      if sid != "" && sid in sockets && sockets[sid] !in closed {
        effects := effects + [SentJson(sockets[sid], Envelope(event, data))];
      }
    }

    /** `send_bytes(event, data, sid)`: the encoding error propagates; otherwise the message goes
        to the sid's socket if the sid is registered. */
    method SendBytes(event: Event, data: seq<byte>, sid: string) returns (r: Result<(), EncodeError>)
      modifies this`effects
      ensures r.Ok? <==> EncodeBytes(event, data).Ok?
      ensures r.Err? ==> r.error == EncodeBytes(event, data).error && effects == old(effects)
      ensures r.Ok? ==> effects == old(effects) + BytesDelivery(sockets, EncodeBytes(event, data).value, sid)
    {
      var message := EncodeBytes(event, data);
      if message.Err? {
        return Err(message.error);
      }
      if sid in sockets {
        effects := effects + [SentBytes(sockets[sid], message.value)];
      }
      r := Ok(());
    }

    /** `send_image((imageType, image, None, quality), sid, reqId)`, with `image` the bytes the
        image encoder writes. */
    method SendImage(imageType: string, image: seq<byte>, sid: string, reqId: string)
      modifies this`effects
      ensures effects == old(effects) + BytesDelivery(sockets, ImageFrame(imageType, reqId, image), sid)
    {
      ImageFrameEncodes(imageType, reqId, image);
      var payload := ImagePayload(imageType, reqId, image);
      var r := SendBytes(IntEvent(PreviewImage), payload, sid);
    }

    /** The registration half of `websocket_handler`: a non-empty `clientId` replaces (and, if
        open, closes) the socket registered under it; an empty one gets the hex of the fresh
        uuid `u`; then the new socket is stored and greeted with its sid. */
    method Connect(ws: Connections.Handle, clientId: string, u: seq<byte>) returns (sid: string)
      requires IsUuid(u)
      modifies this`sockets, this`closed, this`effects
      ensures sid == if clientId != "" then clientId else UuidHex(u)
      ensures sockets == old(sockets)[sid := ws]
      ensures closed == old(closed) + Replaced(old(sockets), old(closed), clientId)
      ensures effects == old(effects)
        + (if Replaced(old(sockets), old(closed), clientId) == {} then []
           else [ClosedSocket(old(sockets)[clientId], GoingAway)])
        + JsonDelivery(sockets, closed, "status", StatusData(sid), sid)
    {
      if clientId != "" {
        sid := clientId;
        if sid in sockets {
          var old_ws := sockets[sid];
          sockets := sockets - {sid};
          if old_ws !in closed {
            closed := closed + {old_ws};
            effects := effects + [ClosedSocket(old_ws, GoingAway)];
          }
        }
      } else {
        sid := UuidHex(u);
      }
      sockets := sockets[sid := ws];
      SendJson("status", StatusData(sid), sid);
    }

    /** The `finally` of `websocket_handler`: the sid entry goes, whichever socket holds it. */
    method Exit(sid: string)
      modifies this`sockets
      ensures sockets == old(sockets) - {sid}
    {
      sockets := sockets - {sid};
    }
  }

  /** A reconnect with the same client id closes the socket it replaces and greets the new one,
      which from then on receives that client's messages. */
  method ReconnectReplaces(ws1: Connections.Handle, ws2: Connections.Handle, clientId: string,
                           u: seq<byte>, message: seq<byte>)
    returns (effects: seq<Effect>)
    requires clientId != "" && IsUuid(u) && ws1 != ws2
    ensures effects == [
      SentJson(ws1, Envelope("status", StatusData(clientId))),
      ClosedSocket(ws1, GoingAway),
      SentJson(ws2, Envelope("status", StatusData(clientId))),
      SentBytes(ws2, Framed(PreviewImage, message))]
  {
    var server := new ComfyApiServer();
    var a := server.Connect(ws1, clientId, u);
    var b := server.Connect(ws2, clientId, u);
    var r := server.SendBytes(IntEvent(PreviewImage), message, clientId);
    effects := server.effects;
  }

  /** The exit of an older handler removes the id even though a newer connection holds it: the
      newer client is then unreachable by id. */
  method StaleExitUnregisters(ws1: Connections.Handle, ws2: Connections.Handle, clientId: string,
                              u: seq<byte>, data: Json)
    returns (delivered: seq<Effect>, registered: bool)
    requires clientId != "" && IsUuid(u)
    ensures delivered == [] && !registered
  {
    var server := new ComfyApiServer();
    var a := server.Connect(ws1, clientId, u);
    var b := server.Connect(ws2, clientId, u);
    server.Exit(a);
    var before := server.effects;
    server.SendJson("status", data, clientId);
    delivered := server.effects[|before|..];
    registered := clientId in server.sockets;
  }
}
