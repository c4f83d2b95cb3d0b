/**
 * The message framing and the request/response helpers of perception_voice/ipc.py.
 *
 * A frame is a 4-byte big-endian length followed by the payload. The payload is
 * the UTF-8 text of a JSON document, kept here as opaque bytes; the documents
 * themselves are modelled as maps from keys to string values.
 */
module Ipc {
  import opened Wrappers

  newtype Byte = x: int | 0 <= x < 256

  /** HEADER_SIZE. */
  const HeaderSize: nat := 4
  /** MAX_MESSAGE_SIZE: 1 MiB, checked on both send and receive. */
  const MaxMessageSize: nat := 1024 * 1024
  /** The lengths `struct.pack('>I', ...)` can encode. */
  const LengthLimit: nat := 0x1_0000_0000

  /** The ValueError raised for a payload over the cap. */
  datatype Error = MessageTooLarge(size: nat)

  // ---------------------------------------------------------------------------
  // Header
  // ---------------------------------------------------------------------------

  /** `struct.pack('>I', n)`: the four bytes of `n`, most significant first. */
  function PackLength(n: nat): (h: seq<Byte>)
    requires n < LengthLimit
    ensures |h| == HeaderSize
  {
    [(n / 0x100_0000) as Byte, (n / 0x1_0000 % 0x100) as Byte, (n / 0x100 % 0x100) as Byte, (n % 0x100) as Byte]
  }

  /** `struct.unpack('>I', h)[0]`. */
  function UnpackLength(h: seq<Byte>): (n: nat)
    requires |h| == HeaderSize
    ensures n < LengthLimit
  {
    h[0] as int * 0x100_0000 + h[1] as int * 0x1_0000 + h[2] as int * 0x100 + h[3] as int
  }

  /** Unpacking a packed length gives the length back. */
  lemma UnpackPack(n: nat)
    requires n < LengthLimit
    ensures UnpackLength(PackLength(n)) == n
  {
    var h := PackLength(n);
    var a, b, c, d := n / 0x100_0000, n / 0x1_0000 % 0x100, n / 0x100 % 0x100, n % 0x100;
    assert n / 0x100 == (n / 0x1_0000) * 0x100 + c;
    assert n / 0x1_0000 == a * 0x100 + b;
    assert n == (n / 0x100) * 0x100 + d;
    assert h[0] as int == a && h[1] as int == b && h[2] as int == c && h[3] as int == d;
  }

  /** Packing the unpacked value of a header gives the header back. */
  lemma PackUnpack(h: seq<Byte>)
    requires |h| == HeaderSize
    ensures PackLength(UnpackLength(h)) == h
  {
    var n := UnpackLength(h);
    var a, b, c, d := h[0] as int, h[1] as int, h[2] as int, h[3] as int;
    assert n == (a * 0x1_0000 + b * 0x100 + c) * 0x100 + d;
    DivUnique(n, 0x100, a * 0x1_0000 + b * 0x100 + c, d);
    assert n == (a * 0x100 + b) * 0x1_0000 + (c * 0x100 + d);
    DivUnique(n, 0x1_0000, a * 0x100 + b, c * 0x100 + d);
    assert n == a * 0x100_0000 + (b * 0x1_0000 + c * 0x100 + d);
    DivUnique(n, 0x100_0000, a, b * 0x1_0000 + c * 0x100 + d);
    assert (a * 0x1_0000 + b * 0x100 + c) % 0x100 == c by {
      DivUnique(a * 0x1_0000 + b * 0x100 + c, 0x100, a * 0x100 + b, c);
    }
    assert (a * 0x100 + b) % 0x100 == b by {
      DivUnique(a * 0x100 + b, 0x100, a, b);
    }
  }

  /** Euclidean division is determined by quotient and remainder. */
  lemma DivUnique(n: nat, m: nat, q: nat, r: nat)
    requires m > 0 && r < m && n == q * m + r
    ensures n / m == q && n % m == r
  {
    var q0, r0 := n / m, n % m;
    assert (q0 - q) * m == r - r0;
    MulAwayFromZero(q0 - q, m);
  }

  /** A non-zero multiple of `m` is at least `m` away from zero. */
  lemma MulAwayFromZero(d: int, m: int)
    requires m > 0
    ensures d >= 1 ==> d * m >= m
    ensures d <= -1 ==> d * m <= -m
  {
    if d >= 1 {
      assert d * m == (d - 1) * m + m;
    } else if d <= -1 {
      assert d * m == (d + 1) * m - m;
    }
  }

  // ---------------------------------------------------------------------------
  // Sending
  // ---------------------------------------------------------------------------

  /** The bytes of a frame: header then payload. */
  function Frame(payload: seq<Byte>): seq<Byte>
    requires |payload| < LengthLimit
  {
    PackLength(|payload|) + payload
  }

  /**
   * send_message, for an already serialised payload: the bytes handed to
   * `sendall`, or the error raised before anything is written.
   */
  function SendMessage(payload: seq<Byte>): (r: Result<seq<Byte>, Error>)
    ensures r.Err? <==> |payload| > MaxMessageSize
    ensures r.Err? ==> r.error == MessageTooLarge(|payload|)
    ensures r.Ok? ==> && |r.value| == HeaderSize + |payload|
                      && UnpackLength(r.value[..HeaderSize]) == |payload|
                      && r.value[HeaderSize..] == payload
  {
    if |payload| > MaxMessageSize then Err(MessageTooLarge(|payload|))
    else
      UnpackPack(|payload|);
      assert Frame(payload)[..HeaderSize] == PackLength(|payload|);
      Ok(Frame(payload))
  }

  // ---------------------------------------------------------------------------
  // Receiving
  // ---------------------------------------------------------------------------

  /**
   * The receiving end of a connection: the bytes the peer sends before it
   * closes, not yet received, and how many bytes each successive `recv` hands
   * over at most (the chunking the transport chooses; at least one byte while
   * any remain).
   */
  class Socket {
    var incoming: seq<Byte>
    var deliveries: seq<nat>

    constructor (incoming: seq<Byte>, deliveries: seq<nat>)
      ensures this.incoming == incoming && this.deliveries == deliveries
    {
      this.incoming := incoming;
      this.deliveries := deliveries;
    }

    /** `sock.recv(bufsize)`: a prefix of what remains, empty only at end of stream. */
    method Recv(bufsize: nat) returns (chunk: seq<Byte>)
      modifies this
      ensures |chunk| <= bufsize && |chunk| <= |old(incoming)|
      ensures chunk == old(incoming)[..|chunk|] && incoming == old(incoming)[|chunk|..]
      ensures bufsize > 0 && old(incoming) != [] ==> chunk != []
    {
      var n := if deliveries == [] || deliveries[0] == 0 then 1 else deliveries[0];
      var k := if n < bufsize then n else bufsize;
      if |incoming| < k {
        k := |incoming|;
      }
      chunk := incoming[..k];
      incoming := incoming[k..];
      if deliveries != [] {
        deliveries := deliveries[1..];
      }
    }
  }

  /**
   * _recv_exact: the first `size` bytes of the stream, however `recv` chunks
   * them, or None when the stream ends first (having consumed all of it).
   */
  method RecvExact(sock: Socket, size: nat) returns (data: Option<seq<Byte>>)
    modifies sock
    ensures size <= |old(sock.incoming)| ==>
              data == Some(old(sock.incoming)[..size]) && sock.incoming == old(sock.incoming)[size..]
    ensures |old(sock.incoming)| < size ==> data == None && sock.incoming == []
  {
    var acc: seq<Byte> := [];
    while |acc| < size
      invariant |acc| <= size
      invariant old(sock.incoming) == acc + sock.incoming
      decreases size - |acc|
    {
      var chunk := sock.Recv(size - |acc|);
      if chunk == [] {
        return None;
      }
      acc := acc + chunk;
    }
    assert old(sock.incoming)[..size] == acc;
    data := Some(acc);
  }

  /**
   * What recv_message yields from the whole byte stream of a connection:
   * no message when the stream ends inside the header or the body, and also
   * for a zero-length payload (an empty payload is falsy); the size error for
   * a declared length over the cap; otherwise the payload.
   */
  function Decode(stream: seq<Byte>): (r: Result<Option<seq<Byte>>, Error>)
    ensures |stream| < HeaderSize ==> r == Ok(None)
    ensures r.Err? ==> |stream| >= HeaderSize && r.error.size == UnpackLength(stream[..HeaderSize]) > MaxMessageSize
    ensures r.Ok? && r.value.Some? ==>
              && 0 < |r.value.value| <= MaxMessageSize
              && |r.value.value| == UnpackLength(stream[..HeaderSize])
              && HeaderSize + |r.value.value| <= |stream|
              && stream[HeaderSize..HeaderSize + |r.value.value|] == r.value.value
  {
    if |stream| < HeaderSize then Ok(None)
    else
      var length := UnpackLength(stream[..HeaderSize]);
      if length > MaxMessageSize then Err(MessageTooLarge(length))
      else if |stream| - HeaderSize < length || length == 0 then Ok(None)
      else Ok(Some(stream[HeaderSize..HeaderSize + length]))
  }

  /** How many bytes recv_message takes from the stream: the body is not read when it is too large. */
  function Consumed(stream: seq<Byte>): (k: nat)
    ensures k <= |stream|
  {
    if |stream| < HeaderSize then |stream|
    else
      var length := UnpackLength(stream[..HeaderSize]);
      if length > MaxMessageSize then HeaderSize
      else if |stream| - HeaderSize < length then |stream|
      else HeaderSize + length
  }

  /**
   * recv_message, for the payload bytes (JSON decoding is not modelled):
   * the outcome depends on the byte stream alone, not on how it is chunked.
   */
  method RecvMessage(sock: Socket) returns (r: Result<Option<seq<Byte>>, Error>)
    modifies sock
    ensures r == Decode(old(sock.incoming))
    ensures sock.incoming == old(sock.incoming)[Consumed(old(sock.incoming))..]
  {
    var header := RecvExact(sock, HeaderSize);
    if header.None? || header.value == [] {
      return Ok(None);
    }
    var length := UnpackLength(header.value);
    if length > MaxMessageSize {
      return Err(MessageTooLarge(length));
    }
    var payload := RecvExact(sock, length);
    if payload.None? || payload.value == [] {
      return Ok(None);
    }
    assert old(sock.incoming)[HeaderSize..][..length] == old(sock.incoming)[HeaderSize..HeaderSize + length];
    r := Ok(Some(payload.value));
  }

  /** A frame sent for a non-empty payload within the cap decodes to that payload, whatever follows it. */
  lemma {:induction false} FrameRoundTrip(payload: seq<Byte>, rest: seq<Byte>)
    requires 0 < |payload| <= MaxMessageSize
    ensures SendMessage(payload).Ok?
    ensures Decode(SendMessage(payload).value + rest) == Ok(Some(payload))
    ensures Consumed(SendMessage(payload).value + rest) == HeaderSize + |payload|
  {
    var s := Frame(payload) + rest;
    UnpackPack(|payload|);
    assert s[..HeaderSize] == PackLength(|payload|);
    assert s[HeaderSize..HeaderSize + |payload|] == payload;
  }

  /** A frame with a zero-length payload reads as no message at all. */
  lemma {:induction false} EmptyPayloadIsNoMessage(rest: seq<Byte>)
    ensures Decode(Frame([]) + rest) == Ok(None)
  {
    UnpackPack(0);
    assert (Frame([]) + rest)[..HeaderSize] == PackLength(0);
  }

  /** A declared length over the cap is rejected after the header, before any of the body is read. */
  lemma OversizeRejectedBeforeBody(header: seq<Byte>, body: seq<Byte>)
    requires |header| == HeaderSize && UnpackLength(header) > MaxMessageSize
    ensures Decode(header + body) == Err(MessageTooLarge(UnpackLength(header)))
    ensures Consumed(header + body) == HeaderSize
  {
    assert (header + body)[..HeaderSize] == header;
  }

  /** A stream that ends inside the header or inside the body reads as no message. */
  lemma {:induction false} TruncatedFrameIsNoMessage(payload: seq<Byte>, cut: nat)
    requires |payload| <= MaxMessageSize && cut < HeaderSize + |payload|
    ensures Decode(Frame(payload)[..cut]) == Ok(None)
  {
    var s := Frame(payload)[..cut];
    if cut >= HeaderSize {
      UnpackPack(|payload|);
      assert s[..HeaderSize] == PackLength(|payload|);
    }
  }

  // ---------------------------------------------------------------------------
  // Requests and responses
  // ---------------------------------------------------------------------------

  /** A JSON object whose values are strings. */
  type Message = map<string, string>

  /** make_set_request. */
  function MakeSetRequest(uid: string): (m: Message)
    ensures m.Keys == {"command", "uid"} && m["command"] == "set" && m["uid"] == uid
  {
    map["command" := "set", "uid" := uid]
  }

  /** make_get_request. */
  function MakeGetRequest(uid: string): (m: Message)
    ensures m.Keys == {"command", "uid"} && m["command"] == "get" && m["uid"] == uid
  {
    map["command" := "get", "uid" := uid]
  }

  /** make_ok_response: the `text` key is present exactly when a text is given. */
  function MakeOkResponse(text: Option<string>): (m: Message)
    ensures "status" in m && m["status"] == "ok"
    ensures "text" in m <==> text.Some?
    ensures text.Some? ==> m["text"] == text.value
    ensures m.Keys <= {"status", "text"}
  {
    if text.Some? then map["status" := "ok", "text" := text.value] else map["status" := "ok"]
  }

  /** make_error_response. */
  function MakeErrorResponse(message: string): (m: Message)
    ensures m.Keys == {"status", "message"} && m["status"] == "error" && m["message"] == message
  {
    map["status" := "error", "message" := message]
  }

  /** An ok response and an error response are told apart by their status. */
  lemma ResponsesAreDistinct(text: Option<string>, message: string)
    ensures MakeOkResponse(text) != MakeErrorResponse(message)
    ensures "text" !in MakeErrorResponse(message) && "message" !in MakeOkResponse(text)
  {
    assert MakeOkResponse(text)["status"] != MakeErrorResponse(message)["status"];
  }
}
