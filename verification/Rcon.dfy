/**
 The packet codec of MCRCON (Source RCON Protocol, "Basic Packet Structure" and
 "Multiple-packet Responses") and its use over a socket that delivers a stream
 in arbitrary chunks.
 */
module Rcon {
  import opened Basics
  import opened Bytes

  datatype Packet = Packet(ident: int, kind: int, payload: seq<Byte>)

  /** `Starved` is no exception of the program: it says that a loop goes on for ever,
      asking a stream that has ended for more bytes. */
  datatype Error = StructError | IncompletePacket(minimum: int) | AssertionError | Starved

  // ------------------------------------------------------------ struct "<i"

  predicate Int32(x: int) {
    -0x8000_0000 <= x < 0x8000_0000
  }

  function Pack(x: int): (r: seq<Byte>)
    requires Int32(x)
    ensures |r| == 4
  {
    var u := if x < 0 then x + 0x1_0000_0000 else x;
    [u % 256, u / 256 % 256, u / 256 / 256 % 256, u / 256 / 256 / 256]
  }

  function Unsigned(b: seq<Byte>): (u: int)
    requires |b| == 4
    ensures 0 <= u < 0x1_0000_0000
  {
    b[0] as int + 256 * (b[1] as int + 256 * (b[2] as int + 256 * (b[3] as int)))
  }

  function Unpack(b: seq<Byte>): (r: int)
    requires |b| == 4
    ensures Int32(r)
  {
    var u := Unsigned(b);
    if u >= 0x8000_0000 then u - 0x1_0000_0000 else u
  }

  lemma UnpackPack(x: int)
    requires Int32(x)
    ensures Unpack(Pack(x)) == x
  {
    var u := if x < 0 then x + 0x1_0000_0000 else x;
    var a, b, c := u / 256, u / 256 / 256, u / 256 / 256 / 256;
    assert u == u % 256 + 256 * a && a == a % 256 + 256 * b && b == b % 256 + 256 * c;
    assert Unsigned(Pack(x)) == u;
  }

  lemma PackUnpack(b: seq<Byte>)
    requires |b| == 4
    ensures Pack(Unpack(b)) == b
  {
    var x3 := b[3] as int;
    var x2 := b[2] as int + 256 * x3;
    var x1 := b[1] as int + 256 * x2;
    LowDigit(b[2], x3);
    LowDigit(b[1], x2);
    LowDigit(b[0], x1);
  }

  lemma LowDigit(digit: Byte, rest: int)
    ensures (digit as int + 256 * rest) % 256 == digit && (digit as int + 256 * rest) / 256 == rest
  {
  }

  /** Little-endian and in two's complement. */
  lemma UnpackIs(b: seq<Byte>)
    requires |b| == 4
    ensures Unpack(b) == b[0] as int + 0x100 * (b[1] as int) + 0x1_0000 * (b[2] as int) + 0x100_0000 * (b[3] as int)
                         - if b[3] >= 128 then 0x1_0000_0000 else 0
  {
  }

  // -------------------------------------------------------------------- codec

  /** Python's `data[lo:hi]`: negative bounds count from the end, and bounds are clamped. */
  function Slice(data: seq<Byte>, lo: int, hi: int): (r: seq<Byte>)
    ensures 0 <= lo <= hi <= |data| ==> r == data[lo..hi]
  {
    var a, b := Bound(|data|, lo), Bound(|data|, hi);
    if a < b then data[a..b] else []
  }

  function Bound(length: nat, i: int): (r: nat)
    ensures r <= length
  {
    if i < 0 then (if i + length < 0 then 0 else i + length) else if i > length then length else i
  }

  /** encode_packet; `struct.pack` refuses numbers that are not 32-bit. */
  function Encode(p: Packet): Result<seq<Byte>, Error> {
    if !Int32(p.ident) || !Int32(p.kind) || !Int32(|p.payload| + 10) then Err(StructError)
    else Ok(Pack(|p.payload| + 10) + (Pack(p.ident) + Pack(p.kind) + p.payload + [0, 0]))
  }

  /** decode_packet: a packet and the bytes behind it. */
  function Decode(data: seq<Byte>): Result<(Packet, seq<Byte>), Error> {
    if |data| < 14 then Err(IncompletePacket(14))
    else
      var length := Unpack(data[..4]) + 4;
      if |data| < length then Err(IncompletePacket(length))
      else if Slice(data, length - 2, length) != [0, 0] then Err(AssertionError)
      else Ok((Packet(Unpack(data[4..8]), Unpack(data[8..12]), Slice(data, 12, length - 2)),
               Slice(data, length, |data|)))
  }

  predicate Encodable(p: Packet) {
    Int32(p.ident) && Int32(p.kind) && Int32(|p.payload| + 10)
  }

  /** The bytes of a packet that can be encoded. */
  function Wire(p: Packet): (r: seq<Byte>)
    requires Encodable(p)
    ensures |r| == |p.payload| + 14
  {
    Encode(p).value
  }

  lemma WireLayout(p: Packet, rest: seq<Byte>)
    requires Encodable(p)
    ensures var data := Wire(p) + rest;
      && data[..4] == Pack(|p.payload| + 10) && data[4..8] == Pack(p.ident) && data[8..12] == Pack(p.kind)
      && data[12..|Wire(p)| - 2] == p.payload && data[|Wire(p)| - 2..|Wire(p)|] == [0, 0]
      && data[|Wire(p)|..] == rest
  {
  }

  /** Decoding undoes encoding and hands back whatever follows the packet. */
  lemma DecodeWire(p: Packet, rest: seq<Byte>)
    requires Encodable(p)
    ensures Decode(Wire(p) + rest) == Ok((p, rest))
  {
    var data, length := Wire(p) + rest, |Wire(p)|;
    WireLayout(p, rest);
    UnpackPack(|p.payload| + 10);
    UnpackPack(p.ident);
    UnpackPack(p.kind);
    assert Slice(data, length - 2, length) == [0, 0] && Slice(data, 12, length - 2) == p.payload;
    assert Slice(data, length, |data|) == rest;
  }

  lemma DecodedParts(data: seq<Byte>)
    requires Decode(data).Ok? && Unpack(data[..4]) >= 10
    ensures var (p, rest), length := Decode(data).value, Unpack(data[..4]) + 4;
      && length <= |data| && p.ident == Unpack(data[4..8]) && p.kind == Unpack(data[8..12])
      && p.payload == data[12..length - 2] && data[length - 2..length] == [0, 0] && rest == data[length..]
  {
    var length := Unpack(data[..4]) + 4;
    assert Slice(data, length - 2, length) == data[length - 2..length];
    assert Slice(data, 12, length - 2) == data[12..length - 2];
    assert Slice(data, length, |data|) == data[length..|data|];
  }

  /** A frame whose length field covers the ten bytes every packet has decodes to
      the packet it is the encoding of. */
  lemma LongFrame(data: seq<Byte>)
    requires Decode(data).Ok? && Unpack(data[..4]) >= 10
    ensures var (p, rest) := Decode(data).value;
      Encodable(p) && data == Wire(p) + rest
  {
    DecodedParts(data);
    PackUnpack(data[..4]);
    PackUnpack(data[4..8]);
    PackUnpack(data[8..12]);
  }

  lemma ShortFrame(data: seq<Byte>)
    requires Decode(data).Ok? && Unpack(data[..4]) < 10
    ensures var (p, rest) := Decode(data).value;
      Encodable(p) ==> data != Wire(p) + rest
  {
    var (p, rest) := Decode(data).value;
    if Encodable(p) {
      WireLayout(p, rest);
      UnpackPack(|p.payload| + 10);
    }
  }

  /** A decoded packet re-encodes to the bytes it came from exactly when the
      length field is at least ten; decode_packet does not check that, and takes
      some shorter frames for packets. */
  lemma DecodeIsCanonicalIff(data: seq<Byte>)
    requires Decode(data).Ok?
    ensures var (p, rest) := Decode(data).value;
      Encodable(p) && data == Wire(p) + rest <==> Unpack(data[..4]) >= 10
  {
    if Unpack(data[..4]) >= 10 { LongFrame(data); } else { ShortFrame(data); }
  }

  /** Which frames with a smaller length field are taken for packets: those with two
      zero bytes where the padding would end if the field were right, counted from
      the end of the data for a negative length. */
  lemma ShortFrameIff(data: seq<Byte>)
    requires |data| >= 14 && Unpack(data[..4]) < 10
    ensures var length, n := Unpack(data[..4]) + 4, |data|;
      Decode(data).Ok? <==>
        || (length >= 2 && data[length - 2] == data[length - 1] == 0)
        || (length < 0 && n + length >= 2 && data[n + length - 2] == data[n + length - 1] == 0)
    ensures |data| == 14 && Decode(data).Ok? ==>
      Decode(data).value.0 == Packet(Unpack(data[4..8]), Unpack(data[8..12]), [])
  {
    var length, n := Unpack(data[..4]) + 4, |data|;
    var padding := Slice(data, length - 2, length);
    if length >= 2 {
      assert padding == [data[length - 2], data[length - 1]];
    } else if length < 0 && n + length >= 2 {
      assert padding == [data[n + length - 2], data[n + length - 1]];
    } else {
      assert |padding| <= 1;
    }
    hide Unpack;
  }

  /** Such a frame: length field 0, and zeros where the padding is looked for. */
  lemma ShortFrameAccepted()
    ensures Decode(seq(14, _ => 0)) == Ok((Packet(0, 0, []), seq(10, _ => 0)))
  {
    var zeros := seq<Byte>(14, _ => 0);
    assert Unpack(zeros[..4]) == 0;
    assert Slice(zeros, 2, 4) == [0, 0];
    assert Slice(zeros, 4, 14) == seq(10, _ => 0);
  }

  // ------------------------------------------------------------------- sockets

  /** A connection: what is still to arrive, and what has been sent. */
  class Socket {
    var incoming: seq<Byte>
    var sent: seq<Byte>

    constructor (incoming: seq<Byte>)
      ensures this.incoming == incoming && sent == []
    {
      this.incoming, sent := incoming, [];
    }

    /** `recv(limit)`: some of the bytes that arrive next, at least one and at most
        `limit`, or none when the stream has ended. */
    method Recv(limit: nat) returns (chunk: seq<Byte>)
      requires limit > 0
      modifies this`incoming
      ensures |chunk| <= limit && old(incoming) == chunk + incoming
      ensures chunk == [] <==> old(incoming) == []
    {
      var n: nat :| n <= limit && n <= |incoming| && (n == 0 <==> incoming == []);
      chunk, incoming := incoming[..n], incoming[n..];
    }

    method SendAll(data: seq<Byte>)
      modifies this`sent
      ensures sent == old(sent) + data
    {
      sent := sent + data;
    }
  }

  /** How many bytes of a stream receive_packet takes for its first packet. */
  function FrameLength(stream: seq<Byte>): (n: int)
    requires |stream| >= 14
    ensures n >= 14
  {
    Max(14, Unpack(stream[..4]) + 4)
  }

  /** They are those that the length field announces exactly when it announces the
      ten bytes that every packet has.  With a smaller field fourteen bytes are
      taken, the last ones from the packet behind. */
  lemma FrameLengthIff(stream: seq<Byte>)
    requires |stream| >= 14
    ensures FrameLength(stream) == Unpack(stream[..4]) + 4 <==> Unpack(stream[..4]) >= 10
    ensures Unpack(stream[..4]) < 10 ==> FrameLength(stream) == 14 > Unpack(stream[..4]) + 4
  {
  }

  /** The first packet of a stream and what is left behind it. */
  function Received(stream: seq<Byte>): (r: Result<(Packet, seq<Byte>), Error>)
    ensures r.Ok? ==> |r.value.1| < |stream|
  {
    if |stream| < 14 || |stream| < FrameLength(stream) then Err(Starved)
    else
      var n := FrameLength(stream);
      match Decode(stream[..n])
      case Ok((p, _)) => Ok((p, stream[n..]))
      case Err(e) => Err(e)
  }

  /** receive_packet, on any stream and in whatever chunks it comes. */
  method ReceivePacket(sock: Socket) returns (r: Result<Packet, Error>)
    modifies sock`incoming
    ensures match Received(old(sock.incoming))
      case Ok((p, rest)) => r == Ok(p) && sock.incoming == rest
      case Err(e) => r == Err(e) && (e == Starved || e == AssertionError)
    ensures r == Err(Starved) ==> sock.incoming == []
    ensures r == Err(AssertionError) ==> sock.incoming == old(sock.incoming)[FrameLength(old(sock.incoming))..]
  {
    ghost var stream := sock.incoming;
    ghost var n := if |stream| < 14 then 14 else FrameLength(stream);
    var data: seq<Byte> := [];
    while true
      invariant data + sock.incoming == stream
      invariant |data| == 0 || |data| == 14 || |data| == n
      decreases n - |data|
    {
      assert data == stream[..|data|];
      match Decode(data)
      case Ok((p, rest)) => return Ok(p);
      case Err(IncompletePacket(minimum)) =>
        var enough;
        data, enough := ReadUpTo(sock, data, minimum);
        if !enough { return Err(Starved); }
      case Err(e) => return Err(e);
    }
  }

  /** The inner loop of receive_packet; `enough` is false where it does not end. */
  method ReadUpTo(sock: Socket, data0: seq<Byte>, minimum: nat) returns (data: seq<Byte>, enough: bool)
    requires |data0| <= minimum
    modifies sock`incoming
    ensures data + sock.incoming == data0 + old(sock.incoming)
    ensures enough <==> minimum <= |data0| + |old(sock.incoming)|
    ensures if enough then |data| == minimum else sock.incoming == []
  {
    data := data0;
    while |data| < minimum
      invariant |data| <= minimum && data + sock.incoming == data0 + old(sock.incoming)
      decreases minimum - |data|
    {
      var chunk := sock.Recv(minimum - |data|);
      if chunk == [] { return data, false; }
      data := data + chunk;
    }
    enough := true;
  }

  // ------------------------------------------------------------------- command

  function WireAll(ps: seq<Packet>): (r: seq<Byte>)
    requires forall i :: 0 <= i < |ps| ==> Encodable(ps[i])
  {
    if ps == [] then [] else Wire(ps[0]) + WireAll(ps[1..])
  }

  function Payloads(ps: seq<Packet>): seq<Byte> {
    if ps == [] then [] else ps[0].payload + Payloads(ps[1..])
  }

  /** An encoded packet is received as it was sent, and not one byte behind it is taken. */
  lemma ReceivedWire(p: Packet, behind: seq<Byte>)
    requires Encodable(p)
    ensures Received(Wire(p) + behind) == Ok((p, behind))
  {
    WireLayout(p, behind);
    UnpackPack(|p.payload| + 10);
    var stream := Wire(p) + behind;
    assert stream[..|Wire(p)|] == Wire(p) + [];
    DecodeWire(p, []);
  }

  /** What command makes of the stream that comes back: the payloads up to the first
      packet whose ident is not 0, and the bytes behind that packet. */
  function Reply(stream: seq<Byte>): Result<(seq<Byte>, seq<Byte>), Error>
    decreases |stream|
  {
    match Received(stream)
    case Err(e) => Err(e)
    case Ok((p, rest)) =>
      if p.ident != 0 then Ok(([], rest))
      else
        match Reply(rest)
        case Err(e) => Err(e)
        case Ok((more, left)) => Ok((p.payload + more, left))
  }

  /** For a stream of packets: the payloads of those with ident 0 before the first
      with another ident. */
  lemma {:induction false} ReplyOfPackets(answers: seq<Packet>, last: Packet, rest: seq<Byte>)
    requires Encodable(last) && last.ident != 0
    requires forall i :: 0 <= i < |answers| ==> Encodable(answers[i]) && answers[i].ident == 0
    ensures Reply(WireAll(answers) + (Wire(last) + rest)) == Ok((Payloads(answers), rest))
    decreases |answers|
  {
    hide Received, Wire;
    if answers == [] {
      assert WireAll(answers) + (Wire(last) + rest) == Wire(last) + rest;
      ReceivedWire(last, rest);
    } else {
      var behind := WireAll(answers[1..]) + (Wire(last) + rest);
      assert WireAll(answers) + (Wire(last) + rest) == Wire(answers[0]) + behind;
      ReceivedWire(answers[0], behind);
      ReplyOfPackets(answers[1..], last, rest);
    }
  }

  /** The bytes `response` in front of what is still to be read. */
  function Prepend(response: seq<Byte>, r: Result<(seq<Byte>, seq<Byte>), Error>)
    : Result<(seq<Byte>, seq<Byte>), Error>
  {
    match r
    case Ok((more, left)) => Ok((response + more, left))
    case Err(e) => r
  }

  lemma PrependTwice(a: seq<Byte>, b: seq<Byte>, r: Result<(seq<Byte>, seq<Byte>), Error>)
    ensures Prepend(a, Prepend(b, r)) == Prepend(a + b, r) && Prepend([], r) == r
  {
    if r.Ok? {
      assert a + (b + r.value.0) == a + b + r.value.0 && [] + r.value.0 == r.value.0;
    }
  }

  /** The loop of command. */
  method Collect(sock: Socket) returns (r: Result<seq<Byte>, Error>)
    modifies sock`incoming
    ensures match Reply(old(sock.incoming))
      case Ok((response, rest)) => r == Ok(response) && sock.incoming == rest
      case Err(e) => r == Err(e)
  {
    hide Received;
    var response: seq<Byte> := [];
    PrependTwice([], [], Reply(sock.incoming));
    while true
      invariant Reply(old(sock.incoming)) == Prepend(response, Reply(sock.incoming))
      decreases |sock.incoming|
    {
      var packet := ReceivePacket(sock);
      if packet.Err? { return Err(packet.error); }
      if packet.value.ident != 0 { break; }
      PrependTwice(response, packet.value.payload, Reply(sock.incoming));
      response := response + packet.value.payload;
    }
    assert response + [] == response;
    return Ok(response);
  }

  /** command: sends the text and an empty packet, and returns the reply to be found
      in whatever stream comes back. */
  method Command(sock: Socket, text: seq<Byte>) returns (r: Result<seq<Byte>, Error>)
    modifies sock
    ensures !Int32(|text| + 10) ==> r == Err(StructError) && unchanged(sock)
    ensures Int32(|text| + 10) ==>
      && sock.sent == old(sock.sent) + Wire(Packet(0, 2, text)) + Wire(Packet(1, 0, []))
      && match Reply(old(sock.incoming))
         case Ok((response, rest)) => r == Ok(response) && sock.incoming == rest
         case Err(e) => r == Err(e)
  {
    var request := Encode(Packet(0, 2, text));
    if request.Err? { return Err(request.error); }
    sock.SendAll(request.value);
    sock.SendAll(Wire(Packet(1, 0, [])));
    r := Collect(sock);
  }
}
