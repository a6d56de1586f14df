/** Length-prefixed frames over a stream that delivers bytes in pieces of any size. */
module Framing {
  import opened Texts

  type Byte = n: int | 0 <= n < 256
  type Bytes = seq<Byte>

  // ---------------------------------------------------------------- the length prefix

  /** The four bytes the bridge writes: the length shifted right by 24, 16, 8 and 0 bits, low byte of each. */
  function BridgePrefix(length: nat): Bytes {
    [length / 0x100_0000 % 256, length / 0x1_0000 % 256, length / 0x100 % 256, length % 256]
  }

  /** The length the bridge reads back. */
  function BridgeLength(prefix: Bytes): nat
    requires |prefix| == 4
  {
    prefix[0] as int * 0x100_0000 + prefix[1] as int * 0x1_0000 + prefix[2] as int * 0x100 + prefix[3] as int
  }

  /** `struct.Struct(">I")` on the client: `width` big-endian digits in base 256. */
  function ClientPack(n: nat, width: nat): Bytes {
    if width == 0 then [] else ClientPack(n / 256, width - 1) + [n % 256]
  }

  function ClientUnpack(digits: Bytes): nat {
    if digits == [] then 0 else ClientUnpack(digits[..|digits| - 1]) * 256 + digits[|digits| - 1]
  }

  /** Both sides write the same prefix, and each reads the other's. */
  lemma PrefixesAgree(n: nat)
    requires n < 0x1_0000_0000
    ensures BridgePrefix(n) == ClientPack(n, 4)
    ensures BridgeLength(ClientPack(n, 4)) == n
    ensures ClientUnpack(BridgePrefix(n)) == n
  {
    assert n / 256 / 256 == n / 0x1_0000;
    assert n / 256 / 256 / 256 == n / 0x100_0000;
    PackFour(n);
    UnpackFour(BridgePrefix(n));
  }

  lemma PackFour(n: nat)
    ensures ClientPack(n, 4) == [n / 256 / 256 / 256 % 256, n / 256 / 256 % 256, n / 256 % 256, n % 256]
  {
    assert ClientPack(n / 256 / 256 / 256, 1) == [n / 256 / 256 / 256 % 256];
    assert ClientPack(n / 256 / 256, 2) == [n / 256 / 256 / 256 % 256, n / 256 / 256 % 256];
    assert ClientPack(n / 256, 3) == [n / 256 / 256 / 256 % 256, n / 256 / 256 % 256, n / 256 % 256];
  }

  lemma UnpackFour(p: Bytes)
    requires |p| == 4
    ensures ClientUnpack(p) == BridgeLength(p)
  {
    assert p[..3][..2] == p[..2] && p[..2][..1] == p[..1] && p[..1][..0] == [];
    var a, b, c := p[0] as int, p[1] as int, p[2] as int;
    assert ClientUnpack(p[..1]) == a;
    assert ClientUnpack(p[..2]) == a * 256 + b;
    assert ClientUnpack(p[..3]) == (a * 256 + b) * 256 + c;
  }

  lemma LengthOfPrefix(n: nat)
    requires n < 0x1_0000_0000
    ensures BridgeLength(BridgePrefix(n)) == n
  {
    PrefixesAgree(n);
  }

  lemma PrefixOfLength(p: Bytes)
    requires |p| == 4
    ensures BridgePrefix(BridgeLength(p)) == p
  {
    var n := BridgeLength(p);
    var a, b, c, d := p[0] as int, p[1] as int, p[2] as int, p[3] as int;
    assert n / 0x100 == (a * 256 + b) * 256 + c && n % 0x100 == d;
    assert n / 0x1_0000 == a * 256 + b;
    assert n / 0x100_0000 == a;
  }

  // ---------------------------------------------------------------- frames as values

  datatype FrameRead = Frame(payload: Bytes, rest: Bytes) | BadLength | Truncated

  predicate ValidLength(n: nat, maximum: nat) { 1 <= n <= maximum }

  function FrameBytes(payload: Bytes): Bytes { BridgePrefix(|payload|) + payload }

  /** What one frame read finds at the front of the bytes still to come. */
  function DecodeFrame(s: Bytes, maximum: nat): (r: FrameRead) {
    if |s| < 4 then Truncated
    else
      var n := BridgeLength(s[..4]);
      if !ValidLength(n, maximum) then BadLength
      else if |s| < 4 + n then Truncated
      else Frame(s[4..4 + n], s[4 + n..])
  }

  /** A frame is read exactly when the bytes start with one of valid length: neither more nor less is consumed. */
  lemma DecodeExact(s: Bytes, maximum: nat, payload: Bytes, rest: Bytes)
    requires maximum < 0x1_0000_0000
    ensures DecodeFrame(s, maximum) == Frame(payload, rest)
       <==> ValidLength(|payload|, maximum) && s == FrameBytes(payload) + rest
  {
    if DecodeFrame(s, maximum) == Frame(payload, rest) {
      PrefixOfLength(s[..4]);
      assert s == s[..4] + s[4..4 + |payload|] + s[4 + |payload|..];
    }
    if ValidLength(|payload|, maximum) && s == FrameBytes(payload) + rest {
      LengthOfPrefix(|payload|);
      assert s[..4] == BridgePrefix(|payload|);
      assert s[4..4 + |payload|] == payload && s[4 + |payload|..] == rest;
    }
  }

  function Wire(messages: seq<Bytes>): Bytes {
    if messages == [] then [] else FrameBytes(messages[0]) + Wire(messages[1..])
  }

  /** Frame after frame until the bytes run out. */
  function DecodeAll(s: Bytes, maximum: nat): Option<seq<Bytes>>
    decreases |s|
  {
    if s == [] then Some([])
    else match DecodeFrame(s, maximum)
      case Frame(payload, rest) =>
        (match DecodeAll(rest, maximum)
         case Some(more) => Some([payload] + more)
         case None => None)
      case _ => None
  }

  lemma {:induction false} WireDecodes(messages: seq<Bytes>, maximum: nat)
    requires maximum < 0x1_0000_0000
    requires forall i :: 0 <= i < |messages| ==> ValidLength(|messages[i]|, maximum)
    ensures DecodeAll(Wire(messages), maximum) == Some(messages)
  {
    if messages != [] {
      DecodeExact(Wire(messages), maximum, messages[0], Wire(messages[1..]));
      WireDecodes(messages[1..], maximum);
      assert messages == [messages[0]] + messages[1..];
    }
  }

  // ---------------------------------------------------------------- the stream

  /** A byte stream whose reads return any positive number of the bytes that are left. */
  class ByteStream {
    var pending: Bytes

    constructor (bytes: Bytes)
      ensures pending == bytes
    {
      pending := bytes;
    }

    method Write(bytes: Bytes)
      modifies this
      ensures pending == old(pending) + bytes
    {
      pending := pending + bytes;
    }

    /** Zero only at the end of the stream. */
    method Read(buffer: array<Byte>, offset: nat, count: nat) returns (n: nat)
      requires 0 < count && offset + count <= buffer.Length
      modifies this, buffer
      ensures n <= count && n <= |old(pending)| && (n == 0 <==> old(pending) == [])
      ensures pending == old(pending)[n..]
      ensures buffer[..] == old(buffer[..offset]) + old(pending)[..n] + old(buffer[offset + n..])
    {
      if pending == [] {
        return 0;
      }
      n :| 1 <= n <= count && n <= |pending|;
      forall i | 0 <= i < n {
        buffer[offset + i] := pending[i];
      }
      pending := pending[n..];
    }
  }

  /** `ReadExact`: fill a buffer however the stream splits its bytes; `None` when the stream ends first. */
  method ReadExact(stream: ByteStream, length: nat) returns (r: Option<Bytes>)
    modifies stream
    ensures |old(stream.pending)| < length ==> r == None
    ensures |old(stream.pending)| >= length ==>
              r == Some(old(stream.pending)[..length]) && stream.pending == old(stream.pending)[length..]
  {
    var result := new Byte[length];
    var offset := 0;
    while offset < length
      invariant offset <= length && offset <= |old(stream.pending)|
      invariant result[..offset] == old(stream.pending)[..offset]
      invariant stream.pending == old(stream.pending)[offset..]
      decreases length - offset
    {
      var count := stream.Read(result, offset, length - offset);
      if count == 0 { return None; }
      assert result[..offset + count] == old(stream.pending)[..offset] + old(stream.pending)[offset..][..count];
      offset := offset + count;
    }
    assert result[..] == result[..length];
    r := Some(result[..]);
  }

  datatype Received = Message(payload: Bytes) | Refused | Ended

  /** `LengthPrefixedFrame.Read`, and `_read_frame` of the client. */
  method Read(stream: ByteStream, maximum: nat) returns (r: Received)
    modifies stream
    ensures match DecodeFrame(old(stream.pending), maximum)
            case Frame(payload, rest) => r == Message(payload) && stream.pending == rest
            case BadLength => r == Refused && stream.pending == old(stream.pending)[4..]
            case Truncated => r == Ended
  {
    var prefix := ReadExact(stream, 4);
    if prefix.None? { return Ended; }
    var length := BridgeLength(prefix.value);
    if !ValidLength(length, maximum) { return Refused; }
    var payload := ReadExact(stream, length);
    if payload.None? { return Ended; }
    assert old(stream.pending)[4..][..length] == old(stream.pending)[4..4 + length];
    assert old(stream.pending)[4..][length..] == old(stream.pending)[4 + length..];
    r := Message(payload.value);
  }

  /** `LengthPrefixedFrame.Write`: a message of any other length is refused and nothing is written. */
  method Write(stream: ByteStream, payload: Bytes, maximum: nat) returns (ok: bool)
    modifies stream
    ensures ok <==> ValidLength(|payload|, maximum)
    ensures stream.pending == if ok then old(stream.pending) + FrameBytes(payload) else old(stream.pending)
  {
    if !ValidLength(|payload|, maximum) { return false; }
    stream.Write(BridgePrefix(|payload|));
    stream.Write(payload);
    ok := true;
    assert old(stream.pending) + BridgePrefix(|payload|) + payload == old(stream.pending) + FrameBytes(payload);
  }
}
