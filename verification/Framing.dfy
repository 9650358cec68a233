/**
 The general packet format of section 4 of draft-ietf-secsh-filexfer-13 and the way a received packet is
 taken apart in its own buffer (src/sftp/recv.c).
 */
module Framing {
  import opened Wire

  /**
   OutOfRange: the length is accepted by the test of the code but does not fit the buffer, so that the move
   would read or write outside it.
   */
  datatype Frame = TooSmall | TooLong | OutOfRange | Framed(kind: byte, id: nat, payload: seq<byte>)

  function Encode(kind: byte, id: nat, payload: seq<byte>): seq<byte> {
    PutUint32(5 + |payload|) + [kind] + PutUint32(id) + payload
  }

  /** What a packet in b is taken for; the test on the length is made in 32 bits. */
  function Decode(b: seq<byte>): Frame {
    if |b| < 9 then TooSmall
    else
      var len := GetUint32(b);
      if (4 + len) % UINT32 > |b| then TooLong
      else if len < 5 || 4 + len > |b| then OutOfRange
      else Framed(b[4], GetUint32(b[5..]), b[9..4 + len])
  }

  /** Decoding inverts encoding, and bytes after the packet do not matter. */
  lemma DecodeEncode(kind: byte, id: nat, payload: seq<byte>, trailing: seq<byte>)
    requires id < UINT32 && 9 + |payload| < UINT32
    ensures Decode(Encode(kind, id, payload) + trailing) == Framed(kind, id, payload)
  {
    var b := Encode(kind, id, payload) + trailing;
    assert b == PutUint32(5 + |payload|) + ([kind] + PutUint32(id) + payload + trailing);
    Uint32RoundTrip(5 + |payload|, [kind] + PutUint32(id) + payload + trailing);
    assert b[5..] == PutUint32(id) + (payload + trailing);
    Uint32RoundTrip(id, payload + trailing);
    assert b[9..9 + |payload|] == payload;
  }

  /** Whatever is accepted as a packet starts with the encoding of what was found. */
  lemma EncodeDecode(b: seq<byte>)
    requires Decode(b).Framed?
    ensures var f := Decode(b); f.id < UINT32 && Encode(f.kind, f.id, f.payload) <= b
  {
    GetUint32RoundTrip(b);
    GetUint32RoundTrip(b[5..]);
    var f := Decode(b);
    assert b[..9] == PutUint32(GetUint32(b)) + [f.kind] + PutUint32(f.id);
  }

  /**
   The test on the length keeps the move inside the buffer exactly when the length counts at least the type and
   the id and the packet is not longer than the buffer; otherwise it lets through lengths below 5 and those that wrap.
   */
  lemma AcceptedLengths(b: seq<byte>)
    requires 9 <= |b| < UINT32
    ensures Decode(b) == OutOfRange <==> GetUint32(b) < 5 || GetUint32(b) >= UINT32 - 4
    ensures Decode(b).Framed? <==> 5 <= GetUint32(b) <= |b| - 4
  {
    GetUint32RoundTrip(b);
  }

  lemma LengthZeroIsAccepted(kind: byte, id: nat)
    requires id < UINT32
    ensures Decode(PutUint32(0) + [kind] + PutUint32(id)) == OutOfRange
  {
    var b := PutUint32(0) + [kind] + PutUint32(id);
    assert b == PutUint32(0) + ([kind] + PutUint32(id));
    Uint32RoundTrip(0, [kind] + PutUint32(id));
  }

  datatype Header = Header(kind: byte, id: nat, len: nat)

  /** Leaves: the move and the clearing would reach outside the buffer. */
  datatype Received = Refused | Leaves | Accepted(header: Header)

  /**
   Take a packet apart in place: afterwards the payload is at the front of the buffer and the rest of the
   received bytes is cleared. A refused packet is left as it is.
   */
  method ReceiveReply(buffer: array<byte>, size: nat) returns (received: Received)
    requires size <= buffer.Length && size < UINT32
    modifies buffer
    ensures received.Accepted? <==> old(Decode(buffer[..size])).Framed?
    ensures received.Leaves? <==> old(Decode(buffer[..size])).OutOfRange?
    ensures received.Accepted? ==>
              var f := old(Decode(buffer[..size]));
              && received.header == Header(f.kind, f.id, |f.payload|)
              && buffer[..received.header.len] == f.payload
              && forall i :: received.header.len <= i < size ==> buffer[i] == 0
    ensures !received.Accepted? ==> buffer[..] == old(buffer[..])
    ensures buffer[size..] == old(buffer[size..])
  {
    if size < 9 { return Refused; }
    ghost var b := buffer[..size];
    var len := FromBigEndian(buffer[0..4]);
    assert buffer[0..4] == b[..4];
    if (4 + len) % UINT32 > size { return Refused; }
    AcceptedLengths(b);
    if len < 5 || 4 + len > size { return Leaves; }
    var pos := 4;
    var kind := buffer[pos];
    pos := pos + 1;
    len := len - 1;
    var id := FromBigEndian(buffer[pos..pos + 4]);
    assert buffer[pos..pos + 4] == b[5..][..4];
    pos := pos + 4;
    len := len - 4;
    MoveAndClear(buffer, size, pos, len);
    assert buffer[..len] == b[9..9 + len];
    received := Accepted(Header(kind, id, len));
  }

  /** The bytes from pos on go to the front, the rest of the received bytes is cleared. */
  method MoveAndClear(buffer: array<byte>, size: nat, pos: nat, len: nat)
    requires pos + len <= size <= buffer.Length
    modifies buffer
    ensures buffer[..len] == old(buffer[..size])[pos..pos + len]
    ensures forall i :: len <= i < size ==> buffer[i] == 0
    ensures buffer[size..] == old(buffer[size..])
  {
    forall i | 0 <= i < len { buffer[i] := buffer[pos + i]; }
    assert buffer[size..] == old(buffer[size..]);
    assert buffer[..len] == old(buffer[..size])[pos..pos + len];
    ghost var front := buffer[..len];
    forall i | len <= i < size { buffer[i] := 0; }
    assert buffer[size..] == old(buffer[size..]);
    assert buffer[..len] == front;
  }
}
