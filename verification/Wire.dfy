/**
 Numbers and strings as they are sent: unsigned integers with the high byte first
 (src/lib/datatypes/ssh-uint.c), strings as in section 5 of RFC 4251 (src/lib/ssh/ssh-string.c), and
 integers with the low byte first as a little-endian host keeps them in memory.
 */
module Wire {

  type byte = b: nat | b < 256

  const UINT32 := 0x1_0000_0000

  function Pow256(n: nat): nat { if n == 0 then 1 else 256 * Pow256(n - 1) }

  /** v in n bytes, high byte first. */
  function BigEndian(n: nat, v: nat): (s: seq<byte>)
    ensures |s| == n
  {
    if n == 0 then [] else BigEndian(n - 1, v / 256) + [v % 256]
  }

  function FromBigEndian(s: seq<byte>): nat {
    if s == [] then 0 else 256 * FromBigEndian(s[..|s| - 1]) + s[|s| - 1]
  }

  /** v in n bytes, low byte first. */
  function LittleEndian(n: nat, v: nat): (s: seq<byte>)
    ensures |s| == n
  {
    if n == 0 then [] else [v % 256] + LittleEndian(n - 1, v / 256)
  }

  function FromLittleEndian(s: seq<byte>): nat {
    if s == [] then 0 else s[0] + 256 * FromLittleEndian(s[1..])
  }

  lemma {:induction false} BigEndianRoundTrip(n: nat, v: nat)
    requires v < Pow256(n)
    ensures FromBigEndian(BigEndian(n, v)) == v
  {
    if n > 0 {
      BigEndianRoundTrip(n - 1, v / 256);
      var s := BigEndian(n, v);
      assert s[..n - 1] == BigEndian(n - 1, v / 256);
    }
  }

  lemma {:induction false} FromBigEndianRoundTrip(s: seq<byte>)
    ensures FromBigEndian(s) < Pow256(|s|)
    ensures BigEndian(|s|, FromBigEndian(s)) == s
  {
    if s != [] {
      FromBigEndianRoundTrip(s[..|s| - 1]);
      assert s == s[..|s| - 1] + [s[|s| - 1]];
    }
  }

  lemma {:induction false} LittleEndianRoundTrip(n: nat, v: nat)
    requires v < Pow256(n)
    ensures FromLittleEndian(LittleEndian(n, v)) == v
  {
    if n > 0 {
      LittleEndianRoundTrip(n - 1, v / 256);
      var s := LittleEndian(n, v);
      assert s[1..] == LittleEndian(n - 1, v / 256);
    }
  }

  lemma Pow256Values()
    ensures Pow256(1) == 0x100 && Pow256(2) == 0x1_0000 && Pow256(4) == UINT32
    ensures Pow256(8) == 0x1_0000_0000_0000_0000
  {
    assert Pow256(3) == 256 * Pow256(2);
    assert Pow256(5) == 256 * Pow256(4);
    assert Pow256(6) == 256 * Pow256(5);
    assert Pow256(7) == 256 * Pow256(6);
  }

  /** Four bytes, written out. */
  lemma FourBytes(a: byte, b: byte, c: byte, d: byte)
    ensures FromBigEndian([a, b, c, d]) == ((a * 256 + b) * 256 + c) * 256 + d
    ensures FromLittleEndian([a, b, c, d]) == a + 256 * (b + 256 * (c + 256 * d))
  {
    var s := [a, b, c, d];
    assert s[..3] == [a, b, c] && [a, b, c][..2] == [a, b] && [a, b][..1] == [a];
    assert FromBigEndian([a]) == a && FromBigEndian([a, b]) == a * 256 + b;
    assert s[1..] == [b, c, d] && [b, c, d][1..] == [c, d] && [c, d][1..] == [d];
    assert FromLittleEndian([d]) == d && FromLittleEndian([c, d]) == c + 256 * d;
  }

  /** The bytes of a name are the codes of its letters. */
  predicate Spells(b: seq<byte>, text: string) {
    |b| == |text| && forall i :: 0 <= i < |b| ==> b[i] == text[i] as int
  }

  function GetUint32(b: seq<byte>): nat
    requires |b| >= 4
  {
    FromBigEndian(b[..4])
  }

  function PutUint32(v: nat): (s: seq<byte>)
    ensures |s| == 4
  {
    BigEndian(4, v)
  }

  lemma Uint32RoundTrip(v: nat, rest: seq<byte>)
    requires v < UINT32
    ensures GetUint32(PutUint32(v) + rest) == v
  {
    Pow256Values();
    BigEndianRoundTrip(4, v);
    assert (PutUint32(v) + rest)[..4] == PutUint32(v);
  }

  lemma GetUint32RoundTrip(b: seq<byte>)
    requires |b| >= 4
    ensures GetUint32(b) < UINT32 && b == PutUint32(GetUint32(b)) + b[4..]
  {
    Pow256Values();
    FromBigEndianRoundTrip(b[..4]);
  }

  // ---- strings ----

  /**
   Reading a string at the start of b. Unreadable: the string does not fit; it has no memory but keeps the length that
   was read, and nothing is consumed. Overrun: 4 + length wraps around in 32 bits; the string starts in the buffer and
   ends outside it, and only what is left of the sum is consumed.
   */
  datatype ReadString = Unreadable(length: nat) | Overrun(rest: seq<byte>) | Text(data: seq<byte>, rest: seq<byte>)

  function GetString(b: seq<byte>): ReadString {
    if |b| < 4 then Unreadable(0)
    else
      var len := GetUint32(b);
      if (4 + len) % UINT32 > |b| then Unreadable(len)
      else if 4 + len >= UINT32 then Overrun(b[(4 + len) % UINT32..])
      else Text(b[4..4 + len], b[4 + len..])
  }

  function PutString(s: seq<byte>): seq<byte> { PutUint32(|s|) + s }

  /** A string length that fits in 32 bits together with its own header. */
  predicate Sendable(s: seq<byte>) { 4 + |s| < UINT32 }

  lemma StringRoundTrip(s: seq<byte>, rest: seq<byte>)
    requires Sendable(s)
    ensures GetString(PutString(s) + rest) == Text(s, rest)
  {
    var b := PutString(s) + rest;
    assert b == PutUint32(|s|) + (s + rest);
    Uint32RoundTrip(|s|, s + rest);
    assert b[4..4 + |s|] == s && b[4 + |s|..] == rest;
  }

  /** The bytes start with a string of length n. */
  predicate StartsWithString(b: seq<byte>, n: nat) { 4 + n <= |b| && 4 + n < UINT32 && b[..4] == PutUint32(n) }

  lemma StringInFront(b: seq<byte>, n: nat)
    requires StartsWithString(b, n)
    ensures GetString(b) == Text(b[4..4 + n], b[4 + n..])
  {
    var s := b[4..4 + n];
    assert b == PutString(s) + b[4 + n..];
    StringRoundTrip(s, b[4 + n..]);
  }

  lemma LengthInFront(b: seq<byte>)
    requires |b| >= 4
    ensures GetUint32(b) < UINT32 && b[..4] == PutUint32(GetUint32(b))
  {
    GetUint32RoundTrip(b);
  }

  /** A string is read exactly when the bytes start with one. */
  lemma ReadExactly(b: seq<byte>)
    ensures GetString(b).Text? <==> exists n: nat :: StartsWithString(b, n)
  {
    if GetString(b).Text? {
      LengthInFront(b);
      assert StartsWithString(b, GetUint32(b));
    }
    if n: nat :| StartsWithString(b, n) {
      StringInFront(b, n);
    }
  }

  lemma WrapsAround(len: nat)
    requires len < UINT32
    ensures (4 + len) % UINT32 == if len >= UINT32 - 4 then len - (UINT32 - 4) else 4 + len
  {
  }

  /** It runs over exactly when its length is one of the last four and what is left of the sum fits. */
  lemma OverrunExactly(b: seq<byte>)
    ensures GetString(b).Overrun? <==> |b| >= 4 && GetUint32(b) >= UINT32 - 4 && GetUint32(b) - (UINT32 - 4) <= |b|
    ensures GetString(b).Overrun? ==> GetString(b).rest == b[GetUint32(b) - (UINT32 - 4)..]
    ensures GetString(b).Unreadable? ==> GetString(b).length == if |b| < 4 then 0 else GetUint32(b)
  {
    if |b| >= 4 {
      LengthInFront(b);
      WrapsAround(GetUint32(b));
    }
  }

  lemma StringIsPrefix(b: seq<byte>)
    requires GetString(b).Text?
    ensures b == PutString(GetString(b).data) + GetString(b).rest
    ensures |GetString(b).rest| + 4 <= |b|
  {
    GetUint32RoundTrip(b);
  }
}
