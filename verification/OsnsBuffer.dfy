/**
 The buffers in which the OSNS daemons exchange messages on one host (src/osns/utils.c). Fields
 are copied as the host keeps them: low byte first, negative numbers in two's complement, a timespec padded to 16
 bytes. A message is made in two passes by the same writes: one without a buffer that only counts, then one with a
 buffer of the counted size.
 */
module OsnsBuffer {
  import opened Wire

  const INT64 := 0x1_0000_0000_0000_0000 // 2^64

  datatype Field =
    | Uint8(v: nat) | Uint16(v: nat) | Uint32(v: nat) | Uint64(v: nat) | Int64(i: int)
    | Timespec(sec: int, nsec: nat)
    | Data(bytes: seq<byte>)

  /** The read operation that goes with a field; data has none. */
  datatype Kind = KUint8 | KUint16 | KUint32 | KUint64 | KInt64 | KTimespec | KData

  function KindOf(f: Field): Kind {
    match f
    case Uint8(_) => KUint8 case Uint16(_) => KUint16 case Uint32(_) => KUint32 case Uint64(_) => KUint64
    case Int64(_) => KInt64 case Timespec(_, _) => KTimespec case Data(_) => KData
  }

  /** The value fits in the C type of the field. */
  predicate InRange(f: Field) {
    match f
    case Uint8(v) => v < 0x100 case Uint16(v) => v < 0x1_0000 case Uint32(v) => v < UINT32 case Uint64(v) => v < INT64
    case Int64(i) => -INT64 / 2 <= i < INT64 / 2
    case Timespec(sec, nsec) => -INT64 / 2 <= sec < INT64 / 2 && nsec < UINT32
    case Data(_) => true
  }

  function Size(f: Field): nat { if f.Data? then |f.bytes| else KindSize(KindOf(f)) }

  function KindSize(k: Kind): nat {
    match k case KUint8 => 1 case KUint16 => 2 case KUint32 => 4 case KUint64 => 8 case KInt64 => 8 case KTimespec => 16
            case KData => 0
  }

  function TwosComplement(i: int): nat
    requires -INT64 / 2 <= i < INT64 / 2
  {
    if i < 0 then i + INT64 else i
  }

  function Signed(u: nat): int { if u >= INT64 / 2 then u - INT64 else u }

  /** What one write puts into the buffer. */
  function Image(f: Field): (s: seq<byte>)
    requires InRange(f)
    ensures |s| == Size(f)
  {
    match f
    case Uint8(v) => LittleEndian(1, v)
    case Uint16(v) => LittleEndian(2, v)
    case Uint32(v) => LittleEndian(4, v)
    case Uint64(v) => LittleEndian(8, v)
    case Int64(i) => LittleEndian(8, TwosComplement(i))
    case Timespec(sec, nsec) => LittleEndian(8, TwosComplement(sec)) + LittleEndian(4, nsec) + [0, 0, 0, 0]
    case Data(bytes) => bytes
  }

  /** All values of the signed types have a field, and the low byte of a number is first. */
  lemma WholeRange(i: int, n: nat)
    ensures InRange(Int64(i)) <==> -0x8000_0000_0000_0000 <= i <= 0x7FFF_FFFF_FFFF_FFFF
    ensures InRange(Timespec(i, n)) <==> -0x8000_0000_0000_0000 <= i <= 0x7FFF_FFFF_FFFF_FFFF && n <= 0xFFFF_FFFF
    ensures InRange(Uint16(n)) ==> Image(Uint16(n)) == [n % 256, n / 256]
  {
    assert InRange(Uint16(n)) ==> LittleEndian(1, n / 256) == [n / 256];
  }

  /** What a read of this kind finds in bytes. */
  function Parse(k: Kind, s: seq<byte>): Field
    requires |s| == KindSize(k)
  {
    match k
    case KUint8 => Uint8(FromLittleEndian(s))
    case KUint16 => Uint16(FromLittleEndian(s))
    case KUint32 => Uint32(FromLittleEndian(s))
    case KUint64 => Uint64(FromLittleEndian(s))
    case KInt64 => Int64(Signed(FromLittleEndian(s)))
    case KTimespec => Timespec(Signed(FromLittleEndian(s[..8])), FromLittleEndian(s[8..12]))
    case KData => Data([])
  }

  /** Reading a typed field gives the value that was written. */
  lemma ParseImage(f: Field)
    requires InRange(f) && !f.Data?
    ensures Parse(KindOf(f), Image(f)) == f
  {
    Pow256Values();
    match f {
      case Uint8(v) => LittleEndianRoundTrip(1, v);
      case Uint16(v) => LittleEndianRoundTrip(2, v);
      case Uint32(v) => LittleEndianRoundTrip(4, v);
      case Uint64(v) => LittleEndianRoundTrip(8, v);
      case Int64(i) => LittleEndianRoundTrip(8, TwosComplement(i));
      case Timespec(sec, nsec) =>
        LittleEndianRoundTrip(8, TwosComplement(sec));
        LittleEndianRoundTrip(4, nsec);
        assert Image(f)[..8] == LittleEndian(8, TwosComplement(sec)) && Image(f)[8..12] == LittleEndian(4, nsec);
    }
  }

  // ---- a message is a sequence of writes ----

  predicate AllInRange(fs: seq<Field>) { forall i :: 0 <= i < |fs| ==> InRange(fs[i]) }

  /** The size of the first n fields, and what they put into the buffer. */
  function SizeTo(fs: seq<Field>, n: nat): nat
    requires n <= |fs|
  {
    if n == 0 then 0 else SizeTo(fs, n - 1) + Size(fs[n - 1])
  }

  function MessageTo(fs: seq<Field>, n: nat): (s: seq<byte>)
    requires AllInRange(fs) && n <= |fs|
    ensures |s| == SizeTo(fs, n)
  {
    if n == 0 then [] else MessageTo(fs, n - 1) + Image(fs[n - 1])
  }

  function TotalSize(fs: seq<Field>): nat { SizeTo(fs, |fs|) }

  function Message(fs: seq<Field>): (s: seq<byte>)
    requires AllInRange(fs)
    ensures |s| == TotalSize(fs)
  {
    MessageTo(fs, |fs|)
  }

  lemma {:induction false} MessagePrefix(fs: seq<Field>, i: nat, n: nat)
    requires AllInRange(fs) && i <= n <= |fs|
    ensures SizeTo(fs, i) <= SizeTo(fs, n) && MessageTo(fs, i) == MessageTo(fs, n)[..SizeTo(fs, i)]
    decreases n
  {
    if i < n {
      MessagePrefix(fs, i, n - 1);
      PrefixOfSum(MessageTo(fs, i), MessageTo(fs, n - 1), Image(fs[n - 1]));
    } else {
      WholePrefix(MessageTo(fs, n));
    }
  }

  lemma PrefixOfSum<T>(prefix: seq<T>, a: seq<T>, b: seq<T>)
    requires |prefix| <= |a| && prefix == a[..|prefix|]
    ensures prefix == (a + b)[..|prefix|]
  {
  }

  lemma WholePrefix<T>(a: seq<T>)
    ensures a == a[..|a|]
  {
  }

  lemma ImageInMessage(fs: seq<Field>, i: nat)
    requires AllInRange(fs) && i < |fs|
    ensures var at := SizeTo(fs, i);
            at + Size(fs[i]) <= TotalSize(fs) && Message(fs)[at..at + Size(fs[i])] == Image(fs[i])
  {
    MessagePrefix(fs, i + 1, |fs|);
    LastPart(Message(fs), MessageTo(fs, i + 1), MessageTo(fs, i), Image(fs[i]));
  }

  lemma LastPart<T>(whole: seq<T>, prefix: seq<T>, front: seq<T>, part: seq<T>)
    requires |prefix| <= |whole| && prefix == whole[..|prefix|] && prefix == front + part
    ensures whole[|front|..|front| + |part|] == part
  {
    assert whole[|front|..|front| + |part|] == prefix[|front|..];
  }

  /** Every typed field of a message, wherever it is, is read back at the position where it was written. */
  lemma FieldOfMessage(fs: seq<Field>, i: nat)
    requires AllInRange(fs) && i < |fs| && !fs[i].Data?
    ensures var at := SizeTo(fs, i);
            && at + Size(fs[i]) <= TotalSize(fs)
            && Parse(KindOf(fs[i]), Message(fs)[at..at + Size(fs[i])]) == fs[i]
  {
    ImageInMessage(fs, i);
    ParseImage(fs[i]);
  }

  // ---- the buffer ----

  datatype Mode = Read | NoWrite | Write

  class Buffer {
    var mode: Mode
    var buffer: array?<byte>
    var pos: nat

    /** For writing; without memory the writes only count. */
    constructor InitWrite(buffer: array?<byte>)
      ensures this.buffer == buffer && pos == 0 && mode == if buffer == null then NoWrite else Write
    {
      this.buffer := buffer;
      this.mode := if buffer == null then NoWrite else Write;
      this.pos := 0;
    }

    constructor InitRead(buffer: array<byte>)
      ensures this.buffer == buffer && pos == 0 && mode == Read
    {
      this.buffer := buffer;
      this.mode := Read;
      this.pos := 0;
    }

    /** Give the buffer other memory, or take it away, and start again at the front. */
    method SetBuffer(memory: array?<byte>)
      modifies this
      ensures buffer == memory && pos == 0
      ensures mode == if old(mode) == Read then Read else if memory == null then NoWrite else Write
    {
      buffer := memory;
      pos := 0;
      if mode == Write {
        if memory == null { mode := NoWrite; }
      } else if mode == NoWrite {
        if memory != null { mode := Write; }
      }
    }

    method WriteField(f: Field)
      requires InRange(f) && mode != Read
      requires mode == Write ==> buffer != null && pos + Size(f) <= buffer.Length
      modifies this`pos, buffer
      ensures pos == old(pos) + Size(f)
      ensures mode == Write ==> buffer[..] == old(buffer[..pos]) + Image(f) + old(buffer[pos + Size(f)..])
    {
      if mode == Write {
        ghost var before := buffer[..];
        var image := Image(f);
        forall i | 0 <= i < |image| { buffer[pos + i] := image[i]; }
        assert buffer[..pos] == before[..pos] && buffer[pos + |image|..] == before[pos + |image|..];
        assert buffer[pos..pos + |image|] == image;
        assert buffer[..] == buffer[..pos] + buffer[pos..pos + |image|] + buffer[pos + |image|..];
      }
      pos := pos + Size(f);
    }

    method ReadField(k: Kind) returns (f: Field)
      requires mode == Read && k != KData && buffer != null && pos + KindSize(k) <= buffer.Length
      modifies this`pos
      ensures pos == old(pos) + KindSize(k) && f == Parse(k, buffer[old(pos)..pos])
    {
      f := Parse(k, buffer[pos..pos + KindSize(k)]);
      pos := pos + KindSize(k);
    }

    /** Reading a field where the message holds it. */
    method ReadNext(k: Kind, ghost message: seq<byte>, ghost expected: Field) returns (f: Field)
      requires mode == Read && k != KData && buffer != null && buffer[..] == message && pos + KindSize(k) <= |message|
      requires Parse(k, message[pos..pos + KindSize(k)]) == expected
      modifies this`pos
      ensures f == expected && pos == old(pos) + KindSize(k)
    {
      assert buffer[pos..pos + KindSize(k)] == message[pos..pos + KindSize(k)];
      f := ReadField(k);
    }

    /** So many fields of the message in the buffer have been read. */
    ghost predicate HasRead(fs: seq<Field>, i: nat)
      reads this, buffer
      requires AllInRange(fs) && i <= |fs|
    {
      mode == Read && buffer != null && buffer[..] == Message(fs) && pos == SizeTo(fs, i)
    }

    method ReadFieldOf(k: Kind, ghost fs: seq<Field>, ghost i: nat) returns (f: Field)
      requires AllInRange(fs) && i < |fs| && !fs[i].Data? && k == KindOf(fs[i]) && HasRead(fs, i)
      modifies this`pos
      ensures f == fs[i] && HasRead(fs, i + 1)
    {
      FieldOfMessage(fs, i);
      f := ReadNext(k, Message(fs), fs[i]);
    }

    /** So many fields of a message have been written, and the bytes behind them are those of start. */
    ghost predicate Wrote(fs: seq<Field>, i: nat, start: seq<byte>)
      reads this, buffer
      requires AllInRange(fs) && i <= |fs|
    {
      && mode != Read && pos == SizeTo(fs, i)
      && (mode == Write ==>
            && buffer != null && |start| == buffer.Length && pos <= TotalSize(fs) <= buffer.Length
            && buffer[..] == MessageTo(fs, i) + start[pos..])
    }

    /** One write behind what is done; the bytes behind it stay. */
    method WriteBehind(f: Field, ghost done: seq<byte>, ghost start: seq<byte>)
      requires InRange(f) && mode != Read
      requires mode == Write ==>
        && buffer != null && |done| == pos && pos + Size(f) <= |start| == buffer.Length
        && buffer[..] == done + start[pos..]
      modifies this`pos, buffer
      ensures pos == old(pos) + Size(f)
      ensures mode == Write ==> buffer[..] == done + Image(f) + start[pos..]
    {
      ghost var at := pos;
      if mode == Write {
        assert buffer[..at] == done;
        assert buffer[at + Size(f)..] == start[at + Size(f)..];
      }
      WriteField(f);
    }

    method WriteNext(f: Field, ghost fs: seq<Field>, ghost i: nat, ghost start: seq<byte>)
      requires AllInRange(fs) && i < |fs| && f == fs[i] && Wrote(fs, i, start)
      modifies this`pos, buffer
      ensures Wrote(fs, i + 1, start)
    {
      MessagePrefix(fs, i + 1, |fs|);
      WriteBehind(f, MessageTo(fs, i), start);
    }

    /** The writes of a message, in whatever mode the buffer is. */
    method WriteAll(fs: seq<Field>)
      requires AllInRange(fs) && mode != Read && pos == 0
      requires mode == Write ==> buffer != null && TotalSize(fs) <= buffer.Length
      modifies this`pos, buffer
      ensures pos == TotalSize(fs)
      ensures mode == Write ==> buffer[..] == Message(fs) + old(buffer[..])[pos..]
    {
      ghost var start := if mode == Write then buffer[..] else [];
      for i := 0 to |fs|
        invariant Wrote(fs, i, start)
      {
        WriteNext(fs[i], fs, i, start);
      }
    }
  }

  /**
   The two passes: the first one, without memory, ends at a position; memory of just that size is enough for the second
   one, which ends at the same position and fills all of it.
   */
  method TwoPasses(fs: seq<Field>) returns (memory: array<byte>)
    requires AllInRange(fs)
    ensures memory.Length == TotalSize(fs) && memory[..] == Message(fs)
  {
    var b := new Buffer.InitWrite(null);
    b.WriteAll(fs);
    memory := new byte[b.pos];
    b.SetBuffer(memory);
    b.WriteAll(fs);
  }

  /** Reading with the matching sequence of operations gives the written values. */
  method ReadBack(memory: array<byte>, fs: seq<Field>) returns (got: seq<Field>)
    requires AllInRange(fs) && (forall i :: 0 <= i < |fs| ==> !fs[i].Data?) && memory[..] == Message(fs)
    ensures got == fs
  {
    var b := new Buffer.InitRead(memory);
    got := [];
    for i := 0 to |fs|
      invariant b.HasRead(fs, i) && got == fs[..i]
    {
      var f := b.ReadFieldOf(KindOf(fs[i]), fs, i);
      got := got + [f];
      assert fs[..i + 1] == fs[..i] + [fs[i]];
    }
  }
}
