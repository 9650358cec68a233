/** Lists of length-prefixed records in OSNS messages (src/osns/record.c). */
module OsnsRecord {
  import opened Options
  import opened Wire

  /** A record as it is handed to a callback; an empty record, and one that does not fit, has no data. */
  datatype Record = Record(len: nat, data: Option<seq<byte>>)

  /** sizeof(struct osns_records_hlpr_s): a count of 4 bytes, a size of 2 and 2 bytes of padding. */
  const HEADER := 8

  // ---- one record ----

  function Encode(r: seq<byte>): seq<byte> { LittleEndian(2, |r|) + r }

  datatype Taken = Taken(bytes: nat, record: Record)

  function ReadRecord(b: seq<byte>): Taken {
    if |b| < 2 then Taken(0, Record(0, None))
    else
      var len := FromLittleEndian(b[..2]);
      if len > 0 && |b| >= 2 + len then Taken(2 + len, Record(len, Some(b[2..2 + len])))
      else Taken(2, Record(len, None))
  }

  function RecordFor(r: seq<byte>): Record { Record(|r|, if r == [] then None else Some(r)) }

  lemma ReadEncoded(r: seq<byte>, rest: seq<byte>)
    requires |r| < 0x1_0000
    ensures ReadRecord(Encode(r) + rest) == Taken(|Encode(r)|, RecordFor(r))
  {
    var b := Encode(r) + rest;
    Pow256Values();
    LittleEndianRoundTrip(2, |r|);
    assert b[..2] == LittleEndian(2, |r|);
    assert b[2..2 + |r|] == r;
  }

  /** Write one record at `at`; without a buffer only its size is returned. */
  method WriteRecord(buffer: array?<byte>, at: nat, r: seq<byte>) returns (bytes: nat)
    requires |r| < 0x1_0000 && (buffer != null ==> at + 2 + |r| <= buffer.Length)
    modifies buffer
    ensures bytes == |Encode(r)|
    ensures buffer != null ==> buffer[..] == old(buffer[..at]) + Encode(r) + old(buffer[at + bytes..])
  {
    bytes := 2 + |r|;
    if buffer != null {
      ghost var before := buffer[..];
      var image := LittleEndian(2, |r|) + r;
      forall i | 0 <= i < |image| { buffer[at + i] := image[i]; }
      assert buffer[..at] == before[..at] && buffer[at + bytes..] == before[at + bytes..];
      assert buffer[at..at + bytes] == image;
      assert buffer[..] == buffer[..at] + buffer[at..at + bytes] + buffer[at + bytes..];
    }
  }

  // ---- the list ----

  /** The record at the start of b is handed to the callback. */
  predicate Accepted(b: seq<byte>) { ReadRecord(b).bytes > 0 && ReadRecord(b).record.len < |b| }

  /** For any bytes: a record is handed over exactly when its length is below what is there, length field included. */
  lemma AcceptedExactly(b: seq<byte>)
    ensures Accepted(b) <==> |b| >= 2 && FromLittleEndian(b[..2]) < |b|
    ensures |b| < 2 ==> ReadRecord(b) == Taken(0, Record(0, None))
    ensures |b| >= 2 ==> ReadRecord(b).record.len == FromLittleEndian(b[..2])
  {
  }

  /**
   A record is handed over without data although its length is not 0 exactly when it is one byte short; records that
   lack more are refused.
   */
  lemma OneByteShort(b: seq<byte>)
    ensures Accepted(b) && ReadRecord(b).record.len > 0 && ReadRecord(b).record.data == None
            <==> |b| >= 2 && FromLittleEndian(b[..2]) > 0 && FromLittleEndian(b[..2]) == |b| - 1
  {
  }

  datatype Call = Call(record: Record, count: nat, index: nat)

  /** The calls made for records index, index + 1, ... up to count, and whether all were made. */
  function Calls(b: seq<byte>, count: nat, index: nat, cb: Call -> int): (seq<Call>, bool)
    decreases count - index
  {
    if index >= count then ([], true)
    else if !Accepted(b) then ([], false)
    else
      var call := Call(ReadRecord(b).record, count, index);
      if cb(call) == -1 then ([call], false)
      else
        var (more, ok) := Calls(b[ReadRecord(b).bytes..], count, index + 1, cb);
        ([call] + more, ok)
  }

  /** What the calls come to is what was done and what is left still comes to. */
  predicate ToDo(all: (seq<Call>, bool), done: seq<Call>, b: seq<byte>, count: nat, index: nat, cb: Call -> int) {
    var (more, ok) := Calls(b, count, index, cb);
    all.0 == done + more && all.1 == ok
  }

  lemma CallStep(all: (seq<Call>, bool), done: seq<Call>, b: seq<byte>, count: nat, index: nat, cb: Call -> int)
    requires index < count && ToDo(all, done, b, count, index, cb)
    ensures var call := Call(ReadRecord(b).record, count, index);
      if !Accepted(b) then all.0 == done && !all.1
      else if cb(call) == -1 then all.0 == done + [call] && !all.1
      else ToDo(all, done + [call], b[ReadRecord(b).bytes..], count, index + 1, cb)
  {
    if Accepted(b) {
      var call := Call(ReadRecord(b).record, count, index);
      var more := Calls(b[ReadRecord(b).bytes..], count, index + 1, cb).0;
      assert done + ([call] + more) == done + [call] + more;
    }
  }

  /** An unsigned count returned as an int. */
  function AsInt(count: nat): int { if count >= UINT32 / 2 then count - UINT32 else count }

  lemma AsIntExactly(count: nat)
    requires count < UINT32
    ensures -0x8000_0000 <= AsInt(count) < 0x8000_0000 && (AsInt(count) - count) % 0x1_0000_0000 == 0
  {
  }

  function CountOf(data: seq<byte>): nat
    requires |data| >= HEADER
  {
    FromLittleEndian(data[..4])
  }

  function SizeOf(data: seq<byte>): nat
    requires |data| >= HEADER
  {
    FromLittleEndian(data[4..6])
  }

  /** Call cb for every record. A list whose size field exceeds the data is reported as complete without a call. */
  method ProcessRecords(data: seq<byte>, cb: Call -> int) returns (result: int, calls: seq<Call>)
    ensures |data| < HEADER ==> result == -1 && calls == []
    ensures |data| >= HEADER && SizeOf(data) + HEADER > |data| ==> result == AsInt(CountOf(data)) && calls == []
    ensures |data| >= HEADER && SizeOf(data) + HEADER <= |data| ==>
              var (all, ok) := Calls(data[HEADER..], CountOf(data), 0, cb);
              calls == all && result == if ok then AsInt(CountOf(data)) else -1
  {
    result, calls := -1, [];
    if |data| < HEADER {
      return;
    }
    var count := FromLittleEndian(data[..4]);
    if FromLittleEndian(data[4..6]) + HEADER <= |data| {
      var pos := HEADER;
      var i := 0;
      ghost var (all, ok) := Calls(data[HEADER..], count, 0, cb);
      while i < count
        invariant i <= count && HEADER <= pos <= |data|
        invariant ToDo((all, ok), calls, data[pos..], count, i, cb)
      {
        CallStep((all, ok), calls, data[pos..], count, i, cb);
        var taken := ReadRecord(data[pos..]);
        if taken.bytes > 0 && taken.record.len < |data| - pos {
          var call := Call(taken.record, count, i);
          calls := calls + [call];
          if cb(call) == -1 {
            return -1, calls;
          }
          assert data[pos..][taken.bytes..] == data[pos + taken.bytes..];
          pos := pos + taken.bytes;
        } else {
          return -1, calls;
        }
        i := i + 1;
      }
    }
    result := AsInt(count);
  }

  function EncodeAll(rs: seq<seq<byte>>): seq<byte> {
    if rs == [] then [] else Encode(rs[0]) + EncodeAll(rs[1..])
  }

  function CallsFor(rs: seq<seq<byte>>, count: nat, index: nat): seq<Call> {
    if rs == [] then [] else [Call(RecordFor(rs[0]), count, index)] + CallsFor(rs[1..], count, index + 1)
  }

  lemma {:induction false} CallsOfEncoded(rs: seq<seq<byte>>, rest: seq<byte>, count: nat, index: nat, cb: Call -> int)
    requires count == index + |rs| && (forall r <- rs :: |r| < 0x1_0000) && (forall c: Call :: cb(c) != -1)
    ensures Calls(EncodeAll(rs) + rest, count, index, cb) == (CallsFor(rs, count, index), true)
    decreases rs
  {
    if rs != [] {
      var r := rs[0];
      var tail := EncodeAll(rs[1..]) + rest;
      assert EncodeAll(rs) + rest == Encode(r) + tail;
      ReadEncoded(r, tail);
      assert (Encode(r) + tail)[|Encode(r)|..] == tail;
      CallsOfEncoded(rs[1..], rest, count, index + 1, cb);
    }
  }

  /** A list that promises more records than can be handed over: one call for each that can, then an error. */
  lemma {:induction false} CallsRefused(rs: seq<seq<byte>>, rest: seq<byte>, count: nat, index: nat, cb: Call -> int)
    requires index + |rs| < count && (forall r <- rs :: |r| < 0x1_0000) && (forall c: Call :: cb(c) != -1)
    requires |rest| < 2 || FromLittleEndian(rest[..2]) >= |rest|
    ensures Calls(EncodeAll(rs) + rest, count, index, cb) == (CallsFor(rs, count, index), false)
    decreases rs
  {
    if rs == [] {
      assert EncodeAll(rs) + rest == rest;
      AcceptedExactly(rest);
    } else {
      var tail := EncodeAll(rs[1..]) + rest;
      assert EncodeAll(rs) + rest == Encode(rs[0]) + tail;
      ReadEncoded(rs[0], tail);
      assert (Encode(rs[0]) + tail)[|Encode(rs[0])|..] == tail;
      CallsRefused(rs[1..], rest, count, index + 1, cb);
    }
  }

  /** A callback that stops at record k: the calls up to that one, and an error. */
  lemma {:induction false} CallsStopped(
    rs: seq<seq<byte>>, rest: seq<byte>, count: nat, index: nat, cb: Call -> int, k: nat)
    requires index + |rs| <= count && (forall r <- rs :: |r| < 0x1_0000) && k < |rs|
    requires forall i :: 0 <= i <= k ==> (cb(Call(RecordFor(rs[i]), count, index + i)) == -1 <==> i == k)
    ensures Calls(EncodeAll(rs) + rest, count, index, cb) == (CallsFor(rs[..k + 1], count, index), false)
    decreases k
  {
    var tail := EncodeAll(rs[1..]) + rest;
    assert EncodeAll(rs) + rest == Encode(rs[0]) + tail;
    ReadEncoded(rs[0], tail);
    assert (Encode(rs[0]) + tail)[|Encode(rs[0])|..] == tail;
    assert cb(Call(RecordFor(rs[0]), count, index + 0)) == -1 <==> k == 0;
    assert rs[..k + 1][1..] == rs[1..][..k];
    if k == 0 {
      var call := Call(RecordFor(rs[0]), count, index);
      assert rs[1..][..0] == [];
      assert CallsFor(rs[..1], count, index) == [call] + [] == [call];
      assert Calls(Encode(rs[0]) + tail, count, index, cb) == ([call], false);
    } else {
      forall i | 0 <= i < k
        ensures cb(Call(RecordFor(rs[1..][i]), count, index + 1 + i)) == -1 <==> i == k - 1
      {
        assert cb(Call(RecordFor(rs[i + 1]), count, index + (i + 1))) == -1 <==> i + 1 == k;
      }
      CallsStopped(rs[1..], rest, count, index + 1, cb, k - 1);
    }
  }

  function List(rs: seq<seq<byte>>, padding: seq<byte>): seq<byte>
    requires |padding| == 2
  {
    LittleEndian(4, |rs|) + LittleEndian(2, |EncodeAll(rs)|) + padding + EncodeAll(rs)
  }

  /**
   A list written record by record after a header with its count and size, and followed by anything, is processed
   completely: one call per record, in order, with the bytes that were written.
   */
  lemma ListRoundTrip(rs: seq<seq<byte>>, padding: seq<byte>, rest: seq<byte>, cb: Call -> int)
    requires |padding| == 2 && |rs| < UINT32 / 2 && |EncodeAll(rs)| < 0x1_0000
    requires forall c: Call :: cb(c) != -1
    ensures var data := List(rs, padding) + rest;
            && |data| >= HEADER && SizeOf(data) + HEADER <= |data|
            && Calls(data[HEADER..], CountOf(data), 0, cb) == (CallsFor(rs, |rs|, 0), true)
            && AsInt(CountOf(data)) == |rs|
  {
    var data := List(rs, padding) + rest;
    Pow256Values();
    LittleEndianRoundTrip(4, |rs|);
    LittleEndianRoundTrip(2, |EncodeAll(rs)|);
    assert data[..4] == LittleEndian(4, |rs|);
    assert data[4..6] == LittleEndian(2, |EncodeAll(rs)|);
    assert data[HEADER..] == EncodeAll(rs) + rest;
    SmallRecords(rs);
    CallsOfEncoded(rs, rest, |rs|, 0, cb);
  }

  lemma {:induction false} SmallRecords(rs: seq<seq<byte>>)
    ensures forall r <- rs :: |r| <= |EncodeAll(rs)|
  {
    if rs != [] {
      SmallRecords(rs[1..]);
      assert rs == [rs[0]] + rs[1..];
    }
  }

  lemma {:induction false} CallsForAre(rs: seq<seq<byte>>, count: nat, index: nat, i: nat)
    requires i < |rs|
    ensures |CallsFor(rs, count, index)| == |rs|
    ensures CallsFor(rs, count, index)[i] == Call(RecordFor(rs[i]), count, index + i)
  {
    if |rs| > 1 {
      CallsForAre(rs[1..], count, index + 1, if i > 0 then i - 1 else 0);
    }
  }

  lemma {:induction false} EncodeSplits(a: seq<seq<byte>>, b: seq<seq<byte>>)
    ensures EncodeAll(a + b) == EncodeAll(a) + EncodeAll(b)
  {
    if a == [] {
      assert a + b == b;
    } else {
      assert (a + b)[1..] == a[1..] + b;
      EncodeSplits(a[1..], b);
      assert Encode(a[0]) + (EncodeAll(a[1..]) + EncodeAll(b)) == Encode(a[0]) + EncodeAll(a[1..]) + EncodeAll(b);
    }
  }

  lemma OneRecordMore(rs: seq<seq<byte>>, i: nat)
    requires i < |rs|
    ensures EncodeAll(rs[..i + 1]) == EncodeAll(rs[..i]) + Encode(rs[i])
    ensures |EncodeAll(rs[..i + 1])| <= |EncodeAll(rs)|
  {
    assert rs[..i + 1] == rs[..i] + [rs[i]];
    EncodeSplits(rs[..i], [rs[i]]);
    assert EncodeAll([rs[i]]) == Encode(rs[i]) + [];
    assert rs == rs[..i + 1] + rs[i + 1..];
    EncodeSplits(rs[..i + 1], rs[i + 1..]);
  }

  function Head(count: nat, size: nat): (h: seq<byte>)
    ensures |h| == HEADER
  {
    LittleEndian(4, count) + LittleEndian(2, size) + [0, 0]
  }

  /** Write record i of a list behind the records before it. */
  method WriteNext(buffer: array<byte>, pos: nat, rs: seq<seq<byte>>, i: nat, ghost head: seq<byte>) returns (next: nat)
    requires i < |rs| && |rs[i]| < 0x1_0000 && |head| + |EncodeAll(rs)| == buffer.Length
    requires pos == |head| + |EncodeAll(rs[..i])| <= buffer.Length && buffer[..pos] == head + EncodeAll(rs[..i])
    modifies buffer
    ensures next == |head| + |EncodeAll(rs[..i + 1])| <= buffer.Length
    ensures buffer[..next] == head + EncodeAll(rs[..i + 1])
  {
    OneRecordMore(rs, i);
    ghost var done := buffer[..pos];
    var bytes := WriteRecord(buffer, pos, rs[i]);
    next := pos + bytes;
    assert buffer[..next] == done + Encode(rs[i]);
    assert head + EncodeAll(rs[..i]) + Encode(rs[i]) == head + (EncodeAll(rs[..i]) + Encode(rs[i]));
  }

  /** Write a list: count and size in front, then the records one after the other. */
  method WriteList(rs: seq<seq<byte>>) returns (buffer: array<byte>)
    requires |rs| < UINT32 / 2 && |EncodeAll(rs)| < 0x1_0000
    ensures buffer[..] == Head(|rs|, |EncodeAll(rs)|) + EncodeAll(rs)
  {
    SmallRecords(rs);
    var size := SizeOfAll(rs);
    var head := Head(|rs|, size);
    buffer := new byte[HEADER + size](i requires 0 <= i < HEADER + size => if i < HEADER then head[i] else 0);
    var pos := HEADER;
    assert buffer[..pos] == head + EncodeAll(rs[..0]);
    for i := 0 to |rs|
      invariant pos == HEADER + |EncodeAll(rs[..i])| <= buffer.Length
      invariant buffer[..pos] == head + EncodeAll(rs[..i])
    {
      assert rs[i] in rs;
      pos := WriteNext(buffer, pos, rs, i, head);
    }
    assert rs[..|rs|] == rs && buffer[..pos] == buffer[..];
  }

  /** The sizing pass: the same writes without a buffer. */
  method SizeOfAll(rs: seq<seq<byte>>) returns (size: nat)
    requires forall r <- rs :: |r| < 0x1_0000
    ensures size == |EncodeAll(rs)|
  {
    size := 0;
    for i := 0 to |rs|
      invariant size == |EncodeAll(rs[..i])|
    {
      OneRecordMore(rs, i);
      var bytes := WriteRecord(null, 0, rs[i]);
      size := size + bytes;
    }
    assert rs[..|rs|] == rs;
  }

  /** A list that is written and processed: one call per record, in order, with the bytes of the record. */
  method WriteAndProcess(rs: seq<seq<byte>>, cb: Call -> int) returns (result: int, calls: seq<Call>)
    requires |rs| < UINT32 / 2 && |EncodeAll(rs)| < 0x1_0000 && forall c: Call :: cb(c) != -1
    ensures result == |rs| == |calls|
    ensures forall i :: 0 <= i < |rs| ==> calls[i] == Call(RecordFor(rs[i]), |rs|, i)
  {
    var buffer := WriteList(rs);
    ListRoundTrip(rs, [0, 0], [], cb);
    assert Head(|rs|, |EncodeAll(rs)|) + EncodeAll(rs) == List(rs, [0, 0]) + [];
    result, calls := ProcessRecords(buffer[..], cb);
    forall i | 0 <= i < |rs| ensures |calls| == |rs| && calls[i] == Call(RecordFor(rs[i]), |rs|, i) {
      CallsForAre(rs, |rs|, 0, i);
    }
    if rs == [] { assert calls == []; }
  }
}
