/**
 The entries of a NAME reply in SFTP version 3: file name, long name and attributes, as in section 5 and 7 of
 draft-ietf-secsh-filexfer-02. Reading follows src/lib/datatypes/buffer.c,
 src/lib/sftp/attr/read-attr-v03.c and src/lib/sftp/attr/init-attr-v03.c, which check no bounds except for strings.
 */
module NameReply {
  import opened Options
  import opened Sequences
  import opened Wire

  /** The result of a read at the cursor; Outside means that the read would leave the buffer. */
  datatype Got<+T> = Outside | Got(value: T, rest: seq<byte>) {
    predicate IsFailure() { Outside? }
    function PropagateFailure<U>(): Got<U> { Outside }
    function Extract(): (T, seq<byte>)
      requires Got?
    {
      (value, rest)
    }
  }

  datatype Extended = Extended(kind: seq<byte>, data: seq<byte>)

  datatype Attrs = Attrs(size: Option<nat>, uid: Option<nat>, gid: Option<nat>, permissions: Option<nat>,
                         atime: Option<nat>, mtime: Option<nat>, extended: Option<seq<Extended>>)

  datatype Entry = Entry(name: seq<byte>, longname: seq<byte>, attrs: Attrs)

  const EXTENDED := 0x8000_0000

  // ---- reading ----

  function TakeNumber(b: seq<byte>, n: nat): Got<nat> {
    if |b| < n then Outside else Got(FromBigEndian(b[..n]), b[n..])
  }

  /** A string that is empty or does not fit gives nothing, and only its length is passed. */
  function TakeText(b: seq<byte>): Got<seq<byte>> {
    var (len, rest) :- TakeNumber(b, 4);
    if 0 < len <= |rest| then Got(rest[..len], rest[len..]) else Got([], rest)
  }

  function TakeIf(present: bool, b: seq<byte>, n: nat): Got<Option<nat>> {
    if !present then Got(None, b)
    else
      var (v, rest) :- TakeNumber(b, n);
      Got(Some(v), rest)
  }

  function TakePair(b: seq<byte>): Got<Extended> {
    var (kind, b1) :- TakeText(b);
    var (data, b2) :- TakeText(b1);
    Got(Extended(kind, data), b2)
  }

  function TakePairs(b: seq<byte>, count: nat): Got<seq<Extended>>
    decreases count
  {
    if count == 0 then Got([], b)
    else
      var (p, b1) :- TakePair(b);
      var (more, b2) :- TakePairs(b1, count - 1);
      Got([p] + more, b2)
  }

  function TakeExtended(present: bool, b: seq<byte>): Got<Option<seq<Extended>>> {
    if !present then Got(None, b)
    else
      var (count, b1) :- TakeNumber(b, 4);
      var (pairs, b2) :- TakePairs(b1, count);
      Got(Some(pairs), b2)
  }

  predicate Bit(flags: nat, unit: nat)
    requires unit > 0
  {
    flags / unit % 2 == 1
  }

  function TakeOwner(flags: nat, b: seq<byte>): Got<(Option<nat>, Option<nat>, Option<nat>)> {
    var (size, b1) :- TakeIf(Bit(flags, 1), b, 8);
    var (uid, b2) :- TakeIf(Bit(flags, 2), b1, 4);
    var (gid, b3) :- TakeIf(Bit(flags, 2), b2, 4);
    Got((size, uid, gid), b3)
  }

  function TakeTimes(flags: nat, b: seq<byte>): Got<(Option<nat>, Option<nat>, Option<nat>)> {
    var (permissions, b1) :- TakeIf(Bit(flags, 4), b, 4);
    var (atime, b2) :- TakeIf(Bit(flags, 8), b1, 4);
    var (mtime, b3) :- TakeIf(Bit(flags, 8), b2, 4);
    Got((permissions, atime, mtime), b3)
  }

  /** The attributes that are read are those whose bit is set, in fixed order; other bits are ignored. */
  function TakeAttrs(b: seq<byte>): Got<Attrs> {
    var (flags, b0) :- TakeNumber(b, 4);
    var (o, b1) :- TakeOwner(flags, b0);
    var (t, b2) :- TakeTimes(flags, b1);
    var (extended, b3) :- TakeExtended(Bit(flags, EXTENDED), b2);
    Got(Attrs(o.0, o.1, o.2, t.0, t.1, t.2, extended), b3)
  }

  /** The name and the long name, which is not used. */
  function TakeNames(b: seq<byte>): Got<(seq<byte>, seq<byte>)> {
    var (name, b1) :- TakeText(b);
    var (longname, b2) :- TakeText(b1);
    Got((name, longname), b2)
  }

  function TakeEntry(b: seq<byte>): Got<Entry> {
    var (names, b1) :- TakeNames(b);
    var (attrs, b2) :- TakeAttrs(b1);
    Got(Entry(names.0, names.1, attrs), b2)
  }

  function TakeEntries(b: seq<byte>, count: nat): Got<seq<Entry>>
    decreases count
  {
    if count == 0 then Got([], b)
    else
      var (e, b1) :- TakeEntry(b);
      var (es, b2) :- TakeEntries(b1, count - 1);
      Got([e] + es, b2)
  }

  // ---- writing, as the server does ----

  function PutIf(o: Option<nat>, n: nat): seq<byte> { if o.Some? then BigEndian(n, o.value) else [] }

  function PutPair(p: Extended): seq<byte> { PutString(p.kind) + PutString(p.data) }

  function PutPairs(ps: seq<Extended>): seq<byte> {
    if ps == [] then [] else PutPair(ps[0]) + PutPairs(ps[1..])
  }

  function PutExtended(o: Option<seq<Extended>>): seq<byte> {
    if o.Some? then PutUint32(|o.value|) + PutPairs(o.value) else []
  }

  function Flags(a: Attrs): nat {
    (if a.size.Some? then 1 else 0) + (if a.uid.Some? then 2 else 0) + (if a.permissions.Some? then 4 else 0)
    + (if a.atime.Some? then 8 else 0) + (if a.extended.Some? then EXTENDED else 0)
  }

  function PutOwner(a: Attrs): seq<byte> { PutIf(a.size, 8) + PutIf(a.uid, 4) + PutIf(a.gid, 4) }

  function PutTimes(a: Attrs): seq<byte> { PutIf(a.permissions, 4) + PutIf(a.atime, 4) + PutIf(a.mtime, 4) }

  function PutAttrs(a: Attrs): seq<byte> {
    PutUint32(Flags(a)) + (PutOwner(a) + (PutTimes(a) + PutExtended(a.extended)))
  }

  function PutEntry(e: Entry): seq<byte> { PutString(e.name) + PutString(e.longname) + PutAttrs(e.attrs) }

  function PutEntries(es: seq<Entry>): seq<byte> {
    if es == [] then [] else PutEntry(es[0]) + PutEntries(es[1..])
  }

  predicate Fits(o: Option<nat>, n: nat) { o.Some? ==> o.value < Pow256(n) }

  /** Attributes that can be sent: values in range, and uid with gid, atime with mtime. */
  predicate SendableAttrs(a: Attrs) {
    && Fits(a.size, 8) && Fits(a.uid, 4) && Fits(a.gid, 4)
    && Fits(a.permissions, 4) && Fits(a.atime, 4) && Fits(a.mtime, 4)
    && a.uid.Some? == a.gid.Some? && a.atime.Some? == a.mtime.Some?
    && (a.extended.Some? ==>
          |a.extended.value| < UINT32 && forall p <- a.extended.value :: |p.kind| < UINT32 && |p.data| < UINT32)
  }

  predicate SendableEntry(e: Entry) { |e.name| < UINT32 && |e.longname| < UINT32 && SendableAttrs(e.attrs) }

  // ---- what was written is what is read, and the cursor ends right behind it ----

  lemma TakePutNumber(n: nat, v: nat, rest: seq<byte>)
    requires v < Pow256(n)
    ensures TakeNumber(BigEndian(n, v) + rest, n) == Got(v, rest)
  {
    BigEndianRoundTrip(n, v);
    assert (BigEndian(n, v) + rest)[..n] == BigEndian(n, v);
    assert (BigEndian(n, v) + rest)[n..] == rest;
  }

  lemma TakePutText(s: seq<byte>, rest: seq<byte>)
    requires |s| < UINT32
    ensures TakeText(PutString(s) + rest) == Got(s, rest)
  {
    Pow256Values();
    assert PutString(s) + rest == BigEndian(4, |s|) + (s + rest);
    TakePutNumber(4, |s|, s + rest);
    assert (s + rest)[..|s|] == s && (s + rest)[|s|..] == rest;
  }

  lemma TakePutIf(o: Option<nat>, n: nat, rest: seq<byte>)
    requires Fits(o, n)
    ensures TakeIf(o.Some?, PutIf(o, n) + rest, n) == Got(o, rest)
  {
    if o.Some? { TakePutNumber(n, o.value, rest); } else { assert [] + rest == rest; }
  }

  lemma TakePutPair(p: Extended, rest: seq<byte>)
    requires |p.kind| < UINT32 && |p.data| < UINT32
    ensures TakePair(PutPair(p) + rest) == Got(p, rest)
  {
    assert PutPair(p) + rest == PutString(p.kind) + (PutString(p.data) + rest);
    TakePutText(p.kind, PutString(p.data) + rest);
    TakePutText(p.data, rest);
  }

  lemma OnePairMore(b: seq<byte>, p: Extended, b1: seq<byte>, ps: seq<Extended>, b2: seq<byte>)
    requires TakePair(b) == Got(p, b1) && TakePairs(b1, |ps|) == Got(ps, b2)
    ensures TakePairs(b, |ps| + 1) == Got([p] + ps, b2)
  {
  }

  lemma {:induction false} TakePutPairs(ps: seq<Extended>, rest: seq<byte>)
    requires forall p <- ps :: |p.kind| < UINT32 && |p.data| < UINT32
    ensures TakePairs(PutPairs(ps) + rest, |ps|) == Got(ps, rest)
  {
    if ps == [] {
      assert [] + rest == rest;
    } else {
      var p, more := ps[0], ps[1..];
      TakePutPairs(more, rest);
      TakePutPair(p, PutPairs(more) + rest);
      OnePairMore(PutPair(p) + (PutPairs(more) + rest), p, PutPairs(more) + rest, more, rest);
      Regroup(PutPair(p), PutPairs(more), rest);
      assert [p] + more == ps;
      assert PutPairs(ps) == PutPair(p) + PutPairs(more);
    }
  }

  lemma TakePutExtended(o: Option<seq<Extended>>, rest: seq<byte>)
    requires o.Some? ==> |o.value| < UINT32 && forall p <- o.value :: |p.kind| < UINT32 && |p.data| < UINT32
    ensures TakeExtended(o.Some?, PutExtended(o) + rest) == Got(o, rest)
  {
    if o.Some? {
      Pow256Values();
      assert PutExtended(o) + rest == BigEndian(4, |o.value|) + (PutPairs(o.value) + rest);
      TakePutNumber(4, |o.value|, PutPairs(o.value) + rest);
      TakePutPairs(o.value, rest);
    } else {
      assert [] + rest == rest;
    }
  }

  lemma FlagBits(a: Attrs)
    ensures Flags(a) < UINT32
    ensures Bit(Flags(a), 1) == a.size.Some? && Bit(Flags(a), 2) == a.uid.Some?
    ensures Bit(Flags(a), 4) == a.permissions.Some? && Bit(Flags(a), 8) == a.atime.Some?
    ensures Bit(Flags(a), 0x8000_0000) == a.extended.Some?
  {
  }

  lemma TakePutOwner(a: Attrs, rest: seq<byte>)
    requires SendableAttrs(a)
    ensures TakeOwner(Flags(a), PutOwner(a) + rest) == Got((a.size, a.uid, a.gid), rest)
  {
    FlagBits(a);
    var b2 := PutIf(a.gid, 4) + rest;
    var b1 := PutIf(a.uid, 4) + b2;
    RegroupFour(PutIf(a.size, 8), PutIf(a.uid, 4), PutIf(a.gid, 4), rest);
    TakePutIf(a.size, 8, b1);
    TakePutIf(a.uid, 4, b2);
    TakePutIf(a.gid, 4, rest);
  }

  lemma TakePutTimes(a: Attrs, rest: seq<byte>)
    requires SendableAttrs(a)
    ensures TakeTimes(Flags(a), PutTimes(a) + rest) == Got((a.permissions, a.atime, a.mtime), rest)
  {
    FlagBits(a);
    var b2 := PutIf(a.mtime, 4) + rest;
    var b1 := PutIf(a.atime, 4) + b2;
    RegroupFour(PutIf(a.permissions, 4), PutIf(a.atime, 4), PutIf(a.mtime, 4), rest);
    TakePutIf(a.permissions, 4, b1);
    TakePutIf(a.atime, 4, b2);
    TakePutIf(a.mtime, 4, rest);
  }

  lemma TakePutAttrs(a: Attrs, rest: seq<byte>)
    requires SendableAttrs(a)
    ensures TakeAttrs(PutAttrs(a) + rest) == Got(a, rest)
  {
    Pow256Values();
    FlagBits(a);
    var b2 := PutExtended(a.extended) + rest;
    var b1 := PutTimes(a) + b2;
    var b0 := PutOwner(a) + b1;
    RegroupNested(PutUint32(Flags(a)), PutOwner(a), PutTimes(a), PutExtended(a.extended), rest);
    TakePutNumber(4, Flags(a), b0);
    TakePutOwner(a, b1);
    TakePutTimes(a, b2);
    TakePutExtended(a.extended, rest);
  }

  lemma TakePutNames(name: seq<byte>, longname: seq<byte>, rest: seq<byte>)
    requires |name| < UINT32 && |longname| < UINT32
    ensures TakeNames(PutString(name) + (PutString(longname) + rest)) == Got((name, longname), rest)
  {
    TakePutText(name, PutString(longname) + rest);
    TakePutText(longname, rest);
  }

  lemma EntryParts(e: Entry, rest: seq<byte>)
    ensures PutEntry(e) + rest == PutString(e.name) + (PutString(e.longname) + (PutAttrs(e.attrs) + rest))
  {
    RegroupFour(PutString(e.name), PutString(e.longname), PutAttrs(e.attrs), rest);
  }

  lemma TakePutEntry(e: Entry, rest: seq<byte>)
    requires SendableEntry(e)
    ensures TakeEntry(PutEntry(e) + rest) == Got(e, rest)
    ensures TakeNames(PutEntry(e) + rest) == Got((e.name, e.longname), PutAttrs(e.attrs) + rest)
  {
    EntryParts(e, rest);
    TakePutNames(e.name, e.longname, PutAttrs(e.attrs) + rest);
    TakePutAttrs(e.attrs, rest);
  }

  lemma OneEntryMore(b: seq<byte>, e: Entry, b1: seq<byte>, es: seq<Entry>, b2: seq<byte>)
    requires TakeEntry(b) == Got(e, b1) && TakeEntries(b1, |es|) == Got(es, b2)
    ensures TakeEntries(b, |es| + 1) == Got([e] + es, b2)
  {
  }

  lemma FirstEntry(es: seq<Entry>, rest: seq<byte>)
    requires es != []
    ensures PutEntries(es) + rest == PutEntry(es[0]) + (PutEntries(es[1..]) + rest)
  {
    Regroup(PutEntry(es[0]), PutEntries(es[1..]), rest);
  }

  lemma {:induction false} TakePutEntries(es: seq<Entry>, rest: seq<byte>)
    requires forall e <- es :: SendableEntry(e)
    ensures TakeEntries(PutEntries(es) + rest, |es|) == Got(es, rest)
  {
    if es == [] {
      assert [] + rest == rest;
    } else {
      var e, more, tail := es[0], es[1..], PutEntries(es[1..]) + rest;
      TakePutEntries(more, rest);
      TakePutEntry(e, tail);
      FirstEntry(es, rest);
      OneEntryMore(PutEntry(e) + tail, e, tail, more, rest);
      assert [e] + more == es;
    }
  }
}
