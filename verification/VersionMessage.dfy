/**
 Reading the VERSION message of the server: a version followed by (name, data) pairs, sections 4.2 and 5 of
 draft-ietf-secsh-filexfer-13 (src/sftp/init.c).
 */
module VersionMessage {
  import opened Options
  import opened Sequences
  import opened Wire
  import opened Extensions

  type Pair = Announcement

  // ---- what a pair announces ----

  const NEWLINE: Name := [110, 101, 119, 108, 105, 110, 101]
  const SUPPORTED: Name := [115, 117, 112, 112, 111, 114, 116, 101, 100]
  const SUPPORTED2: Name := [115, 117, 112, 112, 111, 114, 116, 101, 100, 50]

  /** The protocol version is kept in one byte, and 0 counts as 6. */
  function EffectiveVersion(version: nat): nat { if version % 256 == 0 then 6 else version % 256 }

  /** count strings in a row: all of them, or those in front of one that is missing or empty, or one ends outside. */
  datatype Scan = Took(strings: seq<Name>, rest: seq<byte>) | Short(strings: seq<Name>) | Outside

  function Strings(b: seq<byte>, count: nat): Scan
    decreases count
  {
    if count == 0 then Took([], b)
    else match GetString(b)
      case Unreadable(_) => Short([])
      case Overrun(_) => Outside
      case Text(s, rest) =>
        if s == [] then Short([])
        else match Strings(rest, count - 1)
          case Took(more, left) => Took([s] + more, left)
          case Short(more) => Short([s] + more)
          case Outside => Outside
  }

  /** The bytes behind count attribute names, which are not used; nothing when one is missing or empty. */
  function BehindAttributes(b: seq<byte>, count: nat): Option<seq<byte>>
    decreases count
  {
    if count == 0 then Some(b)
    else match GetString(b)
      case Unreadable(_) => None
      case Overrun(rest) => BehindAttributes(rest, count - 1)
      case Text(s, rest) => if s == [] then None else BehindAttributes(rest, count - 1)
  }

  /**
   The extension names inside the data of "supported2": after 24 bytes of masks and sizes a counted list of attribute
   extensions and a counted list of extension names. None: one of these names ends outside the data.
   */
  function Supported2Names(data: seq<byte>): Option<seq<Name>> {
    if |data| < 32 then Some([])
    else match BehindAttributes(data[28..], GetUint32(data[24..]))
      case None => Some([])
      case Some(left) =>
        if |left| < 4 then Some([])
        else match Strings(left[4..], GetUint32(left))
          case Outside => None
          case Short(names) => Some(names)
          case Took(names, _) => Some(names)
  }

  // ---- the data of "supported2", as a server writes it ----

  function EncodeNames(names: seq<Name>): seq<byte> {
    if names == [] then [] else PutString(names[0]) + EncodeNames(names[1..])
  }

  function CountedNames(names: seq<Name>): seq<byte> { PutUint32(|names|) + EncodeNames(names) }

  /** Names a server can list. */
  predicate Listable(names: seq<Name>) {
    |names| < UINT32 && forall i :: 0 <= i < |names| ==> names[i] != [] && Sendable(names[i])
  }

  /** Masks and sizes, the attribute extensions, the extensions, and anything behind those. */
  function Supported2Data(head: seq<byte>, attributes: seq<Name>, extensions: seq<Name>, behind: seq<byte>): seq<byte>
  {
    head + (CountedNames(attributes) + (CountedNames(extensions) + behind))
  }

  /** No name can be taken from these bytes: none fits, or an empty one is in front. */
  predicate NoNameAt(b: seq<byte>) { GetString(b).Unreadable? || (GetString(b).Text? && GetString(b).data == []) }

  lemma {:induction false} ListedStrings(names: seq<Name>, behind: seq<byte>, count: nat)
    requires Listable(names) && |names| <= count && (|names| < count ==> NoNameAt(behind))
    ensures Strings(EncodeNames(names) + behind, count)
         == if |names| == count then Took(names, behind) else Short(names)
    decreases names
  {
    if names == [] {
      assert EncodeNames(names) + behind == behind;
    } else {
      Regroup(PutString(names[0]), EncodeNames(names[1..]), behind);
      StringRoundTrip(names[0], EncodeNames(names[1..]) + behind);
      ListedStrings(names[1..], behind, count - 1);
      assert names == [names[0]] + names[1..];
    }
  }

  lemma {:induction false} ListedAttributes(names: seq<Name>, behind: seq<byte>, count: nat)
    requires Listable(names) && |names| <= count && (|names| < count ==> NoNameAt(behind))
    ensures BehindAttributes(EncodeNames(names) + behind, count) == if |names| == count then Some(behind) else None
    decreases names
  {
    if names == [] {
      assert EncodeNames(names) + behind == behind;
    } else {
      Regroup(PutString(names[0]), EncodeNames(names[1..]), behind);
      StringRoundTrip(names[0], EncodeNames(names[1..]) + behind);
      ListedAttributes(names[1..], behind, count - 1);
    }
  }

  /** A count and what it counts, behind some bytes. */
  lemma CountAt(head: seq<byte>, count: nat, rest: seq<byte>)
    requires count < UINT32
    ensures var b := head + (PutUint32(count) + rest);
      |b| == |head| + 4 + |rest| && GetUint32(b[|head|..]) == count && b[|head| + 4..] == rest
  {
    var b := head + (PutUint32(count) + rest);
    assert b[|head|..] == PutUint32(count) + rest;
    Uint32RoundTrip(count, rest);
  }

  lemma Supported2Count(head: seq<byte>, attributes: seq<Name>, count: nat, rest: seq<byte>)
    requires |head| == 24 && Listable(attributes) && count < UINT32
    ensures Supported2Names(head + (CountedNames(attributes) + (PutUint32(count) + rest))) ==
      var scan := Strings(rest, count); if scan.Outside? then None else Some(scan.strings)
  {
    var tail := PutUint32(count) + rest;
    Regroup(PutUint32(|attributes|), EncodeNames(attributes), tail);
    CountAt(head, |attributes|, EncodeNames(attributes) + tail);
    ListedAttributes(attributes, tail, |attributes|);
    CountAt([], count, rest);
    assert [] + tail == tail && tail[0..] == tail;
  }

  /** The names in the list of extensions are found, all of them in their order, and no attribute extension. */
  lemma Supported2RoundTrip(head: seq<byte>, attributes: seq<Name>, extensions: seq<Name>, behind: seq<byte>)
    requires |head| == 24 && Listable(attributes) && Listable(extensions)
    ensures Supported2Names(Supported2Data(head, attributes, extensions, behind)) == Some(extensions)
  {
    Regroup(PutUint32(|extensions|), EncodeNames(extensions), behind);
    Supported2Count(head, attributes, |extensions|, EncodeNames(extensions) + behind);
    ListedStrings(extensions, behind, |extensions|);
  }

  /** A list of extensions that breaks off, or has an empty name, counts up to there. */
  lemma Supported2Short(head: seq<byte>, attributes: seq<Name>, names: seq<Name>, count: nat, behind: seq<byte>)
    requires |head| == 24 && Listable(attributes) && Listable(names) && |names| < count < UINT32 && NoNameAt(behind)
    ensures Supported2Names(head + (CountedNames(attributes) + (PutUint32(count) + (EncodeNames(names) + behind))))
         == Some(names)
  {
    Supported2Count(head, attributes, count, EncodeNames(names) + behind);
    ListedStrings(names, behind, count);
  }

  /** With a list of attribute extensions that breaks off, or has an empty name, there are none. */
  lemma Supported2Nothing(head: seq<byte>, names: seq<Name>, count: nat, behind: seq<byte>)
    requires |head| == 24 && Listable(names) && |names| < count < UINT32 && NoNameAt(behind)
    ensures Supported2Names(head + (PutUint32(count) + (EncodeNames(names) + behind))) == Some([])
  {
    CountAt(head, count, EncodeNames(names) + behind);
    ListedAttributes(names, behind, count);
  }

  // ---- what a pair announces, and a list of pairs ----

  function WithoutData(names: seq<Name>): seq<Announcement> {
    seq(|names|, i requires 0 <= i < |names| => Announcement(names[i], []))
  }

  predicate Ordinary(name: Name) { name != NEWLINE && name != SUPPORTED && name != SUPPORTED2 }

  predicate ReadsSupported2(version: nat, name: Name) { name == SUPPORTED2 && EffectiveVersion(version) >= 6 }

  function Announced(version: nat, p: Pair): seq<Announcement> {
    if Ordinary(p.name) then [p]
    else if ReadsSupported2(version, p.name) && Supported2Names(p.data).Some? then
      WithoutData(Supported2Names(p.data).value)
    else []
  }

  function AllAnnounced(version: nat, ps: seq<Pair>): seq<Announcement> {
    if ps == [] then [] else AllAnnounced(version, ps[..|ps| - 1]) + Announced(version, ps[|ps| - 1])
  }

  // ---- the loop over the pairs ----

  /** Where the loop is: the names that were announced so far, and the bytes that are left. */
  datatype Reader = Reader(known: set<Name>, left: seq<byte>)

  /**
   The data of a pair is used although it has no memory, or more than was received. Data of an ordinary name is copied
   when the name is new and the length is not 0; data of supported2 is read when the length is at least 32.
   */
  predicate Misused(version: nat, known: set<Name>, name: Name, data: ReadString) {
    match data
    case Unreadable(length) =>
      (Ordinary(name) && name !in known && length > 0) || (ReadsSupported2(version, name) && length >= 32)
    case Overrun(_) => (Ordinary(name) && name !in known) || ReadsSupported2(version, name)
    case Text(d, _) => ReadsSupported2(version, name) && Supported2Names(d).None?
  }

  /** A name without memory leaves the loop where it is; a name that ends outside the message is compared anyway. */
  predicate AtFault(version: nat, r: Reader) {
    && |r.left| > 9
    && match GetString(r.left)
       case Unreadable(_) => false
       case Overrun(_) => true
       case Text(name, rest) => Misused(version, r.known, name, GetString(rest))
  }

  predicate AtEnd(r: Reader) { |r.left| <= 9 }

  predicate NoName(r: Reader) { |r.left| > 9 && GetString(r.left).Unreadable? }

  /** The pair at the front, when its name can be read. */
  function PairAt(left: seq<byte>): Pair
    requires GetString(left).Text?
  {
    var name := GetString(left);
    var data := GetString(name.rest);
    Announcement(name.data, if data.Text? then data.data else [])
  }

  /** The bytes behind that pair: data that does not fit is not passed. */
  function Behind(left: seq<byte>): (rest: seq<byte>)
    requires GetString(left).Text?
    ensures |rest| < |left|
  {
    StringIsPrefix(left);
    var name := GetString(left);
    var data := GetString(name.rest);
    if data.Unreadable? then name.rest else data.rest
  }

  predicate Reads(version: nat, r: Reader) { !AtEnd(r) && !NoName(r) && !AtFault(version, r) }

  /** One turn of the loop; a turn that reads no name, or comes to a fault, leaves everything. */
  function Turn(version: nat, r: Reader): Reader {
    if Reads(version, r) then Reader(r.known + Names(Announced(version, PairAt(r.left))), Behind(r.left)) else r
  }

  /** What the loop comes to, and the pairs it visits before that. */
  datatype Visit = Finished(pairs: seq<Pair>) | Stuck(pairs: seq<Pair>) | Faulted(pairs: seq<Pair>)

  function Before(p: Pair, v: Visit): Visit {
    match v
    case Finished(ps) => Finished([p] + ps)
    case Stuck(ps) => Stuck([p] + ps)
    case Faulted(ps) => Faulted([p] + ps)
  }

  function Pairs(version: nat, r: Reader): Visit
    decreases |r.left|
  {
    if AtEnd(r) then Finished([])
    else if NoName(r) then Stuck([])
    else if AtFault(version, r) then Faulted([])
    else Before(PairAt(r.left), Pairs(version, Turn(version, r)))
  }

  lemma PairsStep(version: nat, r: Reader)
    requires Reads(version, r)
    ensures Pairs(version, r) == Before(PairAt(r.left), Pairs(version, Turn(version, r)))
  {
  }

  // ---- a well-formed message ----

  function EncodePairs(ps: seq<Pair>): seq<byte> {
    if ps == [] then [] else PutString(ps[0].name) + PutString(ps[0].data) + EncodePairs(ps[1..])
  }

  function PairSize(p: Pair): nat { 8 + |p.name| + |p.data| }

  predicate SendablePairs(ps: seq<Pair>) { forall p <- ps :: Sendable(p.name) && Sendable(p.data) }

  /** No extension name inside supported2 ends outside its data. */
  predicate Tidy(version: nat, p: Pair) { ReadsSupported2(version, p.name) ==> Supported2Names(p.data).Some? }

  predicate AllTidy(version: nat, ps: seq<Pair>) { forall i :: 0 <= i < |ps| ==> Tidy(version, ps[i]) }

  /** All pairs, without the last one if that takes no more than 9 bytes. */
  function Visited(ps: seq<Pair>): seq<Pair> {
    if ps != [] && PairSize(ps[|ps| - 1]) <= 9 then ps[..|ps| - 1] else ps
  }

  lemma {:induction false} EncodedSize(ps: seq<Pair>)
    ensures ps != [] ==> |EncodePairs(ps)| >= PairSize(ps[0]) && (|EncodePairs(ps)| == PairSize(ps[0]) <==> |ps| == 1)
    ensures |ps| > 1 ==> |EncodePairs(ps)| > 9
  {
    if |ps| > 1 { EncodedSize(ps[1..]); }
  }

  lemma FirstPair(version: nat, known: set<Name>, p: Pair, rest: seq<byte>)
    requires Sendable(p.name) && Sendable(p.data) && PairSize(p) + |rest| > 9
    ensures var r := Reader(known, PutString(p.name) + PutString(p.data) + rest);
      && !AtEnd(r) && !NoName(r) && (AtFault(version, r) <==> !Tidy(version, p))
      && GetString(r.left).Text? && PairAt(r.left) == p && Behind(r.left) == rest
  {
    var r := Reader(known, PutString(p.name) + PutString(p.data) + rest);
    assert r.left == PutString(p.name) + (PutString(p.data) + rest);
    StringRoundTrip(p.name, PutString(p.data) + rest);
    StringRoundTrip(p.data, rest);
  }

  lemma FirstVisit(version: nat, known: set<Name>, p: Pair, rest: seq<byte>)
    requires Sendable(p.name) && Sendable(p.data) && PairSize(p) + |rest| > 9
    ensures Pairs(version, Reader(known, PutString(p.name) + PutString(p.data) + rest)) ==
      if Tidy(version, p) then Before(p, Pairs(version, Reader(known + Names(Announced(version, p)), rest)))
      else Faulted([])
  {
    var r := Reader(known, PutString(p.name) + PutString(p.data) + rest);
    FirstPair(version, known, p, rest);
    if Tidy(version, p) { PairsStep(version, r); }
  }

  lemma VisitedFirst(ps: seq<Pair>)
    requires |EncodePairs(ps)| > 9 && ps != []
    ensures Visited(ps) == [ps[0]] + Visited(ps[1..])
  {
    EncodedSize(ps);
    SameLast(ps[0], ps[1..]);
    assert ps == [ps[0]] + ps[1..];
  }

  lemma SameLast(p: Pair, more: seq<Pair>)
    requires more == [] ==> PairSize(p) > 9
    ensures Visited([p] + more) == [p] + Visited(more)
  {
    if more != [] { assert ([p] + more)[..|more|] == [p] + more[..|more| - 1]; }
  }

  /**
   A well-formed message, whatever names are known: it is read to its end, with exactly a last pair of at most 9 bytes
   not visited, if and only if all visited pairs are tidy; otherwise the loop faults.
   */
  lemma {:induction false} WellFormedIsVisited(version: nat, known: set<Name>, ps: seq<Pair>)
    requires SendablePairs(ps)
    ensures var v := Pairs(version, Reader(known, EncodePairs(ps)));
      if AllTidy(version, Visited(ps)) then v == Finished(Visited(ps)) else v.Faulted?
    decreases ps
  {
    if ps != [] {
      EncodedSize(ps);
      if |EncodePairs(ps)| > 9 {
        WellFormedIsVisited(version, known + Names(Announced(version, ps[0])), ps[1..]);
        OneVisitMore(version, known, ps);
      } else {
        assert ps == [ps[0]];
      }
    }
  }

  /** What the visit of the pairs behind the first comes to, with the first in front of it. */
  lemma OneVisitMore(version: nat, known: set<Name>, ps: seq<Pair>)
    requires SendablePairs(ps) && ps != [] && |EncodePairs(ps)| > 9
    ensures var rest := Pairs(version, Reader(known + Names(Announced(version, ps[0])), EncodePairs(ps[1..])));
      Pairs(version, Reader(known, EncodePairs(ps)))
      == if Tidy(version, ps[0]) then Before(ps[0], rest) else Faulted([])
    ensures Visited(ps) == [ps[0]] + Visited(ps[1..])
    ensures AllTidy(version, Visited(ps)) <==> Tidy(version, ps[0]) && AllTidy(version, Visited(ps[1..]))
  {
    EncodedSize(ps);
    FirstVisit(version, known, ps[0], EncodePairs(ps[1..]));
    VisitedFirst(ps);
    TidyFirst(version, ps[0], Visited(ps[1..]));
  }

  lemma TidyFirst(version: nat, p: Pair, ps: seq<Pair>)
    ensures AllTidy(version, [p] + ps) <==> Tidy(version, p) && AllTidy(version, ps)
  {
    if AllTidy(version, [p] + ps) {
      assert Tidy(version, ([p] + ps)[0]);
      forall i | 0 <= i < |ps| ensures Tidy(version, ps[i]) {
        assert ps[i] == ([p] + ps)[i + 1];
      }
    }
  }

  // ---- how the loop ends ----

  function Turns(version: nat, r: Reader, n: nat): Reader
    decreases n
  {
    if n == 0 then r else Turns(version, Turn(version, r), n - 1)
  }

  /** The loop goes round again: bytes are left, and they are not misused. */
  predicate Goes(version: nat, r: Reader) { !AtEnd(r) && !AtFault(version, r) }

  ghost predicate RunsForever(version: nat, r: Reader) { forall n: nat :: Goes(version, Turns(version, r, n)) }

  ghost predicate ComesToEnd(version: nat, r: Reader) { exists n: nat :: AtEnd(Turns(version, r, n)) }

  ghost predicate ComesToFault(version: nat, r: Reader) { exists n: nat :: AtFault(version, Turns(version, r, n)) }

  ghost predicate ComesToNoName(version: nat, r: Reader) { exists n: nat :: NoName(Turns(version, r, n)) }

  lemma {:induction false} StaysPut(version: nat, r: Reader, n: nat)
    requires !Reads(version, r)
    ensures Turns(version, r, n) == r
  {
    if n > 0 { StaysPut(version, r, n - 1); }
  }

  lemma RestingOutcome(version: nat, r: Reader)
    requires !Reads(version, r)
    ensures ComesToEnd(version, r) <==> AtEnd(r)
    ensures ComesToFault(version, r) <==> AtFault(version, r)
    ensures RunsForever(version, r) <==> NoName(r)
    ensures ComesToNoName(version, r) <==> NoName(r)
  {
    forall n: nat ensures Turns(version, r, n) == r { StaysPut(version, r, n); }
    assert Turns(version, r, 0) == r;
  }

  lemma NextOutcome(version: nat, r: Reader)
    requires Reads(version, r)
    ensures ComesToEnd(version, r) <==> ComesToEnd(version, Turn(version, r))
    ensures ComesToFault(version, r) <==> ComesToFault(version, Turn(version, r))
    ensures RunsForever(version, r) <==> RunsForever(version, Turn(version, r))
    ensures ComesToNoName(version, r) <==> ComesToNoName(version, Turn(version, r))
  {
    var t := Turn(version, r);
    forall n: nat ensures Turns(version, t, n) == Turns(version, r, n + 1) {}
    assert Turns(version, r, 0) == r;
    forall n: nat ensures n == 0 || Turns(version, r, n) == Turns(version, t, n - 1) {}
    if ComesToEnd(version, r) {
      var n: nat :| AtEnd(Turns(version, r, n));
      assert AtEnd(Turns(version, t, n - 1));
    }
    if ComesToFault(version, r) {
      var n: nat :| AtFault(version, Turns(version, r, n));
      assert AtFault(version, Turns(version, t, n - 1));
    }
    if ComesToNoName(version, r) {
      var n: nat :| NoName(Turns(version, r, n));
      assert NoName(Turns(version, t, n - 1));
    }
  }

  /** For every input: the loop ends, faults or goes on for ever exactly as the visit says. */
  lemma {:induction false} VisitIsTheRun(version: nat, r: Reader)
    ensures var v := Pairs(version, r);
      && (v.Finished? <==> ComesToEnd(version, r))
      && (v.Faulted? <==> ComesToFault(version, r))
      && (v.Stuck? <==> RunsForever(version, r))
      && (v.Stuck? <==> ComesToNoName(version, r))
    decreases |r.left|
  {
    if Reads(version, r) {
      NextOutcome(version, r);
      VisitIsTheRun(version, Turn(version, r));
    } else {
      RestingOutcome(version, r);
    }
  }

  /** The loop goes on for ever exactly when it comes to a name that does not fit with more than 9 bytes left. */
  lemma StuckRunsForever(version: nat, r: Reader)
    ensures RunsForever(version, r) <==> ComesToNoName(version, r)
  {
    VisitIsTheRun(version, r);
  }

  /** Ten bytes that announce a name longer than what is left: the client never gets out of the loop. */
  lemma TruncatedNameRunsForever(version: nat, known: set<Name>, data: seq<byte>)
    requires |data| == 6
    ensures RunsForever(version, Reader(known, PutUint32(7) + data))
  {
    var r := Reader(known, PutUint32(7) + data);
    Uint32RoundTrip(7, data);
    assert GetString(r.left) == Unreadable(7);
    RestingOutcome(version, r);
  }

  /** Behind a readable name it is the data that decides. */
  lemma FaultOfData(version: nat, known: set<Name>, name: Name, tail: seq<byte>)
    requires Sendable(name) && 4 + |name| + |tail| > 9
    ensures AtFault(version, Reader(known, PutString(name) + tail)) <==> Misused(version, known, name, GetString(tail))
  {
    StringRoundTrip(name, tail);
  }

  /** A length and fewer bytes than that. */
  lemma DataTooLong(length: nat, rest: seq<byte>)
    requires |rest| < length && 4 + length < UINT32
    ensures GetString(PutUint32(length) + rest) == Unreadable(length)
  {
    Uint32RoundTrip(length, rest);
  }

  /**
   A readable name with data that does not fit, at any place in the message: the client uses data that it does not have
   exactly for a new ordinary name with a length above 0 and for supported2 with a length of at least 32.
   */
  lemma TruncatedDataFaults(version: nat, known: set<Name>, name: Name, length: nat, rest: seq<byte>)
    requires Sendable(name) && 4 + length < UINT32 && |rest| < length && |name| + 8 + |rest| > 9
    ensures var r := Reader(known, PutString(name) + (PutUint32(length) + rest));
      AtFault(version, r) <==> (Ordinary(name) && name !in known) || (ReadsSupported2(version, name) && length >= 32)
  {
    FaultOfData(version, known, name, PutUint32(length) + rest);
    DataTooLong(length, rest);
  }

  /**
   A readable name with data whose length wraps around in 32 bits together with its header: the client uses data from
   outside the message exactly for a new ordinary name and for supported2 from version 6 on.
   */
  lemma WrappedDataFaults(version: nat, known: set<Name>, name: Name, length: nat, rest: seq<byte>)
    requires Sendable(name) && UINT32 - 4 <= length < UINT32 && |name| + 8 + |rest| > 9
    ensures var r := Reader(known, PutString(name) + (PutUint32(length) + rest));
      AtFault(version, r) <==> (Ordinary(name) && name !in known) || ReadsSupported2(version, name)
  {
    FaultOfData(version, known, name, PutUint32(length) + rest);
    Uint32RoundTrip(length, rest);
    OverrunExactly(PutUint32(length) + rest);
  }

  // ---- the list of the server ----

  /** Add extension names one after the other. */
  method AddNames(ext: SftpExtensions, names: seq<Name>, ghost before: seq<Announcement>)
    requires ext.server == FirstOccurrences(before)
    modifies ext`server
    ensures ext.server == FirstOccurrences(before + WithoutData(names))
  {
    PlusNothing(before);
    ghost var all, now := WithoutData(names), before;
    for i := 0 to |names|
      invariant now == before + all[..i] && ext.server == FirstOccurrences(now)
    {
      var _ := ext.AddServer(names[i], [], PLENTY, now);
      now := now + [Announcement(names[i], [])];
      OneMore(before, all, i);
    }
    assert all[..|names|] == all;
  }

  lemma OneMore(before: seq<Announcement>, all: seq<Announcement>, i: nat)
    requires i < |all|
    ensures before + all[..i] + [all[i]] == before + all[..i + 1]
  {
  }

  /** Add the announcements of one pair; not tidy: a name inside supported2 would be copied from outside the data. */
  method ProcessExtension(ext: SftpExtensions, version: nat, p: Pair, ghost before: seq<Announcement>)
    returns (tidy: bool)
    requires ext.server == FirstOccurrences(before)
    modifies ext`server
    ensures tidy == Tidy(version, p)
    ensures tidy ==> ext.server == FirstOccurrences(before + Announced(version, p))
  {
    PlusNothing(before);
    tidy := true;
    if p.name == NEWLINE {
    } else if p.name == SUPPORTED {
    } else if p.name == SUPPORTED2 {
      if EffectiveVersion(version) >= 6 {
        var names := Supported2Names(p.data);
        if names.None? { return false; }
        AddNames(ext, names.value, before);
      }
    } else {
      var _ := ext.AddServer(p.name, p.data, PLENTY, before);
    }
  }

  datatype Outcome = Ended | Looping | Fault

  function OutcomeOf(v: Visit): Outcome {
    match v case Finished(_) => Ended case Stuck(_) => Looping case Faulted(_) => Fault
  }

  /**
   Read any VERSION payload; one of fewer than 4 bytes has no version to read. The list of the server is the first
   occurrence of every announced name in the order of the message. Looping is returned where the loop of the
   code would go on for ever, Fault where it would use data it does not have.
   */
  method ProcessVersion(ext: SftpExtensions, b: seq<byte>) returns (version: nat, outcome: Outcome)
    requires ext.server == []
    modifies ext`server
    ensures |b| < 4 ==> outcome == Fault
    ensures |b| >= 4 ==> version == GetUint32(b) && outcome == OutcomeOf(Pairs(version, Reader({}, b[4..])))
    ensures outcome != Fault ==>
      ext.server == FirstOccurrences(AllAnnounced(version, Pairs(version, Reader({}, b[4..])).pairs))
  {
    if |b| < 4 { return 0, Fault; }
    version := GetUint32(b);
    var left := b[4..];
    ghost var done: seq<Pair> := [];
    ghost var whole := Pairs(version, Reader({}, left));
    StartsThere(whole, version, left);
    outcome := Ended;
    while |left| > 9
      invariant outcome == Ended && ToDo(whole, version, done, left)
      invariant ext.server == FirstOccurrences(AllAnnounced(version, done))
      decreases |left|
    {
      ghost var p: Pair;
      outcome, left, p := Round(ext, version, left, whole, done);
      if outcome != Ended { return; }
      done := done + [p];
    }
    Over(whole, version, done, left);
  }

  /** One round of the loop: a pair is read and processed, or the loop is over. */
  method Round(ext: SftpExtensions, version: nat, left: seq<byte>, ghost whole: Visit, ghost done: seq<Pair>)
    returns (outcome: Outcome, rest: seq<byte>, ghost pair: Pair)
    requires |left| > 9 && ToDo(whole, version, done, left)
    requires ext.server == FirstOccurrences(AllAnnounced(version, done))
    modifies ext`server
    ensures outcome == Ended ==>
      && |rest| < |left| && ToDo(whole, version, done + [pair], rest)
      && ext.server == FirstOccurrences(AllAnnounced(version, done + [pair]))
    ensures outcome != Ended ==>
      OutcomeOf(whole) == outcome && whole.pairs == done && ext.server == FirstOccurrences(AllAnnounced(version, done))
  {
    OneTurn(whole, version, done, left);
    rest, pair := left, Announcement([], []);
    var p: Option<Pair>;
    p, outcome := ReadPair(ext, version, left, AllAnnounced(version, done));
    if p.Some? {
      var tidy := ProcessExtension(ext, version, p.value, AllAnnounced(version, done));
      assert tidy;
      AnnouncedMore(version, done, p.value);
      rest := PassPair(left);
      pair := p.value;
      outcome := Ended;
    }
  }

  /** The bytes behind the pair at the front. */
  method PassPair(left: seq<byte>) returns (rest: seq<byte>)
    requires GetString(left).Text?
    ensures rest == Behind(left)
  {
    rest := GetString(left).rest;
    var data := GetString(rest);
    if !data.Unreadable? { rest := data.rest; }
  }

  /** The pair at the front, or how the loop is over. */
  method ReadPair(ext: SftpExtensions, version: nat, left: seq<byte>, ghost before: seq<Announcement>)
    returns (p: Option<Pair>, over: Outcome)
    requires |left| > 9 && ext.server == FirstOccurrences(before)
    ensures p.None? ==> over != Ended
    ensures var r := Reader(Names(before), left);
      && (p.Some? <==> Reads(version, r)) && (p.Some? ==> p.value == PairAt(r.left) && Tidy(version, p.value))
      && (p.None? ==> over == if NoName(r) then Looping else Fault)
  {
    p, over := None, Looping;
    var name := GetString(left);
    if name.Unreadable? { return; }
    over := Fault;
    if name.Overrun? { return; }
    var data := GetString(name.rest);
    FirstOccurrencesNames(before);
    FindNameFinds(ext.server, name.data);
    var found := ext.FindServer(name.data);
    var bad := false;
    match data {
      case Unreadable(length) =>
        bad := (Ordinary(name.data) && found.None? && length > 0)
            || (ReadsSupported2(version, name.data) && length >= 32);
      case Overrun(_) =>
        bad := (Ordinary(name.data) && found.None?) || ReadsSupported2(version, name.data);
      case Text(d, _) =>
        bad := ReadsSupported2(version, name.data) && Supported2Names(d).None?;
    }
    if !bad { p := Some(Announcement(name.data, if data.Text? then data.data else [])); }
  }

  function After(ps: seq<Pair>, v: Visit): Visit {
    match v
    case Finished(more) => Finished(ps + more)
    case Stuck(more) => Stuck(ps + more)
    case Faulted(more) => Faulted(ps + more)
  }

  /** What the loop comes to is what is done and what is left still comes to. */
  predicate ToDo(whole: Visit, version: nat, done: seq<Pair>, left: seq<byte>) {
    whole == After(done, Pairs(version, ReaderAt(version, done, left)))
  }

  /** The reader that has read some pairs. */
  function ReaderAt(version: nat, done: seq<Pair>, left: seq<byte>): Reader {
    Reader(Names(AllAnnounced(version, done)), left)
  }

  lemma StartsThere(whole: Visit, version: nat, left: seq<byte>)
    requires whole == Pairs(version, Reader({}, left))
    ensures ToDo(whole, version, [], left)
  {
    assert ReaderAt(version, [], left) == Reader({}, left);
  }

  lemma OneTurn(whole: Visit, version: nat, done: seq<Pair>, left: seq<byte>)
    requires ToDo(whole, version, done, left) && |left| > 9
    ensures var r := ReaderAt(version, done, left);
      if Reads(version, r) then ToDo(whole, version, done + [PairAt(r.left)], Behind(r.left))
      else whole == if NoName(r) then Stuck(done) else Faulted(done)
  {
    var r := ReaderAt(version, done, left);
    if Reads(version, r) {
      PairsStep(version, r);
      AnnouncedMore(version, done, PairAt(left));
      AfterBefore(done, PairAt(left), Pairs(version, Turn(version, r)));
    } else {
      assert done + [] == done;
    }
  }

  lemma AfterBefore(done: seq<Pair>, p: Pair, v: Visit)
    ensures After(done, Before(p, v)) == After(done + [p], v)
  {
    assert done + ([p] + v.pairs) == done + [p] + v.pairs;
  }

  lemma Over(whole: Visit, version: nat, done: seq<Pair>, left: seq<byte>)
    requires ToDo(whole, version, done, left) && |left| <= 9
    ensures whole == Finished(done)
  {
    assert done + [] == done;
  }

  lemma AnnouncedMore(version: nat, done: seq<Pair>, p: Pair)
    ensures AllAnnounced(version, done + [p]) == AllAnnounced(version, done) + Announced(version, p)
    ensures Names(AllAnnounced(version, done + [p]))
         == Names(AllAnnounced(version, done)) + Names(Announced(version, p))
  {
    assert (done + [p])[..|done|] == done;
  }

  /** From the message of the server to the list: the announced names of all visited pairs, each once, in order. */
  lemma WellFormedVersion(version: nat, ps: seq<Pair>, server: seq<Announcement>)
    requires version < UINT32 && SendablePairs(ps) && AllTidy(version, Visited(ps))
    requires var b := PutUint32(version) + EncodePairs(ps);
             server == FirstOccurrences(AllAnnounced(GetUint32(b), Pairs(GetUint32(b), Reader({}, b[4..])).pairs))
    ensures server == FirstOccurrences(AllAnnounced(version, Visited(ps)))
    ensures Names(server) == Names(AllAnnounced(version, Visited(ps)))
    ensures forall i, j :: 0 <= i < j < |server| ==> server[i].name != server[j].name
  {
    var b := PutUint32(version) + EncodePairs(ps);
    Uint32RoundTrip(version, EncodePairs(ps));
    assert b[4..] == EncodePairs(ps);
    WellFormedIsVisited(version, {}, ps);
    FirstOccurrencesNames(AllAnnounced(version, Visited(ps)));
  }

  // ---- the list of the server, from what it wrote ----

  /** What a server writes: an extension of its own, one of the two old lists, or the list of names. */
  datatype Part =
    | Own(name: Name, data: seq<byte>)
    | Newline(data: seq<byte>)
    | Supported(data: seq<byte>)
    | Supported2(head: seq<byte>, attributes: seq<Name>, extensions: seq<Name>, behind: seq<byte>)

  predicate Proper(p: Part) {
    match p
    case Own(name, _) => name != NEWLINE && name != SUPPORTED && name != SUPPORTED2
    case Supported2(head, attributes, extensions, _) => |head| == 24 && Listable(attributes) && Listable(extensions)
    case _ => true
  }

  predicate AllProper(parts: seq<Part>) { forall i :: 0 <= i < |parts| ==> Proper(parts[i]) }

  function PairOf(p: Part): Pair {
    match p
    case Own(name, data) => Announcement(name, data)
    case Newline(data) => Announcement(NEWLINE, data)
    case Supported(data) => Announcement(SUPPORTED, data)
    case Supported2(head, attributes, extensions, behind) =>
      Announcement(SUPPORTED2, Supported2Data(head, attributes, extensions, behind))
  }

  function PairsOf(parts: seq<Part>): (ps: seq<Pair>)
    ensures |ps| == |parts| && forall i :: 0 <= i < |ps| ==> ps[i] == PairOf(parts[i])
  {
    seq(|parts|, i requires 0 <= i < |parts| => PairOf(parts[i]))
  }

  /** What a part offers: itself, nothing, or the names of its extensions, those only from version 6 on. */
  function Offered(version: nat, p: Part): seq<Announcement> {
    match p
    case Own(name, data) => [Announcement(name, data)]
    case Supported2(_, _, extensions, _) =>
      if version % 256 == 0 || version % 256 >= 6 then WithoutData(extensions) else []
    case _ => []
  }

  function AllOffered(version: nat, parts: seq<Part>): seq<Announcement> {
    if parts == [] then [] else AllOffered(version, parts[..|parts| - 1]) + Offered(version, parts[|parts| - 1])
  }

  lemma PartAnnounced(version: nat, p: Part)
    requires Proper(p)
    ensures Announced(version, PairOf(p)) == Offered(version, p) && Tidy(version, PairOf(p))
  {
    if p.Supported2? { Supported2RoundTrip(p.head, p.attributes, p.extensions, p.behind); }
  }

  lemma PairsOfLast(parts: seq<Part>, p: Part)
    ensures PairsOf(parts + [p]) == PairsOf(parts) + [PairOf(p)]
  {
  }

  predicate AnnouncedAsOffered(version: nat, parts: seq<Part>) {
    AllAnnounced(version, PairsOf(parts)) == AllOffered(version, parts)
  }

  lemma OnePartMore(version: nat, parts: seq<Part>, p: Part)
    requires Proper(p) && AnnouncedAsOffered(version, parts)
    ensures AnnouncedAsOffered(version, parts + [p])
  {
    PartAnnounced(version, p);
    PairsOfLast(parts, p);
    AnnouncedMore(version, PairsOf(parts), PairOf(p));
    assert (parts + [p])[..|parts|] == parts;
  }

  lemma {:induction false} PartsAnnounced(version: nat, parts: seq<Part>)
    requires AllProper(parts)
    ensures AnnouncedAsOffered(version, parts)
    decreases parts
  {
    if parts != [] {
      var init, last := parts[..|parts| - 1], parts[|parts| - 1];
      PartsAnnounced(version, init);
      OnePartMore(version, init, last);
      assert parts == init + [last];
    }
  }

  lemma PartsTidy(version: nat, parts: seq<Part>)
    requires AllProper(parts)
    ensures AllTidy(version, PairsOf(parts))
  {
    forall i | 0 <= i < |parts| ensures Tidy(version, PairsOf(parts)[i]) {
      PartAnnounced(version, parts[i]);
    }
  }

  /** How many parts are seen: all of them, without a last one of at most 9 bytes. */
  function Seen(parts: seq<Part>): (n: nat)
    ensures n <= |parts|
  {
    if parts != [] && PairSize(PairOf(parts[|parts| - 1])) <= 9 then |parts| - 1 else |parts|
  }

  lemma PairsUpTo(parts: seq<Part>, n: nat)
    requires n <= |parts|
    ensures PairsOf(parts)[..n] == PairsOf(parts[..n])
  {
  }

  lemma VisitedParts(parts: seq<Part>)
    ensures Visited(PairsOf(parts)) == PairsOf(parts[..Seen(parts)])
  {
    PairsUpTo(parts, Seen(parts));
    var ps := PairsOf(parts);
    assert ps[..|ps|] == ps;
  }

  /**
   For every message a server writes in this way the list holds just what its parts offer, each name once, in order:
   with a version of 6 or more the extensions named in "supported2", and never an attribute extension. A last part of at
   most 9 bytes is not seen.
   */
  lemma ListFromParts(version: nat, parts: seq<Part>, server: seq<Announcement>)
    requires version < UINT32 && AllProper(parts) && SendablePairs(PairsOf(parts))
    requires var b := PutUint32(version) + EncodePairs(PairsOf(parts));
             server == FirstOccurrences(AllAnnounced(GetUint32(b), Pairs(GetUint32(b), Reader({}, b[4..])).pairs))
    ensures server == FirstOccurrences(AllOffered(version, parts[..Seen(parts)]))
  {
    var seen := parts[..Seen(parts)];
    VisitedParts(parts);
    PartsAnnounced(version, seen);
    PartsTidy(version, seen);
    WellFormedVersion(version, PairsOf(parts), server);
  }

  lemma NamesSpelled()
    ensures Spells(NEWLINE, "newline") && Spells(SUPPORTED, "supported") && Spells(SUPPORTED2, "supported2")
  {
  }
}
