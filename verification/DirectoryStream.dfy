/**
 The background reading of a directory over SFTP: src/fuse/sftp/opendir.c with the flags of src/lib/fuse/opendir.h
 and the creation of entries in src/lib/fuse/utils-create.c.
 */
module DirectoryStream {
  import opened Errno
  import opened Options
  import opened Sequences
  import opened Wire
  import opened NameReply

  type Name = seq<byte>

  // ---- the flags of an open directory ----

  datatype Flag =
    | NonEmpty | Virtual | Readdirplus | DataAttrBuffer
    | Finish | Incomplete | Error | Eod | Thread | Release
    | HideSpecialfiles | HideDotfiles | IgnoreBrokenSymlinks | IgnoreXdevSymlinks | IgnoreDotfiles | IgnoreSymlinks

  type Flags = set<Flag>

  /** The word that clears THREAD: the macro has no parentheses, so it is the complement of 1 that is shifted. */
  const CLEAR_THREAD: bv32 := (!1) << 14

  /** It keeps bit k exactly when k is at least 15: the lower flags go along with THREAD. */
  lemma ClearThreadKeeps(word: bv32, k: nat)
    requires k < 32
    ensures (word & CLEAR_THREAD) & (1 << k) == if k >= 15 then word & (1 << k) else 0
  {
  }

  /** The flags that are kept when THREAD is cleared; LowBit and HighBit say that these are the ones. */
  predicate Survives(f: Flag) {
    f !in {NonEmpty, Virtual, Readdirplus, DataAttrBuffer, Finish, Incomplete, Error, Eod, Thread}
  }

  /** The flags at the end of a run. */
  function Closing(flags: Flags): Flags { (set f <- flags | Survives(f)) + {Eod} }

  function MaskOf(f: Flag): bv32 {
    match f
    case NonEmpty => 0x1
    case Virtual => 0x2
    case Readdirplus => 0x4
    case DataAttrBuffer => 0x8
    case Finish => 0x400
    case Incomplete => 0x800
    case Error => 0x1000
    case Eod => 0x2000
    case Thread => 0x4000
    case Release => 0x8000
    case HideSpecialfiles => 0x10_0000
    case HideDotfiles => 0x20_0000
    case IgnoreBrokenSymlinks => 0x40_0000
    case IgnoreXdevSymlinks => 0x80_0000
    case IgnoreDotfiles => 0x100_0000
    case IgnoreSymlinks => 0x200_0000
  }

  predicate Has(word: bv32, f: Flag) { word & MaskOf(f) != 0 }

  /** A word has a flag set exactly when the set has it; bits without a flag are free. */
  ghost predicate Represents(word: bv32, flags: Flags) { forall f: Flag :: Has(word, f) <==> f in flags }

  /** The two assignments at the end of a run. */
  function ClosingBits(word: bv32): bv32 { (word & CLEAR_THREAD) | MaskOf(Eod) }

  lemma LowBit(word: bv32, f: Flag)
    requires !Survives(f) && f != Eod
    ensures !Has(ClosingBits(word), f)
  {
  }

  lemma HighBit(word: bv32, f: Flag)
    requires Survives(f)
    ensures Has(ClosingBits(word), f) <==> Has(word, f)
  {
  }

  lemma EodBit(word: bv32)
    ensures Has(ClosingBits(word), Eod)
  {
  }

  lemma InClosing(flags: Flags, f: Flag)
    ensures f in Closing(flags) <==> f == Eod || (Survives(f) && f in flags)
  {
  }

  /** Clearing THREAD and setting EOD in the word is closing the set of flags. */
  lemma ClosingWord(word: bv32, flags: Flags)
    requires Represents(word, flags)
    ensures Represents(ClosingBits(word), Closing(flags))
  {
    forall f: Flag | !Survives(f) && f != Eod ensures !Has(ClosingBits(word), f) { LowBit(word, f); }
    forall f: Flag | Survives(f) ensures Has(ClosingBits(word), f) <==> Has(word, f) { HighBit(word, f); }
    EodBit(word);
    forall f: Flag ensures f in Closing(flags) <==> f == Eod || (Survives(f) && f in flags) { InClosing(flags, f); }
  }

  /** What other threads do to the flags: an early stop or a release of the directory. */
  function FromOthers(flags: Flags, bits: Flags): Flags { flags + bits * {Finish, Release} }

  predicate Stopped(flags: Flags) { Eod in flags || Finish in flags }

  predicate Shut(flags: Flags) { Thread in flags || Stopped(flags) }

  predicate BrokenOff(flags: Flags) { Incomplete in flags || Error in flags }

  // ---- one entry ----

  /** What the loop has done so far: names queued for the VFS, entries of the directory, and the counters. */
  datatype Listing = Listing(queue: seq<Name>, directory: map<Name, Attrs>, created: nat, found: nat, attempts: nat)

  const DOT: byte := 46

  /** Names that are not listed: none at all, ".", ".." and, when asked for, every name with a leading dot. */
  predicate Skipped(dotless: bool, name: Name) {
    name == [] || name == [DOT] || name == [DOT, DOT] || (dotless && name[0] == DOT)
  }

  function Choose<T>(later: Option<T>, earlier: Option<T>): Option<T> { if later.Some? then later else earlier }

  /** The attributes a reply carries replace the ones known, the others stay; extended attributes are not kept. */
  function Overlay(earlier: Attrs, a: Attrs): Attrs {
    Attrs(Choose(a.size, earlier.size), Choose(a.uid, earlier.uid), Choose(a.gid, earlier.gid),
          Choose(a.permissions, earlier.permissions), Choose(a.atime, earlier.atime), Choose(a.mtime, earlier.mtime),
          None)
  }

  const DEFAULTS := Attrs(None, None, None, None, None, None, None)

  function Enter(l: Listing, name: Name, a: Attrs): Listing {
    if name in l.directory then
      Listing(l.queue + [name], l.directory[name := Overlay(l.directory[name], a)], l.created, l.found + 1,
              l.attempts + 1)
    else
      Listing(l.queue + [name], l.directory[name := Overlay(DEFAULTS, a)], l.created + 1, l.found, l.attempts + 1)
  }

  /**
   The loop body on the bytes at the cursor. The attributes are read by the callbacks for a new or a known entry;
   when the entry cannot be made (attempt k fails when fails(k)) nothing reads them.
   */
  function Step(dotless: bool, fails: nat -> bool, l: Listing, b: seq<byte>): Got<Listing> {
    var (names, b1) :- TakeNames(b);
    var name := names.0;
    if !Skipped(dotless, name) && fails(l.attempts) then Got(l.(attempts := l.attempts + 1), b1)
    else
      var (attrs, b2) :- TakeAttrs(b1);
      Got(if Skipped(dotless, name) then l else Enter(l, name, attrs), b2)
  }

  function Batch(dotless: bool, fails: nat -> bool, l: Listing, b: seq<byte>, count: nat): Got<Listing>
    decreases count
  {
    if count == 0 then Got(l, b)
    else
      var (l1, b1) :- Step(dotless, fails, l, b);
      Batch(dotless, fails, l1, b1, count - 1)
  }

  // ---- what a batch should do ----

  function Kept(dotless: bool, es: seq<Entry>): seq<Entry> {
    if es == [] then []
    else if Skipped(dotless, es[0].name) then Kept(dotless, es[1..])
    else [es[0]] + Kept(dotless, es[1..])
  }

  function NamesOf(es: seq<Entry>): seq<Name> { seq(|es|, i requires 0 <= i < |es| => es[i].name) }

  function EnterAll(l: Listing, es: seq<Entry>): Listing
    decreases es
  {
    if es == [] then l else EnterAll(Enter(l, es[0].name, es[0].attrs), es[1..])
  }

  ghost predicate NoneFails(fails: nat -> bool) { forall k: nat :: !fails(k) }

  /** One step passes exactly one record, unless its name is wanted and the entry cannot be made. */
  lemma StepPassesOneRecord(dotless: bool, fails: nat -> bool, l: Listing, e: Entry, rest: seq<byte>)
    requires SendableEntry(e)
    ensures var s := Step(dotless, fails, l, PutEntry(e) + rest);
      && s.Got?
      && (s.rest == rest <==> Skipped(dotless, e.name) || !fails(l.attempts))
      && (s.rest == rest ==> s.value == if Skipped(dotless, e.name) then l else Enter(l, e.name, e.attrs))
      && (s.rest != rest ==> s.rest == PutAttrs(e.attrs) + rest && s.value == l.(attempts := l.attempts + 1))
  {
    TakePutEntry(e, rest);
    TakePutAttrs(e.attrs, rest);
    assert |PutAttrs(e.attrs) + rest| > |rest|;
  }

  lemma StepThenBatch(dotless: bool, fails: nat -> bool, l: Listing, b: seq<byte>, l1: Listing, b1: seq<byte>, n: nat)
    requires Step(dotless, fails, l, b) == Got(l1, b1)
    ensures Batch(dotless, fails, l, b, n + 1) == Batch(dotless, fails, l1, b1, n)
  {
  }

  /** A batch of entries as the server encodes them is entered in order, and the cursor ends right behind it. */
  lemma {:induction false} BatchOfEntries(
    dotless: bool, fails: nat -> bool, l: Listing, es: seq<Entry>, rest: seq<byte>)
    requires NoneFails(fails)
    requires forall e <- es :: SendableEntry(e)
    ensures Batch(dotless, fails, l, PutEntries(es) + rest, |es|) == Got(EnterAll(l, Kept(dotless, es)), rest)
    decreases es
  {
    if es == [] {
      assert [] + rest == rest;
    } else {
      var e, more := es[0], es[1..];
      StepPassesOneRecord(dotless, fails, l, e, PutEntries(more) + rest);
      var l1 := if Skipped(dotless, e.name) then l else Enter(l, e.name, e.attrs);
      StepThenBatch(dotless, fails, l, PutEntry(e) + (PutEntries(more) + rest), l1, PutEntries(more) + rest, |more|);
      BatchOfEntries(dotless, fails, l1, more, rest);
      Regroup(PutEntry(e), PutEntries(more), rest);
      assert PutEntries(es) == PutEntry(e) + PutEntries(more);
      KeptFirst(dotless, l, es);
    }
  }

  lemma KeptFirst(dotless: bool, l: Listing, es: seq<Entry>)
    requires es != []
    ensures var l1 := if Skipped(dotless, es[0].name) then l else Enter(l, es[0].name, es[0].attrs);
      EnterAll(l, Kept(dotless, es)) == EnterAll(l1, Kept(dotless, es[1..]))
  {
    if !Skipped(dotless, es[0].name) {
      assert Kept(dotless, es)[1..] == Kept(dotless, es[1..]);
    }
  }

  lemma NamesFirst(es: seq<Entry>)
    requires es != []
    ensures NamesOf(es) == [es[0].name] + NamesOf(es[1..])
  {
  }

  /** Entering queues every name in order. */
  lemma {:induction false} EnteredQueue(l: Listing, es: seq<Entry>)
    ensures EnterAll(l, es).queue == l.queue + NamesOf(es)
    decreases es
  {
    if es == [] {
      assert l.queue + NamesOf(es) == l.queue;
    } else {
      var l1 := Enter(l, es[0].name, es[0].attrs);
      EnteredQueue(l1, es[1..]);
      NamesFirst(es);
      assert l.queue + NamesOf(es) == l1.queue + NamesOf(es[1..]);
    }
  }

  lemma EnteredOne(l: Listing, name: Name, a: Attrs)
    ensures var l1 := Enter(l, name, a);
      l1.directory.Keys == l.directory.Keys + {name} && l1.created - l.created == |l1.directory| - |l.directory|
  {
    var l1 := Enter(l, name, a);
    if name in l.directory {
      assert l1.directory.Keys == l.directory.Keys;
    } else {
      assert l1.directory.Keys == l.directory.Keys + {name};
    }
    assert |l1.directory| == |l1.directory.Keys| && |l.directory| == |l.directory.Keys|;
  }

  /** Entering adds just those names to the directory; an entry counts as created exactly when its name was new. */
  lemma {:induction false} EnteredDirectory(l: Listing, es: seq<Entry>)
    ensures var r := EnterAll(l, es);
      && (forall n :: n in r.directory <==> n in l.directory || n in NamesOf(es))
      && r.created - l.created == |r.directory| - |l.directory|
      && r.created + r.found == l.created + l.found + |es|
    decreases es
  {
    if es != [] {
      var l1 := Enter(l, es[0].name, es[0].attrs);
      EnteredOne(l, es[0].name, es[0].attrs);
      EnteredDirectory(l1, es[1..]);
      NamesFirst(es);
      assert forall n :: n in l1.directory <==> n in l1.directory.Keys;
    }
  }

  // ---- the attributes of an entry, one by one ----

  datatype Attribute = Size | Uid | Gid | Permissions | Atime | Mtime

  function ValueOf(a: Attrs, x: Attribute): Option<nat> {
    match x
    case Size => a.size
    case Uid => a.uid
    case Gid => a.gid
    case Permissions => a.permissions
    case Atime => a.atime
    case Mtime => a.mtime
  }

  /** What the directory knows: nothing for a name it does not have. */
  function Known(l: Listing, name: Name, x: Attribute): Option<nat> {
    if name in l.directory then ValueOf(l.directory[name], x) else None
  }

  predicate Carries(e: Entry, name: Name, x: Attribute) { e.name == name && ValueOf(e.attrs, x).Some? }

  predicate NoneCarries(es: seq<Entry>, name: Name, x: Attribute) {
    forall j :: 0 <= j < |es| ==> !Carries(es[j], name, x)
  }

  lemma EnteredValue(l: Listing, e: Entry, name: Name, x: Attribute)
    ensures Known(Enter(l, e.name, e.attrs), name, x)
         == if Carries(e, name, x) then ValueOf(e.attrs, x) else Known(l, name, x)
  {
  }

  /** An attribute of a name that no entry carries stays what it was, or unknown. */
  lemma {:induction false} ValueStays(l: Listing, es: seq<Entry>, name: Name, x: Attribute)
    requires NoneCarries(es, name, x)
    ensures Known(EnterAll(l, es), name, x) == Known(l, name, x)
    decreases es
  {
    if es != [] {
      EnteredValue(l, es[0], name, x);
      ValueStays(Enter(l, es[0].name, es[0].attrs), es[1..], name, x);
    }
  }

  /** Otherwise it has the value of the last entry of that name that carries it. */
  lemma LastValueCounts(l: Listing, es: seq<Entry>, name: Name, x: Attribute, k: nat)
    requires k < |es| && Carries(es[k], name, x) && NoneCarries(es[k + 1..], name, x)
    ensures Known(EnterAll(l, es), name, x) == ValueOf(es[k].attrs, x)
  {
    var before := EnterAll(l, es[..k]);
    var after := Enter(before, es[k].name, es[k].attrs);
    assert es == es[..k] + ([es[k]] + es[k + 1..]);
    EnterSplits(l, es[..k], [es[k]] + es[k + 1..]);
    assert ([es[k]] + es[k + 1..])[1..] == es[k + 1..];
    EnteredValue(before, es[k], name, x);
    ValueStays(after, es[k + 1..], name, x);
  }

  /** Extended attributes are never kept, and what is said of other names changes nothing. */
  lemma {:induction false} OtherwiseUntouched(l: Listing, es: seq<Entry>, name: Name)
    ensures var r := EnterAll(l, es);
      if name in NamesOf(es) then name in r.directory && r.directory[name].extended == None
      else (name in r.directory <==> name in l.directory)
           && (name in l.directory ==> r.directory[name] == l.directory[name])
    decreases es
  {
    if es != [] {
      OtherwiseUntouched(Enter(l, es[0].name, es[0].attrs), es[1..], name);
      NamesFirst(es);
    }
  }

  /** The wanted entries are those with a name, not "." or "..", and without a leading dot where that is asked for. */
  lemma {:induction false} KeptExactly(dotless: bool, es: seq<Entry>, e: Entry)
    ensures e in Kept(dotless, es) <==>
      e in es && e.name != [] && e.name != [46] && e.name != [46, 46] && !(dotless && e.name[0] == 46)
  {
    if es != [] {
      KeptExactly(dotless, es[1..], e);
      assert es == [es[0]] + es[1..];
    }
  }

  lemma {:induction false} KeptSplits(dotless: bool, a: seq<Entry>, b: seq<Entry>)
    ensures Kept(dotless, a + b) == Kept(dotless, a) + Kept(dotless, b)
  {
    if a == [] {
      assert a + b == b;
    } else {
      assert (a + b)[1..] == a[1..] + b;
      KeptSplits(dotless, a[1..], b);
    }
  }

  lemma {:induction false} EnterSplits(l: Listing, a: seq<Entry>, b: seq<Entry>)
    ensures EnterAll(l, a + b) == EnterAll(EnterAll(l, a), b)
    decreases a
  {
    if a == [] {
      assert a + b == b;
    } else {
      assert (a + b)[1..] == a[1..] + b;
      EnterSplits(Enter(l, a[0].name, a[0].attrs), a[1..], b);
    }
  }

  /** The four zeros that stand for no attributes, and for an empty string. */
  const ZEROS: seq<byte> := [0, 0, 0, 0]

  lemma ZeroBytes()
    ensures BigEndian(4, 0) == ZEROS && PutAttrs(DEFAULTS) == ZEROS && PutString([]) == ZEROS
  {
    assert BigEndian(1, 0) == [0];
    assert BigEndian(2, 0) == [0, 0];
    assert BigEndian(3, 0) == [0, 0, 0];
    assert BigEndian(4, 0) == [0, 0, 0, 0];
    assert PutAttrs(DEFAULTS) == ZEROS;
  }

  /** An entry with a name alone. */
  function Bare(name: Name): Entry { Entry(name, [], DEFAULTS) }

  lemma BareBytes(name: Name)
    ensures PutEntry(Bare(name)) == PutString(name) + (ZEROS + ZEROS)
  {
    ZeroBytes();
  }

  /**
   The entry of a bare name cannot be made: its attributes stay in front of the cursor and are read as an empty name,
   the name of the next entry as a long name. That next entry is passed over unseen.
   */
  lemma FailedEntryHidesTheNext(dotless: bool, fails: nat -> bool, l: Listing, first: Name, second: Name)
    requires !Skipped(dotless, first) && fails(l.attempts) && |first| < UINT32 && |second| < UINT32
    ensures Batch(dotless, fails, l, PutEntries([Bare(first), Bare(second)]), 2)
         == Got(l.(attempts := l.attempts + 1), ZEROS)
  {
    var l1 := l.(attempts := l.attempts + 1);
    var b := PutEntry(Bare(second));
    ZeroBytes();
    TwoEntries(Bare(first), Bare(second));
    StepPassesOneRecord(dotless, fails, l, Bare(first), b);
    StepThenBatch(dotless, fails, l, PutEntry(Bare(first)) + b, l1, ZEROS + b, 1);
    NamelessStep(dotless, fails, l1, second);
    StepThenBatch(dotless, fails, l1, ZEROS + b, l1, ZEROS, 0);
  }

  lemma TwoEntries(a: Entry, b: Entry)
    ensures PutEntries([a, b]) == PutEntry(a) + PutEntry(b)
  {
    assert [a, b][1..] == [b];
    assert PutEntries([b]) == PutEntry(b) + [];
  }

  lemma NamelessStep(dotless: bool, fails: nat -> bool, l: Listing, second: Name)
    requires |second| < UINT32
    ensures Step(dotless, fails, l, ZEROS + PutEntry(Bare(second))) == Got(l, ZEROS)
  {
    ZeroBytes();
    BareBytes(second);
    TakePutNames([], second, ZEROS + ZEROS);
    TakePutAttrs(DEFAULTS, ZEROS);
  }

  // ---- the loop over the replies of the server ----

  type Uint32 = n: nat | n < 0x1_0000_0000

  datatype Answer = Names(count: Uint32, data: seq<byte>, eofSupported: bool) | Failed(errno: nat)

  /** The count as a signed 32-bit number, or the error with its sign changed. */
  function ResultOf(a: Answer): int {
    match a
    case Failed(errno) => 0 - errno
    case Names(count, _, _) => if count < 0x8000_0000 then count else count - 0x1_0000_0000
  }

  /** The result is a signed number of 32 bits that agrees with the count; of a count of 2^31 or more it is negative. */
  lemma ResultExactly(count: Uint32, data: seq<byte>, eofSupported: bool)
    ensures var r := ResultOf(Names(count, data, eofSupported));
      -0x8000_0000 <= r < 0x8000_0000 && (r - count) % 0x1_0000_0000 == 0
  {
  }

  /** The flag for a result that brought no names. */
  function Ending(result: int): Flag {
    var r := -result;
    if r == EINTR || r == ETIMEDOUT then Incomplete else if r == ENODATA || r == 0 then Eod else Error
  }

  datatype Dir = Dir(flags: Flags, listing: Listing)

  /** Beyond: a reply had fewer bytes than its count promised and was read past its end. */
  datatype State = Beyond | Going(dir: Dir) | Ended(dir: Dir)

  predicate Dotless(flags: Flags) { IgnoreDotfiles in flags }

  function OneTurn(fails: nat -> bool, d: Dir, a: Answer): State {
    var result := ResultOf(a);
    if result <= 0 then Ended(d.(flags := d.flags + {Ending(result)}))
    else
      match Batch(Dotless(d.flags), fails, d.listing, a.data, result)
      case Outside => Beyond
      case Got(l, left) =>
        if a.eofSupported && left != [] && left[0] != 0 then Ended(Dir(d.flags + {Eod}, l)) else Going(Dir(d.flags, l))
  }

  /** One round of the loop: what other threads did to the flags before it, and what the server answers. */
  datatype Turn = Turn(others: Flags, answer: Answer)

  function Loop(fails: nat -> bool, d: Dir, turns: seq<Turn>): State
    decreases turns
  {
    if turns == [] then Going(d)
    else
      var d0 := d.(flags := FromOthers(d.flags, turns[0].others));
      if Stopped(d0.flags) then Ended(d0)
      else
        var s := OneTurn(fails, d0, turns[0].answer);
        if s.Going? then Loop(fails, s.dir, turns[1..]) else s
  }

  // ---- what a run should do ----

  /** A reply as the server means it: entries followed by an optional end-of-list byte, or an error. */
  datatype Reply = Entries(entries: seq<Entry>, tail: seq<byte>, eofSupported: bool) | NoEntries(errno: nat)

  predicate SendableReply(r: Reply) {
    r.Entries? ==> 0 < |r.entries| < 0x8000_0000 && forall e <- r.entries :: SendableEntry(e)
  }

  predicate Last(r: Reply) { r.NoEntries? || (r.eofSupported && r.tail != [] && r.tail[0] != 0) }

  function AnswerTo(r: Reply): Answer
    requires SendableReply(r)
  {
    match r
    case Entries(entries, tail, eofSupported) => Names(|entries|, PutEntries(entries) + tail, eofSupported)
    case NoEntries(errno) => Failed(errno)
  }

  datatype Said = Said(others: Flags, reply: Reply)

  predicate Sendables(said: seq<Said>) { forall s <- said :: SendableReply(s.reply) }

  function TurnsOf(said: seq<Said>): seq<Turn>
    requires Sendables(said)
  {
    if said == [] then []
    else [Turn(said[0].others, AnswerTo(said[0].reply))] + TurnsOf(said[1..])
  }

  function EntriesOf(r: Reply): seq<Entry> { if r.Entries? then r.entries else [] }

  /** The entries of the whole replies the loop takes in before it is stopped. */
  function TakenIn(flags: Flags, said: seq<Said>): seq<Entry>
    decreases said
  {
    if said == [] then []
    else
      var f := FromOthers(flags, said[0].others);
      if Stopped(f) then []
      else if Last(said[0].reply) then EntriesOf(said[0].reply)
      else EntriesOf(said[0].reply) + TakenIn(f, said[1..])
  }

  lemma OthersKeepDotless(flags: Flags, bits: Flags)
    ensures Dotless(FromOthers(flags, bits)) == Dotless(flags)
  {
  }

  lemma TurnOfReply(fails: nat -> bool, d: Dir, r: Reply)
    requires NoneFails(fails) && SendableReply(r)
    ensures var s := OneTurn(fails, d, AnswerTo(r));
      && !s.Beyond? && s.Ended? == Last(r)
      && s.dir.listing == EnterAll(d.listing, Kept(Dotless(d.flags), EntriesOf(r)))
      && (s.Going? ==> s.dir.flags == d.flags)
      && (s.Ended? && r.Entries? ==> s.dir.flags == d.flags + {Eod})
  {
    if r.Entries? { BatchOfEntries(Dotless(d.flags), fails, d.listing, r.entries, r.tail); }
  }

  /**
   Whatever the replies are, however the run is cut short and whenever it ends: the listing holds, in the order of
   the server, just the wanted entries of the replies taken in.
   */
  lemma {:induction false} ListingOfRun(fails: nat -> bool, d: Dir, said: seq<Said>)
    requires NoneFails(fails) && Sendables(said)
    ensures var s := Loop(fails, d, TurnsOf(said));
      !s.Beyond? && s.dir.listing == EnterAll(d.listing, Kept(Dotless(d.flags), TakenIn(d.flags, said)))
    decreases said
  {
    if said != [] {
      var d0 := d.(flags := FromOthers(d.flags, said[0].others));
      OthersKeepDotless(d.flags, said[0].others);
      if !Stopped(d0.flags) {
        var r := said[0].reply;
        TurnOfReply(fails, d0, r);
        var s := OneTurn(fails, d0, AnswerTo(r));
        assert TurnsOf(said)[1..] == TurnsOf(said[1..]);
        if s.Going? {
          ListingOfRun(fails, s.dir, said[1..]);
          var wanted, more := EntriesOf(r), TakenIn(d0.flags, said[1..]);
          KeptSplits(Dotless(d.flags), wanted, more);
          EnterSplits(d.listing, Kept(Dotless(d.flags), wanted), Kept(Dotless(d.flags), more));
        }
      }
    }
  }

  /**
   Every attribute after a run: the value of the last wanted entry of that name that carries it in the replies taken in,
   and what it was before, or unknown, when none does.
   */
  lemma AttributesOfRun(fails: nat -> bool, d: Dir, said: seq<Said>, name: Name, x: Attribute, k: nat)
    requires NoneFails(fails) && Sendables(said)
    ensures var s := Loop(fails, d, TurnsOf(said)); var es := Kept(Dotless(d.flags), TakenIn(d.flags, said));
      && !s.Beyond?
      && (NoneCarries(es, name, x) ==> Known(s.dir.listing, name, x) == Known(d.listing, name, x))
      && (k < |es| && Carries(es[k], name, x) && NoneCarries(es[k + 1..], name, x) ==>
            Known(s.dir.listing, name, x) == ValueOf(es[k].attrs, x))
  {
    ListingOfRun(fails, d, said);
    var es := Kept(Dotless(d.flags), TakenIn(d.flags, said));
    if NoneCarries(es, name, x) { ValueStays(d.listing, es, name, x); }
    if k < |es| && Carries(es[k], name, x) && NoneCarries(es[k + 1..], name, x) {
      LastValueCounts(d.listing, es, name, x, k);
    }
  }

  function AllEntries(said: seq<Said>): seq<Entry> {
    if said == [] then [] else EntriesOf(said[0].reply) + AllEntries(said[1..])
  }

  /** Nothing is left behind when nobody asks for an early stop and only the last reply closes the list. */
  lemma {:induction false} AllTakenIn(flags: Flags, said: seq<Said>)
    requires !Stopped(flags)
    requires forall s <- said :: Finish !in s.others
    requires forall i :: 0 <= i < |said| - 1 ==> !Last(said[i].reply)
    ensures TakenIn(flags, said) == AllEntries(said)
    decreases said
  {
    if said != [] {
      var f := FromOthers(flags, said[0].others);
      assert !Stopped(f) by { NoStop(flags, said[0].others); }
      if Last(said[0].reply) {
        assert |said| == 1 && AllEntries(said[1..]) == [];
      } else {
        assert forall i :: 0 <= i < |said[1..]| ==> said[1..][i] == said[i + 1];
        AllTakenIn(f, said[1..]);
      }
    }
  }

  lemma NoStop(flags: Flags, bits: Flags)
    requires !Stopped(flags) && Finish !in bits
    ensures !Stopped(FromOthers(flags, bits))
  {
  }

  lemma {:induction false} NameAmong(es: seq<Entry>, n: Name)
    ensures n in NamesOf(es) <==> exists e :: e in es && e.name == n
  {
    if n in NamesOf(es) {
      var i :| 0 <= i < |es| && NamesOf(es)[i] == n;
      assert es[i] in es && es[i].name == n;
    }
    if e :| e in es && e.name == n {
      var i :| 0 <= i < |es| && es[i] == e;
      assert NamesOf(es)[i] == n;
    }
  }

  /** A name is queued by a run exactly when a reply taken in has it and it is not to be passed over. */
  lemma QueuedExactly(fails: nat -> bool, d: Dir, said: seq<Said>, n: Name)
    requires NoneFails(fails) && Sendables(said) && n !in d.listing.queue
    ensures var s := Loop(fails, d, TurnsOf(said));
      && !s.Beyond?
      && (n in s.dir.listing.queue <==>
            && n != [] && n != [46] && n != [46, 46] && !(IgnoreDotfiles in d.flags && n[0] == 46)
            && exists e :: e in TakenIn(d.flags, said) && e.name == n)
  {
    var es, dotless := TakenIn(d.flags, said), IgnoreDotfiles in d.flags;
    ListingOfRun(fails, d, said);
    EnteredQueue(d.listing, Kept(dotless, es));
    NameAmong(Kept(dotless, es), n);
    forall e ensures e in Kept(dotless, es) <==>
      e in es && e.name != [] && e.name != [46] && e.name != [46, 46] && !(dotless && e.name[0] == 46)
    {
      KeptExactly(dotless, es, e);
    }
  }

  /** Up to reply k nobody asks for an early stop and no reply closes the list. */
  predicate GoesOnUpTo(said: seq<Said>, k: nat) {
    k <= |said| && forall i :: 0 <= i < k ==> Finish !in said[i].others && !Last(said[i].reply)
  }

  /** A run that is stopped takes in just the replies before the stop; one whose list is closed, the closing one too. */
  lemma {:induction false} TakenInExactly(flags: Flags, said: seq<Said>, k: nat)
    requires !Stopped(flags) && GoesOnUpTo(said, k) && k < |said|
    ensures Finish in said[k].others ==> TakenIn(flags, said) == AllEntries(said[..k])
    ensures Finish !in said[k].others && Last(said[k].reply) ==> TakenIn(flags, said) == AllEntries(said[..k + 1])
    decreases k
  {
    var f := FromOthers(flags, said[0].others);
    if k == 0 {
      assert said[..1][1..] == [];
      PlusNothing(EntriesOf(said[0].reply));
      if Finish !in said[0].others { NoStop(flags, said[0].others); }
    } else {
      assert Finish !in said[0].others && !Last(said[0].reply);
      NoStop(flags, said[0].others);
      var rest := said[1..];
      assert forall i :: 0 <= i < k ==> rest[i] == said[i + 1];
      TakenInExactly(f, rest, k - 1);
      assert said[..k][1..] == rest[..k - 1] && said[..k + 1][1..] == rest[..k];
    }
  }

  /** A directory that is stopped before its first reply is not touched. */
  lemma StoppedAtOnce(fails: nat -> bool, d: Dir, turns: seq<Turn>)
    requires turns != [] && (Eod in d.flags || Finish in d.flags || Finish in turns[0].others)
    ensures var s := Loop(fails, d, turns); s.Ended? && s.dir.listing == d.listing
  {
  }

  /** An error ends the loop at once, with the flag for it: 4 and 110 interrupt it, 61 is the end of the list. */
  lemma ErrorEnds(fails: nat -> bool, d: Dir, errno: nat)
    ensures OneTurn(fails, d, Failed(errno)) ==
      Ended(d.(flags := d.flags + {if errno == 4 || errno == 110 then Incomplete
                                   else if errno == 61 || errno == 0 then Eod
                                   else Error}))
  {
  }

  /** The names queued by a whole run are those of all replies together, in order, without the unwanted ones. */
  lemma QueueOfWholeRun(fails: nat -> bool, d: Dir, said: seq<Said>)
    requires NoneFails(fails) && Sendables(said) && !Stopped(d.flags)
    requires forall s <- said :: Finish !in s.others
    requires forall i :: 0 <= i < |said| - 1 ==> !Last(said[i].reply)
    ensures var s := Loop(fails, d, TurnsOf(said));
      !s.Beyond? && s.dir.listing.queue == d.listing.queue + NamesOf(Kept(Dotless(d.flags), AllEntries(said)))
  {
    ListingOfRun(fails, d, said);
    AllTakenIn(d.flags, said);
    EnteredQueue(d.listing, Kept(Dotless(d.flags), AllEntries(said)));
  }

  // ---- starting and ending, from any number of threads ----

  /** running: the threads inside the body; entered: how often the body was entered. */
  datatype Shared = Shared(flags: Flags, running: set<nat>, entered: nat)

  datatype Event = Start(thread: nat) | Sets(thread: nat, bits: Flags) | Others(bits: Flags) | End(thread: nat)

  function Next(s: Shared, e: Event): Shared {
    match e
    case Start(t) =>
      if Shut(s.flags) then s
      else Shared(s.flags + {Thread}, s.running + {t}, s.entered + 1)
    case Sets(t, bits) =>
      if t in s.running then s.(flags := s.flags + bits * {Incomplete, Error, Eod}) else s
    case Others(bits) => s.(flags := FromOthers(s.flags, bits))
    case End(t) =>
      if t in s.running then s.(flags := Closing(s.flags), running := s.running - {t}) else s
  }

  function Run(s: Shared, events: seq<Event>): Shared
    decreases events
  {
    if events == [] then s else Run(Next(s, events[0]), events[1..])
  }

  predicate Fresh(s: Shared) { s.running == {} && s.entered == 0 && Thread !in s.flags && !BrokenOff(s.flags) }

  predicate OneBody(s: Shared) {
    && |s.running| <= s.entered <= 1
    && (s.running != {} <==> Thread in s.flags)
    && (s.running == {} && s.entered == 1 ==> Eod in s.flags)
    && (s.running == {} ==> !BrokenOff(s.flags))
  }

  lemma StartKeepsOneBody(s: Shared, t: nat)
    requires OneBody(s)
    ensures OneBody(Next(s, Start(t)))
  {
    if !Shut(s.flags) { assert s.running + {t} == {t}; }
  }

  lemma EndKeepsOneBody(s: Shared, t: nat)
    requires OneBody(s)
    ensures OneBody(Next(s, End(t)))
  {
    ClosingFlags(s.flags);
    if t in s.running {
      assert |s.running - {t}| == |s.running| - 1;
      assert s.running - {t} == {};
    }
  }

  lemma NextKeepsOneBody(s: Shared, e: Event)
    requires OneBody(s)
    ensures OneBody(Next(s, e))
  {
    match e
    case Start(t) => StartKeepsOneBody(s, t);
    case Sets(t, bits) =>
    case Others(bits) => OthersKeep(s.flags, bits);
    case End(t) => EndKeepsOneBody(s, t);
  }

  lemma OthersKeep(flags: Flags, bits: Flags)
    ensures var f := FromOthers(flags, bits);
      && (Thread in f <==> Thread in flags) && (Eod in f <==> Eod in flags)
      && BrokenOff(f) == BrokenOff(flags)
  {
  }

  lemma ClosingFlags(flags: Flags)
    ensures var f := Closing(flags); Eod in f && Thread !in f && Finish !in f && !BrokenOff(f)
  {
  }

  lemma {:induction false} RunKeepsOneBody(s: Shared, events: seq<Event>)
    requires OneBody(s)
    ensures OneBody(Run(s, events))
    decreases events
  {
    if events != [] {
      NextKeepsOneBody(s, events[0]);
      RunKeepsOneBody(Next(s, events[0]), events[1..]);
    }
  }

  /** The body runs at most once per open directory, and THREAD is set exactly while it runs. */
  lemma BodyRunsAtMostOnce(s: Shared, events: seq<Event>)
    requires Fresh(s)
    ensures var r := Run(s, events);
      r.entered <= 1 && |r.running| <= 1 && (Thread in r.flags <==> r.running != {})
  {
    RunKeepsOneBody(s, events);
  }

  /** A body is entered exactly when none runs, none has run, and nobody has asked for a stop. */
  lemma StartsExactly(s: Shared, events: seq<Event>, t: nat)
    requires Fresh(s)
    ensures var r, r' := Run(s, events), Next(Run(s, events), Start(t));
      && (r' != r <==> r.running == {} && Eod !in r.flags && Finish !in r.flags)
      && (r' != r ==> r.entered == 0 && r'.entered == 1 && r'.running == {t} && Thread in r'.flags)
  {
    RunKeepsOneBody(s, events);
    StartKeepsOneBody(Run(s, events), t);
  }

  /** A first start runs, a second one beside it does not, and none does after its end. */
  lemma FirstStartRuns(s: Shared, t: nat, u: nat)
    requires Fresh(s) && Eod !in s.flags && Finish !in s.flags
    ensures var r := Next(s, Start(t)); var e := Next(r, End(t));
      && r.running == {t} && r.entered == 1 && Next(r, Start(u)) == r
      && e.running == {} && e.entered == 1 && Next(e, Start(u)) == e
  {
    ClosingFlags(s.flags + {Thread});
  }

  /** While a body runs the listing is marked as broken off exactly when it has said so; its end forgets the mark. */
  lemma MarkedUntilTheEnd(s: Shared, t: nat, bits: Flags)
    requires t in s.running
    ensures var r := Next(s, Sets(t, bits));
      && (BrokenOff(r.flags) <==> BrokenOff(s.flags) || Incomplete in bits || Error in bits)
      && (Eod in r.flags <==> Eod in s.flags || Eod in bits)
      && !BrokenOff(Next(r, End(t)).flags)
  {
    ClosingFlags(Next(s, Sets(t, bits)).flags);
  }

  /** The test in releasedir that decides whether entries not seen in this listing are removed. */
  predicate RemovesUnseen(flags: Flags) { !BrokenOff(flags) }

  /** Once no body runs, releasedir always removes the unseen entries, also after a listing that broke off. */
  lemma UnseenAlwaysRemoved(s: Shared, events: seq<Event>)
    requires Fresh(s) && Run(s, events).running == {}
    ensures RemovesUnseen(Run(s, events).flags)
  {
    RunKeepsOneBody(s, events);
  }

  /** An answer that ends the loop before the list is complete. */
  predicate BreaksOff(a: Answer) { ResultOf(a) <= 0 && ResultOf(a) != 0 && ResultOf(a) != -ENODATA }

  /** The answer on which the loop ended, if it did not end by a flag. */
  function ClosingAnswer(fails: nat -> bool, d: Dir, turns: seq<Turn>): Option<Answer>
    decreases turns
  {
    if turns == [] then None
    else
      var d0 := d.(flags := FromOthers(d.flags, turns[0].others));
      if Stopped(d0.flags) then None
      else
        var s := OneTurn(fails, d0, turns[0].answer);
        if s.Going? then ClosingAnswer(fails, s.dir, turns[1..]) else Some(turns[0].answer)
  }

  lemma TurnFlags(fails: nat -> bool, d: Dir, a: Answer)
    requires !BrokenOff(d.flags)
    ensures var s := OneTurn(fails, d, a);
      && (s.Ended? ==> (BrokenOff(s.dir.flags) <==> BreaksOff(a)))
      && (s.Going? ==> s.dir.flags == d.flags)
  {
  }

  /** The listing of a run is known to be broken off exactly when the answer that ended it is such an error. */
  lemma {:induction false} BrokenOffExactly(fails: nat -> bool, d: Dir, turns: seq<Turn>)
    requires !BrokenOff(d.flags)
    requires Loop(fails, d, turns).Ended?
    ensures var c := ClosingAnswer(fails, d, turns);
      BrokenOff(Loop(fails, d, turns).dir.flags) <==> c.Some? && BreaksOff(c.value)
    decreases turns
  {
    var d0 := d.(flags := FromOthers(d.flags, turns[0].others));
    OthersKeep(d.flags, turns[0].others);
    if !Stopped(d0.flags) {
      TurnFlags(fails, d0, turns[0].answer);
      var s := OneTurn(fails, d0, turns[0].answer);
      if s.Going? { BrokenOffExactly(fails, s.dir, turns[1..]); }
    }
  }

  /** So at the end of a run the unseen entries are removed although the listing broke off, in exactly those cases. */
  lemma RemovedAlthoughBrokenOff(fails: nat -> bool, d: Dir, turns: seq<Turn>)
    requires !BrokenOff(d.flags) && Loop(fails, d, turns).Ended?
    ensures var f, c := Loop(fails, d, turns).dir.flags, ClosingAnswer(fails, d, turns);
      RemovesUnseen(Closing(f)) && (RemovesUnseen(f) <==> !(c.Some? && BreaksOff(c.value)))
  {
    BrokenOffExactly(fails, d, turns);
    ClosingFlags(Loop(fails, d, turns).dir.flags);
  }

  /** The first answer is a timeout: the loop marks the listing as broken off, and the end of the run forgets it. */
  lemma TimedOutAtOnce(fails: nat -> bool, l: Listing)
    ensures var s := Loop(fails, Dir({Thread}, l), [Turn({}, Failed(ETIMEDOUT))]);
      s.Ended? && BrokenOff(s.dir.flags) && s.dir.listing == l && RemovesUnseen(Closing(s.dir.flags))
  {
    var flags := FromOthers({Thread}, {});
    assert !Stopped(flags);
    ClosingFlags(flags + {Incomplete});
  }

  // ---- the open directory itself ----

  class OpenDir {
    var flags: Flags
    var queue: seq<Name>
    var directory: map<Name, Attrs>
    var created: nat
    var found: nat
    var attempts: nat
    var left: seq<byte>
    var count: int
    var eofSupported: bool

    constructor (options: Flags)
      ensures Now() == Dir(options, Listing([], map[], 0, 0, 0))
    {
      flags, queue, directory, created, found, attempts := options, [], map[], 0, 0, 0;
      left, count, eofSupported := [], 0, false;
    }

    ghost function Now(): Dir
      reads this
    {
      Dir(flags, Listing(queue, directory, created, found, attempts))
    }

    /** _sftp_readdir: the answer goes to the attribute buffer. */
    method ReadFromServer(a: Answer) returns (result: int)
      modifies this`left, this`count, this`eofSupported
      ensures result == ResultOf(a)
      ensures 0 < result ==> a.Names? && left == a.data && count == result && eofSupported == a.eofSupported
      ensures Now() == old(Now())
    {
      left, count, eofSupported := [], 0, false;
      match a {
        case Names(n, data, supported) =>
          left, eofSupported := data, supported;
          count := if n < 0x8000_0000 then n else n - 0x1_0000_0000;
          result := count;
        case Failed(errno) => result := 0 - errno;
      }
    }

    /** create_entry_extended with the callbacks for a new and for a known entry. */
    method CreateEntry(fails: nat -> bool, name: Name) returns (inside: bool)
      modifies this`queue, this`directory, this`created, this`found, this`attempts, this`left
      ensures attempts == old(attempts) + 1
      ensures fails(old(attempts)) ==>
        inside && left == old(left) && Now() == old(Now()).(listing := old(Now()).listing.(attempts := attempts))
      ensures !fails(old(attempts)) ==> var t := TakeAttrs(old(left));
        inside == t.Got? &&
        (inside ==> left == t.rest && Now() == Dir(flags, Enter(old(Now()).listing, name, t.value)))
    {
      attempts := attempts + 1;
      if fails(attempts - 1) { return true; }
      var t := TakeAttrs(left);
      if t.Outside? { return false; }
      left := t.rest;
      if name in directory {
        directory := directory[name := Overlay(directory[name], t.value)];
        found := found + 1;
      } else {
        directory := directory[name := Overlay(DEFAULTS, t.value)];
        created := created + 1;
      }
      queue := queue + [name];
      return true;
    }

    /** The body of the inner loop. */
    method NextEntry(fails: nat -> bool) returns (inside: bool)
      modifies this`queue, this`directory, this`created, this`found, this`attempts, this`left, this`count
      ensures count == old(count) - 1
      ensures var s := Step(Dotless(flags), fails, old(Now()).listing, old(left));
        inside == s.Got? && (inside ==> left == s.rest && Now() == Dir(flags, s.value))
    {
      count := count - 1;
      var t := TakeNames(left);
      if t.Outside? { return false; }
      var name := t.value.0;
      left := t.rest;
      if Skipped(Dotless(flags), name) {
        var a := TakeAttrs(left);
        if a.Outside? { return false; }
        left := a.rest;
        return true;
      }
      inside := CreateEntry(fails, name);
    }

    /** One round of the inner loop, given what the whole batch comes to. */
    method NextOfBatch(fails: nat -> bool, ghost whole: Got<Listing>) returns (inside: bool)
      requires 0 < count && ToDo(whole, Dotless(flags), fails, Now().listing, left, count)
      modifies this`queue, this`directory, this`created, this`found, this`attempts, this`left, this`count
      ensures count == old(count) - 1
      ensures if inside then ToDo(whole, Dotless(flags), fails, Now().listing, left, count) else whole.Outside?
    {
      BatchStep(whole, Dotless(flags), fails, Now().listing, left, count);
      inside := NextEntry(fails);
    }

    /** The inner loop: one reply of the server. */
    method ReadBatch(fails: nat -> bool) returns (inside: bool)
      requires 0 <= count
      modifies this`queue, this`directory, this`created, this`found, this`attempts, this`left, this`count
      ensures var s := Batch(Dotless(flags), fails, old(Now()).listing, old(left), old(count));
        inside == s.Got? && (inside ==> count == 0 && left == s.rest && Now() == Dir(flags, s.value))
    {
      ghost var whole := Batch(Dotless(flags), fails, Now().listing, left, count);
      while count > 0
        invariant 0 <= count && flags == old(flags)
        invariant ToDo(whole, Dotless(flags), fails, Now().listing, left, count)
        decreases count
      {
        inside := NextOfBatch(fails, whole);
        if !inside { return false; }
      }
      return true;
    }

    /** The body of the outer loop. */
    method OneRound(fails: nat -> bool, a: Answer) returns (state: State)
      modifies this
      ensures state == OneTurn(fails, old(Now()), a) && (!state.Beyond? ==> Now() == state.dir)
    {
      var result := ReadFromServer(a);
      if result <= 0 {
        flags := flags + {Ending(result)};
        return Ended(Dir(flags, Listing(queue, directory, created, found, attempts)));
      }
      var inside := ReadBatch(fails);
      if !inside { return Beyond; }
      if eofSupported && left != [] && left[0] != 0 {
        flags := flags + {Eod};
        return Ended(Dir(flags, Listing(queue, directory, created, found, attempts)));
      }
      return Going(Dir(flags, Listing(queue, directory, created, found, attempts)));
    }

    method ReadAll(fails: nat -> bool, turns: seq<Turn>) returns (state: State)
      modifies this
      ensures state == Loop(fails, old(Now()), turns) && (!state.Beyond? ==> Now() == state.dir)
    {
      ghost var whole := Loop(fails, Now(), turns);
      var i := 0;
      assert turns[0..] == turns;
      while i < |turns|
        invariant 0 <= i <= |turns|
        invariant whole == Loop(fails, Now(), turns[i..])
      {
        LoopStep(fails, Now(), turns, i);
        flags := FromOthers(flags, turns[i].others);
        if Stopped(flags) {
          return Ended(Dir(flags, Listing(queue, directory, created, found, attempts)));
        }
        state := OneRound(fails, turns[i].answer);
        if !state.Going? { return; }
        i := i + 1;
      }
      state := Going(Dir(flags, Listing(queue, directory, created, found, attempts)));
    }

    /** do_sftp_readdir_background; the run may outlast the given turns. */
    method ReadInBackground(fails: nat -> bool, turns: seq<Turn>) returns (state: State)
      modifies this
      ensures Shut(old(flags)) ==> Now() == old(Now()) && state == Ended(Now())
      ensures !Shut(old(flags)) ==>
        && state == Loop(fails, Dir(old(flags) + {Thread}, old(Now()).listing), turns)
        && (state.Going? ==> Now() == state.dir)
        && (state.Ended? ==> Now() == state.dir.(flags := Closing(state.dir.flags)))
    {
      if Shut(flags) {
        return Ended(Dir(flags, Listing(queue, directory, created, found, attempts)));
      }
      flags := flags + {Thread};
      state := ReadAll(fails, turns);
      if state.Ended? { flags := Closing(flags); }
    }
  }

  /** What a whole batch comes to is what is left of it still comes to. */
  predicate ToDo(whole: Got<Listing>, dotless: bool, fails: nat -> bool, l: Listing, b: seq<byte>, count: nat) {
    whole == Batch(dotless, fails, l, b, count)
  }

  lemma BatchStep(whole: Got<Listing>, dotless: bool, fails: nat -> bool, l: Listing, b: seq<byte>, count: nat)
    requires count > 0 && ToDo(whole, dotless, fails, l, b, count)
    ensures var s := Step(dotless, fails, l, b);
      if s.Outside? then whole.Outside? else ToDo(whole, dotless, fails, s.value, s.rest, count - 1)
  {
  }

  lemma LoopStep(fails: nat -> bool, d: Dir, turns: seq<Turn>, i: nat)
    requires i < |turns|
    ensures var d0 := d.(flags := FromOthers(d.flags, turns[i].others));
      var s := OneTurn(fails, d0, turns[i].answer);
      Loop(fails, d, turns[i..]) ==
        if Stopped(d0.flags) then Ended(d0)
        else if s.Going? then Loop(fails, s.dir, turns[i + 1..]) else s
  {
    assert turns[i..][0] == turns[i] && turns[i..][1..] == turns[i + 1..];
  }
}
