/**
 The reader/writer lock with write reservation that protects the lists of service contexts
 (src/lib/context/lock.c).

 A lock is one packed word: two low bits for a write reservation and for write access, and
 one READ unit per granted read. Every caller has a token that records what it was given on
 this lock. All attempts and releases run under the signal of the workspace, so each of them is
 one atomic step; a run is any interleaving of such steps by any number of threads, where every
 thread uses one token.
 */
module ContextLock {
  import opened Errno

  // src/lib/list/lock.h
  const PREWRITE := 1
  const WRITE := 2
  const READ := 4

  /** What pthread_self() gives; the lock uses 0 for "no thread". */
  type ThreadId = t: nat | t > 0 witness 1

  /** The lockflags of one token. */
  datatype Flags = Flags(read: bool, prewrite: bool, write: bool)

  const NO_FLAGS := Flags(false, false, false)

  datatype Lock = Lock(value: nat, threadidw: nat, threadidpw: nat, tokens: map<ThreadId, Flags>)

  const UNLOCKED := Lock(0, 0, 0, map[])

  datatype Attempt = Attempt(lock: Lock, result: int)

  // The bits of the lock word

  predicate HasPrewrite(value: nat) { value % 2 == 1 }

  predicate HasWrite(value: nat) { value / 2 % 2 == 1 }

  function SetPrewrite(value: nat): nat { if HasPrewrite(value) then value else value + PREWRITE }

  function SetWrite(value: nat): nat { if HasWrite(value) then value else value + WRITE }

  function ClearPrewrite(value: nat): nat { if HasPrewrite(value) then value - PREWRITE else value }

  function ClearWrite(value: nat): nat { if HasWrite(value) then value - WRITE else value }

  // The three operations on a lock and the token of one thread

  function Token(l: Lock, t: ThreadId): Flags { if t in l.tokens then l.tokens[t] else NO_FLAGS }

  function TryWrite(l: Lock, t: ThreadId): Attempt {
    var f := Token(l, t);
    if HasWrite(l.value) then
      if l.threadidw == t then Attempt(l, 1)
      else if !HasPrewrite(l.value) then Attempt(Reserve(l, t), 0)
      else Attempt(l, 0)
    else if HasPrewrite(l.value) then
      if l.threadidpw == t && l.value <= PREWRITE + WRITE then
        Attempt(Lock(ClearPrewrite(SetWrite(l.value)), t, 0,
                     l.tokens[t := f.(write := true, prewrite := false)]), 1)
      else Attempt(l, 0)
    else if l.value == 0 then
      Attempt(l.(value := SetWrite(l.value), threadidw := t, tokens := l.tokens[t := f.(write := true)]), 1)
    else
      // readers: only a reservation is made, yet the caller is told 1
      Attempt(Reserve(l, t), 1)
  }

  function Reserve(l: Lock, t: ThreadId): Lock {
    l.(value := SetPrewrite(l.value), threadidpw := t,
       tokens := l.tokens[t := Token(l, t).(prewrite := true)])
  }

  function TryRead(l: Lock, t: ThreadId): Attempt {
    if !HasPrewrite(l.value) && !HasWrite(l.value) then
      Attempt(l.(value := l.value + READ, tokens := l.tokens[t := Flags(true, false, false)]), 1)
    else Attempt(l, 0)
  }

  function Release(l: Lock, t: ThreadId): Lock {
    var f := Token(l, t);
    var v1 := if f.read && l.value >= READ then l.value - READ else l.value;
    var dropPrewrite := f.prewrite && l.threadidpw == t;
    var v2 := if dropPrewrite then ClearPrewrite(v1) else v1;
    var dropWrite := f.write && l.threadidw == t;
    var v3 := if dropWrite then ClearWrite(v2) else v2;
    l.(value := v3,
       tokens := l.tokens[t := Flags(false, f.prewrite && !dropPrewrite, f.write && !dropWrite)])
  }

  // Runs

  datatype Op = Read(t: ThreadId) | Write(t: ThreadId) | Unlock(t: ThreadId)

  function Step(l: Lock, op: Op): Lock {
    match op
    case Read(t) => TryRead(l, t).lock
    case Write(t) => TryWrite(l, t).lock
    case Unlock(t) => Release(l, t)
  }

  function Run(l: Lock, ops: seq<Op>): Lock
    decreases ops
  {
    if ops == [] then l else Run(Step(l, ops[0]), ops[1..])
  }

  /** A read granted on a token that already holds READ: the token cannot record the second unit. */
  predicate IsDoubleRead(l: Lock, op: Op) {
    op.Read? && Token(l, op.t).read && TryRead(l, op.t).result == 1
  }

  function DoubleReads(l: Lock, ops: seq<Op>): nat
    decreases ops
  {
    if ops == [] then 0
    else (if IsDoubleRead(l, ops[0]) then 1 else 0) + DoubleReads(Step(l, ops[0]), ops[1..])
  }

  // Who holds what, according to the tokens

  function Readers(l: Lock): set<ThreadId> { set t | t in l.tokens && l.tokens[t].read }

  function Reservers(l: Lock): set<ThreadId> { set t | t in l.tokens && l.tokens[t].prewrite }

  function Writers(l: Lock): set<ThreadId> { set t | t in l.tokens && l.tokens[t].write }

  /** At most one thread, the one that the lock names. */
  ghost predicate Owned(threads: set<ThreadId>, id: nat) { forall t <- threads :: threads == {t} && id == t }

  /** The word counts the tokens, `leaked` READ units are recorded in no token. */
  ghost predicate Accounts(l: Lock, leaked: nat) {
    && l.value == READ * (|Readers(l)| + leaked) + PREWRITE * |Reservers(l)| + WRITE * |Writers(l)|
    && Owned(Reservers(l), l.threadidpw) && Owned(Writers(l), l.threadidw)
    && (Writers(l) != {} ==> Readers(l) == {} && leaked == 0)
  }

  // ---- every step keeps the books ----

  lemma TokenUpdate(l: Lock, l': Lock, t: ThreadId, f: Flags)
    requires l'.tokens == l.tokens[t := f]
    ensures Readers(l') == if f.read then Readers(l) + {t} else Readers(l) - {t}
    ensures Reservers(l') == if f.prewrite then Reservers(l) + {t} else Reservers(l) - {t}
    ensures Writers(l') == if f.write then Writers(l) + {t} else Writers(l) - {t}
  {
  }

  lemma Cardinalities(l: Lock, leaked: nat)
    requires Accounts(l, leaked)
    ensures |Reservers(l)| <= 1 && |Writers(l)| <= 1
    ensures HasPrewrite(l.value) <==> Reservers(l) != {}
    ensures HasWrite(l.value) <==> Writers(l) != {}
    ensures l.value <= PREWRITE + WRITE <==> Readers(l) == {} && leaked == 0
  {
    OwnedSize(Reservers(l), l.threadidpw);
    OwnedSize(Writers(l), l.threadidw);
    WordBits(|Readers(l)| + leaked, |Reservers(l)|, |Writers(l)|);
    assert Readers(l) == {} <==> |Readers(l)| == 0;
  }

  lemma OwnedSize(threads: set<ThreadId>, id: nat)
    requires Owned(threads, id)
    ensures |threads| <= 1 && (threads == {} <==> |threads| == 0)
  {
    if t :| t in threads { assert threads == {t}; }
  }

  lemma OwnedMinus(threads: set<ThreadId>, id: nat, t: ThreadId)
    requires Owned(threads, id)
    ensures Owned(threads - {t}, id)
  {
    forall u | u in threads - {t} ensures threads - {t} == {u} && id == u {
      assert threads == {u};
    }
  }

  lemma ReadKeepsAccounts(l: Lock, leaked: nat, t: ThreadId)
    requires Accounts(l, leaked)
    ensures Accounts(Step(l, Read(t)), leaked + if IsDoubleRead(l, Read(t)) then 1 else 0)
  {
    Cardinalities(l, leaked);
    if TryRead(l, t).result == 1 {
      TokenUpdate(l, Step(l, Read(t)), t, Flags(true, false, false));
      assert Reservers(l) - {t} == {} && Writers(l) - {t} == {};
      WithOne(Readers(l), t);
      assert t in Readers(l) <==> Token(l, t).read;
    }
  }

  lemma WithOne<T>(s: set<T>, t: T)
    ensures |s + {t}| == |s| + if t in s then 0 else 1
  {
    if t in s { assert s + {t} == s; }
  }

  /** The word packs the number of units and the two bits without overlap. */
  lemma WordBits(units: nat, prewrite: nat, write: nat)
    requires prewrite <= 1 && write <= 1
    ensures var v := READ * units + PREWRITE * prewrite + WRITE * write;
            && (HasPrewrite(v) <==> prewrite == 1)
            && (HasWrite(v) <==> write == 1)
            && SetPrewrite(v) == READ * units + PREWRITE + WRITE * write
            && SetWrite(v) == READ * units + PREWRITE * prewrite + WRITE
            && ClearPrewrite(v) == READ * units + WRITE * write
            && ClearWrite(v) == READ * units + PREWRITE * prewrite
  {
  }

  lemma ReserveKeepsAccounts(l: Lock, leaked: nat, t: ThreadId)
    requires Accounts(l, leaked) && Reservers(l) == {}
    ensures Accounts(Reserve(l, t), leaked)
    ensures Reservers(Reserve(l, t)) == {t}
    ensures Readers(Reserve(l, t)) == Readers(l) && Writers(Reserve(l, t)) == Writers(l)
  {
    Cardinalities(l, leaked);
    TokenUpdate(l, Reserve(l, t), t, Token(l, t).(prewrite := true));
    WordBits(|Readers(l)| + leaked, 0, |Writers(l)|);
  }

  lemma WriteKeepsAccounts(l: Lock, leaked: nat, t: ThreadId)
    requires Accounts(l, leaked)
    ensures Accounts(TryWrite(l, t).lock, leaked)
  {
    Cardinalities(l, leaked);
    if Reservers(l) == {} {
      ReserveKeepsAccounts(l, leaked, t);
    }
    var l' := TryWrite(l, t).lock;
    if l' != l && l' != Reserve(l, t) {
      WordBits(|Readers(l)| + leaked, |Reservers(l)|, 0);
      WordBits(|Readers(l)| + leaked, |Reservers(l)|, 1);
      TokenUpdate(l, l', t, l'.tokens[t]);
      assert Writers(l') == {t} && Reservers(l') == {} && Readers(l') == {};
    }
  }

  lemma ReleaseSets(l: Lock, leaked: nat, t: ThreadId)
    requires Accounts(l, leaked)
    ensures Readers(Release(l, t)) == Readers(l) - {t}
    ensures Reservers(Release(l, t)) == Reservers(l) - {t}
    ensures Writers(Release(l, t)) == Writers(l) - {t}
  {
    assert Token(l, t).write ==> t in Writers(l);
    assert Token(l, t).prewrite ==> t in Reservers(l);
    TokenUpdate(l, Release(l, t), t, NO_FLAGS);
  }

  lemma WithoutOne<T>(s: set<T>, t: T)
    ensures |s| == |s - {t}| + if t in s then 1 else 0
  {
    if t in s { assert s == (s - {t}) + {t}; } else { assert s - {t} == s; }
  }

  lemma ReleaseWord(l: Lock, leaked: nat, t: ThreadId)
    requires Accounts(l, leaked)
    ensures Release(l, t).value == READ * (|Readers(l) - {t}| + leaked)
              + PREWRITE * |Reservers(l) - {t}| + WRITE * |Writers(l) - {t}|
  {
    Cardinalities(l, leaked);
    WithoutOne(Readers(l), t);
    WithoutOne(Reservers(l), t);
    WithoutOne(Writers(l), t);
    var units := |Readers(l) - {t}| + leaked;
    WordBits(units, |Reservers(l)|, |Writers(l)|);
    WordBits(units, |Reservers(l) - {t}|, |Writers(l)|);
  }

  lemma ReleaseKeepsAccounts(l: Lock, leaked: nat, t: ThreadId)
    requires Accounts(l, leaked)
    ensures Accounts(Release(l, t), leaked)
  {
    ReleaseSets(l, leaked, t);
    ReleaseWord(l, leaked, t);
    OwnedMinus(Reservers(l), l.threadidpw, t);
    OwnedMinus(Writers(l), l.threadidw, t);
  }

  lemma {:induction false} RunKeepsAccounts(l: Lock, leaked: nat, ops: seq<Op>)
    requires Accounts(l, leaked)
    ensures Accounts(Run(l, ops), leaked + DoubleReads(l, ops))
    decreases ops
  {
    if ops != [] {
      match ops[0] {
        case Read(t) => ReadKeepsAccounts(l, leaked, t);
        case Write(t) => WriteKeepsAccounts(l, leaked, t);
        case Unlock(t) => ReleaseKeepsAccounts(l, leaked, t);
      }
      var more := if IsDoubleRead(l, ops[0]) then 1 else 0;
      RunKeepsAccounts(Step(l, ops[0]), leaked + more, ops[1..]);
    }
  }

  // ---- conservation over whole runs ----

  /** In every run the word is exactly what the tokens hold, plus one READ unit for each double read. */
  lemma WordConservation(ops: seq<Op>)
    ensures var l := Run(UNLOCKED, ops);
            && l.value == READ * (|Readers(l)| + DoubleReads(UNLOCKED, ops))
                          + PREWRITE * |Reservers(l)| + WRITE * |Writers(l)|
            && |Reservers(l)| <= 1 && |Writers(l)| <= 1
            && (Writers(l) != {} ==> Readers(l) == {})
  {
    RunKeepsAccounts(UNLOCKED, 0, ops);
    Cardinalities(Run(UNLOCKED, ops), DoubleReads(UNLOCKED, ops));
  }

  /** Once every token is released the lock is free again if and only if no read was taken twice on one token. */
  lemma ReleasedLockIsFree(ops: seq<Op>)
    requires var l := Run(UNLOCKED, ops); Readers(l) + Reservers(l) + Writers(l) == {}
    ensures Run(UNLOCKED, ops).value == 0 <==> DoubleReads(UNLOCKED, ops) == 0
  {
    WordConservation(ops);
  }

  /** One token, two reads, one release: a unit stays in the word. */
  lemma DoubleReadLeaks()
    ensures var l := Run(UNLOCKED, [Read(1), Read(1), Unlock(1)]);
            l.value == READ && Readers(l) + Reservers(l) + Writers(l) == {}
  {
    var l1 := Step(UNLOCKED, Read(1));
    var l2 := Step(l1, Read(1));
    assert [Read(1), Read(1), Unlock(1)][1..] == [Read(1), Unlock(1)];
    assert [Read(1), Unlock(1)][1..] == [Unlock(1)];
    assert Run(l2, [Unlock(1)]) == Run(Step(l2, Unlock(1)), []);
    assert Step(l2, Unlock(1)).tokens == map[1 := NO_FLAGS];
  }

  /** After a double read no thread ever gets write access again, whatever is released. */
  lemma DoubleReadBlocksWriters(ops: seq<Op>, t: ThreadId)
    requires DoubleReads(UNLOCKED, ops) > 0
    ensures Writers(TryWrite(Run(UNLOCKED, ops), t).lock) == {}
  {
    var l := Run(UNLOCKED, ops);
    var leaked := DoubleReads(UNLOCKED, ops);
    RunKeepsAccounts(UNLOCKED, 0, ops);
    WriteKeepsAccounts(l, leaked, t);
  }

  // ---- the reservation ----

  /** Only the thread itself ends its reservation: by releasing it or by turning it into write access. */
  lemma ReservationEnds(l: Lock, leaked: nat, op: Op, t: ThreadId)
    requires Accounts(l, leaked) && t in Reservers(l)
    requires t !in Reservers(Step(l, op))
    ensures op == Unlock(t) || (op == Write(t) && Writers(Step(l, op)) == {t})
  {
    Cardinalities(l, leaked);
    var l' := Step(l, op);
    if op.Write? && l' != l {
      TokenUpdate(l, l', op.t, l'.tokens[op.t]);
      WriteKeepsAccounts(l, leaked, op.t);
    }
  }

  /** t keeps its reservation from l on, through every step of ops. */
  predicate KeepsReservation(l: Lock, ops: seq<Op>, t: ThreadId)
    decreases ops
  {
    t in Reservers(l) && (ops == [] || KeepsReservation(Step(l, ops[0]), ops[1..], t))
  }

  lemma ReservedStep(l: Lock, leaked: nat, op: Op, t: ThreadId)
    requires Accounts(l, leaked) && t in Reservers(l) && t in Reservers(Step(l, op))
    ensures Accounts(Step(l, op), leaked) && !IsDoubleRead(l, op)
    ensures var gone := if op.Unlock? then {op.t} else {};
            && Readers(Step(l, op)) == Readers(l) - gone
            && Writers(Step(l, op)) == Writers(l) - gone
  {
    match op {
      case Read(u) => Cardinalities(l, leaked);
      case Write(u) => ReservedWrite(l, leaked, u, t);
      case Unlock(u) =>
        ReleaseKeepsAccounts(l, leaked, u);
        ReleaseSets(l, leaked, u);
    }
  }

  /** An attempt for write that leaves a reservation standing leaves the lock as it was. */
  lemma ReservedWrite(l: Lock, leaked: nat, u: ThreadId, t: ThreadId)
    requires Accounts(l, leaked) && t in Reservers(l) && t in Reservers(TryWrite(l, u).lock)
    ensures TryWrite(l, u).lock == l
  {
    Cardinalities(l, leaked);
  }

  /** The threads that release in one of the steps. */
  function Released(ops: seq<Op>): set<ThreadId> {
    if ops == [] then {} else (if ops[0].Unlock? then {ops[0].t} else {}) + Released(ops[1..])
  }

  /**
   While a reservation stands no thread gains READ or WRITE: the holders after any run are those
   from before that did not release, so the number of readers never grows.
   */
  lemma {:induction false} ReservationIsNotBypassed(l: Lock, leaked: nat, ops: seq<Op>, t: ThreadId)
    requires Accounts(l, leaked) && KeepsReservation(l, ops, t)
    ensures Accounts(Run(l, ops), leaked) && t in Reservers(Run(l, ops))
    ensures Readers(Run(l, ops)) == Readers(l) - Released(ops)
    ensures Writers(Run(l, ops)) == Writers(l) - Released(ops)
    ensures |Readers(Run(l, ops))| <= |Readers(l)|
    decreases ops
  {
    if ops != [] {
      var l1, rest := Step(l, ops[0]), ops[1..];
      ReservedStep(l, leaked, ops[0], t);
      ReservationIsNotBypassed(l1, leaked, rest, t);
      SetMinus(Readers(l), Readers(l1), if ops[0].Unlock? then {ops[0].t} else {}, Released(rest));
      SetMinus(Writers(l), Writers(l1), if ops[0].Unlock? then {ops[0].t} else {}, Released(rest));
    }
    SubsetSize(Readers(l) - Released(ops), Readers(l));
  }

  lemma SetMinus<T>(a: set<T>, b: set<T>, c: set<T>, d: set<T>)
    requires b == a - c
    ensures b - d == a - (c + d)
  {
  }

  lemma SubsetSize<T>(a: set<T>, b: set<T>)
    requires a <= b
    ensures |a| <= |b|
  {
    assert b == a + (b - a);
  }

  /** The reserving thread gets write access exactly when no reader and no earlier writer is left. */
  lemma ReservedAttempt(l: Lock, leaked: nat, t: ThreadId)
    requires Accounts(l, leaked) && t in Reservers(l)
    ensures var a := TryWrite(l, t);
            && (a.result == 1 <==> Readers(l) == {} && leaked == 0 && Writers(l) - {t} == {})
            && (a.result == 1 <==> t in Writers(a.lock))
  {
    Cardinalities(l, leaked);
    WriteKeepsAccounts(l, leaked, t);
  }

  /**
   Whatever the other threads do, once every thread that held READ or WRITE when t reserved has released,
   the next attempt of t gets write access.
   */
  lemma ReservationLeadsToWrite(l: Lock, ops: seq<Op>, t: ThreadId)
    requires Accounts(l, 0) && KeepsReservation(l, ops, t)
    requires Readers(l) + Writers(l) <= Released(ops)
    ensures var a := TryWrite(Run(l, ops), t); a.result == 1 && Writers(a.lock) == {t}
  {
    ReservationIsNotBypassed(l, 0, ops, t);
    var l' := Run(l, ops);
    ReservedAttempt(l', 0, t);
    WriteKeepsAccounts(l', 0, t);
  }

  /**
   A reader that reserves on its own token stands in its own way: as long as it keeps both, whatever others do and
   release, none of its attempts is granted.
   */
  lemma ReaderNeverUpgrades(l: Lock, leaked: nat, ops: seq<Op>, t: ThreadId)
    requires Accounts(l, leaked) && KeepsReservation(l, ops, t) && t in Readers(l) && t !in Released(ops)
    ensures TryWrite(Run(l, ops), t) == Attempt(Run(l, ops), 0)
  {
    ReservationIsNotBypassed(l, leaked, ops, t);
    var l' := Run(l, ops);
    assert t in Readers(l');
    Cardinalities(l', leaked);
    ReservedAttempt(l', leaked, t);
  }

  /** One thread reads and then asks for write: it is told 1 for its reservation, and 0 ever after. */
  lemma ReaderAsksForWrite()
    ensures var l := Run(UNLOCKED, [Read(1), Write(1)]);
            Readers(l) == {1} && Reservers(l) == {1} && TryWrite(l, 1) == Attempt(l, 0)
  {
    var l1 := Step(UNLOCKED, Read(1));
    var l2 := Step(l1, Write(1));
    assert [Read(1), Write(1)][1..] == [Write(1)];
    assert Run(l1, [Write(1)]) == Run(l2, []) == l2;
    assert l2.tokens == map[1 := Flags(true, true, false)];
  }

  // ---- when an attempt is granted ----

  /** A read is granted exactly when nobody has reserved or writes, however many read; it adds only the thread. */
  lemma ReadGranted(l: Lock, leaked: nat, t: ThreadId)
    requires Accounts(l, leaked)
    ensures var a := TryRead(l, t);
            && (a.result == 1 <==> Reservers(l) == {} && Writers(l) == {})
            && (a.result == 1 ==>
                  Readers(a.lock) == Readers(l) + {t} && Reservers(a.lock) == {} && Writers(a.lock) == {})
            && (a.result != 1 ==> a.result == 0 && a.lock == l)
  {
    Cardinalities(l, leaked);
    if TryRead(l, t).result == 1 { TokenUpdate(l, TryRead(l, t).lock, t, Flags(true, false, false)); }
  }

  /**
   A write attempt returns 1 exactly for the writer itself, for anybody when nobody has reserved or writes, and for the
   one who has reserved when nobody reads or writes. Who holds what afterwards, in each case:
   */
  lemma WriteGranted(l: Lock, leaked: nat, t: ThreadId)
    requires Accounts(l, leaked)
    ensures var a := TryWrite(l, t); var idle := Readers(l) == {} && leaked == 0;
            && (a.result == 1 <==>
                  || t in Writers(l)
                  || (Writers(l) == {} && Reservers(l) == {})
                  || (Writers(l) == {} && Reservers(l) == {t} && idle))
            && (a.result != 1 ==> a.result == 0)
            && Readers(a.lock) == Readers(l)
            && Writers(a.lock) == (if Writers(l) == {} && idle && Reservers(l) <= {t} then {t} else Writers(l))
            && Reservers(a.lock) ==
                 (if t in Writers(l) || (Reservers(l) != {} && Reservers(l) != {t}) then Reservers(l)
                  else if Writers(l) == {} && idle then {} else {t})
  {
    Cardinalities(l, leaked);
    var l' := TryWrite(l, t).lock;
    if Reservers(l) == {} { ReserveKeepsAccounts(l, leaked, t); }
    if l' != l && l' != Reserve(l, t) {
      assert t in l'.tokens;
      TokenUpdate(l, l', t, l'.tokens[t]);
    }
  }

  function ReadsBy(ts: seq<ThreadId>): seq<Op> { if ts == [] then [] else [Read(ts[0])] + ReadsBy(ts[1..]) }

  /** Any number of threads can read at the same time. */
  lemma {:induction false} ReadersTogether(l: Lock, leaked: nat, ts: seq<ThreadId>)
    requires Accounts(l, leaked) && Reservers(l) == {} && Writers(l) == {}
    ensures var l' := Run(l, ReadsBy(ts));
            (forall t :: t in Readers(l') <==> t in Readers(l) || t in ts) && Reservers(l') == {} && Writers(l') == {}
    decreases ts
  {
    if ts != [] {
      var l1 := Step(l, Read(ts[0]));
      ReadKeepsAccounts(l, leaked, ts[0]);
      ReadGranted(l, leaked, ts[0]);
      ReadersTogether(l1, leaked + if IsDoubleRead(l, Read(ts[0])) then 1 else 0, ts[1..]);
      assert ReadsBy(ts)[1..] == ReadsBy(ts[1..]);
    }
  }

  // ---- what a granted attempt gives ----

  /**
   A write attempt that returns 1 owns write access, except in one branch: the word shows readers and neither
   bit. There the caller holds a reservation only, and all readers are still in.
   */
  lemma GrantedWrite(l: Lock, leaked: nat, t: ThreadId)
    requires Accounts(l, leaked) && TryWrite(l, t).result == 1
    ensures var l' := TryWrite(l, t).lock;
            && (Writers(l') == {t} <==> !(l.value >= READ && l.value % READ == 0))
            && (Writers(l') != {t} ==> Reservers(l') == {t} && Readers(l') == Readers(l) && Writers(l') == {})
  {
    Cardinalities(l, leaked);
    WriteKeepsAccounts(l, leaked, t);
    if l.value >= READ && l.value % READ == 0 {
      ReserveKeepsAccounts(l, leaked, t);
    }
  }

  /** Thread 1 reads, and thread 2 is told 1 for its write attempt while thread 1 still reads. */
  lemma GrantedWriteBesideReader()
    ensures var l := Run(UNLOCKED, [Read(1)]);
            TryWrite(l, 2).result == 1 && 1 in Readers(TryWrite(l, 2).lock) && Writers(TryWrite(l, 2).lock) == {}
  {
    var l := Step(UNLOCKED, Read(1));
    assert Run(UNLOCKED, [Read(1)]) == Run(l, []) == l;
    assert l == Lock(4, 0, 0, map[1 := Flags(true, false, false)]);
    var l' := TryWrite(l, 2).lock;
    assert l'.tokens == map[1 := Flags(true, false, false), 2 := Flags(false, true, false)];
  }

  // ---- the lock as it is updated in place ----

  datatype Access = ForRead | ForWrite

  /** What happens while a waiting thread sleeps: steps of other threads, then the result of the wait. */
  datatype Wakeup = Wakeup(others: seq<Op>, error: nat)

  class ServiceLock {
    var value: nat
    var threadidw: nat
    var threadidpw: nat
    var tokens: map<ThreadId, Flags>

    function State(): (l: Lock)
      reads this
    {
      Lock(value, threadidw, threadidpw, tokens)
    }

    constructor ()
      ensures State() == UNLOCKED
    {
      value, threadidw, threadidpw, tokens := 0, 0, 0, map[];
    }

    method GetWriteAccess(self: ThreadId) returns (result: int)
      modifies this
      ensures Attempt(State(), result) == TryWrite(old(State()), self)
    {
      var lockflags := if self in tokens then tokens[self] else NO_FLAGS;
      if HasWrite(value) {
        if threadidw == self {
          return 1;
        }
        if !HasPrewrite(value) {
          value := SetPrewrite(value);
          threadidpw := self;
          tokens := tokens[self := lockflags.(prewrite := true)];
        }
        return 0;
      } else if HasPrewrite(value) {
        if threadidpw == self && value <= PREWRITE + WRITE {
          value := SetWrite(value);
          value := ClearPrewrite(value);
          threadidw := threadidpw;
          threadidpw := 0;
          lockflags := lockflags.(write := true);
          lockflags := lockflags.(prewrite := false);
          tokens := tokens[self := lockflags];
          return 1;
        }
        return 0;
      } else if value == 0 {
        value := SetWrite(value);
        threadidw := self;
        tokens := tokens[self := lockflags.(write := true)];
        return 1;
      }
      value := SetPrewrite(value);
      threadidpw := self;
      tokens := tokens[self := lockflags.(prewrite := true)];
      return 1;
    }

    method GetReadAccess(self: ThreadId) returns (result: int)
      modifies this
      ensures Attempt(State(), result) == TryRead(old(State()), self)
    {
      if !HasPrewrite(value) && !HasWrite(value) {
        value := value + READ;
        tokens := tokens[self := Flags(true, false, false)];
        return 1;
      }
      return 0;
    }

    method ReleaseAccess(self: ThreadId)
      modifies this
      ensures State() == Release(old(State()), self)
    {
      var lockflags := if self in tokens then tokens[self] else NO_FLAGS;
      if lockflags.read {
        if value >= READ { value := value - READ; }
        lockflags := lockflags.(read := false);
      }
      if lockflags.prewrite && threadidpw == self {
        value := ClearPrewrite(value);
        lockflags := lockflags.(prewrite := false);
      }
      if lockflags.write && threadidw == self {
        value := ClearWrite(value);
        lockflags := lockflags.(write := false);
      }
      tokens := tokens[self := lockflags];
    }

    method CheckConflict(self: ThreadId, how: Access) returns (result: int)
      modifies this
      ensures Attempt(State(), result) == Try(old(State()), self, how)
    {
      if how.ForWrite? {
        result := GetWriteAccess(self);
      } else {
        result := GetReadAccess(self);
      }
    }

    method RunOthers(ops: seq<Op>)
      modifies this
      ensures State() == Run(old(State()), ops)
    {
      ghost var start := State();
      for i := 0 to |ops|
        invariant Run(State(), ops[i..]) == Run(start, ops)
      {
        ghost var before := State();
        match ops[i] {
          case Read(t) => var _ := GetReadAccess(t);
          case Write(t) => var _ := GetWriteAccess(t);
          case Unlock(t) => ReleaseAccess(t);
        }
        assert ops[i..][0] == ops[i] && ops[i..][1..] == ops[i + 1..];
        assert State() == Step(before, ops[i]);
      }
    }

    /**
     The wait loop. It leaves with 1 once an attempt is granted, with -1 or -2 when the wait fails; 0 means that
     the thread still waits after the given wakeups. Two attempts are made per wakeup.
     */
    method LockContexts(self: ThreadId, how: Access, wakeups: seq<Wakeup>) returns (result: int)
      modifies this
      ensures (State(), result) == WaitLoop(old(State()), self, how, wakeups)
    {
      ghost var start := State();
      result := CheckConflict(self, how);
      var i := 0;
      while result == 0 && i < |wakeups|
        invariant i <= |wakeups|
        invariant WaitLoop(start, self, how, wakeups) == Continue(Attempt(State(), result), self, how, wakeups[i..])
      {
        ghost var rest := wakeups[i..];
        assert rest[0] == wakeups[i] && rest[1..] == wakeups[i + 1..];
        RunOthers(wakeups[i].others);
        result := CheckConflict(self, how);
        if result == 1 {
          return;
        } else if wakeups[i].error == ETIMEDOUT {
          return -1;
        } else if wakeups[i].error > 0 {
          return -2;
        }
        i := i + 1;
        result := CheckConflict(self, how);
      }
    }
  }

  function Try(l: Lock, t: ThreadId, how: Access): Attempt {
    if how.ForWrite? then TryWrite(l, t) else TryRead(l, t)
  }

  function WaitLoop(l: Lock, t: ThreadId, how: Access, wakeups: seq<Wakeup>): (Lock, int) {
    Continue(Try(l, t, how), t, how, wakeups)
  }

  function Continue(a: Attempt, t: ThreadId, how: Access, wakeups: seq<Wakeup>): (Lock, int)
    decreases wakeups
  {
    if a.result != 0 || wakeups == [] then (a.lock, a.result)
    else
      var again := Try(Run(a.lock, wakeups[0].others), t, how);
      if again.result == 1 then (again.lock, 1)
      else if wakeups[0].error == ETIMEDOUT then (again.lock, -1)
      else if wakeups[0].error > 0 then (again.lock, -2)
      else Continue(Try(again.lock, t, how), t, how, wakeups[1..])
  }

  function LoopDoubleReads(a: Attempt, t: ThreadId, how: Access, wakeups: seq<Wakeup>): nat
    decreases wakeups
  {
    if a.result != 0 || wakeups == [] then 0
    else
      var woken := Run(a.lock, wakeups[0].others);
      var again := Try(woken, t, how);
      var own := if how.ForRead? && IsDoubleRead(woken, Read(t)) then 1 else 0;
      var here := DoubleReads(a.lock, wakeups[0].others) + own;
      if again.result == 1 || wakeups[0].error > 0 then here
      else here + LoopDoubleReads(Try(again.lock, t, how), t, how, wakeups[1..])
  }

  /** What result 1 means: read access, or write access, or a reservation while there are readers. */
  ghost predicate Granted(l: Lock, t: ThreadId, how: Access) {
    if how.ForRead? then t in Readers(l) else Writers(l) == {t} || (Reservers(l) == {t} && l.value >= READ)
  }

  /** A failed attempt for read changes nothing; one for write leaves the lock reserved by somebody. */
  lemma TryKeepsAccounts(l: Lock, leaked: nat, t: ThreadId, how: Access)
    requires Accounts(l, leaked)
    ensures var double := if how.ForRead? && IsDoubleRead(l, Read(t)) then 1 else 0;
            Accounts(Try(l, t, how).lock, leaked + double)
    ensures var a := Try(l, t, how);
            && (a.result == 0 || a.result == 1)
            && (a.result == 1 ==> Granted(a.lock, t, how))
            && (a.result == 0 && how.ForWrite? ==> Reservers(a.lock) != {})
            && (a.result == 0 && how.ForRead? ==> a.lock == l && !IsDoubleRead(l, Read(t)))
  {
    Cardinalities(l, leaked);
    if how.ForRead? {
      ReadKeepsAccounts(l, leaked, t);
    } else {
      WriteKeepsAccounts(l, leaked, t);
      Cardinalities(TryWrite(l, t).lock, leaked);
      if TryWrite(l, t).result == 1 { GrantedWrite(l, leaked, t); }
    }
  }

  /**
   Through the whole wait loop, with any steps of other threads between the attempts, the books stay right, and
   result 1 means what a single granted attempt means.
   */
  lemma {:induction false} WaitLoopOutcome(a: Attempt, leaked: nat, t: ThreadId, how: Access, wakeups: seq<Wakeup>)
    requires Accounts(a.lock, leaked) && a.result == 0
    ensures var (l, result) := Continue(a, t, how, wakeups);
            && Accounts(l, leaked + LoopDoubleReads(a, t, how, wakeups))
            && (result == 1 ==> Granted(l, t, how))
    decreases wakeups
  {
    if wakeups != [] {
      var others := wakeups[0].others;
      WokenAttempt(a.lock, leaked, t, how, others);
      var again := Try(Run(a.lock, others), t, how);
      if again.result == 0 && wakeups[0].error == 0 {
        WaitLoopOutcome(again, leaked + DoubleReads(a.lock, others), t, how, wakeups[1..]);
      }
    }
  }

  /** The attempt after a wakeup: the books stay right, and a failure stands when it is repeated. */
  lemma WokenAttempt(l: Lock, leaked: nat, t: ThreadId, how: Access, others: seq<Op>)
    requires Accounts(l, leaked)
    ensures var woken := Run(l, others); var again := Try(woken, t, how);
            var own := if how.ForRead? && IsDoubleRead(woken, Read(t)) then 1 else 0;
            && Accounts(again.lock, leaked + DoubleReads(l, others) + own)
            && (again.result == 1 ==> Granted(again.lock, t, how))
            && (again.result != 1 ==> again.result == 0 && own == 0 && Try(again.lock, t, how) == again)
  {
    var woken, before := Run(l, others), leaked + DoubleReads(l, others);
    RunKeepsAccounts(l, leaked, others);
    TryKeepsAccounts(woken, before, t, how);
    if Try(woken, t, how).result == 0 { SecondAttempt(woken, before, t, how); }
  }

  /** A failed attempt that is repeated fails again and changes nothing more. */
  lemma SecondAttempt(l: Lock, leaked: nat, t: ThreadId, how: Access)
    requires Accounts(l, leaked) && Try(l, t, how).result == 0
    ensures Try(Try(l, t, how).lock, t, how) == Try(l, t, how)
  {
    Cardinalities(l, leaked);
    if how.ForWrite? && Reservers(l) == {} {
      ReserveKeepsAccounts(l, leaked, t);
      Cardinalities(Reserve(l, t), leaked);
    }
  }

  // ---- a wait that fails ----

  /** A write attempt that fails leaves the thread with the reservation exactly when no other thread has it. */
  lemma FailedWrite(l: Lock, leaked: nat, t: ThreadId)
    requires Accounts(l, leaked) && TryWrite(l, t).result == 0
    ensures var l' := TryWrite(l, t).lock;
            && (t in Reservers(l') <==> Reservers(l) <= {t})
            && Readers(l') == Readers(l) && Writers(l') == Writers(l)
  {
    Cardinalities(l, leaked);
    if Reservers(l) == {} { ReserveKeepsAccounts(l, leaked, t); }
  }

  /** The lock as the last attempt of the loop finds it. */
  function BeforeLast(a: Attempt, t: ThreadId, how: Access, wakeups: seq<Wakeup>): Lock
    decreases wakeups
  {
    if a.result != 0 || wakeups == [] then a.lock
    else
      var woken := Run(a.lock, wakeups[0].others);
      var again := Try(woken, t, how);
      if again.result == 1 || wakeups[0].error > 0 then woken
      else BeforeLast(Try(again.lock, t, how), t, how, wakeups[1..])
  }

  /**
   A wait that ends with -1 or -2 does not undo its last attempt. A failed wait for read leaves the lock as the attempt
   found it; a failed wait for write leaves the thread with the reservation exactly when no other thread had it.
   */
  lemma {:induction false} FailedWaitKeepsReservation(
    a: Attempt, leaked: nat, t: ThreadId, how: Access, wakeups: seq<Wakeup>)
    requires Accounts(a.lock, leaked) && a.result == 0 && Continue(a, t, how, wakeups).1 < 0
    ensures var (l, _) := Continue(a, t, how, wakeups); var before := BeforeLast(a, t, how, wakeups);
            && (how.ForRead? ==> l == before)
            && (how.ForWrite? ==> (t in Reservers(l) <==> Reservers(before) <= {t}) && Reservers(l) != {})
    decreases wakeups
  {
    var woken := Run(a.lock, wakeups[0].others);
    var before := leaked + DoubleReads(a.lock, wakeups[0].others);
    RunKeepsAccounts(a.lock, leaked, wakeups[0].others);
    TryKeepsAccounts(woken, before, t, how);
    if wakeups[0].error > 0 {
      if how.ForWrite? { FailedWrite(woken, before, t); }
    } else {
      SecondAttempt(woken, before, t, how);
      FailedWaitKeepsReservation(Try(woken, t, how), before, t, how, wakeups[1..]);
    }
  }

  /**
   Thread 1 writes; thread 2 waits for write access, the wait fails with any error, and thread 2 still holds the
   reservation that shuts out others, also after thread 1 has released.
   */
  lemma FailedButReserved(error: nat)
    requires error > 0
    ensures var l := Step(UNLOCKED, Write(1));
            var (l', result) := WaitLoop(l, 2, ForWrite, [Wakeup([], error)]);
            && result == (if error == ETIMEDOUT then -1 else -2)
            && Reservers(l') == {2} && TryRead(Release(l', 1), 3).result == 0
  {
    var l := Step(UNLOCKED, Write(1));
    assert l == Lock(2, 1, 0, map[1 := Flags(false, false, true)]);
    var a := TryWrite(l, 2);
    assert a == Attempt(Lock(3, 1, 2, map[1 := Flags(false, false, true), 2 := Flags(false, true, false)]), 0);
    assert Run(a.lock, []) == a.lock && TryWrite(a.lock, 2) == a;
    assert Reservers(a.lock) == {2};
    assert Release(a.lock, 1).value == 1;
  }

  // ---- the wait loop, attempt by attempt ----

  /** The lock that attempt k finds, when all attempts before it failed: other threads run after each of those. */
  function LockAt(l: Lock, t: ThreadId, how: Access, wakeups: seq<Wakeup>, k: nat): Lock
    requires k <= |wakeups|
  {
    if k == 0 then l else Run(Try(LockAt(l, t, how, wakeups, k - 1), t, how).lock, wakeups[k - 1].others)
  }

  /** Attempts 0 to k - 1 fail, and none of the wakeups before the last of them brings an error. */
  ghost predicate StillWaits(l: Lock, t: ThreadId, how: Access, wakeups: seq<Wakeup>, k: nat)
    requires k <= |wakeups| + 1
  {
    && (forall j :: 0 <= j < k ==> Try(LockAt(l, t, how, wakeups, j), t, how).result == 0)
    && (forall j :: 0 <= j < k - 1 ==> wakeups[j].error == 0)
  }

  lemma {:induction false} LockAtNext(l: Lock, t: ThreadId, how: Access, wakeups: seq<Wakeup>, k: nat)
    requires 0 < k <= |wakeups|
    ensures LockAt(l, t, how, wakeups, k) ==
            LockAt(Run(Try(l, t, how).lock, wakeups[0].others), t, how, wakeups[1..], k - 1)
  {
    if k > 1 {
      LockAtNext(l, t, how, wakeups, k - 1);
      assert wakeups[1..][k - 2] == wakeups[k - 1];
    }
  }

  ghost predicate GrantedAt(l: Lock, t: ThreadId, how: Access, wakeups: seq<Wakeup>, k: nat) {
    k <= |wakeups| && StillWaits(l, t, how, wakeups, k) && Try(LockAt(l, t, how, wakeups, k), t, how).result == 1
  }

  /** Attempt k fails too, after a wakeup with this error. */
  ghost predicate FailsAt(l: Lock, t: ThreadId, how: Access, wakeups: seq<Wakeup>, k: nat, error: nat) {
    && 0 < k <= |wakeups| && StillWaits(l, t, how, wakeups, k)
    && Try(LockAt(l, t, how, wakeups, k), t, how).result == 0 && wakeups[k - 1].error == error > 0
  }

  /** The loop with its two attempts per wakeup is one attempt, and then the loop from what the next attempt finds. */
  lemma WaitLoopStep(l: Lock, leaked: nat, t: ThreadId, how: Access, wakeups: seq<Wakeup>)
    requires Accounts(l, leaked) && Try(l, t, how).result == 0 && wakeups != []
    ensures var l1 := Run(Try(l, t, how).lock, wakeups[0].others);
            && Accounts(l1, leaked + DoubleReads(Try(l, t, how).lock, wakeups[0].others))
            && WaitLoop(l, t, how, wakeups).1 ==
                 if wakeups[0].error > 0 && Try(l1, t, how).result == 0 then
                   (if wakeups[0].error == ETIMEDOUT then -1 else -2)
                 else WaitLoop(l1, t, how, wakeups[1..]).1
  {
    TryKeepsAccounts(l, leaked, t, how);
    var l0 := Try(l, t, how).lock;
    var l1 := Run(l0, wakeups[0].others);
    var before := leaked + DoubleReads(l0, wakeups[0].others);
    RunKeepsAccounts(l0, leaked, wakeups[0].others);
    TryKeepsAccounts(l1, before, t, how);
    if Try(l1, t, how).result == 0 { SecondAttempt(l1, before, t, how); }
  }

  lemma StillWaitsNext(l: Lock, t: ThreadId, how: Access, wakeups: seq<Wakeup>, k: nat)
    requires 0 < k <= |wakeups|
    ensures StillWaits(l, t, how, wakeups, k) <==>
            && Try(l, t, how).result == 0 && (k > 1 ==> wakeups[0].error == 0)
            && StillWaits(Run(Try(l, t, how).lock, wakeups[0].others), t, how, wakeups[1..], k - 1)
  {
    var l1, rest := Run(Try(l, t, how).lock, wakeups[0].others), wakeups[1..];
    forall j | 0 < j < k
      ensures LockAt(l, t, how, wakeups, j) == LockAt(l1, t, how, rest, j - 1) && rest[j - 1] == wakeups[j]
    {
      LockAtNext(l, t, how, wakeups, j);
    }
    assert LockAt(l, t, how, wakeups, 0) == l;
    if StillWaits(l, t, how, wakeups, k) {
      forall j | 0 <= j < k - 1 ensures Try(LockAt(l1, t, how, rest, j), t, how).result == 0 {
        assert LockAt(l, t, how, wakeups, j + 1) == LockAt(l1, t, how, rest, j);
      }
    }
  }

  lemma NextIndex(l: Lock, t: ThreadId, how: Access, wakeups: seq<Wakeup>, k: nat, error: nat)
    requires 0 < k <= |wakeups| && Try(l, t, how).result == 0
    ensures var l1, rest := Run(Try(l, t, how).lock, wakeups[0].others), wakeups[1..];
            && (GrantedAt(l, t, how, wakeups, k) <==>
                  (k > 1 ==> wakeups[0].error == 0) && GrantedAt(l1, t, how, rest, k - 1))
            && (k > 1 ==>
                  (FailsAt(l, t, how, wakeups, k, error) <==>
                     wakeups[0].error == 0 && FailsAt(l1, t, how, rest, k - 1, error)))
  {
    LockAtNext(l, t, how, wakeups, k);
    StillWaitsNext(l, t, how, wakeups, k);
    if k > 1 { assert wakeups[1..][k - 2] == wakeups[k - 1]; }
  }

  ghost predicate SomeGranted(l: Lock, t: ThreadId, how: Access, wakeups: seq<Wakeup>) {
    exists k: nat :: GrantedAt(l, t, how, wakeups, k)
  }

  ghost predicate SomeFails(l: Lock, t: ThreadId, how: Access, wakeups: seq<Wakeup>, timeout: bool) {
    exists k: nat, error: nat :: FailsAt(l, t, how, wakeups, k, error) && timeout == (error == ETIMEDOUT)
  }

  /** The first attempt is granted. */
  lemma AtOnce(l: Lock, t: ThreadId, how: Access, wakeups: seq<Wakeup>)
    requires Try(l, t, how).result == 1
    ensures SomeGranted(l, t, how, wakeups)
    ensures !SomeFails(l, t, how, wakeups, true) && !SomeFails(l, t, how, wakeups, false)
  {
    assert LockAt(l, t, how, wakeups, 0) == l;
    assert GrantedAt(l, t, how, wakeups, 0);
    forall k: nat, error: nat ensures !FailsAt(l, t, how, wakeups, k, error) {
      if 0 < k <= |wakeups| { assert LockAt(l, t, how, wakeups, 0) == l; }
    }
  }

  /** The first attempt fails and the first wakeup brings an error, with a second failure. */
  lemma FailsFirst(l: Lock, t: ThreadId, how: Access, wakeups: seq<Wakeup>)
    requires Try(l, t, how).result == 0 && wakeups != [] && wakeups[0].error > 0
    requires Try(Run(Try(l, t, how).lock, wakeups[0].others), t, how).result == 0
    ensures !SomeGranted(l, t, how, wakeups)
    ensures SomeFails(l, t, how, wakeups, wakeups[0].error == ETIMEDOUT)
    ensures !SomeFails(l, t, how, wakeups, wakeups[0].error != ETIMEDOUT)
  {
    var l1 := Run(Try(l, t, how).lock, wakeups[0].others);
    assert LockAt(l, t, how, wakeups, 0) == l && LockAt(l, t, how, wakeups, 1) == l1;
    assert FailsAt(l, t, how, wakeups, 1, wakeups[0].error);
    forall k: nat ensures !GrantedAt(l, t, how, wakeups, k) {
      if 1 < k <= |wakeups| { NextIndex(l, t, how, wakeups, k, 1); }
    }
    forall k: nat, error: nat | FailsAt(l, t, how, wakeups, k, error) ensures error == wakeups[0].error {
      if k > 1 { NextIndex(l, t, how, wakeups, k, error); }
    }
  }

  /** The first attempt fails and the loop goes on: it comes to what it comes to from there. */
  lemma GoesOn(l: Lock, t: ThreadId, how: Access, wakeups: seq<Wakeup>)
    requires Try(l, t, how).result == 0 && wakeups != []
    requires wakeups[0].error > 0 ==> Try(Run(Try(l, t, how).lock, wakeups[0].others), t, how).result == 1
    ensures var l1, rest := Run(Try(l, t, how).lock, wakeups[0].others), wakeups[1..];
            SomeGranted(l, t, how, wakeups) <==> SomeGranted(l1, t, how, rest)
  {
    var l1, rest := Run(Try(l, t, how).lock, wakeups[0].others), wakeups[1..];
    assert LockAt(l, t, how, wakeups, 0) == l && LockAt(l1, t, how, rest, 0) == l1;
    if SomeGranted(l, t, how, wakeups) {
      var k: nat :| GrantedAt(l, t, how, wakeups, k);
      NextIndex(l, t, how, wakeups, k, 1);
      assert GrantedAt(l1, t, how, rest, k - 1);
    }
    if SomeGranted(l1, t, how, rest) {
      var k: nat :| GrantedAt(l1, t, how, rest, k);
      NextIndex(l, t, how, wakeups, k + 1, 1);
      assert GrantedAt(l, t, how, wakeups, k + 1);
    }
  }

  lemma FailsLater(l: Lock, t: ThreadId, how: Access, wakeups: seq<Wakeup>, k: nat, error: nat)
    requires Try(l, t, how).result == 0 && wakeups != []
    requires wakeups[0].error > 0 ==> Try(Run(Try(l, t, how).lock, wakeups[0].others), t, how).result == 1
    ensures FailsAt(l, t, how, wakeups, k + 1, error) <==>
            FailsAt(Run(Try(l, t, how).lock, wakeups[0].others), t, how, wakeups[1..], k, error)
  {
    var l1 := Run(Try(l, t, how).lock, wakeups[0].others);
    if k == 0 {
      assert LockAt(l, t, how, wakeups, 0) == l;
      assert LockAt(l, t, how, wakeups, 1) == l1;
    } else if k < |wakeups| {
      NextIndex(l, t, how, wakeups, k + 1, error);
      assert LockAt(l1, t, how, wakeups[1..], 0) == l1;
    }
  }

  lemma GoesOnToFail(l: Lock, t: ThreadId, how: Access, wakeups: seq<Wakeup>, timeout: bool)
    requires Try(l, t, how).result == 0 && wakeups != []
    requires wakeups[0].error > 0 ==> Try(Run(Try(l, t, how).lock, wakeups[0].others), t, how).result == 1
    ensures var l1, rest := Run(Try(l, t, how).lock, wakeups[0].others), wakeups[1..];
            SomeFails(l, t, how, wakeups, timeout) <==> SomeFails(l1, t, how, rest, timeout)
  {
    var l1, rest := Run(Try(l, t, how).lock, wakeups[0].others), wakeups[1..];
    if SomeFails(l, t, how, wakeups, timeout) {
      var k: nat, error: nat :| FailsAt(l, t, how, wakeups, k, error) && timeout == (error == ETIMEDOUT);
      FailsLater(l, t, how, wakeups, k - 1, error);
      assert FailsAt(l1, t, how, rest, k - 1, error);
    }
    if SomeFails(l1, t, how, rest, timeout) {
      var k: nat, error: nat :| FailsAt(l1, t, how, rest, k, error) && timeout == (error == ETIMEDOUT);
      FailsLater(l, t, how, wakeups, k, error);
      assert FailsAt(l, t, how, wakeups, k + 1, error);
    }
  }

  /**
   The whole wait, attempt by attempt: it returns 1 exactly when some attempt is granted before a wakeup has brought an
   error without one, -1 exactly when the error that ends it is a timeout, and -2 exactly when it is another error.
   */
  lemma {:induction false} WaitLoopExactly(l: Lock, leaked: nat, t: ThreadId, how: Access, wakeups: seq<Wakeup>)
    requires Accounts(l, leaked)
    ensures var result := WaitLoop(l, t, how, wakeups).1;
            && (result == 1 <==> SomeGranted(l, t, how, wakeups))
            && (result == -1 <==> SomeFails(l, t, how, wakeups, true))
            && (result == -2 <==> SomeFails(l, t, how, wakeups, false))
    decreases wakeups
  {
    TryKeepsAccounts(l, leaked, t, how);
    if Try(l, t, how).result == 1 {
      AtOnce(l, t, how, wakeups);
    } else if wakeups == [] {
      assert LockAt(l, t, how, wakeups, 0) == l;
    } else {
      var l1 := Run(Try(l, t, how).lock, wakeups[0].others);
      WaitLoopStep(l, leaked, t, how, wakeups);
      if wakeups[0].error > 0 && Try(l1, t, how).result == 0 {
        FailsFirst(l, t, how, wakeups);
      } else {
        TryKeepsAccounts(l1, leaked + DoubleReads(Try(l, t, how).lock, wakeups[0].others), t, how);
        WaitLoopExactly(l1, leaked + DoubleReads(Try(l, t, how).lock, wakeups[0].others), t, how, wakeups[1..]);
        GoesOn(l, t, how, wakeups);
        GoesOnToFail(l, t, how, wakeups, true);
        GoesOnToFail(l, t, how, wakeups, false);
      }
    }
  }
}
