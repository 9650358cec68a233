/**
 The hash tables of pending requests: the one of SFTP requests, keyed by request id
 (src/sftp/request-hash.c), and the one of FUSE requests, keyed by unique (src/interface/fuse.c).
 Both have 64 rows of lists. A table behaves as one list of all pending requests in the order in
 which they were added; row b is the part of that list whose keys are b modulo 64.
 */
module RequestTable {
  import opened Options
  import opened Sequences

  const TABLE_SIZE := 64

  /** The elements of s that satisfy p, in the same order. */
  function Filter<T>(s: seq<T>, p: T -> bool): seq<T> {
    if s == [] then [] else (if p(s[0]) then [s[0]] else []) + Filter(s[1..], p)
  }

  function InRow<T>(key: T -> nat, b: nat): T -> bool { x => key(x) % TABLE_SIZE == b }

  function HasKey<T>(key: T -> nat, k: nat): T -> bool { x => key(x) == k }

  function Row<T>(pending: seq<T>, key: T -> nat, b: nat): seq<T> { Filter(pending, InRow(key, b)) }

  /** The list without its first element equal to x; removing an element that is not linked does nothing. */
  function Without<T(==)>(s: seq<T>, x: T): seq<T> {
    if s == [] then [] else if s[0] == x then s[1..] else [s[0]] + Without(s[1..], x)
  }

  /** The earliest added element that satisfies p. */
  function First<T>(s: seq<T>, p: T -> bool): Option<T> {
    if s == [] then None else if p(s[0]) then Some(s[0]) else First(s[1..], p)
  }

  // ---- rows and the flat list ----

  lemma {:induction false} FilterAppend<T>(s: seq<T>, t: seq<T>, p: T -> bool)
    ensures Filter(s + t, p) == Filter(s, p) + Filter(t, p)
  {
    if s == [] {
      assert s + t == t;
    } else {
      FilterAppend(s[1..], t, p);
      assert (s + t)[0] == s[0] && (s + t)[1..] == s[1..] + t;
      Regroup(if p(s[0]) then [s[0]] else [], Filter(s[1..], p), Filter(t, p));
    }
  }

  lemma {:induction false} FilterMember<T>(s: seq<T>, p: T -> bool, x: T)
    ensures x in Filter(s, p) <==> x in s && p(x)
  {
    if s != [] {
      assert s == [s[0]] + s[1..];
      FilterMember(s[1..], p, x);
    }
  }

  /** The first match is found in any part of the list that keeps all matches. */
  lemma {:induction false} FirstInFilter<T>(s: seq<T>, p: T -> bool, q: T -> bool)
    requires forall x <- s :: q(x) ==> p(x)
    ensures First(Filter(s, p), q) == First(s, q)
  {
    if s != [] {
      FirstInFilter(s[1..], p, q);
      var tail := Filter(s[1..], p);
      assert ([s[0]] + tail)[1..] == tail;
      assert p(s[0]) ==> Filter(s, p) == [s[0]] + tail;
      assert !p(s[0]) ==> Filter(s, p) == tail;
    }
  }

  lemma {:induction false} WithoutInFilter<T>(s: seq<T>, p: T -> bool, x: T)
    ensures Filter(Without(s, x), p) == if p(x) then Without(Filter(s, p), x) else Filter(s, p)
  {
    if s != [] && s[0] != x {
      WithoutInFilter(s[1..], p, x);
      var tail := Without(s[1..], x);
      assert Without(s, x) == [s[0]] + tail;
      assert ([s[0]] + tail)[1..] == tail;
      var kept := Filter(s[1..], p);
      assert ([s[0]] + kept)[1..] == kept;
      assert Filter(s, p) == if p(s[0]) then [s[0]] + kept else kept;
    }
  }

  lemma {:induction false} WithoutAbsent<T>(s: seq<T>, x: T)
    requires x !in s
    ensures Without(s, x) == s
  {
    if s != [] { WithoutAbsent(s[1..], x); }
  }

  lemma {:induction false} WithoutMembers<T>(s: seq<T>, x: T, y: T)
    ensures y != x ==> (y in Without(s, x) <==> y in s)
    ensures y in Without(s, x) ==> y in s
    ensures x in s ==> |Without(s, x)| == |s| - 1
  {
    if s != [] {
      assert s == [s[0]] + s[1..];
      WithoutMembers(s[1..], x, y);
    }
  }

  lemma {:induction false} WithoutDistinct<T>(s: seq<T>, x: T)
    requires Distinct(s)
    ensures Distinct(Without(s, x)) && x !in Without(s, x)
  {
    if s != [] {
      if s[0] == x {
        assert forall i :: 0 <= i < |s[1..]| ==> s[1..][i] == s[i + 1];
      } else {
        WithoutDistinct(s[1..], x);
        var tail := Without(s[1..], x);
        forall i | 0 <= i < |tail| ensures tail[i] != s[0] {
          WithoutMembers(s[1..], x, tail[i]);
        }
        assert Without(s, x) == [s[0]] + tail;
      }
    }
  }

  lemma {:induction false} FirstMatches<T>(s: seq<T>, p: T -> bool)
    ensures First(s, p).Some? ==> First(s, p).value in s && p(First(s, p).value)
    ensures First(s, p).None? ==> forall x <- s :: !p(x)
  {
    if s != [] {
      assert s == [s[0]] + s[1..];
      FirstMatches(s[1..], p);
    }
  }

  /** The earliest element that satisfies p is at index i. */
  ghost predicate EarliestAt<T>(s: seq<T>, p: T -> bool, i: nat) {
    i < |s| && p(s[i]) && forall j :: 0 <= j < i ==> !p(s[j])
  }

  lemma {:induction false} FirstExactly<T>(s: seq<T>, p: T -> bool) returns (i: nat)
    ensures First(s, p).Some? ==> EarliestAt(s, p, i) && First(s, p) == Some(s[i])
    ensures First(s, p).None? ==> forall j :: 0 <= j < |s| ==> !p(s[j])
  {
    i := 0;
    if s != [] && !p(s[0]) {
      var k := FirstExactly(s[1..], p);
      assert forall j :: 0 <= j < |s| - 1 ==> s[1..][j] == s[j + 1];
      i := k + 1;
      if First(s, p).None? {
        forall j | 0 <= j < |s| ensures !p(s[j]) {
          if j > 0 { assert !p(s[1..][j - 1]); }
        }
      }
    }
  }

  lemma {:induction false} WithoutAt<T>(s: seq<T>, i: nat)
    requires i < |s| && forall j :: 0 <= j < i ==> s[j] != s[i]
    ensures Without(s, s[i]) == s[..i] + s[i + 1..]
  {
    if i == 0 {
      assert s[..0] + s[1..] == s[1..];
    } else {
      assert forall j :: 0 <= j < |s| - 1 ==> s[1..][j] == s[j + 1];
      WithoutAt(s[1..], i - 1);
      assert s[..i] + s[i + 1..] == [s[0]] + (s[1..][..i - 1] + s[1..][i..]);
    }
  }

  // ---- the table of SFTP requests ----

  /** The rows of the table, with the flat list they stand for. */
  class Table<T(==)> {
    const key: T -> nat
    const rows: array<seq<T>>
    ghost var pending: seq<T>

    ghost predicate Valid()
      reads this, rows
    {
      rows.Length == TABLE_SIZE && forall b :: 0 <= b < TABLE_SIZE ==> rows[b] == Row(pending, key, b)
    }

    constructor (key: T -> nat)
      ensures Valid() && fresh(rows) && this.key == key && pending == []
    {
      this.key := key;
      this.rows := new seq<T>[TABLE_SIZE](_ => []);
      this.pending := [];
    }

    method Add(x: T)
      requires Valid() && x !in pending
      modifies this, rows
      ensures Valid() && pending == old(pending) + [x]
    {
      var hash := key(x) % TABLE_SIZE;
      rows[hash] := rows[hash] + [x];
      pending := pending + [x];
      forall b | 0 <= b < TABLE_SIZE ensures rows[b] == Row(pending, key, b) {
        FilterAppend(old(pending), [x], InRow(key, b));
        assert Filter([x], InRow(key, b)) == if b == hash then [x] else [];
      }
    }

    method Remove(x: T)
      requires Valid()
      modifies this, rows
      ensures Valid() && pending == Without(old(pending), x)
      ensures x !in old(pending) ==> pending == old(pending) && rows[..] == old(rows[..])
    {
      if x !in pending { NotInRow(x); }
      var hash := key(x) % TABLE_SIZE;
      rows[hash] := Without(rows[hash], x);
      pending := Without(pending, x);
      forall b | 0 <= b < TABLE_SIZE ensures rows[b] == Row(pending, key, b) {
        WithoutInFilter(old(pending), InRow(key, b), x);
      }
    }

    lemma NotInRow(x: T)
      requires Valid() && x !in pending
      ensures Without(pending, x) == pending
      ensures Without(rows[key(x) % TABLE_SIZE], x) == rows[key(x) % TABLE_SIZE]
    {
      var b := key(x) % TABLE_SIZE;
      FilterMember(pending, InRow(key, b), x);
      WithoutAbsent(pending, x);
      WithoutAbsent(rows[b], x);
    }

    /** x is the earliest request with this id, at index i, and it alone was taken out. */
    ghost predicate TakenFrom(before: seq<T>, after: seq<T>, id: nat, x: T, i: nat)
    {
      && i < |before| && before[i] == x && key(x) == id && after == before[..i] + before[i + 1..]
      && forall j :: 0 <= j < i ==> key(before[j]) != id
    }

    /** Find the earliest pending request with this id and take it out of the table. */
    method Lookup(id: nat) returns (r: Option<T>)
      requires Valid()
      modifies this, rows
      ensures Valid()
      ensures r == First(old(pending), HasKey(key, id))
      ensures pending == if r.Some? then Without(old(pending), r.value) else old(pending)
      ensures r.None? ==> forall j :: 0 <= j < |old(pending)| ==> key(old(pending)[j]) != id
      ensures r.Some? ==> exists i :: TakenFrom(old(pending), pending, id, r.value, i)
    {
      ghost var at := FirstExactly(pending, HasKey(key, id));
      ghost var was := pending;
      var hash := id % TABLE_SIZE;
      var row := rows[hash];
      FirstInFilter(pending, InRow(key, hash), HasKey(key, id));
      var i := 0;
      while i < |row| && key(row[i]) != id
        invariant i <= |row|
        invariant First(row[i..], HasKey(key, id)) == First(row, HasKey(key, id))
      {
        assert row[i..][1..] == row[i + 1..];
        i := i + 1;
      }
      if i < |row| {
        r := Some(row[i]);
        Remove(row[i]);
        WithoutAt(was, at);
        assert TakenFrom(was, pending, id, r.value, at);
      } else {
        r := None;
      }
    }
  }

  // ---- the table of FUSE requests ----

  class FuseRequest {
    const unique: nat
    const interface: nat
    var interrupted: bool

    constructor (unique: nat, interface: nat)
      ensures this.unique == unique && this.interface == interface && !interrupted
    {
      this.unique := unique;
      this.interface := interface;
      this.interrupted := false;
    }
  }

  function UniqueOf(r: FuseRequest): nat { r.unique }

  function Interrupts(unique: nat, interface: nat): FuseRequest -> bool {
    (r: FuseRequest) => r.unique == unique && r.interface == interface
  }

  class FuseInterface {
    const interface: nat
    const table: Table<FuseRequest>

    ghost predicate Valid()
      reads this, table, table.rows
    {
      table.Valid() && table.key == UniqueOf
    }

    constructor (interface: nat)
      ensures Valid() && fresh(table) && fresh(table.rows)
      ensures this.interface == interface && table.pending == []
    {
      this.interface := interface;
      this.table := new Table(UniqueOf);
    }

    /** The request an interrupt for `unique` is meant for. */
    ghost function Target(unique: nat): Option<FuseRequest>
      reads this, table, table.rows
      requires Valid()
    {
      First(table.pending, Interrupts(unique, interface))
    }

    /** The earliest pending request with this unique on this interface is at index i. */
    ghost predicate Meant(unique: nat, i: nat)
      reads this, table
    {
      && i < |table.pending| && table.pending[i].unique == unique && table.pending[i].interface == interface
      && forall j :: 0 <= j < i ==> !(table.pending[j].unique == unique && table.pending[j].interface == interface)
    }

    lemma TargetExactly(unique: nat)
      requires Valid()
      ensures Target(unique).Some? ==> exists i: nat :: Meant(unique, i) && Target(unique) == Some(table.pending[i])
      ensures Target(unique).None? ==> forall i :: 0 <= i < |table.pending| ==>
                !(table.pending[i].unique == unique && table.pending[i].interface == interface)
    {
      var i := FirstExactly(table.pending, Interrupts(unique, interface));
      if Target(unique).Some? { assert Meant(unique, i); }
    }

    /** An interrupt marks the earliest pending request with this unique, and no other request. */
    method SignalInterrupted(unique: nat)
      requires Valid()
      modifies table.pending
      ensures Valid() && table.pending == old(table.pending)
      ensures Target(unique).Some? ==> Target(unique).value.interrupted
      ensures forall r: FuseRequest <- table.pending ::
                Target(unique) != Some(r) ==> r.interrupted == old(r.interrupted)
    {
      var target := SearchRow(unique);
      if target.Some? { target.value.interrupted := true; }
    }

    /** The first match in the row of the unique is the request the interrupt is meant for. */
    method SearchRow(unique: nat) returns (r: Option<FuseRequest>)
      requires Valid()
      ensures r == Target(unique) && (r.Some? ==> r.value in table.pending)
    {
      var hash := unique % TABLE_SIZE;
      var row := table.rows[hash];
      FirstInFilter(table.pending, InRow(table.key, hash), Interrupts(unique, interface));
      FirstMatches(table.pending, Interrupts(unique, interface));
      for i := 0 to |row|
        invariant First(row[i..], Interrupts(unique, interface)) == First(row, Interrupts(unique, interface))
      {
        assert row[i..][1..] == row[i + 1..];
        if row[i].unique == unique && row[i].interface == interface { return Some(row[i]); }
      }
      return None;
    }
  }
}
