/**
 SFTP protocol extensions: the names the server announces in its VERSION message
 (src/sftp/init.c) and the ones used because client and server both know them
 (src/sftp/extensions.c).
 */
module Extensions {
  import opened Options
  import opened Sequences
  import opened Wire

  type Name = seq<byte>

  /** One announcement of the server. */
  datatype Announcement = Announcement(name: Name, data: seq<byte>)

  /** An entry of the lookup array; the entry at index 0 stands for "unsupported". */
  datatype Extension = Unsupported | Shared(server: Announcement)

  // ---- the list of announcements ----

  function Names(es: seq<Announcement>): set<Name> { set e | e in es :: e.name }

  /** The announcements in order, each name once, with the data it was announced with first. */
  function FirstOccurrences(es: seq<Announcement>): seq<Announcement> {
    if es == [] then []
    else
      var init, last := es[..|es| - 1], es[|es| - 1];
      FirstOccurrences(init) + if last.name in Names(init) then [] else [last]
  }

  lemma NamesAppend(es: seq<Announcement>, e: Announcement)
    ensures Names(es + [e]) == Names(es) + {e.name}
  {
    forall n ensures n in Names(es + [e]) <==> n in Names(es) + {e.name} {
      if n in Names(es) + {e.name} {
        if n == e.name { assert e in es + [e]; } else { var x :| x in es && x.name == n; assert x in es + [e]; }
      }
    }
  }

  lemma {:induction false} FirstOccurrencesNames(es: seq<Announcement>)
    ensures Names(FirstOccurrences(es)) == Names(es)
    ensures forall i, j :: 0 <= i < j < |FirstOccurrences(es)| ==>
                             FirstOccurrences(es)[i].name != FirstOccurrences(es)[j].name
  {
    if es != [] {
      var init, last := es[..|es| - 1], es[|es| - 1];
      var firsts := FirstOccurrences(init);
      FirstOccurrencesNames(init);
      assert es == init + [last];
      NamesAppend(init, last);
      NamesAppend(firsts, last);
      if last.name in Names(init) {
        assert FirstOccurrences(es) == firsts;
      } else {
        forall i | 0 <= i < |firsts| ensures firsts[i].name != last.name {
          assert firsts[i].name in Names(firsts);
        }
      }
    }
  }

  // ---- the shared extensions ----

  function FindName(es: seq<Announcement>, name: Name): Option<Announcement> {
    if es == [] then None else if es[0].name == name then Some(es[0]) else FindName(es[1..], name)
  }

  lemma {:induction false} FindNameFinds(es: seq<Announcement>, name: Name)
    ensures FindName(es, name).Some? <==> name in Names(es)
    ensures FindName(es, name).Some? ==> FindName(es, name).value in es && FindName(es, name).value.name == name
  {
    if es != [] {
      assert es == [es[0]] + es[1..];
      FindNameFinds(es[1..], name);
      assert es[0].name in Names(es);
      assert name in Names(es) ==> name == es[0].name || name in Names(es[1..]);
    }
  }

  /** What is found is the first announcement of the name. */
  lemma {:induction false} FindNameFirst(es: seq<Announcement>, k: nat)
    requires k < |es| && forall j :: 0 <= j < k ==> es[j].name != es[k].name
    ensures FindName(es, es[k].name) == Some(es[k])
  {
    if k > 0 {
      assert forall j :: 0 <= j < k ==> es[1..][j] == es[j + 1];
      FindNameFirst(es[1..], k - 1);
    }
  }

  lemma {:induction false} FindNameAppend(es: seq<Announcement>, e: Announcement, name: Name)
    ensures FindName(es + [e], name)
         == if FindName(es, name).Some? then FindName(es, name) else if e.name == name then Some(e) else None
  {
    if es == [] {
      assert (es + [e])[1..] == [];
    } else {
      assert (es + [e])[1..] == es[1..] + [e];
      FindNameAppend(es[1..], e, name);
    }
  }

  /** Every name keeps the data it was announced with first. */
  lemma {:induction false} FirstOccurrencesFound(es: seq<Announcement>, name: Name)
    ensures FindName(FirstOccurrences(es), name) == FindName(es, name)
  {
    if es != [] {
      var init, last := es[..|es| - 1], es[|es| - 1];
      assert es == init + [last];
      FirstOccurrencesFound(init, name);
      PlusNothing(FirstOccurrences(init));
      FindNameFinds(init, last.name);
      FindNameAppend(init, last, name);
      FindNameAppend(FirstOccurrences(init), last, name);
    }
  }

  /** And its place: further announcements only add at the end. */
  lemma {:induction false} FirstOccurrencesGrow(es: seq<Announcement>, more: seq<Announcement>)
    ensures FirstOccurrences(es) <= FirstOccurrences(es + more)
    decreases more
  {
    if more == [] {
      assert es + more == es;
    } else {
      var init := more[..|more| - 1];
      assert (es + more)[..|es + more| - 1] == es + init;
      FirstOccurrencesGrow(es, init);
    }
  }

  /** The names of the client that the server announced, in the order of the client. */
  function SharedNames(client: seq<Name>, server: set<Name>): seq<Name> {
    if client == [] then []
    else SharedNames(client[..|client| - 1], server)
         + if client[|client| - 1] in server then [client[|client| - 1]] else []
  }

  lemma {:induction false} SharedNamesAre(client: seq<Name>, server: set<Name>, n: Name)
    ensures n in SharedNames(client, server) <==> n in client && n in server
  {
    if client != [] {
      SharedNamesAre(client[..|client| - 1], server, n);
      assert client == client[..|client| - 1] + [client[|client| - 1]];
    }
  }

  /** The order is that of the client, whatever way its list is cut in two. */
  lemma {:induction false} SharedInOrder(front: seq<Name>, back: seq<Name>, server: set<Name>)
    ensures SharedNames(front + back, server) == SharedNames(front, server) + SharedNames(back, server)
    ensures back != [] ==> SharedNames([back[0]], server) == if back[0] in server then [back[0]] else []
    decreases back
  {
    if back == [] {
      assert front + back == front;
    } else {
      var init := back[..|back| - 1];
      assert (front + back)[..|front + back| - 1] == front + init;
      SharedInOrder(front, init, server);
      var one: seq<Name> := [back[0]];
      assert one[..0] == [];
    }
  }

  /** The entries are "unsupported" and then, for each name, what the server announced under it. */
  predicate EntriesFor(entries: seq<Extension>, names: seq<Name>, server: seq<Announcement>) {
    && |entries| == 1 + |names| && entries[0] == Unsupported
    && forall i :: 1 <= i < |entries| ==>
         entries[i].Shared? && entries[i].server.name == names[i - 1] && entries[i].server in server
  }

  /** The lookup array: nothing at all, or the entries for the shared names. */
  predicate LookupFor(lookup: seq<Extension>, names: seq<Name>, server: seq<Announcement>) {
    if names == [] then lookup == [] else EntriesFor(lookup, names, server)
  }

  // ---- the extensions of one SFTP client ----

  const CREATED := 1
  const EXIST := 2
  const ERROR := 20

  /** Which of the allocations for an announcement succeed: the entry, the copy of the name, the copy of the data. */
  datatype Memory = Memory(entry: bool, name: bool, data: bool)

  const PLENTY := Memory(true, true, true)

  function Stored(name: Name, data: seq<byte>, memory: Memory): Announcement {
    Announcement(if memory.name then name else [], if memory.data then data else [])
  }

  ghost predicate Enough(memory: nat -> bool, n: nat) { forall k: nat :: k < n ==> memory(k) }

  /** One for "unsupported", one for each shared name, and one for the array when there are such names. */
  function Allocations(shared: nat): nat { if shared == 0 then 1 else shared + 2 }

  lemma {:induction false} SharedGrows(client: seq<Name>, server: set<Name>, i: nat)
    requires i <= |client|
    ensures |SharedNames(client[..i], server)| <= |SharedNames(client, server)|
  {
    if i == |client| {
      assert client[..i] == client;
    } else {
      var init := client[..|client| - 1];
      assert init[..i] == client[..i];
      SharedGrows(init, server, i);
    }
  }

  class SftpExtensions {
    const client: seq<Name>
    var server: seq<Announcement>
    var supported: seq<Extension>
    var lookup: seq<Extension>

    constructor (client: seq<Name>)
      ensures this.client == client && server == [] && supported == [] && lookup == []
    {
      this.client := client;
      server, supported, lookup := [], [], [];
    }

    method FindServer(name: Name) returns (found: Option<Announcement>)
      ensures found == FindName(server, name)
    {
      var i := 0;
      while i < |server|
        invariant i <= |server|
        invariant FindName(server[i..], name) == FindName(server, name)
      {
        if server[i].name == name {
          return Some(server[i]);
        }
        assert server[i..][1..] == server[i + 1..];
        i := i + 1;
      }
      found := None;
    }

    /**
     Add an announcement unless the name is known. Without memory for an entry nothing changes; without memory for a
     copy of the name or the data the entry is added with that part empty.
     */
    method AddServer(name: Name, data: seq<byte>, memory: Memory, ghost announced: seq<Announcement>)
      returns (result: nat)
      modifies this`server
      ensures result == if name in Names(old(server)) then EXIST else if memory.entry then CREATED else ERROR
      ensures server == old(server) + if result == CREATED then [Stored(name, data, memory)] else []
      ensures old(server) == FirstOccurrences(announced) && memory == PLENTY ==>
        server == FirstOccurrences(announced + [Announcement(name, data)])
    {
      FindNameFinds(server, name);
      FirstOccurrencesNames(announced);
      assert (announced + [Announcement(name, data)])[..|announced|] == announced;
      var found := FindServer(name);
      if found.Some? { return EXIST; }
      if !memory.entry { return ERROR; }
      server := server + [Stored(name, data, memory)];
      return CREATED;
    }

    /**
     Build the list of shared extensions and, if there are any, the lookup array; memory(k) tells whether allocation k
     succeeds. There is an array only when all of them do.
     */
    method Complete(memory: nat -> bool) returns (result: int)
      requires supported == [] && lookup == []
      modifies this`supported, this`lookup
      ensures result == if Enough(memory, Allocations(|SharedNames(client, Names(server))|)) then 0 else -1
      ensures result == 0 ==>
        var names := SharedNames(client, Names(server));
        EntriesFor(supported, names, server) && LookupFor(lookup, names, server)
      ensures result == -1 ==> lookup == []
    {
      if !memory(0) { return -1; }
      supported := supported + [Unsupported];
      var i := 0;
      while i < |client|
        invariant i <= |client| && lookup == [] && Enough(memory, |supported|)
        invariant EntriesFor(supported, SharedNames(client[..i], Names(server)), server)
      {
        FindNameFinds(server, client[i]);
        var found := FindServer(client[i]);
        assert client[..i + 1][..i] == client[..i];
        if found.Some? {
          if !memory(|supported|) {
            SharedGrows(client, Names(server), i + 1);
            return -1;
          }
          supported := supported + [Shared(found.value)];
        }
        i := i + 1;
      }
      assert client[..i] == client;
      result := 0;
      if |supported| > 1 {
        if !memory(|supported|) { return -1; }
        lookup := CopyOf(supported);
      }
    }

    method CopyOf(entries: seq<Extension>) returns (copy: seq<Extension>)
      ensures copy == entries
    {
      copy := [];
      for k := 0 to |entries|
        invariant copy == entries[..k]
      {
        copy := copy + [entries[k]];
      }
    }

    method GetIndex(name: Name) returns (result: nat)
      ensures result == IndexOf(lookup, name)
    {
      var index := 0;
      while index < |lookup|
        invariant index <= |lookup|
        invariant forall i :: 0 <= i < index ==> !IsNamed(lookup[i], name)
      {
        if lookup[index].Shared? && lookup[index].server.name == name {
          return index;
        }
        index := index + 1;
      }
      return 0;
    }

    method GetName(index: nat) returns (name: Option<Name>)
      ensures name == NameAt(lookup, index)
    {
      name := None;
      if index < |lookup| {
        if lookup[index].Shared? {
          name := Some(lookup[index].server.name);
        }
      }
    }
  }

  predicate IsNamed(e: Extension, name: Name) { e.Shared? && e.server.name == name }

  /** The first index with this name, or 0. */
  ghost function IndexOf(lookup: seq<Extension>, name: Name): (index: nat)
    ensures index > 0 ==> index < |lookup|
    ensures forall i | 0 <= i < |lookup| && IsNamed(lookup[i], name) :: index <= i && IsNamed(lookup[index], name)
    ensures (forall i | 0 <= i < |lookup| :: !IsNamed(lookup[i], name)) ==> index == 0
  {
    FirstNamed(lookup, name, 0)
  }

  ghost function FirstNamed(lookup: seq<Extension>, name: Name, from: nat): (index: nat)
    requires from <= |lookup|
    ensures index > 0 ==> from <= index < |lookup| && IsNamed(lookup[index], name)
    ensures forall i | from <= i < |lookup| && IsNamed(lookup[i], name) :: index <= i && IsNamed(lookup[index], name)
    decreases |lookup| - from
  {
    if from == |lookup| then 0 else if IsNamed(lookup[from], name) then from else FirstNamed(lookup, name, from + 1)
  }

  function NameAt(lookup: seq<Extension>, index: nat): Option<Name> {
    if index < |lookup| && lookup[index].Shared? then Some(lookup[index].server.name) else None
  }

  /**
   After any announcements and completion: a name has an index above 0 exactly when both sides know it, the index leads
   back to the name and to its first announcement, and only the indices of the array except 0 have a name.
   */
  lemma Negotiated(announced: seq<Announcement>, client: seq<Name>, lookup: seq<Extension>, name: Name)
    requires var server := FirstOccurrences(announced); LookupFor(lookup, SharedNames(client, Names(server)), server)
    ensures IndexOf(lookup, name) > 0 <==> name in client && name in Names(announced)
    ensures IndexOf(lookup, name) > 0 ==> NameAt(lookup, IndexOf(lookup, name)) == Some(name)
    ensures IndexOf(lookup, name) > 0 ==> Some(lookup[IndexOf(lookup, name)].server) == FindName(announced, name)
    ensures forall i: nat :: NameAt(lookup, i).Some? <==> 0 < i < |lookup|
  {
    FirstOccurrencesNames(announced);
    var names := SharedNames(client, Names(announced));
    SharedNamesAre(client, Names(announced), name);
    if name in names {
      var i :| 0 <= i < |names| && names[i] == name;
      assert IsNamed(lookup[1 + i], name);
      OnlyOne(announced, lookup[IndexOf(lookup, name)].server);
    } else {
      forall i | 0 <= i < |lookup| ensures !IsNamed(lookup[i], name) {
        if i > 0 { assert names[i - 1] in names; }
      }
    }
  }

  lemma OnlyOne(announced: seq<Announcement>, a: Announcement)
    requires a in FirstOccurrences(announced)
    ensures FindName(announced, a.name) == Some(a)
  {
    var server := FirstOccurrences(announced);
    FirstOccurrencesNames(announced);
    var k :| 0 <= k < |server| && server[k] == a;
    FindNameFirst(server, k);
    FirstOccurrencesFound(announced, a.name);
  }

  /** With distinct names on the side of the client the index of a name found in the array is where it was found. */
  lemma IndexOfNameAt(client: seq<Name>, server: seq<Announcement>, lookup: seq<Extension>, i: nat)
    requires LookupFor(lookup, SharedNames(client, Names(server)), server) && 0 < i < |lookup|
    requires Distinct(client)
    ensures NameAt(lookup, i).Some? && IndexOf(lookup, NameAt(lookup, i).value) == i
  {
    var names := SharedNames(client, Names(server));
    SharedDistinct(client, Names(server));
    var n := names[i - 1];
    assert IsNamed(lookup[i], n);
    var j := IndexOf(lookup, n);
    assert 0 < j <= i && lookup[j].server.name == names[j - 1];
  }

  lemma {:induction false} SharedDistinct(client: seq<Name>, server: set<Name>)
    requires Distinct(client)
    ensures Distinct(SharedNames(client, server))
  {
    if client != [] {
      var init, last := client[..|client| - 1], client[|client| - 1];
      SharedDistinct(init, server);
      SharedNamesAre(init, server, last);
      assert last !in init;
    }
  }
}
