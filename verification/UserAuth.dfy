/**
 The client side of SSH user authentication (sections 5.1 and 5.2 of RFC 4252): src/ssh/ssh-userauth.c and the methods
 in src/ssh/userauth. What the server replies, and which keys and passwords there are, comes from outside.
 */
module UserAuth {
  import opened Options
  import opened Sequences
  import opened Wire

  datatype Method = NoneMethod | Publickey | Password | Hostbased | Unknown

  const REAL := {Publickey, Password, Hostbased}

  // ---- the list of methods that can continue ----

  const COMMA: byte := 44
  const PUBLICKEY: seq<byte> := [112, 117, 98, 108, 105, 99, 107, 101, 121]
  const PASSWORD: seq<byte> := [112, 97, 115, 115, 119, 111, 114, 100]
  const HOSTBASED: seq<byte> := [104, 111, 115, 116, 98, 97, 115, 101, 100]

  function MethodOf(name: seq<byte>): Method {
    if name == PUBLICKEY then Publickey
    else if name == PASSWORD then Password
    else if name == HOSTBASED then Hostbased
    else Unknown
  }

  /** The position of the first x in s from i on, or the length of s. */
  function IndexFrom(s: seq<byte>, x: byte, i: nat): (r: nat)
    requires i <= |s|
    ensures i <= r <= |s| && (r < |s| ==> s[r] == x) && forall j :: i <= j < r ==> s[j] != x
    decreases |s| - i
  {
    if i == |s| || s[i] == x then i else IndexFrom(s, x, i + 1)
  }

  function IndexOf(s: seq<byte>, x: byte): nat { IndexFrom(s, x, 0) }

  /** The list is copied to a C string, which ends at its first zero. */
  function CString(s: seq<byte>): seq<byte> { s[..IndexOf(s, 0)] }

  function Names(s: seq<byte>): seq<seq<byte>>
    decreases |s|
  {
    var i := IndexOf(s, COMMA);
    if i == |s| then [s] else [s[..i]] + Names(s[i + 1..])
  }

  function MethodsOf(names: seq<seq<byte>>): set<Method> {
    if names == [] then {} else {MethodOf(names[0])} + MethodsOf(names[1..])
  }

  function ListMethods(list: seq<byte>): set<Method> { MethodsOf(Names(list)) }

  function Listed(s: seq<byte>): set<Method> { ListMethods(CString(s)) }

  lemma MethodsFirst(name: seq<byte>, names: seq<seq<byte>>)
    ensures MethodsOf([name] + names) == {MethodOf(name)} + MethodsOf(names)
  {
    assert ([name] + names)[1..] == names;
  }

  lemma OneName(list: seq<byte>)
    ensures var i := IndexOf(list, COMMA);
      ListMethods(list) == {MethodOf(list[..i])} + if i == |list| then {} else ListMethods(list[i + 1..])
  {
    var i := IndexOf(list, COMMA);
    MethodsFirst(list[..i], if i == |list| then [] else Names(list[i + 1..]));
    if i == |list| {
      assert list[..i] == list;
      assert [list] + [] == [list];
    }
  }

  /** What the list comes to is what was read and what is left still comes to. */
  predicate LeftToRead(all: set<Method>, methods: set<Method>, list: seq<byte>, pos: nat) {
    pos <= |list| && methods + ListMethods(list[pos..]) == all
  }

  lemma ReadStep(all: set<Method>, methods: set<Method>, list: seq<byte>, pos: nat)
    requires LeftToRead(all, methods, list, pos)
    ensures var rest := list[pos..]; var i := IndexOf(rest, COMMA); var more := methods + {MethodOf(rest[..i])};
      if i == |rest| then more == all else LeftToRead(all, more, list, pos + i + 1)
  {
    var rest := list[pos..];
    var i := IndexOf(rest, COMMA);
    OneName(rest);
    if i < |rest| { assert rest[i + 1..] == list[pos + i + 1..]; }
  }

  method GetRequired(s: seq<byte>) returns (methods: set<Method>)
    ensures methods == Listed(s)
  {
    var list := CString(s);
    methods := {};
    var pos := 0;
    assert list[0..] == list;
    while true
      invariant LeftToRead(Listed(s), methods, list, pos)
      decreases |list| - pos
    {
      ReadStep(Listed(s), methods, list, pos);
      var rest := list[pos..];
      var sep := IndexOf(rest, COMMA);
      methods := methods + {MethodOf(rest[..sep])};
      if sep == |rest| { return; }
      pos := pos + sep + 1;
    }
  }

  /** A list always asks for some method, and never for "none". */
  lemma ListedNeverNone(s: seq<byte>)
    ensures Listed(s) != {} && NoneMethod !in Listed(s)
  {
    NeverNone(Names(CString(s)));
    assert MethodOf(Names(CString(s))[0]) in Listed(s);
  }

  lemma {:induction false} NeverNone(names: seq<seq<byte>>)
    ensures NoneMethod !in MethodsOf(names)
  {
    if names != [] { NeverNone(names[1..]); }
  }

  function Join(names: seq<seq<byte>>): seq<byte> {
    if names == [] then [] else if |names| == 1 then names[0] else names[0] + [COMMA] + Join(names[1..])
  }

  predicate Free(name: seq<byte>, x: byte) { forall j :: 0 <= j < |name| ==> name[j] != x }

  predicate Plain(name: seq<byte>) { Free(name, COMMA) && Free(name, 0) }

  predicate AllPlain(names: seq<seq<byte>>) { forall i :: 0 <= i < |names| ==> Plain(names[i]) }

  lemma IndexOfIs(s: seq<byte>, x: byte, i: nat)
    requires i <= |s| && Free(s[..i], x) && (i < |s| ==> s[i] == x)
    ensures IndexOf(s, x) == i
  {
    assert forall j :: 0 <= j < i ==> s[j] == s[..i][j];
  }

  lemma {:induction false} NamesJoin(names: seq<seq<byte>>)
    requires names != [] && AllPlain(names)
    ensures Free(Join(names), 0) && Names(Join(names)) == names
  {
    var n := names[0];
    if |names| == 1 {
      assert n[..|n|] == n;
      IndexOfIs(n, COMMA, |n|);
    } else {
      NamesJoin(names[1..]);
      var s := n + [COMMA] + Join(names[1..]);
      assert s[..|n|] == n && s[|n| + 1..] == Join(names[1..]);
      IndexOfIs(s, COMMA, |n|);
    }
  }

  /** Any list of names is read as the methods it names. */
  lemma ListedJoin(names: seq<seq<byte>>)
    requires names != [] && AllPlain(names)
    ensures Listed(Join(names)) == MethodsOf(names)
  {
    NamesJoin(names);
    var s := Join(names);
    assert s[..|s|] == s;
    IndexOfIs(s, 0, |s|);
  }

  /** A set of names asks for a method exactly when its name is among them, spelled out; any other name is unknown. */
  lemma {:induction false} MethodsExactly(names: seq<seq<byte>>)
    ensures Publickey in MethodsOf(names) <==> PUBLICKEY in names
    ensures Password in MethodsOf(names) <==> PASSWORD in names
    ensures Hostbased in MethodsOf(names) <==> HOSTBASED in names
    ensures Unknown in MethodsOf(names) <==>
      exists i :: 0 <= i < |names| && names[i] != PUBLICKEY && names[i] != PASSWORD && names[i] != HOSTBASED
  {
    if names != [] {
      MethodsExactly(names[1..]);
      assert names == [names[0]] + names[1..];
    }
  }

  /** A list is read up to its first zero. */
  lemma ListEndsAtZero(list: seq<byte>, more: seq<byte>)
    requires Free(list, 0)
    ensures Listed(list + [0] + more) == Listed(list)
  {
    var s := list + [0] + more;
    assert s[..|list|] == list && list[..|list|] == list;
    IndexOfIs(s, 0, |list|);
    IndexOfIs(list, 0, |list|);
  }

  /** The names the server side writes for a set of methods. */
  function NamesFor(methods: set<Method>): seq<seq<byte>> {
    (if Publickey in methods then [PUBLICKEY] else [])
    + (if Password in methods then [PASSWORD] else [])
    + (if Hostbased in methods then [HOSTBASED] else [])
  }

  /** write_required_auth_methods: each name with a comma in front of it, unless it is the first. */
  function Written(methods: set<Method>): seq<byte> {
    var a := if Publickey in methods then PUBLICKEY else [];
    var b := if Password in methods then (if a != [] then [COMMA] else []) + PASSWORD else [];
    var c := if Hostbased in methods then (if a + b != [] then [COMMA] else []) + HOSTBASED else [];
    a + b + c
  }

  /** What write_required_auth_methods asks for when it has no buffer yet. */
  function WrittenSize(methods: set<Method>): nat {
    (if Publickey in methods then 11 else 0) + (if Password in methods then 10 else 0)
    + (if Hostbased in methods then 11 else 0)
  }

  lemma JoinOfTwo(a: seq<byte>, b: seq<byte>)
    ensures Join([a, b]) == a + [COMMA] + b
  {
    assert [a, b][1..] == [b];
  }

  lemma JoinOfThree(a: seq<byte>, b: seq<byte>, c: seq<byte>)
    ensures Join([a, b, c]) == a + [COMMA] + (b + [COMMA] + c)
  {
    assert [a, b, c][1..] == [b, c];
    JoinOfTwo(b, c);
  }

  lemma WrittenIsJoin(methods: set<Method>)
    ensures Written(methods) == Join(NamesFor(methods))
  {
    if Publickey in methods && Password in methods && Hostbased in methods {
      JoinOfThree(PUBLICKEY, PASSWORD, HOSTBASED);
    } else if Publickey in methods && Password in methods {
      JoinOfTwo(PUBLICKEY, PASSWORD);
    } else if Publickey in methods && Hostbased in methods {
      JoinOfTwo(PUBLICKEY, HOSTBASED);
    } else if Password in methods && Hostbased in methods {
      JoinOfTwo(PASSWORD, HOSTBASED);
    }
  }

  /** The size asked for is enough for what is written, with the zero at its end, and one more for each name. */
  lemma WrittenFits(methods: set<Method>)
    requires methods * REAL != {}
    ensures |Written(methods)| < WrittenSize(methods)
    ensures WrittenSize(methods) == |Written(methods)| + 1 + |NamesFor(methods)|
  {
    OneOf(methods * REAL);
  }

  lemma NamesForPlain(methods: set<Method>)
    ensures AllPlain(NamesFor(methods))
  {
    assert Plain(PUBLICKEY) && Plain(PASSWORD) && Plain(HOSTBASED);
  }

  lemma NamesForMethods(methods: set<Method>)
    requires methods <= REAL
    ensures MethodsOf(NamesFor(methods)) == methods
  {
    KnownNames();
    var a, b, c := PUBLICKEY, PASSWORD, HOSTBASED;
    assert [a, b][1..] == [b] && [a, c][1..] == [c] && [b, c][1..] == [c] && [a, b, c][1..] == [b, c];
  }

  lemma KnownNames()
    ensures MethodOf(PUBLICKEY) == Publickey && MethodOf(PASSWORD) == Password && MethodOf(HOSTBASED) == Hostbased
    ensures MethodsOf([PUBLICKEY]) == {Publickey} && MethodsOf([PASSWORD]) == {Password}
    ensures MethodsOf([HOSTBASED]) == {Hostbased}
  {
  }

  lemma NamesSpelled()
    ensures Spells(PUBLICKEY, "publickey") && Spells(PASSWORD, "password") && Spells(HOSTBASED, "hostbased")
  {
  }

  /** What the one side writes the other reads, for every set of methods that has a name. */
  lemma WrittenIsRead(methods: set<Method>)
    requires methods != {} && methods <= REAL
    ensures Listed(Written(methods)) == methods
  {
    WrittenIsJoin(methods);
    NamesForPlain(methods);
    NamesForMethods(methods);
    OneOf(methods);
    ListedJoin(NamesFor(methods));
  }

  lemma OneOf(methods: set<Method>)
    requires methods != {} && methods <= REAL
    ensures Publickey in methods || Password in methods || Hostbased in methods
  {
    var m :| m in methods;
  }

  // ---- the reply to one request ----

  /** Payloads start with the byte of the message type. */
  datatype Reply = Success | Failure(payload: seq<byte>) | Other | NoReply | NotSent

  datatype Auth = Auth(required: set<Method>, done: set<Method>)

  function ListLength(payload: seq<byte>): nat
    requires |payload| > 6
  {
    GetUint32(payload[1..])
  }

  /** A failure message is taken into account when its length agrees with that of a list that is not empty. */
  predicate WellFormed(payload: seq<byte>) {
    |payload| > 6 && ListLength(payload) > 0 && |payload| == (6 + ListLength(payload)) % UINT32
  }

  lemma WellFormedExactly(payload: seq<byte>)
    ensures WellFormed(payload) ==> |payload| == 6 + ListLength(payload)
  {
    if |payload| > 6 { GetUint32RoundTrip(payload[1..]); }
  }

  function Continue(payload: seq<byte>): set<Method>
    requires WellFormed(payload)
  {
    WellFormedExactly(payload);
    Listed(payload[5..5 + ListLength(payload)])
  }

  predicate PartialSuccess(payload: seq<byte>)
    requires WellFormed(payload)
  {
    WellFormedExactly(payload);
    payload[5 + ListLength(payload)] > 0
  }

  /** The failure message of section 5.1 of RFC 4252. */
  function FailureMessage(list: seq<byte>, partial: bool): seq<byte> {
    [51] + (PutString(list) + [if partial then 1 else 0])
  }

  lemma FailureRoundTrip(list: seq<byte>, partial: bool)
    requires list != [] && 6 + |list| < UINT32
    ensures var p := FailureMessage(list, partial);
      WellFormed(p) && Continue(p) == Listed(list) && PartialSuccess(p) == partial
  {
    var p := FailureMessage(list, partial);
    var flag: byte := if partial then 1 else 0;
    assert p[1..] == PutUint32(|list|) + (list + [flag]);
    Uint32RoundTrip(|list|, list + [flag]);
    assert p[5..5 + |list|] == list && p[5 + |list|] == flag;
  }

  /** The messages taken into account are just those: a type, a string that is not empty, and a flag. */
  lemma WellFormedShape(payload: seq<byte>)
    requires |payload| > 6
    ensures var n := |payload| - 1; var list := payload[5..n];
      && (WellFormed(payload) <==> 6 + |list| < UINT32 && payload[1..] == PutString(list) + [payload[n]])
      && (WellFormed(payload) ==> Continue(payload) == Listed(list) && (PartialSuccess(payload) <==> payload[n] != 0))
  {
    var n := |payload| - 1;
    var list := payload[5..n];
    WellFormedExactly(payload);
    GetUint32RoundTrip(payload[1..]);
    if WellFormed(payload) {
      assert payload[1..][4..] == list + [payload[n]];
    }
    if 6 + |list| < UINT32 && payload[1..] == PutString(list) + [payload[n]] {
      assert payload[1..] == PutUint32(|list|) + (list + [payload[n]]);
      Uint32RoundTrip(|list|, list + [payload[n]]);
    }
  }

  /** The new state, and whether the method that was tried counts as done. */
  function Refused(auth: Auth, payload: seq<byte>): (Auth, bool) {
    if WellFormed(payload) then (auth.(required := Continue(payload)), PartialSuccess(payload)) else (auth, false)
  }

  /** After a failure that lists names just the methods of those names are required. */
  lemma RefusedExactly(auth: Auth, names: seq<seq<byte>>, partial: bool)
    requires names != [] && AllPlain(names) && Join(names) != [] && 6 + |Join(names)| < UINT32
    ensures Refused(auth, FailureMessage(Join(names), partial)) == (auth.(required := MethodsOf(names)), partial)
  {
    FailureRoundTrip(Join(names), partial);
    ListedJoin(names);
  }

  // ---- one method ----

  /** publickey and hostbased: one key after the other, until one is accepted. */
  function TryKeys(auth: Auth, replies: seq<Reply>): (Auth, bool)
    decreases replies
  {
    if replies == [] then (auth, false)
    else
      match replies[0]
      case Success => (auth.(required := {}), true)
      case Failure(payload) =>
        var (next, ok) := Refused(auth, payload);
        if ok then (next, true) else TryKeys(next, replies[1..])
      case _ => TryKeys(auth, replies[1..])
  }

  /** password: all of them, also after one is accepted; only a missing reply ends it early. */
  function TryPasswords(auth: Auth, ok: bool, replies: seq<Reply>): (Auth, bool)
    decreases replies
  {
    if replies == [] then (auth, ok)
    else
      match replies[0]
      case Success => TryPasswords(auth.(required := {}), true, replies[1..])
      case Failure(payload) =>
        var (next, good) := Refused(auth, payload);
        TryPasswords(next, good, replies[1..])
      case NoReply => (auth, ok)
      case _ => TryPasswords(auth, ok, replies[1..])
  }

  /** The reply that decides what is required at the end: an acceptance or a well-formed failure. */
  predicate Decides(r: Reply) { r.Success? || (r.Failure? && WellFormed(r.payload)) }

  /** The last deciding reply before the replies stop. */
  function LastWord(replies: seq<Reply>): (r: Reply)
    ensures Decides(r) || r == Other
    decreases replies
  {
    if replies == [] || replies[0].NoReply? then Other
    else
      var later := LastWord(replies[1..]);
      if later != Other then later else if Decides(replies[0]) then replies[0] else Other
  }

  /** After the passwords nothing is required exactly when the last word is an acceptance. */
  lemma {:induction false} PasswordsDecided(auth: Auth, ok: bool, replies: seq<Reply>)
    ensures var (next, _) := TryPasswords(auth, ok, replies);
      next.done == auth.done && NoneMethod !in next.required - auth.required
      && (next.required == {} <==> LastWord(replies) == Success || (LastWord(replies) == Other && auth.required == {}))
    decreases replies
  {
    if replies != [] && !replies[0].NoReply? {
      if replies[0].Success? {
        PasswordsDecided(auth.(required := {}), true, replies[1..]);
      } else if replies[0].Failure? {
        var (next, good) := Refused(auth, replies[0].payload);
        if WellFormed(replies[0].payload) { RefusedRequires(auth, replies[0].payload); }
        PasswordsDecided(next, good, replies[1..]);
      } else {
        PasswordsDecided(auth, ok, replies[1..]);
      }
    }
  }

  lemma RefusedRequires(auth: Auth, payload: seq<byte>)
    requires WellFormed(payload)
    ensures Refused(auth, payload).0.required != {} && NoneMethod !in Refused(auth, payload).0.required
  {
    WellFormedExactly(payload);
    ListedNeverNone(payload[5..5 + ListLength(payload)]);
  }

  /** A reply that ends the trying of keys: an acceptance, or a failure that calls the key a partial success. */
  predicate Ends(r: Reply) { r.Success? || (r.Failure? && WellFormed(r.payload) && PartialSuccess(r.payload)) }

  function FirstEnd(replies: seq<Reply>): (r: Reply)
    ensures Ends(r) || r == Other
    ensures r != Other ==> r in replies
  {
    if replies == [] then Other else if Ends(replies[0]) then replies[0] else FirstEnd(replies[1..])
  }

  /** With keys the first such reply decides: nothing is required exactly when it is an acceptance. */
  lemma {:induction false} KeysDecided(auth: Auth, replies: seq<Reply>)
    requires auth.required != {}
    ensures var (next, ok) := TryKeys(auth, replies);
      && next.done == auth.done && NoneMethod !in next.required - auth.required
      && (ok <==> FirstEnd(replies) != Other) && (next.required == {} <==> FirstEnd(replies) == Success)
    decreases replies
  {
    if replies != [] {
      match replies[0]
      case Success =>
      case Failure(payload) =>
        if WellFormed(payload) { RefusedRequires(auth, payload); }
        if !Refused(auth, payload).1 { KeysDecided(Refused(auth, payload).0, replies[1..]); }
      case _ => KeysDecided(auth, replies[1..]);
    }
  }

  // ---- what a method leaves required, and whether it completes, read off the replies ----

  /** What is required after a reply: nothing after an acceptance, exactly its list after a well-formed failure. */
  function RequiredBy(r: Reply, before: set<Method>): set<Method> {
    if r.Success? then {} else if r.Failure? && WellFormed(r.payload) then Continue(r.payload) else before
  }

  function LastDecided(replies: seq<Reply>): (r: Reply)
    ensures Decides(r) || r == Other
  {
    if replies == [] then Other
    else
      var later := LastDecided(replies[1..]);
      if later != Other then later else if Decides(replies[0]) then replies[0] else Other
  }

  /** The replies up to the one that ends the trying of keys. */
  function KeyReplies(replies: seq<Reply>): seq<Reply> {
    if replies == [] then []
    else if Ends(replies[0]) then [replies[0]]
    else [replies[0]] + KeyReplies(replies[1..])
  }

  lemma DecidedFirst(r: Reply, more: seq<Reply>, before: set<Method>)
    ensures RequiredBy(LastDecided([r] + more), before) == RequiredBy(LastDecided(more), RequiredBy(r, before))
  {
    assert ([r] + more)[1..] == more;
  }

  lemma {:induction false} KeysExactly(auth: Auth, replies: seq<Reply>)
    ensures TryKeys(auth, replies) ==
      (auth.(required := RequiredBy(LastDecided(KeyReplies(replies)), auth.required)), FirstEnd(replies) != Other)
    decreases replies
  {
    if replies != [] {
      var r, more := replies[0], replies[1..];
      if Ends(r) {
        DecidedFirst(r, [], auth.required);
        assert [r] + [] == [r];
      } else {
        DecidedFirst(r, KeyReplies(more), auth.required);
        KeysExactly(auth.(required := RequiredBy(r, auth.required)), more);
      }
    }
  }

  /** The last reply to a password that was judged at all, before the replies stop. */
  function LastJudged(replies: seq<Reply>): Reply
    decreases replies
  {
    if replies == [] || replies[0].NoReply? then Other
    else
      var later := LastJudged(replies[1..]);
      if later != Other then later else if replies[0].Success? || replies[0].Failure? then replies[0] else Other
  }

  lemma {:induction false} PasswordsExactly(auth: Auth, ok: bool, replies: seq<Reply>)
    ensures TryPasswords(auth, ok, replies) ==
      (auth.(required := RequiredBy(LastWord(replies), auth.required)),
       if LastJudged(replies) == Other then ok else Ends(LastJudged(replies)))
    decreases replies
  {
    if replies != [] && !replies[0].NoReply? {
      var r, more := replies[0], replies[1..];
      var good := if r.Success? || r.Failure? then Ends(r) else ok;
      PasswordsExactly(auth.(required := RequiredBy(r, auth.required)), good, more);
    }
  }

  /** A method completes: some key is accepted, or the last password that got an answer is, wholly or in part. */
  predicate Completes(m: Method, replies: seq<Reply>) {
    if m == Password then Ends(LastJudged(replies)) else FirstEnd(replies) != Other
  }

  /** What is required after a method was tried. */
  function RequiredAfter(m: Method, replies: seq<Reply>, before: set<Method>): set<Method> {
    RequiredBy(if m == Password then LastWord(replies) else LastDecided(KeyReplies(replies)), before)
  }

  // ---- the loop ----

  /** What is at hand in one round: whether there are keys or passwords, and the replies they get. */
  datatype Round = Round(available: bool, replies: seq<Reply>)

  predicate Supported(required: set<Method>) { required <= REAL + {NoneMethod} }

  /** The method that is tried, in the fixed order; none of the three only when "none" alone is left. */
  function Chosen(required: set<Method>): Method {
    if Publickey in required then Publickey
    else if Password in required then Password
    else if Hostbased in required then Hostbased
    else NoneMethod
  }

  function TryMethod(auth: Auth, m: Method, replies: seq<Reply>): (Auth, bool) {
    if m == Password then TryPasswords(auth, false, replies) else TryKeys(auth, replies)
  }

  lemma MethodKeeps(auth: Auth, m: Method, replies: seq<Reply>)
    requires auth.required != {} && NoneMethod !in auth.required
    ensures var (next, ok) := TryMethod(auth, m, replies); next.done == auth.done && NoneMethod !in next.required
  {
    if m == Password { PasswordsDecided(auth, false, replies); } else { KeysDecided(auth, replies); }
  }

  function Left(done: set<Method>): nat { |REAL - done| }

  lemma LeftShrinks(done: set<Method>, m: Method)
    requires m in REAL && m !in done
    ensures Left(done + {m}) < Left(done)
  {
    assert REAL - (done + {m}) == (REAL - done) - {m};
  }

  /** In the loop some methods are required, and all of those are supported. */
  predicate InLoop(auth: Auth) { auth.required != {} && Supported(auth.required) && NoneMethod !in auth.required }

  /** What one round comes to: the loop is over, possibly with a method completed last, or goes on after a method. */
  datatype Step = Over(auth: Auth, completed: seq<Method>) | More(auth: Auth, completing: Method)

  function OneRound(auth: Auth, round: Round): Step {
    var m := Chosen(auth.required);
    if m in auth.done || !round.available then Over(auth, [])
    else
      var (next, ok) := TryMethod(auth, m, round.replies);
      if !ok then Over(next, [])
      else
        var after := next.(done := next.done + {m});
        if after.required == {} || !Supported(after.required) then Over(after, [m]) else More(after, m)
  }

  lemma MethodExactly(auth: Auth, m: Method, replies: seq<Reply>)
    ensures TryMethod(auth, m, replies) ==
      (auth.(required := RequiredAfter(m, replies, auth.required)), Completes(m, replies))
  {
    if m == Password { PasswordsExactly(auth, false, replies); } else { KeysExactly(auth, replies); }
  }

  /** publickey goes first, then password, then hostbased. */
  lemma OrderOfMethods(required: set<Method>)
    ensures Publickey in required ==> Chosen(required) == Publickey
    ensures Publickey !in required && Password in required ==> Chosen(required) == Password
    ensures Publickey !in required && Password !in required && Hostbased in required ==> Chosen(required) == Hostbased
  {
  }

  predicate Tried(auth: Auth, round: Round) { Chosen(auth.required) !in auth.done && round.available }

  predicate Completed(auth: Auth, round: Round) {
    Tried(auth, round) && Completes(Chosen(auth.required), round.replies)
  }

  /** The state a round leaves, read off the replies: a method counts as done exactly when it completes. */
  function Leaves(auth: Auth, round: Round): Auth {
    var m := Chosen(auth.required);
    Auth(if Tried(auth, round) then RequiredAfter(m, round.replies, auth.required) else auth.required,
         auth.done + if Completed(auth, round) then {m} else {})
  }

  /** The loop goes on exactly when the method completes and leaves something required, all of it supported. */
  predicate GoesOn(auth: Auth, round: Round) {
    && Completed(auth, round)
    && Leaves(auth, round).required != {}
    && Leaves(auth, round).required <= {NoneMethod, Publickey, Password, Hostbased}
  }

  lemma RoundExactly(auth: Auth, round: Round)
    ensures var s := OneRound(auth, round); var m := Chosen(auth.required);
      && s.auth == Leaves(auth, round) && (s.More? <==> GoesOn(auth, round)) && (s.More? ==> s.completing == m)
      && (s.Over? ==> s.completed == if Completed(auth, round) then [m] else [])
  {
    MethodExactly(auth, Chosen(auth.required), round.replies);
  }

  /** A round that goes on completes a method that was not done, and leaves the loop fit for the next. */
  lemma RoundKeeps(auth: Auth, round: Round)
    requires InLoop(auth)
    ensures var s := OneRound(auth, round);
      && (s.More? ==> InLoop(s.auth) && s.completing in REAL && s.completing !in auth.done)
      && (s.More? ==> s.auth.done == auth.done + {s.completing} && Left(s.auth.done) < Left(auth.done))
      && (s.Over? ==>
            s.completed == [] || (s.completed == [Chosen(auth.required)] && Chosen(auth.required) !in auth.done))
  {
    var m := Chosen(auth.required);
    ChosenIsReal(auth.required);
    MethodKeeps(auth, m, round.replies);
    if m !in auth.done { LeftShrinks(auth.done, m); }
  }

  /** The end of the loop: the state, and the methods completed on the way. */
  datatype Finish = Finish(auth: Auth, completed: seq<Method>)

  function Rounds(auth: Auth, script: nat -> Round, i: nat): Finish
    requires InLoop(auth)
    decreases Left(auth.done)
  {
    RoundKeeps(auth, script(i));
    match OneRound(auth, script(i))
    case Over(last, completed) => Finish(last, completed)
    case More(next, m) =>
      var f := Rounds(next, script, i + 1);
      Finish(f.auth, [m] + f.completed)
  }

  lemma ChosenIsReal(required: set<Method>)
    requires required != {} && Supported(required) && NoneMethod !in required
    ensures Chosen(required) in REAL && Chosen(required) in required
  {
    var m :| m in required;
  }

  /** With only "none" left no branch of the loop is taken and nothing changes: it would go round for ever. */
  lemma NoneAloneChangesNothing(required: set<Method>)
    requires Supported(required) && required != {}
    ensures Chosen(required) == NoneMethod <==> required == {NoneMethod}
  {
    if required != {NoneMethod} {
      var m :| m in required && m != NoneMethod;
    }
  }

  predicate NewMethods(s: seq<Method>, done: set<Method>) {
    forall k :: 0 <= k < |s| ==> s[k] in REAL && s[k] !in done
  }

  lemma OneMore(m: Method, s: seq<Method>, done: set<Method>)
    requires m in REAL && m !in done && Distinct(s) && NewMethods(s, done + {m})
    ensures Distinct([m] + s) && NewMethods([m] + s, done)
  {
  }

  /** At most three methods are completed, none of them twice, and none that had been completed before. */
  lemma {:induction false} CompletedOnce(auth: Auth, script: nat -> Round, i: nat)
    requires InLoop(auth)
    ensures var f := Rounds(auth, script, i);
      Distinct(f.completed) && NewMethods(f.completed, auth.done) && |f.completed| <= Left(auth.done)
    decreases Left(auth.done)
  {
    RoundKeeps(auth, script(i));
    ChosenIsReal(auth.required);
    var s := OneRound(auth, script(i));
    if s.More? {
      CompletedOnce(s.auth, script, i + 1);
      OneMore(s.completing, Rounds(s.auth, script, i + 1).completed, auth.done);
    } else if s.completed != [] {
      LeftShrinks(auth.done, s.completed[0]);
    }
  }

  /** The last round of the loop: the state in which it is made, and its number. */
  datatype Last = Last(auth: Auth, at: nat)

  ghost function LastRound(auth: Auth, script: nat -> Round, i: nat): Last
    requires InLoop(auth)
    decreases Left(auth.done)
  {
    RoundKeeps(auth, script(i));
    RoundExactly(auth, script(i));
    if GoesOn(auth, script(i)) then LastRound(Leaves(auth, script(i)), script, i + 1) else Last(auth, i)
  }

  predicate EndsWith(f: Finish, last: Last, round: Round, i: nat) {
    && InLoop(last.auth) && i <= last.at && !GoesOn(last.auth, round) && f.auth == Leaves(last.auth, round)
    && |f.completed| == last.at - i + if Completed(last.auth, round) then 1 else 0
  }

  /** What the loop comes to, by whether it goes on after the first round. */
  lemma RoundsNext(auth: Auth, script: nat -> Round, i: nat)
    requires InLoop(auth)
    ensures var f := Rounds(auth, script, i); var next := Leaves(auth, script(i));
      if GoesOn(auth, script(i)) then
        && InLoop(next) && Left(next.done) < Left(auth.done)
        && f.auth == Rounds(next, script, i + 1).auth && |f.completed| == 1 + |Rounds(next, script, i + 1).completed|
        && LastRound(auth, script, i) == LastRound(next, script, i + 1)
      else
        && f.auth == next && |f.completed| == (if Completed(auth, script(i)) then 1 else 0)
        && LastRound(auth, script, i) == Last(auth, i)
  {
    RoundKeeps(auth, script(i));
    RoundExactly(auth, script(i));
  }

  lemma EndsOneEarlier(f: Finish, g: Finish, last: Last, round: Round, i: nat)
    requires EndsWith(g, last, round, i + 1) && f.auth == g.auth && |f.completed| == 1 + |g.completed|
    ensures EndsWith(f, last, round, i)
  {
  }

  lemma EndsAtOnce(f: Finish, auth: Auth, round: Round, i: nat)
    requires InLoop(auth) && !GoesOn(auth, round) && f.auth == Leaves(auth, round)
    requires |f.completed| == if Completed(auth, round) then 1 else 0
    ensures EndsWith(f, Last(auth, i), round, i)
  {
  }

  ghost predicate EndsThere(auth: Auth, script: nat -> Round, i: nat)
    requires InLoop(auth)
  {
    var last := LastRound(auth, script, i); EndsWith(Rounds(auth, script, i), last, script(last.at), i)
  }

  lemma EndsThereEarlier(auth: Auth, next: Auth, script: nat -> Round, i: nat)
    requires InLoop(auth) && InLoop(next) && EndsThere(next, script, i + 1)
    requires LastRound(auth, script, i) == LastRound(next, script, i + 1)
    requires Rounds(auth, script, i).auth == Rounds(next, script, i + 1).auth
    requires |Rounds(auth, script, i).completed| == 1 + |Rounds(next, script, i + 1).completed|
    ensures EndsThere(auth, script, i)
  {
    var last := LastRound(auth, script, i);
    EndsOneEarlier(Rounds(auth, script, i), Rounds(next, script, i + 1), last, script(last.at), i);
  }

  lemma {:induction false} LastRoundEnds(auth: Auth, script: nat -> Round, i: nat)
    requires InLoop(auth)
    ensures EndsThere(auth, script, i)
    decreases Left(auth.done)
  {
    RoundsNext(auth, script, i);
    var next := Leaves(auth, script(i));
    if GoesOn(auth, script(i)) {
      LastRoundEnds(next, script, i + 1);
      EndsThereEarlier(auth, next, script, i);
    } else {
      EndsAtOnce(Rounds(auth, script, i), auth, script(i), i);
    }
  }

  /**
   The loop gives up only for a reason. Every round before the last completed a method. The last one left nothing
   required, or something not supported, or its method had been done before, could not be tried or did not complete.
   */
  lemma GivesUpExactly(auth: Auth, script: nat -> Round, i: nat)
    requires InLoop(auth)
    ensures var f := Rounds(auth, script, i); var last := LastRound(auth, script, i); var round := script(last.at);
      var m := Chosen(last.auth.required);
      var failed := m in last.auth.done || !round.available || !Completes(m, round.replies);
      && (f.auth.required == {} || !Supported(f.auth.required) || failed)
      && last.at == i + |f.completed| - if failed then 0 else 1
  {
    LastRoundEnds(auth, script, i);
  }

  ghost function MethodsIn(s: seq<Method>): set<Method> { set k | 0 <= k < |s| :: s[k] }

  lemma MethodsInFirst(m: Method, s: seq<Method>)
    ensures MethodsIn([m] + s) == {m} + MethodsIn(s)
  {
    var t := [m] + s;
    assert t[0] == m && forall k :: 0 <= k < |s| ==> t[k + 1] == s[k];
  }

  /** The methods completed are just those that are done at the end and were not before. */
  lemma {:induction false} CompletedIsDone(auth: Auth, script: nat -> Round, i: nat)
    requires InLoop(auth)
    ensures var f := Rounds(auth, script, i); f.auth.done == auth.done + MethodsIn(f.completed)
    decreases Left(auth.done)
  {
    RoundKeeps(auth, script(i));
    RoundExactly(auth, script(i));
    var s := OneRound(auth, script(i));
    if s.More? {
      CompletedIsDone(s.auth, script, i + 1);
      MethodsInFirst(s.completing, Rounds(s.auth, script, i + 1).completed);
    } else {
      assert [Chosen(auth.required)] + [] == [Chosen(auth.required)];
      MethodsInFirst(Chosen(auth.required), []);
    }
  }

  function NameOf(m: Method): seq<byte> {
    if m == Publickey then PUBLICKEY else if m == Password then PASSWORD else HOSTBASED
  }

  /** A server that asks for the methods of a list one by one and accepts each: at first in part, at last wholly. */
  predicate Cooperates(script: nat -> Round, ms: seq<Method>, i: nat)
    requires i < |ms|
  {
    script(i) == Round(true, [if i == |ms| - 1 then Success else Failure(FailureMessage(NameOf(ms[i + 1]), true))])
  }

  lemma AsksFor(m: Method, partial: bool)
    requires m in REAL
    ensures var p := FailureMessage(NameOf(m), partial);
      WellFormed(p) && Continue(p) == {m} && PartialSuccess(p) == partial
  {
    FailureRoundTrip(NameOf(m), partial);
    NameRead(m);
  }

  lemma NameRead(m: Method)
    requires m in REAL
    ensures Listed(NameOf(m)) == {m}
  {
    KnownNames();
    assert Plain(PUBLICKEY) && Plain(PASSWORD) && Plain(HOSTBASED);
    assert AllPlain([NameOf(m)]);
    ListedJoin([NameOf(m)]);
  }

  /** What one round with such a server comes to. */
  lemma CooperativeRound(auth: Auth, m: Method, next: Option<Method>)
    requires m in REAL && auth.required == {m} && m !in auth.done && (next.Some? ==> next.value in REAL)
    ensures var reply := if next.Some? then Failure(FailureMessage(NameOf(next.value), true)) else Success;
      var done := auth.done + {m};
      OneRound(auth, Round(true, [reply])) ==
        if next.Some? then More(Auth({next.value}, done), m) else Over(Auth({}, done), [m])
  {
    if next.Some? { AsksFor(next.value, true); }
    var reply := if next.Some? then Failure(FailureMessage(NameOf(next.value), true)) else Success;
    assert Ends(reply) && [reply][1..] == [];
    assert Chosen(auth.required) == m;
    RoundExactly(auth, Round(true, [reply]));
    assert KeyReplies([reply]) == [reply] && LastDecided([reply]) == reply && FirstEnd([reply]) == reply;
    assert LastJudged([]) == Other && LastWord([]) == Other;
    assert LastWord([reply]) == reply && LastJudged([reply]) == reply;
  }

  /** With such a server the loop completes just those methods, in that order, and nothing is required at its end. */
  lemma {:induction false} CooperativeRounds(auth: Auth, script: nat -> Round, ms: seq<Method>, i: nat)
    requires i < |ms| && Distinct(ms) && auth.required == {ms[i]}
    requires (forall k :: 0 <= k < |ms| ==> ms[k] in REAL) && forall k :: i <= k < |ms| ==> Cooperates(script, ms, k)
    requires forall k :: i <= k < |ms| ==> ms[k] !in auth.done
    ensures InLoop(auth)
    ensures var f := Rounds(auth, script, i); f.auth.required == {} && f.completed == ms[i..]
    decreases |ms| - i
  {
    var last := i == |ms| - 1;
    CooperativeRound(auth, ms[i], if last then None else Some(ms[i + 1]));
    assert Cooperates(script, ms, i);
    if last {
      assert ms[i..] == [ms[i]];
    } else {
      CooperativeRounds(Auth({ms[i + 1]}, auth.done + {ms[i]}), script, ms, i + 1);
      assert ms[i..] == [ms[i]] + ms[i + 1..];
    }
  }

  // ---- the whole of it ----

  /** The reply to "none": an acceptance requires nothing more, and neither does a failure that cannot be read. */
  function AfterNone(auth: Auth, reply: Reply): Auth {
    if reply.Failure? then Refused(auth, reply.payload).0 else auth
  }

  /** local: whether the own address can be found. */
  function Outcome(none: Reply, local: bool, script: nat -> Round): Finish {
    var auth := AfterNone(Auth({}, {}), none);
    if none.Failure? && WellFormed(none.payload) then
      RefusedRequires(Auth({}, {}), none.payload);
      if !Supported(auth.required) || !local then Finish(auth, []) else Rounds(auth, script, 0)
    else Finish(auth, [])
  }

  /** Nothing is tried without an own address, nor when a method is asked for that is not known. */
  lemma NothingTried(names: seq<seq<byte>>, partial: bool, local: bool, script: nat -> Round)
    requires names != [] && AllPlain(names) && Join(names) != [] && 6 + |Join(names)| < UINT32
    requires local ==>
      exists i :: 0 <= i < |names| && names[i] != PUBLICKEY && names[i] != PASSWORD && names[i] != HOSTBASED
    ensures var none := Failure(FailureMessage(Join(names), partial));
      Outcome(none, local, script) == Finish(Auth(MethodsOf(names), {}), [])
  {
    RefusedExactly(Auth({}, {}), names, partial);
    FailureRoundTrip(Join(names), partial);
    MethodsExactly(names);
  }

  /** A round after which nothing is required got an acceptance. */
  lemma RoundAccepted(auth: Auth, round: Round)
    requires InLoop(auth) && OneRound(auth, round).auth.required == {}
    ensures Success in round.replies
  {
    var m := Chosen(auth.required);
    if m == Password {
      PasswordsDecided(auth, false, round.replies);
      LastWordIn(round.replies);
    } else {
      KeysDecided(auth, round.replies);
    }
  }

  lemma {:induction false} AcceptedOnlyBySuccess(auth: Auth, script: nat -> Round, i: nat)
    requires InLoop(auth) && Rounds(auth, script, i).auth.required == {}
    ensures exists k: nat :: Success in script(k).replies
    decreases Left(auth.done)
  {
    RoundKeeps(auth, script(i));
    var s := OneRound(auth, script(i));
    if s.More? {
      AcceptedOnlyBySuccess(s.auth, script, i + 1);
    } else {
      RoundAccepted(auth, script(i));
    }
  }

  lemma {:induction false} LastWordIn(replies: seq<Reply>)
    ensures LastWord(replies) != Other ==> LastWord(replies) in replies
  {
    if replies != [] { LastWordIn(replies[1..]); }
  }

  ghost predicate NeverAccepted(none: Reply, script: nat -> Round) {
    none != Success && forall i: nat :: Success !in script(i).replies
  }

  /** Without any acceptance by the server nothing is left required exactly when the failure of "none" is malformed. */
  lemma AcceptedWithoutSuccess(none: Reply, local: bool, script: nat -> Round)
    requires none.Failure? && NeverAccepted(none, script)
    ensures Outcome(none, local, script).auth.required == {} <==> !WellFormed(none.payload)
  {
    var auth := AfterNone(Auth({}, {}), none);
    if WellFormed(none.payload) {
      RefusedRequires(Auth({}, {}), none.payload);
      if Supported(auth.required) && local && Rounds(auth, script, 0).auth.required == {} {
        AcceptedOnlyBySuccess(auth, script, 0);
      }
    }
  }

  /** A failure message of one byte as the answer to "none": nothing is required, and nothing was tried. */
  lemma OneByteFailure(local: bool, script: nat -> Round)
    ensures Outcome(Failure([51]), local, script) == Finish(Auth({}, {}), [])
  {
    assert !WellFormed([51]);
  }

  /**
   From the first reply on: a server that answers "none" with the first method of any list of distinct methods, and then
   asks for the others one by one, is satisfied by just those methods in that order.
   */
  lemma CooperativeServer(script: nat -> Round, ms: seq<Method>)
    requires ms != [] && Distinct(ms) && forall k :: 0 <= k < |ms| ==> ms[k] in REAL && Cooperates(script, ms, k)
    ensures var f := Outcome(Failure(FailureMessage(NameOf(ms[0]), false)), true, script);
      f.auth.required == {} && f.completed == ms
  {
    AsksFor(ms[0], false);
    CooperativeRounds(Auth({ms[0]}, {}), script, ms, 0);
    assert ms[0..] == ms;
  }

  lemma PublickeyThenPassword(script: nat -> Round)
    requires script(0) == Round(true, [Failure(FailureMessage(PASSWORD, true))]) && script(1) == Round(true, [Success])
    ensures var f := Outcome(Failure(FailureMessage(PUBLICKEY, false)), true, script);
      f.auth.required == {} && f.completed == [Publickey, Password]
  {
    var ms := [Publickey, Password];
    forall k | 0 <= k < |ms| ensures ms[k] in REAL && Cooperates(script, ms, k) {}
    CooperativeServer(script, ms);
  }

  /** Passwords go on after one was accepted: a later refusal takes the acceptance back. */
  lemma AcceptedThenRefused(done: set<Method>)
    ensures TryPasswords(Auth({Password}, done), false, [Success, Failure(FailureMessage(PASSWORD, false))])
         == (Auth({Password}, done), false)
  {
    FailureRoundTrip(PASSWORD, false);
    WrittenIsRead({Password});
    assert Written({Password}) == PASSWORD;
    var refusal := Failure(FailureMessage(PASSWORD, false));
    var auth := Auth({}, done);
    assert Refused(auth, refusal.payload) == (Auth({Password}, done), false);
    assert [Success, refusal][1..] == [refusal] && [refusal][1..] == [];
    assert TryPasswords(auth, true, [refusal]) == TryPasswords(Auth({Password}, done), false, []);
  }

  // ---- the client ----

  class Client {
    var required: set<Method>
    var done: set<Method>

    constructor ()
      ensures Now() == Auth({}, {})
    {
      required, done := {}, {};
    }

    ghost function Now(): Auth
      reads this
    {
      Auth(required, done)
    }

    method HandleFailure(payload: seq<byte>) returns (ok: bool)
      modifies this`required
      ensures (Now(), ok) == Refused(old(Now()), payload)
    {
      if |payload| <= 6 { return false; }
      var len := GetUint32(payload[1..]);
      if len == 0 || |payload| != (6 + len) % UINT32 { return false; }
      WellFormedExactly(payload);
      required := GetRequired(payload[5..5 + len]);
      return payload[5 + len] > 0;
    }

    method SendKeys(replies: seq<Reply>) returns (ok: bool)
      modifies this`required
      ensures (Now(), ok) == TryKeys(old(Now()), replies)
    {
      assert replies[0..] == replies;
      for i := 0 to |replies|
        invariant TryKeys(old(Now()), replies) == TryKeys(Now(), replies[i..])
      {
        assert replies[i..][0] == replies[i] && replies[i..][1..] == replies[i + 1..];
        match replies[i] {
          case Success =>
            required := {};
            return true;
          case Failure(payload) =>
            ok := HandleFailure(payload);
            if ok { return; }
          case _ =>
        }
      }
      return false;
    }

    method SendPasswords(replies: seq<Reply>) returns (ok: bool)
      modifies this`required
      ensures (Now(), ok) == TryPasswords(old(Now()), false, replies)
    {
      ok := false;
      assert replies[0..] == replies;
      for i := 0 to |replies|
        invariant TryPasswords(old(Now()), false, replies) == TryPasswords(Now(), ok, replies[i..])
      {
        assert replies[i..][0] == replies[i] && replies[i..][1..] == replies[i + 1..];
        match replies[i] {
          case Success => required, ok := {}, true;
          case Failure(payload) => ok := HandleFailure(payload);
          case NoReply => return;
          case _ =>
        }
      }
    }

    method TryOne(round: Round) returns (step: Step)
      requires InLoop(Now())
      modifies this
      ensures step == OneRound(old(Now()), round) && Now() == step.auth
    {
      var m := Chosen(required);
      if m in done || !round.available { return Over(Auth(required, done), []); }
      MethodKeeps(Now(), m, round.replies);
      var ok;
      if m == Password { ok := SendPasswords(round.replies); } else { ok := SendKeys(round.replies); }
      if !ok { return Over(Auth(required, done), []); }
      done := done + {m};
      var after := Auth(required, done);
      step := if required == {} || !Supported(required) then Over(after, [m]) else More(after, m);
    }

    /** The loop from tryuserauth on: it ends against every server. */
    method TryUserauth(script: nat -> Round) returns (completed: seq<Method>)
      requires InLoop(Now())
      modifies this
      ensures Finish(Now(), completed) == Rounds(old(Now()), script, 0)
    {
      completed := [];
      ghost var whole := Rounds(Now(), script, 0);
      var i := 0;
      while true
        invariant InLoop(Now()) && ToDo(whole, completed, Now(), script, i)
        decreases Left(done)
      {
        RoundsStep(whole, completed, Now(), script, i);
        RoundKeeps(Now(), script(i));
        var step := TryOne(script(i));
        if step.Over? {
          completed := completed + step.completed;
          return;
        }
        completed := completed + [step.completing];
        i := i + 1;
      }
    }

    method Start(service: bool, none: Reply, local: bool, script: nat -> Round)
      returns (result: int, completed: seq<Method>)
      requires Now() == Auth({}, {})
      modifies this
      ensures result == if service && (none.Success? || none.Failure?) && required == {} then 0 else -1
      ensures service && (none.Success? || none.Failure?) ==> Finish(Now(), completed) == Outcome(none, local, script)
      ensures Distinct(completed) && |completed| <= 3
    {
      completed := [];
      if !service || !(none.Success? || none.Failure?) { return -1, []; }
      if none.Failure? {
        var ok := HandleFailure(none.payload);
        if WellFormed(none.payload) { RefusedRequires(Auth({}, {}), none.payload); }
      }
      if required != {} && Supported(required) && local {
        CompletedOnce(Now(), script, 0);
        completed := TryUserauth(script);
      }
      result := if required == {} then 0 else -1;
    }
  }

  ghost predicate ToDo(whole: Finish, completed: seq<Method>, auth: Auth, script: nat -> Round, i: nat)
    requires InLoop(auth)
  {
    var f := Rounds(auth, script, i); whole == Finish(f.auth, completed + f.completed)
  }

  lemma RoundsStep(whole: Finish, completed: seq<Method>, auth: Auth, script: nat -> Round, i: nat)
    requires InLoop(auth) && ToDo(whole, completed, auth, script, i)
    ensures var s := OneRound(auth, script(i));
      if s.Over? then whole == Finish(s.auth, completed + s.completed)
      else InLoop(s.auth) && ToDo(whole, completed + [s.completing], s.auth, script, i + 1)
  {
    RoundKeeps(auth, script(i));
    var s := OneRound(auth, script(i));
    if s.More? {
      var rest := Rounds(s.auth, script, i + 1).completed;
      assert completed + ([s.completing] + rest) == completed + [s.completing] + rest;
    }
  }
}
