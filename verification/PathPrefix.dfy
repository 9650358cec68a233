/**
 The part of the remote filesystem that is shared, and the translation of paths to and from it: src/interface/sftp.c
 and the path buffer of src/lib/fuse/path.c.
 */
module PathPrefix {
  import opened Options
  import opened Sequences

  /** What every path is relative to: the remote home directory, the root, or a given directory. */
  datatype Prefix = Home | Root | Custom(path: string)

  // ---- choosing the prefix ----

  /** prefix with at most one slash behind it is home; an empty home never is. */
  predicate NamesHome(prefix: string, home: Option<string>) {
    home.Some? && (prefix == "~" || (home.value != "" && (prefix == home.value || prefix == home.value + "/")))
  }

  /** The length that is kept of the prefix. */
  function KeptLength(prefix: Option<string>, home: Option<string>): nat {
    if prefix.None? then 0
    else if home.None? then |prefix.value|
    else
      var p, h := prefix.value, home.value;
      if p == "~" || (|h| > 0 && p == h) || (|h| > 0 && |p| == |h| + 1 && p[..|h|] == h && p[|h|] == '/') then 0
      else |p|
  }

  function Classify(prefix: Option<string>, home: Option<string>): Prefix {
    var len := KeptLength(prefix, home);
    if len == 0 then Home else if len == 1 && prefix.value == "/" then Root else Custom(prefix.value[..len])
  }

  /** Every prefix falls in one class, and only a prefix that is not empty is ever prepended. */
  lemma ClassifyIs(prefix: Option<string>, home: Option<string>)
    ensures Classify(prefix, home).Home? <==> prefix.None? || prefix.value == "" || NamesHome(prefix.value, home)
    ensures Classify(prefix, home).Root? <==> prefix == Some("/") && !NamesHome("/", home)
    ensures Classify(prefix, home).Custom? ==> prefix == Some(Classify(prefix, home).path) && prefix.value !in {"", "/"}
  {
    if prefix.Some? && home.Some? {
      var p, h := prefix.value, home.value;
      if |p| == |h| + 1 && p[..|h|] == h && p[|h|] == '/' { assert p == h + "/"; }
      if p == h + "/" { assert p[..|h|] == h; }
    }
    if prefix.Some? { assert prefix.value[..|prefix.value|] == prefix.value; }
  }

  // ---- to the remote side and back ----

  predicate Absolute(path: string) { path != "" && path[0] == '/' }

  /** The text that is sent for a local path. */
  function Sent(prefix: Prefix, local: string): string
    requires prefix.Home? ==> local != ""
  {
    match prefix
    case Home => local[1..]
    case Root => local
    case Custom(p) => p + local
  }

  /** The server takes a path without leading slash relative to the home directory. */
  function OnServer(home: string, sent: string): string { if Absolute(sent) then sent else home + "/" + sent }

  predicate BelowAt(path: string, dir: string) { |path| > |dir| && path[..|dir|] == dir && path[|dir|] == '/' }

  /** Where in a remote path the local part starts, or -1. */
  function Compare(prefix: Prefix, home: Option<string>, path: string): int {
    match prefix
    case Home =>
      if Absolute(path) then (if home.Some? && BelowAt(path, home.value) then |home.value| else -1) else 0
    case Root => if Absolute(path) then 1 else -1
    case Custom(p) => if BelowAt(path, p) then |p| else -1
  }

  /** The local path for a remote one, as the target of a symbolic link is translated. */
  function Local(prefix: Prefix, home: Option<string>, path: string): (r: Option<string>)
  {
    var k := Compare(prefix, home, path);
    if k < 0 then None else Some(path[k..])
  }

  lemma BelowExactly(path: string, dir: string)
    ensures BelowAt(path, dir) <==> exists rest :: path == dir + "/" + rest
  {
    if BelowAt(path, dir) {
      var rest := path[|dir| + 1..];
      assert path == path[..|dir|] + [path[|dir|]] + rest;
      assert path == dir + "/" + rest;
    }
    forall rest | path == dir + "/" + rest
      ensures BelowAt(path, dir)
    {
      assert path == dir + ("/" + rest);
      assert path[..|dir|] == dir;
    }
  }

  /** Only what lies below the directory, at the border of a component, is accepted. */
  lemma AcceptedExactly(prefix: Prefix, home: Option<string>, path: string)
    ensures prefix.Custom? ==>
      (Local(prefix, home, path).Some? <==> exists rest :: path == prefix.path + "/" + rest)
    ensures prefix.Home? && Absolute(path) ==>
      (Local(prefix, home, path).Some? <==> home.Some? && exists rest :: path == home.value + "/" + rest)
    ensures prefix.Home? && !Absolute(path) ==> Local(prefix, home, path) == Some(path)
    ensures prefix.Root? ==> (Local(prefix, home, path).Some? <==> Absolute(path))
  {
    match prefix
    case Custom(p) => BelowExactly(path, p);
    case Home => if home.Some? { BelowExactly(path, home.value); }
    case Root =>
  }

  lemma BelowJoined(dir: string, local: string)
    requires Absolute(local)
    ensures BelowAt(dir + local, dir) && (dir + local)[|dir|..] == local
  {
    assert (dir + local)[..|dir|] == dir;
  }

  lemma HomeOnServer(home: string, local: string)
    requires Absolute(local) && !Absolute(local[1..])
    ensures OnServer(home, Sent(Home, local)) == home + local
  {
    assert "/" + local[1..] == local;
    assert home + "/" + local[1..] == home + ("/" + local[1..]);
  }

  /** In home mode the path on the server translates back exactly when the local path has one leading slash. */
  lemma HomeRoundTrip(home: string, local: string)
    requires Absolute(local)
    ensures Local(Home, Some(home), OnServer(home, Sent(Home, local))) == Some(local)
       <==> !Absolute(local[1..]) && (home == "" || Absolute(home))
  {
    var path := OnServer(home, Sent(Home, local));
    if Absolute(local[1..]) {
      assert |path| < |local|;
    } else {
      HomeOnServer(home, local);
      BelowJoined(home, local);
      if home != "" { assert path[0] == home[0] && path != local; }
    }
  }

  /** In custom mode it does exactly when the prefix is absolute. */
  lemma CustomRoundTrip(p: string, home: string, local: string)
    requires p != "" && Absolute(local) && Absolute(home)
    ensures Local(Custom(p), Some(home), OnServer(home, Sent(Custom(p), local))) == Some(local) <==> Absolute(p)
  {
    BelowJoined(p, local);
    if !Absolute(p) {
      var path := home + "/" + (p + local);
      assert OnServer(home, Sent(Custom(p), local)) == path && path[0] == '/' && p[0] != '/';
      assert path[..|p|] != p by { assert |path| >= |p| && path[..|p|][0] == path[0]; }
    }
  }

  /** What is accepted is sent out again as the path it came from, in home and custom mode. */
  lemma AcceptedComesBack(prefix: Prefix, home: string, path: string)
    requires !prefix.Root? && Absolute(path) && Absolute(home)
    requires Local(prefix, Some(home), path).Some?
    ensures var local := Local(prefix, Some(home), path).value;
      && Absolute(local)
      && (prefix.Custom? ==> Sent(prefix, local) == path)
      && (prefix.Home? ==> home + "/" + Sent(prefix, local) == path)
  {
    var dir := if prefix.Home? then home else prefix.path;
    var local := Local(prefix, Some(home), path).value;
    assert local == path[|dir|..];
    assert path == path[..|dir|] + local;
    assert "/" + local[1..] == local;
    assert home + "/" + local[1..] == home + ("/" + local[1..]);
  }

  /** In root mode the slash is lost: no absolute path comes back as it was. */
  lemma RootLosesSlash(home: Option<string>, path: string)
    requires Absolute(path)
    ensures Local(Root, home, Sent(Root, path)) == Some(path[1..]) && path[1..] != path
  {
  }

  /** With a slash at the end of the prefix only a second slash behind it is accepted. */
  lemma TrailingSlash(dir: string, home: Option<string>, rest: string)
    ensures Local(Custom(dir + "/"), home, dir + "/" + rest).Some? <==> Absolute(rest)
  {
    var p := dir + "/";
    assert (p + rest)[..|p|] == p;
    if rest != "" { assert (p + rest)[|p|] == rest[0]; }
  }

  // ---- the path buffer, filled from its end ----

  function Joined(names: seq<string>): string { if names == [] then "" else "/" + names[0] + Joined(names[1..]) }

  lemma JoinedFirst(name: string, names: seq<string>)
    ensures Joined([name] + names) == "/" + (name + Joined(names))
  {
    assert ([name] + names)[1..] == names;
    assert "/" + name + Joined(names) == "/" + (name + Joined(names));
  }

  /** A path of plain names has one leading slash, so that the round trip through home applies to it. */
  lemma JoinedIsLocal(names: seq<string>)
    requires names != [] && names[0] != "" && names[0][0] != '/'
    ensures Absolute(Joined(names)) && !Absolute(Joined(names)[1..])
  {
    assert Joined(names) == "/" + (names[0] + Joined(names[1..])) by {
      assert "/" + names[0] + Joined(names[1..]) == "/" + (names[0] + Joined(names[1..]));
    }
    assert Joined(names)[1..] == names[0] + Joined(names[1..]);
  }

  class FusePath {
    const path: array<char>
    var start: nat

    /** The text runs from start to the last byte, which stays zero. */
    ghost predicate Valid()
      reads this, path
    {
      start < path.Length && path[path.Length - 1] == '\0'
    }

    ghost function Text(): string
      requires Valid()
      reads this, path
    {
      path[start..path.Length - 1]
    }

    constructor (len: nat)
      requires len > 0
      ensures Valid() && fresh(path) && path.Length == len && Text() == "" && start == len - 1
    {
      path := new char[len](_ => '\0');
      start := len - 1;
    }

    /** text goes in front of the path; nothing else of the buffer changes. */
    method Prepend(text: string)
      requires Valid() && |text| <= start
      modifies this, path
      ensures Valid() && start == old(start) - |text| && Text() == text + old(Text())
      ensures forall i :: 0 <= i < path.Length && !(start <= i < old(start)) ==> path[i] == old(path[i])
    {
      start := start - |text|;
      forall i | 0 <= i < |text| {
        path[start + i] := text[i];
      }
      assert path[start..path.Length - 1] == text + old(path[start..path.Length - 1]);
    }

    method PrependName(name: string)
      requires Valid() && |name| + 1 <= start
      modifies this, path
      ensures Valid() && start == old(start) - |name| - 1 && Text() == "/" + (name + old(Text()))
      ensures forall i :: 0 <= i < path.Length && !(start <= i < old(start)) ==> path[i] == old(path[i])
    {
      Prepend(name);
      Prepend("/");
    }

    /** The names from the deepest directory up to the root of the context. */
    method PrependNames(names: seq<string>)
      requires Valid() && |Joined(names)| <= start
      modifies this, path
      ensures Valid() && Text() == Joined(names) + old(Text())
    {
      var i := |names|;
      assert names[i..] == [];
      while i > 0
        invariant 0 <= i <= |names| && Valid()
        invariant Text() == Joined(names[i..]) + old(Text())
        invariant start == old(start) - |Joined(names[i..])|
      {
        JoinedFirst(names[i - 1], names[i..]);
        assert names[i - 1..] == [names[i - 1]] + names[i..];
        JoinedFits(names, i - 1);
        ghost var tail := Joined(names[i..]);
        PrependName(names[i - 1]);
        i := i - 1;
        RegroupFour("/", names[i], tail, old(Text()));
      }
      assert names[0..] == names;
    }

    /** get_complete_pathlen: turns the local path into the one that is sent, in place, and gives its length. */
    method Complete(prefix: Prefix) returns (length: nat)
      requires Valid()
      requires prefix.Home? ==> Text() != ""
      requires prefix.Custom? ==> |prefix.path| <= start
      modifies this, path
      ensures Valid() && Text() == Sent(prefix, old(Text())) && length == |Text()|
      ensures forall i :: 0 <= i < path.Length && !(start <= i < old(start)) ==> path[i] == old(path[i])
      ensures start == old(start) + (match prefix case Home => 1 case Root => 0 case Custom(p) => -|p|)
    {
      match prefix {
        case Home => start := start + 1;
        case Root =>
        case Custom(p) => Prepend(p);
      }
      length := path.Length - 1 - start;
    }
  }

  lemma {:induction false} JoinedFits(names: seq<string>, i: nat)
    requires i < |names|
    ensures |Joined(names[i..])| == 1 + |names[i]| + |Joined(names[i + 1..])| <= |Joined(names)|
  {
    assert names[i..][1..] == names[i + 1..];
    if i > 0 {
      assert names[1..][i - 1..] == names[i..] && names[1..][i..] == names[i + 1..];
      JoinedFits(names[1..], i - 1);
    } else {
      assert names[0..] == names;
    }
  }

  /** A path is built from its names, completed for the server, and what the server holds there comes back the same. */
  method ThereAndBack(prefix: Prefix, home: string, names: seq<string>) returns (back: Option<string>)
    requires Absolute(home) && names != [] && names[0] != "" && names[0][0] != '/'
    requires !prefix.Root? && (prefix.Custom? ==> Absolute(prefix.path))
    ensures back == Some(Joined(names))
  {
    var local := Joined(names);
    var fpath := new FusePath(|local| + (if prefix.Custom? then |prefix.path| else 0) + 1);
    fpath.PrependNames(names);
    assert fpath.Text() == local + "" == local;
    JoinedIsLocal(names);
    var length := fpath.Complete(prefix);
    var sent := fpath.path[fpath.start..fpath.path.Length - 1];
    back := Local(prefix, Some(home), OnServer(home, sent));
    match prefix {
      case Home => HomeRoundTrip(home, local);
      case Custom(p) => CustomRoundTrip(p, home, local);
    }
  }

  /** The prefix of a client; memory is false when its data cannot be allocated. */
  class SftpClientData {
    var prefix: Option<Prefix>

    constructor ()
      ensures prefix == None
    {
      prefix := None;
    }

    method SetPrefix(text: Option<string>, home: Option<string>, memory: bool) returns (result: int)
      modifies this
      ensures result == if memory then 0 else -1
      ensures prefix == if memory then Some(Classify(text, home)) else old(prefix)
    {
      var len := 0;
      if text.Some? {
        len := |text.value|;
        if home.Some? {
          var tmp := |home.value|;
          if text.value == "~" || (tmp > 0 && text.value == home.value)
             || (tmp > 0 && len == tmp + 1 && text.value[..tmp] == home.value && text.value[tmp] == '/') {
            len := 0;
          }
        }
      }
      if !memory { return -1; }
      if len == 0 {
        prefix := Some(Home);
      } else if len == 1 && text.value == "/" {
        prefix := Some(Root);
      } else {
        prefix := Some(Custom(text.value[..len]));
      }
      return 0;
    }
  }
}
