/**
 The tree of service contexts of a workspace: check_create_install_context and the helpers that create contexts in
 src/client/utils.c, create_service_context in src/lib/context/init.c and the walk over children in
 src/lib/context/next.c. Contexts are numbered in the order of their creation.
 */
module ContextTree {
  import opened Options

  datatype Kind = Workspace | Browse(btype: nat) | Filesystem | Shared

  const NETWORK := 1
  const NETGROUP := 2
  const NETHOST := 3

  datatype Context = Context(kind: Kind, unique: nat, name: string, service: nat, primary: Option<nat>)

  /** children[p]: the contexts in the list of p, in the order in which they were added. */
  datatype Tree = Tree(contexts: seq<Context>, children: seq<seq<nat>>)

  datatype Action = Nothing | Add | Found

  /** What is created below a parent of a kind; below other parents nothing is. */
  function ChildKind(kind: Kind): Option<Kind> {
    match kind
    case Workspace => Some(Browse(NETWORK))
    case Browse(b) =>
      if b == NETWORK then Some(Browse(NETGROUP))
      else if b == NETGROUP then Some(Browse(NETHOST))
      else if b == NETHOST then Some(Filesystem)
      else None
    case Filesystem => None
    case Shared => None
  }

  /** Contexts are told apart by number when they are browsed and by name when they are a filesystem. */
  predicate Matches(c: Context, kind: Kind, unique: nat, name: string) {
    c.kind == kind && if kind.Filesystem? then c.name == name else c.unique == unique
  }

  predicate Within(list: seq<nat>, n: nat) { forall i :: 0 <= i < |list| ==> list[i] < n }

  /** The first in a list of contexts that matches. */
  function Find(contexts: seq<Context>, list: seq<nat>, kind: Kind, unique: nat, name: string): Option<nat>
    requires Within(list, |contexts|)
  {
    if list == [] then None
    else if Matches(contexts[list[0]], kind, unique, name) then Some(list[0])
    else Find(contexts, list[1..], kind, unique, name)
  }

  /** A context as the two creators fill it in; a number is not set on a filesystem, nor a name on a browse context. */
  function NewContext(kind: Kind, unique: nat, name: string, service: nat, primary: Option<nat>): Context {
    if kind.Filesystem? then Context(kind, 0, name, service, primary) else Context(kind, unique, "", service, primary)
  }

  function Added(t: Tree, p: nat, c: Context): Tree
    requires p < |t.children|
  {
    Tree(t.contexts + [c], t.children[p := t.children[p] + [|t.contexts|]] + [[]])
  }

  /** A call: the parent, the keys, and whether a new context can be allocated and set up. */
  datatype Call = Call(parent: nat, unique: nat, name: string, service: nat, primary: Option<nat>, possible: bool)

  datatype Outcome = Outcome(tree: Tree, context: Option<nat>, action: Action)

  predicate Sound(t: Tree) {
    |t.children| == |t.contexts| && forall p :: 0 <= p < |t.children| ==> Within(t.children[p], |t.contexts|)
  }

  function CheckCreate(t: Tree, call: Call): Outcome
    requires Sound(t) && call.parent < |t.contexts|
  {
    var kind := ChildKind(t.contexts[call.parent].kind);
    if kind.None? then Outcome(t, None, Nothing)
    else
      var found := Find(t.contexts, t.children[call.parent], kind.value, call.unique, call.name);
      if found.Some? then Outcome(t, found, Found)
      else if !call.possible then Outcome(t, None, Nothing)
      else
        var c := NewContext(kind.value, call.unique, call.name, call.service, call.primary);
        Outcome(Added(t, call.parent, c), Some(|t.contexts|), Add)
  }

  /** A call on a context that does not exist is none at all. */
  function After(t: Tree, call: Call): Tree
    requires Sound(t)
  {
    if call.parent < |t.contexts| then CheckCreate(t, call).tree else t
  }

  function Run(t: Tree, calls: seq<Call>): (r: Tree)
    requires Sound(t)
    ensures Sound(r)
    decreases calls
  {
    if calls == [] then t
    else
      AfterSound(t, calls[0]);
      Run(After(t, calls[0]), calls[1..])
  }

  lemma AddedChildren(t: Tree, p: nat, c: Context)
    requires Sound(t) && p < |t.contexts|
    ensures var r := Added(t, p, c);
      && |r.children| == |r.contexts| == |t.contexts| + 1
      && r.children[p] == t.children[p] + [|t.contexts|] && r.children[|t.contexts|] == []
      && (forall q :: 0 <= q < |t.contexts| && q != p ==> r.children[q] == t.children[q])
  {
  }

  lemma AfterSound(t: Tree, call: Call)
    requires Sound(t)
    ensures Sound(After(t, call))
  {
    var r := After(t, call);
    if |r.contexts| > |t.contexts| {
      var c := r.contexts[|t.contexts|];
      AddedChildren(t, call.parent, c);
    }
  }

  // ---- the layers ----

  /** The children of a context are all of the kind that belongs below it, and were created after it. */
  predicate Layered(t: Tree)
    requires Sound(t)
  {
    forall p, i :: 0 <= p < |t.children| && 0 <= i < |t.children[p]| ==>
      p < t.children[p][i] && ChildKind(t.contexts[p].kind) == Some(t.contexts[t.children[p][i]].kind)
  }

  predicate SameKey(a: Context, b: Context) {
    a.kind == b.kind && if a.kind.Filesystem? then a.name == b.name else a.unique == b.unique
  }

  /** No two children of a context have the same key. */
  predicate SiblingsDiffer(t: Tree)
    requires Sound(t)
  {
    forall p, i, j :: 0 <= p < |t.children| && 0 <= i < j < |t.children[p]| ==>
      !SameKey(t.contexts[t.children[p][i]], t.contexts[t.children[p][j]])
  }

  /** No context is a child of two others. */
  predicate OneParent(t: Tree)
    requires Sound(t)
  {
    forall p, q, i, j ::
      0 <= p < |t.children| && 0 <= i < |t.children[p]| && 0 <= q < |t.children| && 0 <= j < |t.children[q]| ==>
      t.children[p][i] == t.children[q][j] ==> p == q
  }

  predicate Proper(t: Tree) { Sound(t) && Layered(t) && SiblingsDiffer(t) && OneParent(t) }

  /** A workspace context alone. */
  predicate Initial(t: Tree) { |t.contexts| == 1 && t.contexts[0].kind.Workspace? && t.children == [[]] }

  lemma {:induction false} FindIs(contexts: seq<Context>, list: seq<nat>, kind: Kind, unique: nat, name: string)
    requires Within(list, |contexts|)
    ensures var f := Find(contexts, list, kind, unique, name);
      && (f.Some? ==> f.value in list && Matches(contexts[f.value], kind, unique, name))
      && (f.None? ==> forall i :: 0 <= i < |list| ==> !Matches(contexts[list[i]], kind, unique, name))
  {
    if list != [] {
      assert list == [list[0]] + list[1..];
      FindIs(contexts, list[1..], kind, unique, name);
    }
  }

  /** An element of a list after the addition was there before, or is the new one. */
  lemma AddedElement(t: Tree, p: nat, c: Context, q: nat, i: nat)
    requires Sound(t) && p < |t.contexts| && q < |Added(t, p, c).children| && i < |Added(t, p, c).children[q]|
    ensures var x := Added(t, p, c).children[q][i];
      if q == p && i == |t.children[p]| then x == |t.contexts|
      else q < |t.children| && i < |t.children[q]| && x == t.children[q][i] && x < |t.contexts|
  {
    AddedChildren(t, p, c);
  }

  lemma AddedLayered(t: Tree, p: nat, c: Context)
    requires Sound(t) && Layered(t) && p < |t.contexts| && ChildKind(t.contexts[p].kind) == Some(c.kind)
    ensures Sound(Added(t, p, c)) && Layered(Added(t, p, c))
  {
    AddedChildren(t, p, c);
    var r := Added(t, p, c);
    forall q, i | 0 <= q < |r.children| && 0 <= i < |r.children[q]|
      ensures q < r.children[q][i] && ChildKind(r.contexts[q].kind) == Some(r.contexts[r.children[q][i]].kind)
    {
      AddedElement(t, p, c, q, i);
    }
  }

  lemma AddedOneParent(t: Tree, p: nat, c: Context)
    requires Sound(t) && OneParent(t) && p < |t.contexts| && Sound(Added(t, p, c))
    ensures OneParent(Added(t, p, c))
  {
    var r := Added(t, p, c);
    forall q, q', i, j |
      0 <= q < |r.children| && 0 <= i < |r.children[q]| && 0 <= q' < |r.children| && 0 <= j < |r.children[q']|
      ensures r.children[q][i] == r.children[q'][j] ==> q == q'
    {
      AddedElement(t, p, c, q, i);
      AddedElement(t, p, c, q', j);
    }
  }

  lemma AddedSiblings(t: Tree, p: nat, c: Context)
    requires Sound(t) && SiblingsDiffer(t) && p < |t.contexts| && Sound(Added(t, p, c))
    requires forall i :: 0 <= i < |t.children[p]| ==> !SameKey(t.contexts[t.children[p][i]], c)
    ensures SiblingsDiffer(Added(t, p, c))
  {
    AddedChildren(t, p, c);
    var r := Added(t, p, c);
    forall q, i, j | 0 <= q < |r.children| && 0 <= i < j < |r.children[q]|
      ensures !SameKey(r.contexts[r.children[q][i]], r.contexts[r.children[q][j]])
    {
      AddedElement(t, p, c, q, i);
      AddedElement(t, p, c, q, j);
    }
  }

  lemma AfterProper(t: Tree, call: Call)
    requires Proper(t)
    ensures Proper(After(t, call))
  {
    if call.parent < |t.contexts| && CheckCreate(t, call).action == Add {
      var kind := ChildKind(t.contexts[call.parent].kind).value;
      FindIs(t.contexts, t.children[call.parent], kind, call.unique, call.name);
      var c := NewContext(kind, call.unique, call.name, call.service, call.primary);
      AddedLayered(t, call.parent, c);
      AddedOneParent(t, call.parent, c);
      AddedSiblings(t, call.parent, c);
    }
  }

  /** Whatever calls are made: layers, siblings with distinct keys, and one parent each. */
  lemma {:induction false} RunProper(t: Tree, calls: seq<Call>)
    requires Proper(t)
    ensures Proper(Run(t, calls))
    decreases calls
  {
    if calls != [] {
      AfterProper(t, calls[0]);
      RunProper(After(t, calls[0]), calls[1..]);
    }
  }

  /** A way down the tree. */
  predicate Path(t: Tree, path: seq<nat>)
    requires Sound(t)
  {
    path != [] ==>
      && path[|path| - 1] < |t.contexts|
      && (|path| > 1 ==> Path(t, path[..|path| - 1]) && path[|path| - 1] in t.children[path[|path| - 2]])
  }

  /** From the workspace down come network, netgroup, nethost and filesystem, and nothing below. */
  lemma {:induction false} PathLevels(t: Tree, path: seq<nat>)
    requires Proper(t) && Path(t, path) && path != []
    requires path[0] < |t.contexts| && t.contexts[path[0]].kind.Workspace?
    ensures |path| <= 5
    ensures t.contexts[path[|path| - 1]].kind ==
      [Workspace, Browse(NETWORK), Browse(NETGROUP), Browse(NETHOST), Filesystem][|path| - 1]
  {
    if |path| > 1 {
      PathLevels(t, path[..|path| - 1]);
    }
  }

  lemma LayersOfRun(t: Tree, calls: seq<Call>, path: seq<nat>)
    requires Initial(t) && Sound(t) && Path(Run(t, calls), path) && path != [] && path[0] == 0
    ensures |path| <= 5
    ensures Run(t, calls).contexts[path[|path| - 1]].kind ==
      [Workspace, Browse(NETWORK), Browse(NETGROUP), Browse(NETHOST), Filesystem][|path| - 1]
  {
    RunProper(t, calls);
    RunExtends(t, calls);
    PathLevels(Run(t, calls), path);
  }

  /** A call on the newest context, when that has no children yet. */
  lemma Deeper(t: Tree, call: Call)
    requires Sound(t) && call.parent == |t.contexts| - 1 && t.children[call.parent] == [] && call.possible
    requires ChildKind(t.contexts[call.parent].kind).Some?
    ensures var r := After(t, call); var n := |t.contexts|;
      && Sound(r) && |r.contexts| == n + 1 && r.contexts[..n] == t.contexts
      && r.children[n] == [] && n in r.children[n - 1]
      && r.contexts[n].kind == ChildKind(t.contexts[call.parent].kind).value
  {
    AfterSound(t, call);
    var kind := ChildKind(t.contexts[call.parent].kind).value;
    AddedChildren(t, call.parent, NewContext(kind, call.unique, call.name, call.service, call.primary));
  }

  /** The four calls down from a workspace that reach a filesystem. */
  lemma WayDown(t: Tree, a: Call, b: Call, c: Call, d: Call)
    requires Initial(t) && Sound(t) && a.possible && b.possible && c.possible && d.possible
    requires a.parent == 0 && b.parent == 1 && c.parent == 2 && d.parent == 3
    ensures var u := Run(t, [a, b, c, d]);
      |u.contexts| == 5 && u.contexts[1].kind == Browse(1) && u.contexts[2].kind == Browse(2)
      && u.contexts[3].kind == Browse(3) && u.contexts[4].kind == Filesystem
  {
    Deeper(t, a);
    var t1 := After(t, a);
    Deeper(t1, b);
    var t2 := After(t1, b);
    Deeper(t2, c);
    var t3 := After(t2, c);
    Deeper(t3, d);
    assert [a, b, c, d][1..] == [b, c, d] && [b, c, d][1..] == [c, d] && [c, d][1..] == [d] && [d][1..] == [];
    var t4 := After(t3, d);
    assert t4.contexts[..4] == t3.contexts && t3.contexts[..3] == t2.contexts && t2.contexts[..2] == t1.contexts;
    assert Run(t2, [c, d]) == Run(t3, [d]) == Run(t4, []) == t4;
  }

  // ---- nothing that exists changes ----

  /** u has all of t, unchanged, and lists of children that start as they were. */
  predicate Extends(t: Tree, u: Tree) {
    && Sound(t) && Sound(u) && t.contexts <= u.contexts
    && forall p :: 0 <= p < |t.children| ==> t.children[p] <= u.children[p]
  }

  lemma AfterExtends(t: Tree, call: Call)
    requires Sound(t)
    ensures Extends(t, After(t, call))
  {
    AfterSound(t, call);
    var r := After(t, call);
    if |r.contexts| > |t.contexts| { AddedChildren(t, call.parent, r.contexts[|t.contexts|]); }
  }

  lemma {:induction false} RunExtends(t: Tree, calls: seq<Call>)
    requires Sound(t)
    ensures Extends(t, Run(t, calls))
    decreases calls
  {
    if calls != [] {
      AfterExtends(t, calls[0]);
      RunExtends(After(t, calls[0]), calls[1..]);
    }
  }

  lemma {:induction false} FindInLonger(
    contexts: seq<Context>, more: seq<Context>, list: seq<nat>, longer: seq<nat>, kind: Kind, unique: nat, name: string)
    requires contexts <= more && list <= longer
    requires Within(list, |contexts|) && Within(longer, |more|)
    requires Find(contexts, list, kind, unique, name).Some?
    ensures Find(more, longer, kind, unique, name) == Find(contexts, list, kind, unique, name)
  {
    assert longer[0] == list[0];
    if !Matches(contexts[list[0]], kind, unique, name) {
      FindInLonger(contexts, more, list[1..], longer[1..], kind, unique, name);
    }
  }

  lemma {:induction false} FindAtEnd(
    contexts: seq<Context>, c: Context, list: seq<nat>, kind: Kind, unique: nat, name: string)
    requires Within(list, |contexts|) && Find(contexts, list, kind, unique, name).None?
    requires Matches(c, kind, unique, name)
    ensures Within(list + [|contexts|], |contexts| + 1)
    ensures Find(contexts + [c], list + [|contexts|], kind, unique, name) == Some(|contexts|)
  {
    if list != [] {
      assert (list + [|contexts|])[1..] == list[1..] + [|contexts|];
      FindAtEnd(contexts, c, list[1..], kind, unique, name);
    }
  }

  /** The keys a call looks for; service and primary play no part. */
  predicate SameTarget(a: Call, b: Call) { a.parent == b.parent && a.unique == b.unique && a.name == b.name }

  lemma FoundAtOnce(t: Tree, call: Call)
    requires Sound(t) && call.parent < |t.contexts| && CheckCreate(t, call).context.Some?
    ensures var r := CheckCreate(t, call);
      && Sound(r.tree) && ChildKind(t.contexts[call.parent].kind).Some?
      && Find(r.tree.contexts, r.tree.children[call.parent], ChildKind(t.contexts[call.parent].kind).value, call.unique,
              call.name) == r.context
  {
    AfterSound(t, call);
    if CheckCreate(t, call).action == Add {
      var kind := ChildKind(t.contexts[call.parent].kind).value;
      var c := NewContext(kind, call.unique, call.name, call.service, call.primary);
      AddedChildren(t, call.parent, c);
      FindAtEnd(t.contexts, c, t.children[call.parent], kind, call.unique, call.name);
    }
  }

  /** Once a call has given a context, the same call finds it, however many calls lie between, and changes nothing. */
  lemma FoundEverAfter(t: Tree, call: Call, between: seq<Call>, again: Call)
    requires Sound(t) && call.parent < |t.contexts| && SameTarget(call, again)
    requires CheckCreate(t, call).context.Some?
    ensures var u := Run(After(t, call), between);
      again.parent < |u.contexts| && CheckCreate(u, again) == Outcome(u, CheckCreate(t, call).context, Found)
  {
    FoundAtOnce(t, call);
    AfterExtends(t, call);
    var t1 := After(t, call);
    RunExtends(t1, between);
    var u := Run(t1, between);
    var kind := ChildKind(t.contexts[call.parent].kind).value;
    FindInLonger(t1.contexts, u.contexts, t1.children[call.parent], u.children[call.parent], kind, call.unique,
                 call.name);
  }

  /** No context comes back exactly when the parent takes no children, or a new one is needed and cannot be made. */
  lemma NoContextExactly(t: Tree, call: Call)
    requires Proper(t) && call.parent < |t.contexts|
    ensures var kind := ChildKind(t.contexts[call.parent].kind);
      CheckCreate(t, call).context.None? <==>
        || kind.None?
        || (!call.possible && forall i :: 0 <= i < |t.children[call.parent]| ==>
             !Matches(t.contexts[t.children[call.parent][i]], kind.value, call.unique, call.name))
    ensures CheckCreate(t, call).context.None? ==> CheckCreate(t, call).tree == t
  {
    var kind := ChildKind(t.contexts[call.parent].kind);
    if kind.Some? { FindIs(t.contexts, t.children[call.parent], kind.value, call.unique, call.name); }
  }

  /**
   A context is made exactly when the parent takes children, none of them has the key, and it is possible. It comes last
   in the list of its parent, has no children, and holds what the call gave; nothing else changes.
   */
  lemma CreatedExactly(t: Tree, call: Call)
    requires Proper(t) && call.parent < |t.contexts|
    ensures var kind := ChildKind(t.contexts[call.parent].kind); var r := CheckCreate(t, call); var n := |t.contexts|;
      && (r.action == Add <==>
            && kind.Some? && call.possible
            && forall i :: 0 <= i < |t.children[call.parent]| ==>
                 var c := t.contexts[t.children[call.parent][i]];
                 if kind.value.Filesystem? then c.name != call.name else c.unique != call.unique)
      && (r.action == Add ==>
            && r.context == Some(n) && |r.tree.contexts| == |r.tree.children| == n + 1
            && r.tree.contexts[..n] == t.contexts && r.tree.children[n] == []
            && r.tree.children[call.parent] == t.children[call.parent] + [n]
            && (forall p :: 0 <= p < n && p != call.parent ==> r.tree.children[p] == t.children[p])
            && var c := r.tree.contexts[n];
               && c.kind == kind.value && c.service == call.service && c.primary == call.primary
               && c.name == (if kind.value.Filesystem? then call.name else "")
               && c.unique == (if kind.value.Filesystem? then 0 else call.unique))
  {
    var kind := ChildKind(t.contexts[call.parent].kind);
    if kind.Some? {
      FindIs(t.contexts, t.children[call.parent], kind.value, call.unique, call.name);
      AddedChildren(t, call.parent, NewContext(kind.value, call.unique, call.name, call.service, call.primary));
    }
  }

  // ---- the contexts as they are changed in place ----

  /** Where in a context its list element lies. */
  datatype Link = BrowseLink | FilesystemLink

  function LinkOf(kind: Kind): Link { if kind.Filesystem? then FilesystemLink else BrowseLink }

  class Contexts {
    var contexts: seq<Context>
    var children: seq<seq<nat>>

    ghost function Now(): Tree
      reads this
    {
      Tree(contexts, children)
    }

    constructor (root: Context)
      requires root.kind.Workspace?
      ensures Initial(Now()) && Proper(Now())
    {
      contexts, children := [root], [[]];
    }

    /** The context around element i of the list of p; link says at which offset the element is taken to lie. */
    function Around(p: nat, i: nat, link: Link): nat
      requires Sound(Now()) && p < |contexts| && i < |children[p]|
      requires link == LinkOf(contexts[children[p][i]].kind)
      reads this
    {
      children[p][i]
    }

    /**
     The walk over the children of p. Its first context is taken at the offset that goes with the kind of p, each
     further one at the offset that goes with the kind of the one before.
     */
    method Search(p: nat, kind: Kind, unique: nat, name: string) returns (found: Option<nat>)
      requires Proper(Now()) && p < |contexts| && ChildKind(contexts[p].kind) == Some(kind)
      ensures found == Find(contexts, children[p], kind, unique, name)
    {
      var i := 0;
      var link := if contexts[p].kind == Browse(NETHOST) then FilesystemLink else BrowseLink;
      while i < |children[p]|
        invariant 0 <= i <= |children[p]| && link == LinkOf(kind)
        invariant Find(contexts, children[p], kind, unique, name)
               == Find(contexts, children[p][i..], kind, unique, name)
      {
        assert children[p][i..][0] == children[p][i] && children[p][i..][1..] == children[p][i + 1..];
        var c := Around(p, i, link);
        if Matches(contexts[c], kind, unique, name) { return Some(c); }
        link := LinkOf(contexts[c].kind);
        i := i + 1;
      }
      return None;
    }

    /** create_service_context: a context whose interface cannot be set up is taken out of the list again. */
    method Create(p: nat, c: Context, memory: bool, ready: bool) returns (id: Option<nat>)
      requires Sound(Now()) && p < |contexts|
      modifies this
      ensures id == if memory && ready then Some(old(|contexts|)) else None
      ensures Now() == if memory && ready then Added(old(Now()), p, c) else old(Now())
    {
      if !memory { return None; }
      var n := |contexts|;
      contexts := contexts + [c];
      children := children[p := children[p] + [n]] + [[]];
      if !ready {
        contexts := contexts[..n];
        children := children[p := children[p][..|children[p]| - 1]][..n];
        assert children == old(children) && contexts == old(contexts);
        return None;
      }
      return Some(n);
    }

    method CheckCreateInstall(call: Call, memory: bool, ready: bool) returns (found: Option<nat>, action: Action)
      requires Proper(Now()) && call.parent < |contexts| && call.possible == (memory && ready)
      modifies this
      ensures Outcome(Now(), found, action) == CheckCreate(old(Now()), call)
      ensures Proper(Now())
    {
      AfterProper(Now(), call);
      var kind := ChildKind(contexts[call.parent].kind);
      if kind.None? { return None, Nothing; }
      found := Search(call.parent, kind.value, call.unique, call.name);
      if found.Some? { return found, Found; }
      var c := NewContext(kind.value, call.unique, call.name, call.service, call.primary);
      found := Create(call.parent, c, memory, ready);
      action := if found.Some? then Add else Nothing;
    }
  }
}
