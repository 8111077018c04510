/** JSON records: the tree check with an explicit stack, and the flattening of one record.
    Text is a sequence of code points, so that a lone surrogate can be said. */
module JsonRecords {
  type Text = seq<int>

  /** A parsed document; an object's members have distinct names, in document order. */
  datatype Json = Null | Bool(b: bool) | Number(x: int) | String(s: Text) | Array(items: seq<Json>) | Object(members: seq<(Text, Json)>)

  const MAX_DEPTH := 127
  const DOT := 46

  // ---- the tree check --------------------------------------------------------------------

  predicate LoneSurrogate(s: Text) {
    exists i :: 0 <= i < |s| && 0xD800 <= s[i] <= 0xDFFF
  }

  /** The contract by recursion: containers nest at most 127 deep, and no string or member
      name holds a surrogate. */
  predicate Accepts(j: Json, depth: nat) {
    match j
    case String(s) => !LoneSurrogate(s)
    case Array(items) => depth <= MAX_DEPTH && forall i :: 0 <= i < |items| ==> Accepts(items[i], depth + 1)
    case Object(members) => depth <= MAX_DEPTH && forall i :: 0 <= i < |members| ==> !LoneSurrogate(members[i].0) && Accepts(members[i].1, depth + 1)
    case _ => true
  }

  /** How many nodes a tree has. */
  function Size(j: Json): (n: nat)
    ensures n > 0
    decreases j, 1, 0
  {
    1 + SizeOfFirst(j, Width(j))
  }

  function Width(j: Json): nat {
    match j
    case Array(items) => |items|
    case Object(members) => |members|
    case _ => 0
  }

  function SizeOfFirst(j: Json, n: nat): nat
    requires n <= Width(j)
    decreases j, 0, n
  {
    if n == 0 then 0
    else SizeOfFirst(j, n - 1) + (if j.Array? then Size(j.items[n - 1]) else Size(j.members[n - 1].1))
  }

  /** A pending node and its depth. */
  type Stack = seq<(Json, nat)>

  function Pending(stack: Stack): nat {
    if stack == [] then 0 else Pending(stack[..|stack| - 1]) + Size(stack[|stack| - 1].0)
  }

  predicate AllAccepted(stack: Stack) {
    forall k :: 0 <= k < |stack| ==> Accepts(stack[k].0, stack[k].1)
  }

  lemma PushedOne(stack: Stack, e: (Json, nat))
    ensures Pending(stack + [e]) == Pending(stack) + Size(e.0)
    ensures AllAccepted(stack + [e]) <==> AllAccepted(stack) && Accepts(e.0, e.1)
  {
    var t := stack + [e];
    assert t[..|t| - 1] == stack;
    if AllAccepted(t) {
      assert Accepts(t[|t| - 1].0, t[|t| - 1].1);
      forall k | 0 <= k < |stack|
        ensures Accepts(stack[k].0, stack[k].1)
      {
        assert stack[k] == t[k];
      }
    }
  }

  lemma EmptyStack()
    ensures AllAccepted([])
  {
  }

  /** What a node needs by itself; a node that is no container needs nothing else. */
  lemma AcceptsItself(node: Json, depth: nat)
    ensures (node.Array? || node.Object?) && depth > MAX_DEPTH ==> !Accepts(node, depth)
    ensures !(node.Array? || node.Object?) ==> (Accepts(node, depth) <==> !(node.String? && LoneSurrogate(node.s)))
  {
    hide LoneSurrogate;
  }

  /** Child `i`, and its name when it has one, are fine. */
  predicate ChildFine(j: Json, depth: nat, i: nat)
    requires i < Width(j)
  {
    if j.Array? then Accepts(j.items[i], depth + 1) else !LoneSurrogate(j.members[i].0) && Accepts(j.members[i].1, depth + 1)
  }

  /** The first `n` children are fine. */
  predicate ChildrenAccepted(j: Json, depth: nat, n: nat)
    requires n <= Width(j)
  {
    forall i :: 0 <= i < n ==> ChildFine(j, depth, i)
  }

  /** `_json_check_tree`: pops and pushes instead of recursing, terminates on every tree, and
      accepts exactly what the recursive contract accepts. */
  method CheckTree(doc: Json) returns (ok: bool)
    ensures ok <==> Accepts(doc, 1)
  {
    hide Accepts, AllAccepted, Pending, Size, LoneSurrogate;
    var stack: Stack := [(doc, 1)];
    EmptyStack();
    PushedOne([], (doc, 1));
    assert stack == [] + [(doc, 1)];
    while stack != []
      invariant Accepts(doc, 1) <==> AllAccepted(stack)
      decreases Pending(stack)
    {
      var (node, depth) := stack[|stack| - 1];
      var rest := stack[..|stack| - 1];
      PushedOne(rest, (node, depth));
      assert stack == rest + [(node, depth)];
      AcceptsItself(node, depth);
      if node.Array? || node.Object? {
        if depth > MAX_DEPTH { return false; }
        var fine;
        fine, stack := PushChildren(rest, node, depth);
        if !fine { return false; }
      } else {
        if node.String? && LoneSurrogate(node.s) { return false; }
        stack := rest;
      }
    }
    return true;
  }

  method PushChildren(rest: Stack, node: Json, depth: nat) returns (fine: bool, stack: Stack)
    requires (node.Array? || node.Object?) && depth <= MAX_DEPTH
    ensures fine ==> (AllAccepted(stack) <==> AllAccepted(rest) && Accepts(node, depth)) && Pending(stack) < Pending(rest) + Size(node)
    ensures !fine ==> !Accepts(node, depth)
  {
    hide AllAccepted, Pending, Accepts;
    stack := rest;
    var i := 0;
    NoChildren(node, depth);
    while i < Width(node)
      invariant i <= Width(node)
      invariant AllAccepted(stack) <==> AllAccepted(rest) && ChildrenAccepted(node, depth, i)
      invariant Pending(stack) == Pending(rest) + SizeOfFirst(node, i)
    {
      OneChild(node, depth, i);
      if node.Object? && LoneSurrogate(node.members[i].0) {
        BadName(node, depth, i);
        return false, stack;
      }
      var child := if node.Array? then node.items[i] else node.members[i].1;
      PushedOne(stack, (child, depth + 1));
      stack := stack + [(child, depth + 1)];
      i := i + 1;
    }
    ChildrenDecide(node, depth);
    return true, stack;
  }

  lemma NoChildren(node: Json, depth: nat)
    ensures ChildrenAccepted(node, depth, 0) && SizeOfFirst(node, 0) == 0
  {
  }

  lemma OneChild(node: Json, depth: nat, i: nat)
    requires (node.Array? || node.Object?) && i < Width(node)
    ensures var child := if node.Array? then node.items[i] else node.members[i].1;
            && SizeOfFirst(node, i + 1) == SizeOfFirst(node, i) + Size(child)
            && (ChildrenAccepted(node, depth, i + 1) <==> ChildrenAccepted(node, depth, i) && (node.Object? ==> !LoneSurrogate(node.members[i].0)) && Accepts(child, depth + 1))
  {
    hide Accepts, LoneSurrogate;
    if ChildrenAccepted(node, depth, i + 1) { assert ChildFine(node, depth, i); }
  }

  lemma BadName(node: Json, depth: nat, i: nat)
    requires node.Object? && i < |node.members| && LoneSurrogate(node.members[i].0)
    ensures !Accepts(node, depth)
  {
  }

  lemma ChildrenDecide(node: Json, depth: nat)
    requires (node.Array? || node.Object?) && depth <= MAX_DEPTH
    ensures ChildrenAccepted(node, depth, Width(node)) <==> Accepts(node, depth)
    ensures Size(node) == 1 + SizeOfFirst(node, Width(node))
  {
    if Accepts(node, depth) {
      forall i | 0 <= i < Width(node)
        ensures ChildFine(node, depth, i)
      {
      }
    }
    if ChildrenAccepted(node, depth, Width(node)) {
      if node.Array? {
        forall i | 0 <= i < |node.items|
          ensures Accepts(node.items[i], depth + 1)
        {
          assert ChildFine(node, depth, i);
        }
      } else {
        forall i | 0 <= i < |node.members|
          ensures !LoneSurrogate(node.members[i].0) && Accepts(node.members[i].1, depth + 1)
        {
          assert ChildFine(node, depth, i);
        }
      }
    }
  }

  // ---- trees by their paths -----------------------------------------------------------------

  /** Child `i` of a container. */
  function Child(j: Json, i: nat): Json
    requires i < Width(j)
  {
    if j.Array? then j.items[i] else j.members[i].1
  }

  /** Following `path` from `j`, by position in each container, leads to `node`. */
  ghost predicate Leads(j: Json, path: seq<nat>, node: Json)
    decreases |path|
  {
    if path == [] then node == j else path[0] < Width(j) && Leads(Child(j, path[0]), path[1..], node)
  }

  ghost predicate NoSurrogate(s: Text) {
    forall c :: c in s ==> !(55296 <= c <= 57343)
  }

  /** Nothing is wrong with a node by itself, `depth` levels down. */
  ghost predicate NodeFine(node: Json, depth: nat) {
    && (node.Array? || node.Object? ==> depth <= 127)
    && (node.String? ==> NoSurrogate(node.s))
    && (node.Object? ==> forall i :: 0 <= i < |node.members| ==> NoSurrogate(node.members[i].0))
  }

  ghost predicate AllFine(j: Json, depth: nat) {
    forall path, node :: Leads(j, path, node) ==> NodeFine(node, depth + |path|)
  }

  lemma SurrogatesAre(s: Text)
    ensures LoneSurrogate(s) <==> !NoSurrogate(s)
  {
    if LoneSurrogate(s) {
      var i :| 0 <= i < |s| && 0xD800 <= s[i] <= 0xDFFF;
      assert s[i] in s;
    }
  }

  lemma FineStep(j: Json, depth: nat)
    ensures AllFine(j, depth) <==> NodeFine(j, depth) && forall i :: 0 <= i < Width(j) ==> AllFine(Child(j, i), depth + 1)
  {
    hide NodeFine;
    if AllFine(j, depth) {
      assert Leads(j, [], j);
      forall i, path, node | 0 <= i < Width(j) && Leads(Child(j, i), path, node)
        ensures NodeFine(node, depth + 1 + |path|)
      {
        var longer := [i as nat] + path;
        assert longer[1..] == path;
        assert Leads(j, longer, node);
      }
    }
    if NodeFine(j, depth) && forall i :: 0 <= i < Width(j) ==> AllFine(Child(j, i), depth + 1) {
      forall path, node | Leads(j, path, node)
        ensures NodeFine(node, depth + |path|)
      {
        if path != [] {
          assert AllFine(Child(j, path[0]), depth + 1);
          assert Leads(Child(j, path[0]), path[1..], node);
        }
      }
    }
  }

  /** The contract by paths: a tree is accepted exactly when every container in it is at most
      127 levels down, itself counted, and no string or member name in it holds a code point
      from 0xD800 to 0xDFFF. */
  lemma {:induction false} AcceptsByPaths(j: Json, depth: nat)
    ensures Accepts(j, depth) <==> AllFine(j, depth)
    decreases j
  {
    hide AllFine, NoSurrogate, LoneSurrogate;
    FineStep(j, depth);
    if j.Array? {
      forall i | 0 <= i < |j.items|
        ensures Accepts(j.items[i], depth + 1) <==> AllFine(Child(j, i), depth + 1)
      {
        AcceptsByPaths(j.items[i], depth + 1);
      }
    } else if j.Object? {
      forall i | 0 <= i < |j.members|
        ensures Accepts(j.members[i].1, depth + 1) <==> AllFine(Child(j, i), depth + 1)
        ensures LoneSurrogate(j.members[i].0) <==> !NoSurrogate(j.members[i].0)
      {
        AcceptsByPaths(j.members[i].1, depth + 1);
        SurrogatesAre(j.members[i].0);
      }
    } else if j.String? {
      SurrogatesAre(j.s);
    }
  }

  // ---- flattening one record --------------------------------------------------------------

  /** The leaves of the first `n` members, each under its dotted name, in document order. */
  function Leaves(obj: Json, prefix: Text, n: nat): seq<(Text, Json)>
    requires obj.Object? && n <= |obj.members|
    decreases obj, n
  {
    if n == 0 then []
    else
      var (k, v) := obj.members[n - 1];
      Leaves(obj, prefix, n - 1) + (if v.Object? then Leaves(v, prefix + k + [DOT], |v.members|) else [(prefix + k, v)])
  }

  /** The dotted names under which the first `n` members have objects. */
  function ObjectPaths(obj: Json, prefix: Text, n: nat): set<Text>
    requires obj.Object? && n <= |obj.members|
    decreases obj, n
  {
    if n == 0 then {}
    else
      var (k, v) := obj.members[n - 1];
      ObjectPaths(obj, prefix, n - 1) + (if v.Object? then {prefix + k} + ObjectPaths(v, prefix + k + [DOT], |v.members|) else {})
  }

  // ---- leaves by their paths ------------------------------------------------------------

  /** What the path of member positions `path` leads to inside objects, if anything. */
  ghost function NodeAt(j: Json, path: seq<nat>): (r: seq<Json>)
    ensures |r| <= 1
    decreases |path|
  {
    if path == [] then [j]
    else if j.Object? && path[0] < |j.members| then NodeAt(j.members[path[0]].1, path[1..])
    else []
  }

  /** The member names along a path. */
  ghost function KeysAlong(j: Json, path: seq<nat>): (r: seq<Text>)
    requires |NodeAt(j, path)| == 1
    ensures |r| == |path|
    decreases |path|
  {
    if path == [] then [] else [j.members[path[0]].0] + KeysAlong(j.members[path[0]].1, path[1..])
  }

  /** Names joined by a full stop, code point 46. */
  function Dotted(keys: seq<Text>): Text {
    if keys == [] then [] else if |keys| == 1 then keys[0] else keys[0] + [46] + Dotted(keys[1..])
  }

  /** The path leads to a value that is no object. */
  ghost predicate IsLeaf(j: Json, path: seq<nat>) {
    |NodeAt(j, path)| == 1 && !NodeAt(j, path)[0].Object?
  }

  /** The path leads to an object inside `j`. */
  ghost predicate IsInner(j: Json, path: seq<nat>) {
    path != [] && |NodeAt(j, path)| == 1 && NodeAt(j, path)[0].Object?
  }

  ghost function NameAt(j: Json, path: seq<nat>): Text
    requires |NodeAt(j, path)| == 1
  {
    Dotted(KeysAlong(j, path))
  }

  /** `paths` are the leaves below the first `n` members, each once. */
  ghost predicate LeafPathsTo(obj: Json, n: nat, paths: seq<seq<nat>>) {
    && (forall i, j :: 0 <= i < j < |paths| ==> paths[i] != paths[j])
    && (forall p :: p in paths <==> p != [] && p[0] < n && IsLeaf(obj, p))
  }

  /** Entry by entry, the leaf's dotted name behind the prefix, and its value. */
  ghost predicate NamedBy(obj: Json, prefix: Text, paths: seq<seq<nat>>, leaves: seq<(Text, Json)>) {
    |leaves| == |paths| && forall i :: 0 <= i < |paths| ==> IsLeaf(obj, paths[i]) && leaves[i] == (prefix + NameAt(obj, paths[i]), NodeAt(obj, paths[i])[0])
  }

  /** Paths below member `k`, as paths of the object. */
  ghost function Below(k: nat, paths: seq<seq<nat>>): (r: seq<seq<nat>>)
    ensures |r| == |paths| && forall i :: 0 <= i < |r| ==> r[i] == [k] + paths[i]
  {
    seq(|paths|, i requires 0 <= i < |paths| => [k] + paths[i])
  }

  /** A step into member `k` and on. */
  lemma StepInto(obj: Json, k: nat, p: seq<nat>)
    requires obj.Object? && k < |obj.members|
    ensures NodeAt(obj, [k] + p) == NodeAt(obj.members[k].1, p)
    ensures |NodeAt(obj, [k] + p)| == 1 ==>
              NameAt(obj, [k] + p) == if p == [] then obj.members[k].0 else obj.members[k].0 + [46] + NameAt(obj.members[k].1, p)
  {
    assert ([k] + p)[1..] == p;
    if |NodeAt(obj, [k] + p)| == 1 {
      assert KeysAlong(obj, [k] + p)[1..] == KeysAlong(obj.members[k].1, p);
    }
  }

  /** The leaves below member `k` are those of its value, if it is an object, or itself. */
  lemma {:induction false} MemberLeaves(obj: Json, prefix: Text, k: nat) returns (paths: seq<seq<nat>>)
    requires obj.Object? && k < |obj.members|
    ensures forall i, j :: 0 <= i < j < |paths| ==> paths[i] != paths[j]
    ensures forall p :: p in paths <==> p != [] && p[0] == k && IsLeaf(obj, p)
    ensures var (name, v) := obj.members[k];
            NamedBy(obj, prefix, paths, if v.Object? then Leaves(v, prefix + name + [DOT], |v.members|) else [(prefix + name, v)])
    decreases obj, k, 0
  {
    var (name, v) := obj.members[k];
    if v.Object? {
      var inner := LeavesByPaths(v, prefix + name + [DOT], |v.members|);
      paths := Below(k, inner);
      BelowIs(obj, prefix, k, inner);
    } else {
      paths := [[k]];
      StepInto(obj, k, []);
      assert [k] + [] == [k];
      forall p | p != [] && p[0] == k && IsLeaf(obj, p)
        ensures p == [k]
      {
        OnlyItself(obj, k, p);
      }
    }
  }

  lemma OnlyItself(obj: Json, k: nat, p: seq<nat>)
    requires obj.Object? && k < |obj.members| && !obj.members[k].1.Object? && p != [] && p[0] == k && IsLeaf(obj, p)
    ensures p == [k]
  {
    assert p == [k] + p[1..];
    StepInto(obj, k, p[1..]);
  }

  lemma BelowIs(obj: Json, prefix: Text, k: nat, inner: seq<seq<nat>>)
    requires obj.Object? && k < |obj.members| && obj.members[k].1.Object?
    requires LeafPathsTo(obj.members[k].1, |obj.members[k].1.members|, inner)
    requires var (name, v) := obj.members[k]; NamedBy(v, prefix + name + [DOT], inner, Leaves(v, prefix + name + [DOT], |v.members|))
    ensures var paths := Below(k, inner);
            && (forall i, j :: 0 <= i < j < |paths| ==> paths[i] != paths[j])
            && (forall p :: p in paths <==> p != [] && p[0] == k && IsLeaf(obj, p))
            && NamedBy(obj, prefix, paths, Leaves(obj.members[k].1, prefix + obj.members[k].0 + [DOT], |obj.members[k].1.members|))
  {
    hide Leaves, NodeAt, NameAt, Dotted, IsLeaf, NamedBy;
    var paths := Below(k, inner);
    forall i, j | 0 <= i < j < |paths|
      ensures paths[i] != paths[j]
    {
      assert paths[i][1..] == inner[i] && paths[j][1..] == inner[j];
    }
    forall p
      ensures p in paths <==> p != [] && p[0] == k && IsLeaf(obj, p)
    {
      BelowMember(obj, k, inner, p);
    }
    BelowNamed(obj, prefix, k, inner, Leaves(obj.members[k].1, prefix + obj.members[k].0 + [DOT], |obj.members[k].1.members|));
  }

  lemma BelowMember(obj: Json, k: nat, inner: seq<seq<nat>>, p: seq<nat>)
    requires obj.Object? && k < |obj.members| && obj.members[k].1.Object?
    requires LeafPathsTo(obj.members[k].1, |obj.members[k].1.members|, inner)
    ensures p in Below(k, inner) <==> p != [] && p[0] == k && IsLeaf(obj, p)
  {
    hide NodeAt, NameAt;
    if p in Below(k, inner) {
      var i :| 0 <= i < |inner| && Below(k, inner)[i] == p;
      assert inner[i] in inner;
      StepInto(obj, k, inner[i]);
    }
    if p != [] && p[0] == k && IsLeaf(obj, p) {
      assert p == [k] + p[1..];
      StepInto(obj, k, p[1..]);
      LeafIsBelow(obj.members[k].1, p[1..]);
      var i :| 0 <= i < |inner| && inner[i] == p[1..];
      assert Below(k, inner)[i] == p;
    }
  }

  lemma BelowNamed(obj: Json, prefix: Text, k: nat, inner: seq<seq<nat>>, leaves: seq<(Text, Json)>)
    requires obj.Object? && k < |obj.members| && (forall p :: p in inner ==> p != [])
    requires NamedBy(obj.members[k].1, prefix + obj.members[k].0 + [DOT], inner, leaves)
    ensures NamedBy(obj, prefix, Below(k, inner), leaves)
  {
    hide NodeAt, NameAt;
    forall i | 0 <= i < |inner|
      ensures IsLeaf(obj, [k] + inner[i]) && leaves[i] == (prefix + NameAt(obj, [k] + inner[i]), NodeAt(obj, [k] + inner[i])[0])
    {
      assert inner[i] in inner;
      StepInto(obj, k, inner[i]);
      assert prefix + NameAt(obj, [k] + inner[i]) == prefix + obj.members[k].0 + [DOT] + NameAt(obj.members[k].1, inner[i]);
    }
  }

  /** A leaf of an object is below one of its members. */
  lemma LeafIsBelow(v: Json, p: seq<nat>)
    requires v.Object? && IsLeaf(v, p)
    ensures p != [] && p[0] < |v.members|
  {
  }

  /** The leaves are exactly the paths to values that are no objects, each once, under the
      names along the path joined by dots. */
  lemma {:induction false} LeavesByPaths(obj: Json, prefix: Text, n: nat) returns (paths: seq<seq<nat>>)
    requires obj.Object? && n <= |obj.members|
    ensures LeafPathsTo(obj, n, paths) && NamedBy(obj, prefix, paths, Leaves(obj, prefix, n))
    decreases obj, n, 1
  {
    hide IsLeaf, NameAt, NodeAt, LeafPathsTo, NamedBy;
    if n == 0 {
      paths := [];
      NoLeaves(obj, prefix);
    } else {
      var front := LeavesByPaths(obj, prefix, n - 1);
      var more := MemberLeaves(obj, prefix, n - 1);
      paths := front + more;
      PathsJoin(obj, n, front, more);
      var (k, v) := obj.members[n - 1];
      NamesJoin(obj, prefix, front, more, Leaves(obj, prefix, n - 1), if v.Object? then Leaves(v, prefix + k + [DOT], |v.members|) else [(prefix + k, v)]);
    }
  }

  lemma NoLeaves(obj: Json, prefix: Text)
    ensures LeafPathsTo(obj, 0, []) && NamedBy(obj, prefix, [], [])
  {
    hide IsLeaf;
  }

  lemma PathsJoin(obj: Json, n: nat, front: seq<seq<nat>>, more: seq<seq<nat>>)
    requires n > 0 && LeafPathsTo(obj, n - 1, front)
    requires forall i, j :: 0 <= i < j < |more| ==> more[i] != more[j]
    requires forall p :: p in more <==> p != [] && p[0] == n - 1 && IsLeaf(obj, p)
    ensures LeafPathsTo(obj, n, front + more)
  {
    hide IsLeaf;
    var paths := front + more;
    forall i, j | 0 <= i < j < |paths|
      ensures paths[i] != paths[j]
    {
      if i < |front| <= j {
        assert front[i] in front && more[j - |front|] in more;
      }
    }
  }

  lemma NamesJoin(obj: Json, prefix: Text, p: seq<seq<nat>>, q: seq<seq<nat>>, a: seq<(Text, Json)>, b: seq<(Text, Json)>)
    requires NamedBy(obj, prefix, p, a) && NamedBy(obj, prefix, q, b)
    ensures NamedBy(obj, prefix, p + q, a + b)
  {
    hide NameAt, NodeAt;
  }

  /** Some object below the first `n` members has this name behind the prefix. */
  ghost predicate InnerNamed(obj: Json, prefix: Text, n: nat, name: Text) {
    exists p :: IsInner(obj, p) && p[0] < n && name == prefix + NameAt(obj, p)
  }

  /** Object paths are exactly the dotted names under which the record has objects. */
  lemma {:induction false} ObjectPathsByPaths(obj: Json, prefix: Text, n: nat, name: Text)
    requires obj.Object? && n <= |obj.members|
    ensures name in ObjectPaths(obj, prefix, n) <==> InnerNamed(obj, prefix, n, name)
    decreases obj, n
  {
    hide InnerVia, InnerNamed;
    InnerOneMore(obj, prefix, n, name);
    if n > 0 {
      ObjectPathsByPaths(obj, prefix, n - 1, name);
      var (k, v) := obj.members[n - 1];
      if v.Object? { ObjectPathsByPaths(v, prefix + k + [DOT], |v.members|, name); }
      InnerSteps(obj, prefix, n - 1, name);
    }
  }

  lemma InnerOneMore(obj: Json, prefix: Text, n: nat, name: Text)
    ensures InnerNamed(obj, prefix, n, name) <==> n > 0 && (InnerNamed(obj, prefix, n - 1, name) || InnerVia(obj, prefix, n - 1, name))
  {
    hide NameAt, NodeAt;
    if p :| IsInner(obj, p) && p[0] < n && name == prefix + NameAt(obj, p) {
      if p[0] < n - 1 { assert InnerNamed(obj, prefix, n - 1, name); } else { assert InnerVia(obj, prefix, n - 1, name); }
    }
  }

  /** Some object path through member `k` has this name. */
  ghost predicate InnerVia(obj: Json, prefix: Text, k: nat, name: Text) {
    exists p :: IsInner(obj, p) && p[0] == k && name == prefix + NameAt(obj, p)
  }

  lemma InnerSteps(obj: Json, prefix: Text, k: nat, name: Text)
    requires obj.Object? && k < |obj.members|
    ensures var (key, v) := obj.members[k];
            InnerVia(obj, prefix, k, name) <==> v.Object? && (name == prefix + key || InnerNamed(v, prefix + key + [DOT], |v.members|, name))
  {
    hide NameAt, NodeAt;
    var (key, v) := obj.members[k];
    if InnerVia(obj, prefix, k, name) {
      var p :| IsInner(obj, p) && p[0] == k && name == prefix + NameAt(obj, p);
      InnerPath(obj, prefix, k, p);
    }
    if v.Object? && name == prefix + key {
      StepInto(obj, k, []);
      assert [k] + [] == [k];
      NothingFurther(v);
      assert IsInner(obj, [k]);
    }
    if v.Object? && InnerNamed(v, prefix + key + [DOT], |v.members|, name) {
      var p :| IsInner(v, p) && p[0] < |v.members| && name == prefix + key + [DOT] + NameAt(v, p);
      StepInto(obj, k, p);
      assert IsInner(obj, [k] + p);
      assert prefix + NameAt(obj, [k] + p) == name;
    }
  }

  lemma NothingFurther(v: Json)
    ensures NodeAt(v, []) == [v]
  {
  }

  /** An object path through member `k` ends there, or goes on inside it. */
  lemma InnerPath(obj: Json, prefix: Text, k: nat, p: seq<nat>)
    requires obj.Object? && k < |obj.members| && IsInner(obj, p) && p[0] == k
    ensures var (key, v) := obj.members[k];
            v.Object? && (prefix + NameAt(obj, p) == prefix + key || InnerNamed(v, prefix + key + [DOT], |v.members|, prefix + NameAt(obj, p)))
  {
    hide NameAt;
    var (key, v) := obj.members[k];
    var tail := p[1..];
    assert p == [k] + tail;
    StepInto(obj, k, tail);
    if tail != [] {
      assert IsInner(v, tail) && tail[0] < |v.members|;
      assert prefix + NameAt(obj, p) == prefix + key + [DOT] + NameAt(v, tail);
    }
  }

  predicate DistinctNames(leaves: seq<(Text, Json)>) {
    forall i, j :: 0 <= i < j < |leaves| ==> leaves[i].0 != leaves[j].0
  }

  predicate NoneIn(leaves: seq<(Text, Json)>, flat: map<Text, Json>) {
    forall i :: 0 <= i < |leaves| ==> leaves[i].0 !in flat
  }

  /** Adding `leaves` one by one succeeds: no name is there already, or comes twice. */
  predicate Fit(flat: map<Text, Json>, leaves: seq<(Text, Json)>) {
    DistinctNames(leaves) && NoneIn(leaves, flat)
  }

  function Added(flat: map<Text, Json>, leaves: seq<(Text, Json)>): map<Text, Json> {
    if leaves == [] then flat else Added(flat, leaves[..|leaves| - 1])[leaves[|leaves| - 1].0 := leaves[|leaves| - 1].1]
  }

  lemma {:induction false} AddedKeys(flat: map<Text, Json>, leaves: seq<(Text, Json)>)
    ensures forall n :: n in Added(flat, leaves) <==> n in flat || exists i :: 0 <= i < |leaves| && leaves[i].0 == n
  {
    if leaves != [] {
      var front := leaves[..|leaves| - 1];
      AddedKeys(flat, front);
      forall n
        ensures n in Added(flat, leaves) <==> n in flat || exists i :: 0 <= i < |leaves| && leaves[i].0 == n
      {
        if n in Added(flat, front) && n !in flat {
          var i :| 0 <= i < |front| && front[i].0 == n;
          assert leaves[i].0 == n;
        }
        if n !in Added(flat, leaves) {
          forall i | 0 <= i < |leaves|
            ensures leaves[i].0 != n
          {
            if i < |front| { assert front[i].0 != n; }
          }
        }
      }
    }
  }

  lemma {:induction false} AddedTwice(flat: map<Text, Json>, a: seq<(Text, Json)>, b: seq<(Text, Json)>)
    ensures Added(flat, a + b) == Added(Added(flat, a), b)
  {
    if b == [] {
      assert a + b == a;
    } else {
      var front := b[..|b| - 1];
      AddedTwice(flat, a, front);
      assert (a + b)[..|a + b| - 1] == a + front;
      assert (a + b)[|a + b| - 1] == b[|b| - 1];
    }
  }

  lemma FitTwice(flat: map<Text, Json>, a: seq<(Text, Json)>, b: seq<(Text, Json)>)
    ensures Fit(flat, a + b) <==> Fit(flat, a) && Fit(Added(flat, a), b)
  {
    AddedKeys(flat, a);
    hide Added;
    var c := a + b;
    if Fit(flat, c) {
      forall i, j | 0 <= i < j < |a|
        ensures a[i].0 != a[j].0
      {
        assert c[i].0 != c[j].0;
      }
      forall i, j | 0 <= i < j < |b|
        ensures b[i].0 != b[j].0
      {
        assert c[|a| + i].0 != c[|a| + j].0;
      }
      forall i | 0 <= i < |a|
        ensures a[i].0 !in flat
      {
        assert c[i].0 !in flat;
      }
      forall i | 0 <= i < |b|
        ensures b[i].0 !in Added(flat, a)
      {
        assert c[|a| + i].0 !in flat;
        forall k | 0 <= k < |a|
          ensures a[k].0 != b[i].0
        {
          assert c[k].0 != c[|a| + i].0;
        }
      }
    }
    if Fit(flat, a) && Fit(Added(flat, a), b) {
      forall i, j | 0 <= i < j < |c|
        ensures c[i].0 != c[j].0
      {
        if i < |a| <= j {
          assert b[j - |a|].0 !in Added(flat, a);
          assert a[i].0 in Added(flat, a);
        } else if j < |a| {
          assert a[i].0 != a[j].0;
        } else {
          assert b[i - |a|].0 != b[j - |a|].0;
        }
      }
      forall i | 0 <= i < |c|
        ensures c[i].0 !in flat
      {
        if i < |a| { assert a[i].0 !in flat; } else { assert b[i - |a|].0 !in Added(flat, a); }
      }
    }
  }

  /** The fields `_json_flatten` fills. */
  class Record {
    var flat: map<Text, Json>
    var objpaths: set<Text>

    constructor ()
      ensures flat == map[] && objpaths == {}
    {
      flat, objpaths := map[], {};
    }

    /** `_json_flatten`: members in order, objects by recursion under their dotted path; stops
        at the first name that is there already. */
    method Flatten(obj: Json, prefix: Text) returns (ok: bool)
      requires obj.Object?
      modifies this
      ensures ok <==> Fit(old(flat), Leaves(obj, prefix, |obj.members|))
      ensures ok ==> flat == Added(old(flat), Leaves(obj, prefix, |obj.members|)) && objpaths == old(objpaths) + ObjectPaths(obj, prefix, |obj.members|)
      decreases obj
    {
      hide Fit, Added;
      var i := 0;
      NothingAdded(flat);
      while i < |obj.members|
        invariant i <= |obj.members|
        invariant Fit(old(flat), Leaves(obj, prefix, i))
        invariant flat == Added(old(flat), Leaves(obj, prefix, i)) && objpaths == old(objpaths) + ObjectPaths(obj, prefix, i)
      {
        var (k, v) := obj.members[i];
        var name := prefix + k;
        ghost var more := if v.Object? then Leaves(v, name + [DOT], |v.members|) else [(name, v)];
        ghost var front := Leaves(obj, prefix, i);
        assert Leaves(obj, prefix, i + 1) == front + more;
        FitTwice(old(flat), front, more);
        AddedTwice(old(flat), front, more);
        if v.Object? {
          objpaths := objpaths + {name};
          var fine := Flatten(v, name + [DOT]);
          if !fine {
            StopsShort(old(flat), obj, prefix, i + 1);
            return false;
          }
        } else {
          OneLeaf(flat, name, v);
          if name in flat {
            StopsShort(old(flat), obj, prefix, i + 1);
            return false;
          }
          flat := flat[name := v];
        }
        i := i + 1;
      }
      return true;
    }
  }

  lemma NothingAdded(flat: map<Text, Json>)
    ensures Fit(flat, []) && Added(flat, []) == flat
  {
  }

  lemma OneLeaf(flat: map<Text, Json>, name: Text, v: Json)
    ensures Fit(flat, [(name, v)]) <==> name !in flat
    ensures Added(flat, [(name, v)]) == flat[name := v]
  {
    var one := [(name, v)];
    assert one[..0] == [] && one[0].0 == name;
    if Fit(flat, one) { assert one[0].0 !in flat; }
  }

  /** Once the first `n` members clash, so does the whole record. */
  lemma {:induction false} StopsShort(flat: map<Text, Json>, obj: Json, prefix: Text, n: nat)
    requires obj.Object? && n <= |obj.members| && !Fit(flat, Leaves(obj, prefix, n))
    ensures !Fit(flat, Leaves(obj, prefix, |obj.members|))
    decreases |obj.members| - n
  {
    if n < |obj.members| {
      var (k, v) := obj.members[n];
      var more := if v.Object? then Leaves(v, prefix + k + [DOT], |v.members|) else [(prefix + k, v)];
      assert Leaves(obj, prefix, n + 1) == Leaves(obj, prefix, n) + more;
      FitTwice(flat, Leaves(obj, prefix, n), more);
      StopsShort(flat, obj, prefix, n + 1);
    }
  }

  /** A record flattens exactly when its dotted leaf names are pairwise distinct, and then has
      one entry per leaf, with the leaf's value, and no other. */
  lemma FlatRecord(leaves: seq<(Text, Json)>)
    ensures Fit(map[], leaves) <==> DistinctNames(leaves)
    ensures DistinctNames(leaves) ==>
              var flat := Added(map[], leaves);
              |flat| == |leaves| && (forall i :: 0 <= i < |leaves| ==> leaves[i].0 in flat && flat[leaves[i].0] == leaves[i].1)
              && (forall n :: n in flat ==> exists i :: 0 <= i < |leaves| && leaves[i].0 == n)
  {
    AddedKeys(map[], leaves);
    if DistinctNames(leaves) { OnePerLeaf(leaves); }
  }

  lemma {:induction false} OnePerLeaf(leaves: seq<(Text, Json)>)
    requires DistinctNames(leaves)
    ensures var flat := Added(map[], leaves);
            |flat| == |leaves| && forall i :: 0 <= i < |leaves| ==> leaves[i].0 in flat && flat[leaves[i].0] == leaves[i].1
  {
    if leaves != [] {
      var front, last := leaves[..|leaves| - 1], leaves[|leaves| - 1];
      OnePerLeaf(front);
      AddedKeys(map[], front);
      forall i | 0 <= i < |front|
        ensures front[i].0 != last.0
      {
        assert leaves[i].0 != leaves[|leaves| - 1].0;
      }
      var before := Added(map[], front);
      assert last.0 !in before;
      var flat := before[last.0 := last.1];
      assert flat.Keys == before.Keys + {last.0};
      forall i | 0 <= i < |leaves|
        ensures leaves[i].0 in flat && flat[leaves[i].0] == leaves[i].1
      {
        if i < |front| { assert front[i] == leaves[i]; }
      }
    }
  }

  /** No two leaves of the record have one dotted name. */
  ghost predicate LeafNamesDiffer(obj: Json) {
    forall p, q :: IsLeaf(obj, p) && IsLeaf(obj, q) && p != q ==> NameAt(obj, p) != NameAt(obj, q)
  }

  /** One entry for every leaf, under its dotted name and with its value, and no other. */
  ghost predicate HoldsLeaves(flat: map<Text, Json>, obj: Json) {
    && (forall p :: IsLeaf(obj, p) ==> NameAt(obj, p) in flat && flat[NameAt(obj, p)] == NodeAt(obj, p)[0])
    && (forall n :: n in flat ==> exists p :: IsLeaf(obj, p) && NameAt(obj, p) == n)
  }

  /** Some object inside the record has this dotted name. */
  ghost predicate NamesObject(obj: Json, name: Text) {
    exists p :: IsInner(obj, p) && NameAt(obj, p) == name
  }

  lemma DifferIff(obj: Json)
    requires obj.Object?
    ensures DistinctNames(Leaves(obj, [], |obj.members|)) <==> LeafNamesDiffer(obj)
    ensures DistinctNames(Leaves(obj, [], |obj.members|)) ==> HoldsLeaves(Added(map[], Leaves(obj, [], |obj.members|)), obj)
  {
    hide Leaves, Added, NodeAt, KeysAlong, Dotted, NameAt;
    var leaves := Leaves(obj, [], |obj.members|);
    var paths := LeavesByPaths(obj, [], |obj.members|);
    forall p
      ensures IsLeaf(obj, p) <==> p in paths
    {
      if IsLeaf(obj, p) { LeafIsBelow(obj, p); }
    }
    hide IsLeaf, LeafPathsTo;
    NamesAreLeaves(obj, paths, leaves);
    FlatRecord(leaves);
    if DistinctNames(leaves) { FlatIsLeaves(obj, paths, leaves, Added(map[], leaves)); }
  }

  lemma NamesAreLeaves(obj: Json, paths: seq<seq<nat>>, leaves: seq<(Text, Json)>)
    requires NamedBy(obj, [], paths, leaves) && (forall p :: IsLeaf(obj, p) <==> p in paths) && forall i, j :: 0 <= i < j < |paths| ==> paths[i] != paths[j]
    ensures DistinctNames(leaves) <==> LeafNamesDiffer(obj)
  {
    hide NodeAt, NameAt;
    NoPrefix(obj, paths, leaves);
    if LeafNamesDiffer(obj) {
      forall i, j | 0 <= i < j < |leaves|
        ensures leaves[i].0 != leaves[j].0
      {
        assert paths[i] in paths && paths[j] in paths;
      }
    }
    if DistinctNames(leaves) {
      forall p, q | IsLeaf(obj, p) && IsLeaf(obj, q) && p != q
        ensures NameAt(obj, p) != NameAt(obj, q)
      {
        var i :| 0 <= i < |paths| && paths[i] == p;
        var j :| 0 <= j < |paths| && paths[j] == q;
        assert leaves[i].0 != leaves[j].0;
      }
    }
  }

  lemma NoPrefix(obj: Json, paths: seq<seq<nat>>, leaves: seq<(Text, Json)>)
    requires NamedBy(obj, [], paths, leaves)
    ensures |leaves| == |paths| && forall i :: 0 <= i < |paths| ==> IsLeaf(obj, paths[i]) && leaves[i] == (NameAt(obj, paths[i]), NodeAt(obj, paths[i])[0])
  {
    hide NodeAt, NameAt;
    forall i | 0 <= i < |paths|
      ensures IsLeaf(obj, paths[i]) && leaves[i] == (NameAt(obj, paths[i]), NodeAt(obj, paths[i])[0])
    {
      assert [] + NameAt(obj, paths[i]) == NameAt(obj, paths[i]);
    }
  }

  lemma FlatIsLeaves(obj: Json, paths: seq<seq<nat>>, leaves: seq<(Text, Json)>, flat: map<Text, Json>)
    requires NamedBy(obj, [], paths, leaves) && forall p :: IsLeaf(obj, p) <==> p in paths
    requires forall i :: 0 <= i < |leaves| ==> leaves[i].0 in flat && flat[leaves[i].0] == leaves[i].1
    requires forall n :: n in flat ==> exists i :: 0 <= i < |leaves| && leaves[i].0 == n
    ensures HoldsLeaves(flat, obj)
  {
    hide NodeAt, NameAt;
    NoPrefix(obj, paths, leaves);
    forall p | IsLeaf(obj, p)
      ensures NameAt(obj, p) in flat && flat[NameAt(obj, p)] == NodeAt(obj, p)[0]
    {
      var i :| 0 <= i < |paths| && paths[i] == p;
      assert leaves[i].0 in flat;
    }
    forall n | n in flat
      ensures exists p :: IsLeaf(obj, p) && NameAt(obj, p) == n
    {
      var i :| 0 <= i < |leaves| && leaves[i].0 == n;
      assert IsLeaf(obj, paths[i]);
    }
  }

  /** One record on its own, as `read_native` flattens it. */
  method FlattenRecord(obj: Json) returns (ok: bool, flat: map<Text, Json>, paths: set<Text>)
    requires obj.Object?
    ensures ok <==> LeafNamesDiffer(obj)
    ensures ok ==> HoldsLeaves(flat, obj)
    ensures ok ==> forall n :: n in paths <==> NamesObject(obj, n)
    ensures ok <==> DistinctNames(Leaves(obj, [], |obj.members|))
    ensures ok ==>
              var leaves := Leaves(obj, [], |obj.members|);
              |flat| == |leaves| && forall i :: 0 <= i < |leaves| ==> leaves[i].0 in flat && flat[leaves[i].0] == leaves[i].1
    ensures ok ==> flat == Added(map[], Leaves(obj, [], |obj.members|)) && paths == ObjectPaths(obj, [], |obj.members|)
  {
    hide Leaves, ObjectPaths, Fit, Added, LeafNamesDiffer, HoldsLeaves, NamesObject, InnerNamed;
    var record := new Record();
    ok := record.Flatten(obj, []);
    flat, paths := record.flat, record.objpaths;
    FlatRecord(Leaves(obj, [], |obj.members|));
    DifferIff(obj);
    forall n
      ensures n in ObjectPaths(obj, [], |obj.members|) <==> NamesObject(obj, n)
    {
      ObjectPathsByPaths(obj, [], |obj.members|, n);
      InnerAnywhere(obj, n);
    }
  }

  lemma InnerAnywhere(obj: Json, name: Text)
    requires obj.Object?
    ensures InnerNamed(obj, [], |obj.members|, name) <==> NamesObject(obj, name)
  {
    hide NameAt;
    if p :| IsInner(obj, p) && NameAt(obj, p) == name {
      assert name == [] + NameAt(obj, p);
    }
    if p :| IsInner(obj, p) && p[0] < |obj.members| && name == [] + NameAt(obj, p) {
      assert NameAt(obj, p) == name;
    }
  }
}
