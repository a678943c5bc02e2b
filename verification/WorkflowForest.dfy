/**
  Random out-tree workflows: parents, waves, ancestors, descendants by a stack, and how
  each effect relates to the approval gate.
 */
module WorkflowForest {

  /** The parent of a node that hangs from START. */
  const START: int := -1

  /** Every node hangs from START or from an earlier node. */
  predicate Forest(parent: seq<int>) {
    forall j :: 0 <= j < |parent| ==> START <= parent[j] < j
  }

  /** `a` lies on the path from START to the parent of `x`. */
  predicate IsAncestor(parent: seq<int>, a: nat, x: nat)
    requires Forest(parent) && x < |parent|
    decreases x
  {
    parent[x] != START && (parent[x] == a || IsAncestor(parent, a, parent[x]))
  }

  /** Going up from `x`, parent by parent. */
  predicate UpPath(parent: seq<int>, path: seq<nat>) {
    && path != [] && (forall i :: 0 <= i < |path| ==> path[i] < |parent|)
    && forall i :: 0 <= i < |path| - 1 ==> parent[path[i]] == path[i + 1]
  }

  ghost predicate UpPathTo(parent: seq<int>, a: nat, x: nat) {
    exists path :: UpPath(parent, path) && |path| >= 2 && path[0] == x && path[|path| - 1] == a
  }

  lemma {:induction false} PathIsAncestor(parent: seq<int>, path: seq<nat>)
    requires Forest(parent) && UpPath(parent, path) && |path| >= 2
    ensures IsAncestor(parent, path[|path| - 1], path[0])
    decreases |path|
  {
    assert parent[path[0]] == path[1];
    if |path| > 2 {
      assert forall i :: 0 <= i < |path[1..]| - 1 ==> parent[path[1..][i]] == path[1..][i + 1];
      PathIsAncestor(parent, path[1..]);
    }
  }

  lemma {:induction false} AncestorHasPath(parent: seq<int>, a: nat, x: nat) returns (path: seq<nat>)
    requires Forest(parent) && x < |parent| && IsAncestor(parent, a, x)
    ensures UpPath(parent, path) && |path| >= 2 && path[0] == x && path[|path| - 1] == a
    decreases x
  {
    if parent[x] == a {
      path := [x, a];
    } else {
      path := AncestorHasPath(parent, a, parent[x]);
      path := [x] + path;
    }
  }

  /** The ancestors of a node are exactly the nodes that going up from it meets. */
  lemma AncestorsAreAbove(parent: seq<int>, a: nat, x: nat)
    requires Forest(parent) && x < |parent|
    ensures IsAncestor(parent, a, x) <==> UpPathTo(parent, a, x)
  {
    if IsAncestor(parent, a, x) {
      var path := AncestorHasPath(parent, a, x);
    }
    if UpPathTo(parent, a, x) {
      var path :| UpPath(parent, path) && |path| >= 2 && path[0] == x && path[|path| - 1] == a;
      PathIsAncestor(parent, path);
    }
  }

  function AncestorsOf(parent: seq<int>, x: nat): set<nat>
    requires Forest(parent) && x < |parent|
  {
    set a: nat | a < x && IsAncestor(parent, a, x)
  }

  /** The superstep in which a node runs. */
  function Wave(parent: seq<int>, x: nat): (w: nat)
    requires Forest(parent) && x < |parent|
    ensures w >= 1
    decreases x
  {
    if parent[x] == START then 1 else Wave(parent, parent[x]) + 1
  }

  /** Waves strictly increase along the ancestor relation, and so do the node numbers. */
  lemma {:induction false} AncestorIsEarlier(parent: seq<int>, a: nat, x: nat)
    requires Forest(parent) && x < |parent| && IsAncestor(parent, a, x)
    ensures a < x && Wave(parent, a) < Wave(parent, x)
    decreases x
  {
    if parent[x] != a { AncestorIsEarlier(parent, a, parent[x]); }
  }

  /** A node runs one superstep after all its ancestors: its wave counts them. */
  lemma {:induction false} WaveCountsAncestors(parent: seq<int>, x: nat)
    requires Forest(parent) && x < |parent|
    ensures Wave(parent, x) == 1 + |AncestorsOf(parent, x)|
    decreases x
  {
    if parent[x] == START {
      assert AncestorsOf(parent, x) == {};
    } else {
      var p: nat := parent[x];
      WaveCountsAncestors(parent, p);
      forall a: nat ensures a in AncestorsOf(parent, x) <==> a == p || a in AncestorsOf(parent, p) {
        if a in AncestorsOf(parent, x) && a != p { AncestorIsEarlier(parent, a, p); }
      }
      assert AncestorsOf(parent, x) == AncestorsOf(parent, p) + {p};
    }
  }

  lemma {:induction false} AncestorTransitive(parent: seq<int>, a: nat, b: nat, x: nat)
    requires Forest(parent) && b < |parent| && x < |parent|
    requires IsAncestor(parent, a, b) && IsAncestor(parent, b, x)
    ensures IsAncestor(parent, a, x)
    decreases x
  {
    if parent[x] != b { AncestorTransitive(parent, a, b, parent[x]); }
  }

  // ---- The generator ----

  /** A draw for each node: the START branch, or an earlier node. */
  method Parents(fromStart: seq<bool>, drawn: seq<nat>) returns (parent: seq<int>)
    requires |fromStart| == |drawn| && forall j :: 0 < j < |drawn| ==> drawn[j] < j
    ensures |parent| == |drawn| && Forest(parent)
    ensures forall j :: 0 <= j < |parent| ==> (parent[j] == START <==> j == 0 || fromStart[j])
    ensures forall j :: 0 <= j < |parent| && parent[j] != START ==> parent[j] == drawn[j]
  {
    parent := [];
    for j := 0 to |drawn|
      invariant |parent| == j && Forest(parent)
      invariant forall k :: 0 <= k < j ==> (parent[k] == START <==> k == 0 || fromStart[k])
      invariant forall k :: 0 <= k < j && parent[k] != START ==> parent[k] == drawn[k]
    {
      parent := parent + [if j == 0 || fromStart[j] then START else drawn[j]];
    }
  }

  method Depths(parent: seq<int>) returns (depth: array<nat>)
    requires Forest(parent)
    ensures fresh(depth) && depth.Length == |parent|
    ensures forall x :: 0 <= x < |parent| ==> depth[x] == Wave(parent, x) == 1 + |AncestorsOf(parent, x)|
  {
    depth := new nat[|parent|](x requires 0 <= x < |parent| => if parent[x] == START then 1 else 0);
    for x := 0 to |parent|
      invariant forall y :: 0 <= y < x ==> depth[y] == Wave(parent, y)
      invariant forall y :: x <= y < |parent| ==> depth[y] == if parent[y] == START then 1 else 0
    {
      if depth[x] == 0 { depth[x] := depth[parent[x]] + 1; }
    }
    forall x | 0 <= x < |parent| ensures Wave(parent, x) == 1 + |AncestorsOf(parent, x)| {
      WaveCountsAncestors(parent, x);
    }
  }

  method Ancestors(parent: seq<int>, x: nat) returns (out: set<nat>)
    requires Forest(parent) && x < |parent|
    ensures forall a: nat :: a in out <==> IsAncestor(parent, a, x)
  {
    out := {};
    var at: nat := x;
    while parent[at] != START
      invariant at < |parent|
      invariant forall a: nat :: IsAncestor(parent, a, x) <==> a in out || IsAncestor(parent, a, at)
    {
      at := parent[at];
      out := out + {at};
    }
  }

  /** The nodes below `n` that hang from `p`, in order. */
  function ChildrenBelow(parent: seq<int>, p: int, n: nat): seq<nat>
    requires n <= |parent|
  {
    if n == 0 then []
    else if parent[n - 1] == p then ChildrenBelow(parent, p, n - 1) + [n - 1]
    else ChildrenBelow(parent, p, n - 1)
  }

  lemma {:induction false} ChildrenAre(parent: seq<int>, p: int, n: nat)
    requires n <= |parent|
    ensures forall y :: y in ChildrenBelow(parent, p, n) <==> 0 <= y < n && parent[y] == p
    ensures Distinct(ChildrenBelow(parent, p, n))
    decreases n
  {
    if n > 0 { ChildrenAre(parent, p, n - 1); }
  }

  predicate Node(parent: seq<int>, y: nat) { y < |parent| }

  predicate Distinct(s: seq<nat>) { forall i, j :: 0 <= i < j < |s| ==> s[i] != s[j] }

  method Children(parent: seq<int>) returns (children: array<seq<nat>>)
    requires Forest(parent)
    ensures fresh(children) && children.Length == |parent|
    ensures forall p :: 0 <= p < |parent| ==> children[p] == ChildrenBelow(parent, p, |parent|)
  {
    children := new seq<nat>[|parent|](p => []);
    for x := 0 to |parent|
      invariant forall p :: 0 <= p < |parent| ==> children[p] == ChildrenBelow(parent, p, x)
    {
      if parent[x] != START { children[parent[x]] := children[parent[x]] + [x]; }
    }
  }

  /** `y` hangs from `x` or from a node already out. */
  predicate Next(parent: seq<int>, x: nat, out: set<nat>, y: nat) {
    y < |parent| && (parent[y] == x || (parent[y] >= 0 && parent[y] in out))
  }

  /** What the stack walk from `x` knows: exactly such nodes are out or on the stack, each once. */
  ghost predicate Walk(parent: seq<int>, x: nat, out: set<nat>, stack: seq<nat>) {
    && Distinct(stack) && (forall y <- stack :: y !in out)
    && (forall y :: y in out || y in stack <==> Next(parent, x, out, y))
  }

  /** Nodes reached are descendants of `x`. */
  lemma {:induction false} ReachedIsBelow(parent: seq<int>, x: nat, out: set<nat>, stack: seq<nat>, y: nat)
    requires Forest(parent) && x < |parent| && Walk(parent, x, out, stack) && (y in out || y in stack)
    ensures y < |parent| && IsAncestor(parent, x, y)
    decreases y
  {
    assert Next(parent, x, out, y);
    if parent[y] != x { ReachedIsBelow(parent, x, out, stack, parent[y]); }
  }

  /** With the stack empty every descendant was reached. */
  lemma {:induction false} BelowIsReached(parent: seq<int>, x: nat, out: set<nat>, y: nat)
    requires Forest(parent) && x < |parent| && Walk(parent, x, out, []) && y < |parent| && IsAncestor(parent, x, y)
    ensures y in out
    decreases y
  {
    if parent[y] != x { BelowIsReached(parent, x, out, parent[y]); }
    assert Next(parent, x, out, y);
  }

  lemma DistinctConcat(a: seq<nat>, b: seq<nat>)
    requires Distinct(a) && Distinct(b) && forall y <- b :: y !in a
    ensures Distinct(a + b)
  {
    var s := a + b;
    forall i, j | 0 <= i < j < |s| ensures s[i] != s[j] {
      if i < |a| && j >= |a| { assert s[i] in a && s[j] in b; }
    }
  }

  lemma Popped(stack: seq<nat>)
    requires Distinct(stack) && stack != []
    ensures var m := |stack| - 1;
            Distinct(stack[..m]) && forall z :: z in stack[..m] <==> z in stack && z != stack[m]
  {
    var m := |stack| - 1;
    var below := stack[..m];
    assert stack == below + [stack[m]];
    forall z <- below ensures z != stack[m] {
      var i :| 0 <= i < m && below[i] == z;
      assert stack[i] != stack[m];
    }
  }

  /** Popping a node and pushing its children keeps the walk: no node is ever pushed twice. */
  lemma WalkStep(parent: seq<int>, x: nat, out: set<nat>, stack: seq<nat>)
    requires Forest(parent) && x < |parent| && Walk(parent, x, out, stack) && stack != []
    ensures var y := stack[|stack| - 1];
            y < |parent| && y !in out
            && Walk(parent, x, out + {y}, stack[..|stack| - 1] + ChildrenBelow(parent, y, |parent|))
  {
    var y := stack[|stack| - 1];
    assert y in stack;
    ReachedIsBelow(parent, x, out, stack, y);
    AncestorIsEarlier(parent, x, y);
    var below, kids := stack[..|stack| - 1], ChildrenBelow(parent, y, |parent|);
    Popped(stack);
    ChildrenAre(parent, y, |parent|);
    hide ChildrenBelow;
    hide IsAncestor;
    hide Wave;
    KidsAreNew(parent, x, out, stack, kids);
    hide Distinct;
    DistinctConcat(below, kids);
    NextAfterPop(parent, x, out, stack, y, below, kids);
  }

  /** With the top node out, exactly its children are next besides what was. */
  lemma NextAfterPop(parent: seq<int>, x: nat, out: set<nat>, stack: seq<nat>, y: nat, below: seq<nat>, kids: seq<nat>)
    requires y in stack && forall z :: z in out || z in stack <==> Next(parent, x, out, z)
    requires forall z :: z in below <==> z in stack && z != y
    requires forall z :: z in kids <==> 0 <= z < |parent| && parent[z] == y
    ensures forall z :: z in out + {y} || z in below + kids <==> Next(parent, x, out + {y}, z)
  {
    forall z ensures z in out + {y} || z in below + kids <==> Next(parent, x, out + {y}, z) {
      assert z in out || z in stack <==> Next(parent, x, out, z);
    }
  }

  /** The children of the node on top were never reached before. */
  lemma KidsAreNew(parent: seq<int>, x: nat, out: set<nat>, stack: seq<nat>, kids: seq<nat>)
    requires Forest(parent) && Walk(parent, x, out, stack) && stack != [] && stack[|stack| - 1] < |parent|
    requires x < stack[|stack| - 1]
    requires forall z <- kids :: z < |parent| && parent[z] == stack[|stack| - 1]
    ensures stack[|stack| - 1] !in out
    ensures forall z <- kids :: z !in out && z !in stack && z != stack[|stack| - 1]
  {
    assert stack[|stack| - 1] in stack;
    forall z <- kids ensures z !in out && z !in stack && z != stack[|stack| - 1] {
      assert !Next(parent, x, out, z);
    }
  }

  /** The stack walk ends, pops each node at most once, and returns exactly the descendants. */
  method Descendants(parent: seq<int>, children: array<seq<nat>>, x: nat)
    returns (out: set<nat>, ghost popped: seq<nat>)
    requires Forest(parent) && x < |parent| && children.Length == |parent|
    requires forall p :: 0 <= p < |parent| ==> children[p] == ChildrenBelow(parent, p, |parent|)
    ensures forall y: nat :: y in out <==> y < |parent| && IsAncestor(parent, x, y)
    ensures Distinct(popped) && forall y :: y in popped <==> y in out
  {
    out, popped := {}, [];
    var stack := children[x];
    ghost var nodes := set y: nat | y < |parent| && Node(parent, y);
    ChildrenAre(parent, x, |parent|);
    while stack != []
      invariant Walk(parent, x, out, stack) && out <= nodes
      invariant Distinct(popped) && forall y :: y in popped <==> y in out
      decreases nodes - out
    {
      WalkStep(parent, x, out, stack);
      var y := stack[|stack| - 1];
      stack := stack[..|stack| - 1];
      assert Node(parent, y) && y in nodes - out;
      out := out + {y};
      popped := popped + [y];
      stack := stack + children[y];
    }
    forall y: nat ensures y in out <==> y < |parent| && IsAncestor(parent, x, y) {
      if y in out { ReachedIsBelow(parent, x, out, [], y); }
      if y < |parent| && IsAncestor(parent, x, y) { BelowIsReached(parent, x, out, y); }
    }
  }

  // ---- How an effect relates to the gate ----

  datatype Relation = Ancestor | Descendant | ConcEarlier | ConcSame | ConcLater {
    predicate Concurrent() { ConcEarlier? || ConcSame? || ConcLater? }
  }

  predicate Comparable(parent: seq<int>, e: nat, gate: nat)
    requires Forest(parent) && e < |parent| && gate < |parent|
  {
    IsAncestor(parent, e, gate) || IsAncestor(parent, gate, e)
  }

  /** A node of the gate's own wave is never above or below the gate. */
  lemma SameWaveIsConcurrent(parent: seq<int>, e: nat, gate: nat)
    requires Forest(parent) && e < |parent| && gate < |parent| && Wave(parent, e) == Wave(parent, gate)
    ensures !Comparable(parent, e, gate)
  {
    if IsAncestor(parent, e, gate) { AncestorIsEarlier(parent, e, gate); }
    if IsAncestor(parent, gate, e) { AncestorIsEarlier(parent, gate, e); }
  }

  predicate Labelled(parent: seq<int>, e: nat, gate: nat, r: Relation)
    requires Forest(parent) && e < |parent| && gate < |parent|
  {
    && (r.Concurrent() <==> !Comparable(parent, e, gate))
    && (r.Ancestor? <==> IsAncestor(parent, e, gate))
    && (r.Descendant? <==> IsAncestor(parent, gate, e))
    && (r.Ancestor? || r.ConcEarlier? <==> |AncestorsOf(parent, e)| < |AncestorsOf(parent, gate)|)
    && (r.ConcSame? <==> |AncestorsOf(parent, e)| == |AncestorsOf(parent, gate)|)
  }

  lemma LabelIsRight(parent: seq<int>, e: nat, gate: nat, above: bool, below: bool, r: Relation)
    requires Forest(parent) && e < |parent| && gate < |parent|
    requires (above <==> IsAncestor(parent, e, gate)) && (below <==> IsAncestor(parent, gate, e))
    requires r == if above then Ancestor else if below then Descendant
                  else if Wave(parent, e) < Wave(parent, gate) then ConcEarlier
                  else if Wave(parent, e) == Wave(parent, gate) then ConcSame else ConcLater
    ensures Labelled(parent, e, gate, r)
  {
    WaveCountsAncestors(parent, e);
    WaveCountsAncestors(parent, gate);
    if above { AncestorIsEarlier(parent, e, gate); }
    if below { AncestorIsEarlier(parent, gate, e); }
  }

  /**
    The labels of the effects: the three concurrent ones go exactly to the effects that are
    neither above nor below the gate, by wave; an ancestor is always in an earlier wave and
    a descendant in a later one.
   */
  method Relations(parent: seq<int>, gate: nat, effects: seq<nat>) returns (relation: seq<Relation>)
    requires Forest(parent) && gate < |parent|
    requires forall i :: 0 <= i < |effects| ==> effects[i] < |parent| && effects[i] != gate
    ensures |relation| == |effects|
    ensures forall i :: 0 <= i < |effects| ==> Labelled(parent, effects[i], gate, relation[i])
  {
    hide Labelled;
    hide IsAncestor;
    hide AncestorsOf;
    hide Wave;
    hide ChildrenBelow;
    var depth := Depths(parent);
    var above := Ancestors(parent, gate);
    var children := Children(parent);
    var below, _ := Descendants(parent, children, gate);
    relation := [];
    for i := 0 to |effects|
      invariant |relation| == i
      invariant forall x :: 0 <= x < |parent| ==> depth[x] == Wave(parent, x)
      invariant forall k :: 0 <= k < i ==> Labelled(parent, effects[k], gate, relation[k])
    {
      var e := effects[i];
      var r :=
        if e in above then Ancestor
        else if e in below then Descendant
        else if depth[e] < depth[gate] then ConcEarlier
        else if depth[e] == depth[gate] then ConcSame
        else ConcLater;
      LabelIsRight(parent, e, gate, e in above, e in below, r);
      relation := relation + [r];
    }
  }
}
