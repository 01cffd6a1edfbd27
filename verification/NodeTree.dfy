/**
 control/model_layout.py: the node hierarchy.

 `Descend` lists the nodes below one exactly when they form a tree, and refuses otherwise;
 `FindWorld` composes the matrices from the root exactly when the parents do end in one;
 `Markers` accepts exactly the scenes whose LED nodes are all below "LEDs" and numbered
 0 to pixel_count - 1, once each.
 */
module NodeTree {
  import opened Wrappers
  import opened Geometry

  // ---- down: children ---------------------------------------------------------------

  type Children = seq<seq<nat>>

  /** The children of every listed node, in order. */
  ghost function ChildrenOf(children: Children, nodes: seq<nat>): seq<nat>
    requires Valid(children, nodes)
  {
    if nodes == [] then [] else ChildrenOf(children, nodes[..|nodes| - 1]) + children[nodes[|nodes| - 1]]
  }

  ghost predicate Distinct(s: seq<nat>) { forall i, j :: 0 <= i < j < |s| ==> s[i] != s[j] }

  ghost predicate Valid(children: Children, nodes: seq<nat>) {
    forall i :: 0 <= i < |nodes| ==> nodes[i] < |children|
  }

  ghost predicate Below(children: Children, start: nat, n: nat, steps: nat)
    requires start < |children|
    decreases steps
  {
    if steps == 0 then n == start
    else exists p: nat :: p < |children| && n in children[p] && Below(children, start, p, steps - 1)
  }

  ghost predicate Reached(children: Children, start: nat, n: nat)
    requires start < |children|
  {
    exists k: nat :: Below(children, start, n, k)
  }

  /**
   `d` lists, once each, everything below `start`: taken with `start`, each listed node is
   the child of exactly one listed node, once, and no child is left out.
   */
  ghost predicate Tree(children: Children, start: nat, d: seq<nat>) {
    && start < |children| && (forall n: nat :: n in d ==> Reached(children, start, n))
    && Valid(children, [start] + d) && Distinct([start] + d)
    && multiset(ChildrenOf(children, [start] + d)) == multiset(d)
  }

  lemma ChildrenAppend(children: Children, nodes: seq<nat>, n: nat)
    requires Valid(children, nodes) && n < |children|
    ensures Valid(children, nodes + [n])
    ensures ChildrenOf(children, nodes + [n]) == ChildrenOf(children, nodes) + children[n]
  {
    assert (nodes + [n])[..|nodes|] == nodes;
  }

  lemma {:induction false} ChildListed(children: Children, nodes: seq<nat>, p: nat, n: nat)
    requires Valid(children, nodes) && p < |children| && p in nodes && n in children[p]
    ensures n in ChildrenOf(children, nodes)
  {
    if nodes[|nodes| - 1] != p {
      assert nodes == nodes[..|nodes| - 1] + [nodes[|nodes| - 1]];
      ChildListed(children, nodes[..|nodes| - 1], p, n);
    }
  }

  lemma {:induction false} ChildHasParent(children: Children, nodes: seq<nat>, n: nat)
    requires Valid(children, nodes) && n in ChildrenOf(children, nodes)
    ensures exists p: nat :: p < |children| && p in nodes && n in children[p]
  {
    var front, last := nodes[..|nodes| - 1], nodes[|nodes| - 1];
    if n in children[last] {
      assert last in nodes;
    } else {
      ChildHasParent(children, front, n);
      var p: nat :| p < |children| && p in front && n in children[p];
      assert p in nodes;
    }
  }

  lemma {:induction false} ChildrenWithout(children: Children, nodes: seq<nat>, i: nat)
    requires Valid(children, nodes) && i < |nodes|
    ensures Valid(children, nodes[..i] + nodes[i + 1..])
    ensures multiset(ChildrenOf(children, nodes))
         == multiset(children[nodes[i]]) + multiset(ChildrenOf(children, nodes[..i] + nodes[i + 1..]))
  {
    var front, last := nodes[..|nodes| - 1], nodes[|nodes| - 1];
    var rest := nodes[..i] + nodes[i + 1..];
    if i == |nodes| - 1 {
      assert rest == front;
    } else {
      ChildrenWithout(children, front, i);
      assert rest == (front[..i] + front[i + 1..]) + [last];
      ChildrenAppend(children, front[..i] + front[i + 1..], last);
    }
  }

  /** Fewer nodes have fewer children. */
  lemma {:induction false} ChildrenOfSome(children: Children, some: seq<nat>, all: seq<nat>)
    requires Valid(children, some) && Valid(children, all) && Distinct(some) && Distinct(all)
    requires forall n :: n in some ==> n in all
    ensures multiset(ChildrenOf(children, some)) <= multiset(ChildrenOf(children, all))
  {
    if some != [] {
      var front, last := some[..|some| - 1], some[|some| - 1];
      assert last in some;
      var i: nat :| i < |all| && all[i] == last;
      var rest := all[..i] + all[i + 1..];
      ChildrenWithout(children, all, i);
      RestHolds(some, all, i, front, rest);
      ChildrenOfSome(children, front, rest);
      hide Valid;
      hide Distinct;
    }
  }

  /** Without its last, a listing is among the others' rest. */
  lemma RestHolds(some: seq<nat>, all: seq<nat>, i: nat, front: seq<nat>, rest: seq<nat>)
    requires some != [] && Distinct(some) && Distinct(all) && (forall n :: n in some ==> n in all)
    requires i < |all| && all[i] == some[|some| - 1]
    requires front == some[..|some| - 1] && rest == all[..i] + all[i + 1..]
    ensures Distinct(front) && Distinct(rest) && forall n :: n in front ==> n in rest
  {
    forall n | n in front ensures n in rest {
      var k :| 0 <= k < |front| && front[k] == n;
      assert some[k] == n && n in some && n != all[i];
      var j :| 0 <= j < |all| && all[j] == n;
      assert rest[if j < i then j else j - 1] == n;
    }
  }

  /** In a tree, everything reached is listed. */
  lemma {:induction false} BelowIsListed(children: Children, start: nat, d: seq<nat>, n: nat, steps: nat)
    requires start < |children| && Tree(children, start, d) && Below(children, start, n, steps)
    ensures n in [start] + d
    decreases steps
  {
    if steps > 0 {
      var p: nat :| p < |children| && n in children[p] && Below(children, start, p, steps - 1);
      BelowIsListed(children, start, d, p, steps - 1);
      ChildListed(children, [start] + d, p, n);
      assert n in multiset(ChildrenOf(children, [start] + d));
      assert n in multiset(d);
    }
  }

  /** The walk so far: what it has listed, reached, and still has on its stack. */
  ghost predicate Walking(children: Children, start: nat, d: seq<nat>, stack: seq<nat>) {
    && Valid(children, [start] + d) && Distinct([start] + d)
    && multiset(ChildrenOf(children, [start] + d)) == multiset(d) + multiset(stack)
    && start < |children| && forall n: nat :: n in [start] + d ==> Reached(children, start, n)
  }

  lemma WalkStarts(children: Children, start: nat)
    requires start < |children|
    ensures Walking(children, start, [], children[start])
  {
    assert [start] + [] == [start];
    assert ChildrenOf(children, [start][..0]) == [];
    assert ChildrenOf(children, [start]) == children[start];
    assert Below(children, start, start, 0);
  }

  lemma WalkReaches(children: Children, start: nat, d: seq<nat>, stack: seq<nat>, n: nat)
    requires Walking(children, start, d, stack) && n in stack
    ensures Reached(children, start, n)
  {
    assert n in multiset(ChildrenOf(children, [start] + d));
    ChildHasParent(children, [start] + d, n);
    var p: nat :| p < |children| && p in [start] + d && n in children[p];
    var k: nat :| Below(children, start, p, k);
    assert Below(children, start, n, k + 1);
  }

  lemma WalkOn(children: Children, start: nat, d: seq<nat>, stack: seq<nat>)
    requires Walking(children, start, d, stack) && stack != []
    requires var n := stack[|stack| - 1]; n !in [start] + d && n < |children|
    ensures var n := stack[|stack| - 1];
      Walking(children, start, d + [n], stack[..|stack| - 1] + children[n])
  {
    var n := stack[|stack| - 1];
    WalkReaches(children, start, d, stack, n);
    assert [start] + (d + [n]) == ([start] + d) + [n];
    ChildrenAppend(children, [start] + d, n);
    assert stack == stack[..|stack| - 1] + [n];
    hide Reached;
  }

  /** A node reached twice, or back to the start, or outside the document: no listing is a tree. */
  lemma WalkRefuses(children: Children, start: nat, d: seq<nat>, stack: seq<nat>, tree: seq<nat>)
    requires Walking(children, start, d, stack) && stack != []
    requires var n := stack[|stack| - 1]; n in [start] + d || n >= |children|
    ensures !Tree(children, start, tree)
  {
    if Tree(children, start, tree) {
      var n := stack[|stack| - 1];
      WalkReaches(children, start, d, stack, n);
      var k: nat :| Below(children, start, n, k);
      BelowIsListed(children, start, tree, n, k);
      forall x | x in [start] + d ensures x in [start] + tree {
        var j: nat :| Below(children, start, x, j);
        BelowIsListed(children, start, tree, x, j);
      }
      ChildrenOfSome(children, [start] + d, [start] + tree);
      TwiceListed(start, d, stack, tree);
    }
  }

  lemma {:induction false} DistinctOnce(s: seq<nat>, n: nat)
    requires Distinct(s)
    ensures multiset(s)[n] == if n in s then 1 else 0
  {
    if s != [] {
      assert s == s[..|s| - 1] + [s[|s| - 1]];
      DistinctOnce(s[..|s| - 1], n);
    }
  }

  lemma TwiceListed(start: nat, d: seq<nat>, stack: seq<nat>, tree: seq<nat>)
    requires stack != [] && Distinct([start] + tree) && stack[|stack| - 1] in [start] + d
    ensures !(multiset(d) + multiset(stack) <= multiset(tree))
  {
    var n := stack[|stack| - 1];
    DistinctOnce([start] + tree, n);
    assert n in multiset(stack);
    assert n in d ==> n in multiset(d);
    assert multiset([start] + tree) == multiset{start} + multiset(tree);
  }

  /** `_descendants`: None is a located error. */
  method Descend(children: Children, start: nat) returns (r: Option<seq<nat>>)
    requires start < |children|
    ensures r.Some? ==> Tree(children, start, r.value)
    ensures r.None? ==> forall d :: !Tree(children, start, d)
  {
    var d: seq<nat> := [];
    var stack: seq<nat> := children[start];
    var visited := {start};
    ghost var unvisited := Range(|children|) - {start};
    WalkStarts(children, start);
    while stack != []
      invariant Walking(children, start, d, stack) && forall n :: n in visited <==> n in [start] + d
      invariant unvisited == Range(|children|) - visited
      decreases unvisited
    {
      var n := stack[|stack| - 1];
      if n in visited || n >= |children| {
        forall t ensures !Tree(children, start, t) {
          WalkRefuses(children, start, d, stack, t);
        }
        return None;
      }
      WalkOn(children, start, d, stack);
      hide Walking;
      stack := stack[..|stack| - 1] + children[n];
      visited := visited + {n};
      unvisited := unvisited - {n};
      d := d + [n];
    }
    WalkEnds(children, start, d);
    r := Some(d);
  }

  lemma WalkEnds(children: Children, start: nat, d: seq<nat>)
    requires Walking(children, start, d, [])
    ensures Tree(children, start, d)
  {
    assert multiset(d) + multiset([]) == multiset(d);
    forall n: nat | n in d ensures Reached(children, start, n) {
      assert n in [start] + d;
    }
  }

  ghost function Range(k: nat): (s: set<nat>)
    ensures forall n: nat :: n in s <==> n < k
  {
    if k == 0 then {} else Range(k - 1) + {k - 1}
  }

  // ---- up: parents ------------------------------------------------------------------------

  type Parents = map<nat, nat>

  /** Of the first `n` nodes, `p` is the last to list `c`. */
  ghost predicate LastParent(children: Children, n: nat, c: nat, p: nat)
    requires n <= |children|
  {
    p < n && c in children[p] && forall i :: p < i < n ==> c !in children[i]
  }

  /** `_build_parent_map`: of several nodes listing one child, the last has it. */
  method BuildParents(children: Children) returns (parent: Parents)
    ensures forall c: nat :: c in parent <==> exists i :: 0 <= i < |children| && c in children[i]
    ensures forall c: nat :: c in parent ==> LastParent(children, |children|, c, parent[c])
  {
    parent := map[];
    for i := 0 to |children|
      invariant forall c: nat :: c in parent <==> exists j :: 0 <= j < i && c in children[j]
      invariant forall c: nat :: c in parent ==> LastParent(children, i, c, parent[c])
    {
      ghost var was := parent;
      for k := 0 to |children[i]|
        invariant forall c: nat :: c in parent <==> c in was || c in children[i][..k]
        invariant forall c: nat :: c in parent ==> parent[c] == if c in children[i][..k] then i else was[c]
      {
        assert children[i][..k + 1] == children[i][..k] + [children[i][k]];
        parent := parent[children[i][k] := i];
      }
      assert children[i][..|children[i]|] == children[i];
    }
  }

  /** `n` is `k` steps below a node without a parent. */
  ghost predicate Height(parent: Parents, n: nat, k: nat)
    decreases k
  {
    if k == 0 then n !in parent else n in parent && Height(parent, parent[n], k - 1)
  }

  ghost predicate Rooted(parent: Parents, n: nat) { exists k: nat :: Height(parent, n, k) }

  /** From the root down to `n`. */
  ghost function Line(parent: Parents, n: nat, k: nat): (line: seq<nat>)
    requires Height(parent, n, k)
    ensures |line| == k + 1 && line[k] == n
    decreases k
  {
    if k == 0 then [n] else Line(parent, parent[n], k - 1) + [n]
  }

  lemma {:induction false} OneHeight(parent: Parents, n: nat, k: nat, l: nat)
    requires Height(parent, n, k) && Height(parent, n, l)
    ensures k == l
    decreases k
  {
    if k > 0 && l > 0 {
      OneHeight(parent, parent[n], k - 1, l - 1);
    }
  }

  ghost predicate Ascends(parent: Parents, chain: seq<nat>) {
    forall i :: 0 <= i < |chain| - 1 ==> chain[i] in parent && chain[i + 1] == parent[chain[i]]
  }

  lemma {:induction false} HeightAlong(parent: Parents, chain: seq<nat>, k: nat, i: nat)
    requires Ascends(parent, chain) && i < |chain| && Height(parent, chain[0], k)
    ensures i <= k && Height(parent, chain[i], k - i)
  {
    if i > 0 {
      HeightAlong(parent, chain, k, i - 1);
    }
  }

  /** A chain that comes back to one of its own has no root above it. */
  lemma LoopHasNoRoot(parent: Parents, chain: seq<nat>, j: nat)
    requires Ascends(parent, chain) && j < |chain|
    requires chain[|chain| - 1] in parent && parent[chain[|chain| - 1]] == chain[j]
    ensures !Rooted(parent, chain[0])
  {
    if Rooted(parent, chain[0]) {
      var k: nat :| Height(parent, chain[0], k);
      var longer := chain + [chain[j]];
      assert longer[0] == chain[0];
      HeightAlong(parent, longer, k, |chain|);
      HeightAlong(parent, chain, k, j);
      OneHeight(parent, chain[j], k - |chain|, k - j);
    }
  }

  lemma {:induction false} ChainIsLine(parent: Parents, chain: seq<nat>)
    requires chain != [] && Ascends(parent, chain) && chain[|chain| - 1] !in parent
    ensures Height(parent, chain[0], |chain| - 1)
    ensures Flipped(chain) == Line(parent, chain[0], |chain| - 1)
    decreases |chain|
  {
    if |chain| > 1 {
      ChainIsLine(parent, chain[1..]);
    } else {
      assert Flipped(chain[1..]) == [];
    }
  }

  function Flipped(s: seq<nat>): (r: seq<nat>)
    ensures |r| == |s| && forall n: nat :: n in r <==> n in s
  {
    if s == [] then []
    else
      assert s == [s[0]] + s[1..];
      Flipped(s[1..]) + [s[0]]
  }

  function Mats(locals: seq<Mat>, line: seq<nat>): (ms: seq<Mat>)
    requires forall i :: 0 <= i < |line| ==> line[i] < |locals|
    ensures |ms| == |line|
  {
    seq(|line|, i requires 0 <= i < |line| => locals[line[i]])
  }

  ghost predicate IsWorld(locals: seq<Mat>, parent: Parents, n: nat, m: Mat) {
    exists k: nat ::
      && Height(parent, n, k) && (forall i :: 0 <= i <= k ==> Line(parent, n, k)[i] < |locals|)
      && m == World(Mats(locals, Line(parent, n, k)))
  }

  /** `_world_matrix`: None is the cycle it refuses. */
  method FindWorld(locals: seq<Mat>, parent: Parents, n: nat) returns (r: Option<Mat>)
    requires n < |locals| && forall c: nat :: c in parent ==> parent[c] < |locals|
    ensures r.Some? <==> Rooted(parent, n)
    ensures r.Some? ==> IsWorld(locals, parent, n, r.value)
  {
    var chain: seq<nat> := [n];
    var cur := n;
    var visited := {n};
    ghost var unvisited := parent.Keys;
    while cur in parent
      invariant chain != [] && chain[0] == n && cur == chain[|chain| - 1] && Ascends(parent, chain)
      invariant (forall x: nat :: x in visited <==> x in chain) && forall i :: 0 <= i < |chain| ==> chain[i] < |locals|
      invariant forall x: nat :: x in parent && x !in unvisited ==> x in chain[..|chain| - 1]
      invariant cur in parent ==> cur in unvisited
      decreases unvisited
    {
      if parent[cur] in visited {
        var j: nat :| j < |chain| && chain[j] == parent[cur];
        LoopHasNoRoot(parent, chain, j);
        return None;
      }
      unvisited := unvisited - {cur};
      assert (chain + [parent[cur]])[..|chain|] == chain;
      cur := parent[cur];
      chain := chain + [cur];
      visited := visited + {cur};
      assert cur !in chain[..|chain| - 1];
    }
    ChainIsLine(parent, chain);
    var line := Flipped(chain);
    forall i | 0 <= i < |line| ensures line[i] < |locals| {
      assert line[i] in chain;
    }
    var world := Fold(locals, line);
    r := Some(world);
  }

  method Fold(locals: seq<Mat>, line: seq<nat>) returns (world: Mat)
    requires forall i :: 0 <= i < |line| ==> line[i] < |locals|
    ensures world == World(Mats(locals, line))
  {
    world := Identity();
    ghost var ms := Mats(locals, line);
    for i := 0 to |line|
      invariant world == World(ms[..i])
    {
      assert ms[..i + 1][..i] == ms[..i];
      world := MatMul(world, locals[line[i]]);
    }
    assert ms[..|line|] == ms;
  }

  // ---- markers ---------------------------------------------------------------------------

  /** The LED number of each node that is named like a marker and has a mesh. */
  type Leds = seq<Option<nat>>

  ghost predicate Used(led: Leds, n: nat, k: nat)
    requires n <= |led|
  {
    exists i :: 0 <= i < n && led[i] == Some(k)
  }

  /** Each LED number from 0 to `count` - 1 is one node's, below the LEDs node, and no other number is used. */
  ghost predicate Numbered(led: Leds, below: seq<nat>, count: nat) {
    && (forall i: nat :: i < |led| && led[i].Some? ==> i in below && led[i].value < count)
    && (forall i, j :: 0 <= i < j < |led| && led[i].Some? && led[j].Some? ==> led[i] != led[j])
    && (forall k: nat :: k < count ==> Used(led, |led|, k))
  }

  /** `_collect_markers` so far, over the first `n` nodes. */
  ghost predicate Collected(led: Leds, n: nat, markers: map<nat, nat>)
    requires n <= |led|
  {
    && (forall k: nat :: k in markers ==> markers[k] < n && led[markers[k]] == Some(k))
    && (forall i: nat :: i < n && led[i].Some? ==> led[i].value in markers && markers[led[i].value] == i)
  }

  /** One number a node, all below the LEDs node. */
  ghost predicate Collectable(led: Leds, below: seq<nat>) {
    && (forall i: nat :: i < |led| && led[i].Some? ==> i in below)
    && (forall i, j :: 0 <= i < j < |led| && led[i].Some? && led[j].Some? ==> led[i] != led[j])
  }

  /** `_collect_markers` past the walk. */
  method Collect(led: Leds, below: seq<nat>) returns (r: Option<map<nat, nat>>)
    ensures r.Some? <==> Collectable(led, below)
    ensures r.Some? ==> Collected(led, |led|, r.value)
  {
    var markers: map<nat, nat> := map[];
    for i := 0 to |led|
      invariant Collected(led, i, markers) && forall j: nat :: j < i && led[j].Some? ==> j in below
    {
      if led[i].None? {
        continue;
      }
      if i !in below {
        return None;
      }
      if led[i].value in markers {
        assert led[markers[led[i].value]] == led[i];
        return None;
      }
      markers := markers[led[i].value := i];
    }
    CollectedIsCollectable(led, below, markers);
    r := Some(markers);
  }

  lemma CollectedIsCollectable(led: Leds, below: seq<nat>, markers: map<nat, nat>)
    requires Collected(led, |led|, markers) && forall j: nat :: j < |led| && led[j].Some? ==> j in below
    ensures Collectable(led, below)
  {
  }

  /**
   The markers of a scene, as `_parse_model_layout_body` accepts them: exactly when what is
   below the LEDs node is a tree and its markers are numbered 0 to `count` - 1, once each.
   */
  method Markers(children: Children, leds: nat, led: Leds, count: nat) returns (r: Option<map<nat, nat>>)
    requires leds < |children|
    ensures r.Some? <==> exists d :: Tree(children, leds, d) && Numbered(led, d, count)
    ensures r.Some? ==> forall k: nat :: (k in r.value <==> k < count)
                                         && (k < count ==> r.value[k] < |led| && led[r.value[k]] == Some(k))
  {
    hide Tree;
    var below := Descend(children, leds);
    if below.None? {
      return None;
    }
    var markers := Collect(led, below.value);
    forall d | Tree(children, leds, d) ensures Numbered(led, d, count) <==> Numbered(led, below.value, count) {
      OneTree(children, leds, d, below.value);
      OneTree(children, leds, below.value, d);
      if Numbered(led, d, count) {
        SameNumbering(led, d, below.value, count);
      } else if Numbered(led, below.value, count) {
        SameNumbering(led, below.value, d, count);
      }
    }
    if markers.None? {
      return None;
    }
    var expected := Indices(count);
    CollectedUses(led, markers.value);
    NumberedExactly(led, below.value, count, markers.value, expected);
    r := if markers.value.Keys == expected then markers else None;
  }

  function Indices(count: nat): (s: set<nat>)
    ensures forall k: nat :: k in s <==> k < count
  {
    if count == 0 then {} else Indices(count - 1) + {count - 1}
  }

  lemma CollectedUses(led: Leds, markers: map<nat, nat>)
    requires Collected(led, |led|, markers)
    ensures forall k: nat :: k in markers <==> Used(led, |led|, k)
  {
  }

  lemma SameNumbering(led: Leds, d: seq<nat>, e: seq<nat>, count: nat)
    requires Numbered(led, d, count) && forall n: nat :: n in d ==> n in e
    ensures Numbered(led, e, count)
  {
  }

  lemma NumberedExactly(led: Leds, below: seq<nat>, count: nat, markers: map<nat, nat>, expected: set<nat>)
    requires forall i: nat :: i < |led| && led[i].Some? ==> i in below
    requires forall i, j :: 0 <= i < j < |led| && led[i].Some? && led[j].Some? ==> led[i] != led[j]
    requires forall k: nat :: k in markers <==> Used(led, |led|, k)
    requires forall k: nat :: k in expected <==> k < count
    ensures markers.Keys == expected <==> Numbered(led, below, count)
  {
    if Numbered(led, below, count) {
      forall k: nat ensures k in markers <==> k in expected {
        if k in markers {
          var i: nat :| i < |led| && led[i] == Some(k);
        }
      }
      assert forall k :: k in markers.Keys <==> k in expected;
    }
    if markers.Keys == expected {
      forall i: nat | i < |led| && led[i].Some? ensures led[i].value < count {
        assert led[i].value in markers;
      }
      forall k: nat | k < count ensures Used(led, |led|, k) {
        assert k in markers.Keys && k in markers;
      }
      assert Numbered(led, below, count);
    }
  }

  /** Two listings of the same tree list the same nodes. */
  lemma OneTree(children: Children, start: nat, d: seq<nat>, e: seq<nat>)
    requires Tree(children, start, d) && Tree(children, start, e)
    ensures forall n: nat :: n in e ==> n in d
  {
    forall n: nat | n in e ensures n in d {
      var k: nat :| Below(children, start, n, k);
      BelowIsListed(children, start, d, n, k);
      var i :| 0 <= i < |e| && e[i] == n;
      assert ([start] + e)[0] == start && ([start] + e)[i + 1] == n;
    }
  }
}
