/**
 The profiler's call nodes on the heap, and the in-place aggregation of cmd/profiler/tracer/tracer.go
 proved against the functions of module CallTree.
 */
module Tracer {
  import opened CallTree
  import opened NodeSets

  class CallNode {
    var name: string
    var duration: int
    var children: seq<CallNode>
    var callCount: int

    constructor (name: string)
      ensures this.name == name && duration == 0 && children == [] && callCount == 1
    {
      this.name, duration, children, callCount := name, 0, [], 1;
    }
  }

  type NodeTree = Tree<CallNode>

  ghost function Roots(siblings: seq<NodeTree>): seq<CallNode> {
    seq(|siblings|, i requires 0 <= i < |siblings| => siblings[i].tag)
  }

  /** The heap holds exactly this tree. */
  ghost predicate Matches(t: NodeTree)
    reads Nodes(t)
  {
    && t.tag.name == t.name
    && t.tag.duration == t.duration
    && t.tag.callCount == t.count
    && t.tag.children == Roots(t.kids)
    && MatchesAll(t.kids)
  }

  ghost predicate MatchesAll(siblings: seq<NodeTree>)
    reads NodesAll(siblings)
  {
    siblings != [] ==> MatchesAll(siblings[..|siblings| - 1]) && Matches(siblings[|siblings| - 1])
  }

  lemma {:induction false} MatchesAllConcat(a: seq<NodeTree>, b: seq<NodeTree>)
    ensures MatchesAll(a + b) <==> MatchesAll(a) && MatchesAll(b)
  {
    if b == [] {
      assert a + b == a;
    } else {
      MatchesAllConcat(a, b[..|b| - 1]);
      assert (a + b)[..|a + b| - 1] == a + b[..|b| - 1];
    }
  }

  lemma {:induction false} MatchesSingleton(t: NodeTree)
    ensures MatchesAll([t]) <==> Matches(t)
  {
    assert [t][..0] == [];
  }

  lemma {:induction false} MatchesAround(left: seq<NodeTree>, t: NodeTree, right: seq<NodeTree>)
    ensures MatchesAll(left + [t] + right) <==> MatchesAll(left) && Matches(t) && MatchesAll(right)
  {
    MatchesAllConcat(left + [t], right);
    MatchesAllConcat(left, [t]);
    MatchesSingleton(t);
  }

  // ---------------------------------------------------------------------------------------
  // Aggregation in place

  /** `existing` takes over the calls, the time and the children of a later sibling. */
  method AbsorbInto(existing: CallNode, child: CallNode, ghost e: NodeTree, ghost c: NodeTree)
    requires existing == e.tag && child == c.tag
    requires Unshared(e) && Unshared(c) && Nodes(e) !! Nodes(c)
    requires Matches(e) && Matches(c)
    modifies existing
    ensures Matches(Merged(e, c))
  {
    MatchesAllConcat(e.kids, c.kids);
    assert Roots(e.kids + c.kids) == Roots(e.kids) + Roots(c.kids);
    NodesAllConcat(e.kids, c.kids);
    existing.callCount := existing.callCount + 1;
    existing.duration := existing.duration + child.duration;
    existing.children := existing.children + child.children;
    assert MatchesAll(e.kids + c.kids);
  }

  /** The map from names to surviving siblings is exactly the list of survivors. */
  ghost predicate Indexes(childMap: map<string, CallNode>, unique: seq<NodeTree>) {
    && (forall i :: 0 <= i < |unique| ==>
          unique[i].name in childMap && childMap[unique[i].name] == unique[i].tag)
    && (forall name :: name in childMap ==> Occurs(unique, name))
  }

  ghost predicate Occurs(siblings: seq<NodeTree>, name: string) {
    exists i :: 0 <= i < |siblings| && siblings[i].name == name
  }

  lemma {:induction false} IndexesFind(childMap: map<string, CallNode>, unique: seq<NodeTree>, name: string)
    requires Indexes(childMap, unique)
    ensures name in childMap <==> Find(unique, name) < |unique|
    ensures name in childMap ==> childMap[name] == unique[Find(unique, name)].tag
  {
    if name in childMap {
      var i :| 0 <= i < |unique| && unique[i].name == name;
      assert !(i < Find(unique, name));
    }
  }

  /** Replacing a survivor by one of the same name and node keeps the index. */
  lemma {:induction false} IndexesUpdate(childMap: map<string, CallNode>, unique: seq<NodeTree>, i: nat, t: NodeTree)
    requires Indexes(childMap, unique)
    requires i < |unique| && t.name == unique[i].name && t.tag == unique[i].tag
    ensures Indexes(childMap, unique[i := t])
    ensures Roots(unique[i := t]) == Roots(unique)
  {
    forall name | name in childMap ensures Occurs(unique[i := t], name) {
      var j :| 0 <= j < |unique| && unique[j].name == name;
      assert unique[i := t][j].name == name;
    }
  }

  lemma {:induction false} IndexesAppend(childMap: map<string, CallNode>, unique: seq<NodeTree>, t: NodeTree)
    requires Indexes(childMap, unique)
    requires t.name !in childMap
    ensures Indexes(childMap[t.name := t.tag], unique + [t])
    ensures Roots(unique + [t]) == Roots(unique) + [t.tag]
  {
    var longer := unique + [t];
    forall name | name in childMap || name == t.name ensures Occurs(longer, name) {
      if name == t.name {
        assert longer[|unique|].name == name;
      } else {
        var j :| 0 <= j < |unique| && unique[j].name == name;
        assert longer[j].name == name;
      }
    }
  }

  /** What the sibling loop knows about its survivors and the next sibling. */
  lemma {:induction false} MergeNext(kids: seq<NodeTree>, i: nat)
    requires i < |kids|
    requires UnsharedAll(kids)
    ensures MergeSiblings(kids[..i + 1]) == Absorb(MergeSiblings(kids[..i]), kids[i])
    ensures UnsharedAll(MergeSiblings(kids[..i])) && Unshared(kids[i])
    ensures NodesAll(MergeSiblings(kids[..i])) !! Nodes(kids[i])
    ensures NodesAll(MergeSiblings(kids[..i])) !! NodesAll(kids[i + 1..])
    ensures NodesAll(MergeSiblings(kids[..i])) <= NodesAll(kids)
  {
    Reached(kids, i);
    MergeSiblingsUnshared(kids[..i]);
    assert kids[..i + 1][..i] == kids[..i];
  }

  lemma {:induction false} AggregateAllNext(kids: seq<NodeTree>, i: nat)
    requires i < |kids|
    ensures AggregateAll(kids[..i + 1]) == AggregateAll(kids[..i]) + [Aggregate(kids[i])]
  {
    assert kids[..i + 1][..i] == kids[..i];
  }

  /** What the loop of recursive calls knows about the children done and the next one. */
  lemma {:induction false} AggregateNext(kids: seq<NodeTree>, i: nat, done: seq<NodeTree>)
    requires i < |kids|
    requires UnsharedAll(kids)
    requires done == AggregateAll(kids[..i])
    ensures Size(kids[i]) <= SizeAll(kids)
    ensures Unshared(kids[i]) && Nodes(kids[i]) <= NodesAll(kids)
    ensures NodesAll(done) !! Nodes(kids[i]) !! NodesAll(kids[i + 1..])
  {
    Reached(kids, i);
    AggregateAllUnshared(kids[..i]);
    AggregateAllAt(kids, i);
  }

  lemma {:induction false} MatchesAllFrom(kids: seq<NodeTree>, i: nat)
    requires i < |kids|
    requires MatchesAll(kids[i..])
    ensures Matches(kids[i]) && MatchesAll(kids[i + 1..])
  {
    assert kids[i..] == [kids[i]] + kids[i + 1..];
    MatchesAllConcat([kids[i]], kids[i + 1..]);
    MatchesSingleton(kids[i]);
  }

  method AbsorbAt(existing: CallNode, child: CallNode, ghost unique: seq<NodeTree>, ghost i: nat, ghost c: NodeTree)
    requires i < |unique| && existing == unique[i].tag && child == c.tag
    requires UnsharedAll(unique) && Unshared(c) && NodesAll(unique) !! Nodes(c)
    requires MatchesAll(unique) && Matches(c)
    modifies existing
    ensures MatchesAll(unique[i := Merged(unique[i], c)])
  {
    ghost var left, right, merged := unique[..i], unique[i + 1..], Merged(unique[i], c);
    assert unique == left + [unique[i]] + right;
    Around(left, unique[i], right);
    MatchesAround(left, unique[i], right);
    assert existing !in NodesAll(left) && existing !in NodesAll(right);
    assert allocated(NodesAll(left)) && allocated(NodesAll(right));
    AbsorbInto(existing, child, unique[i], c);
    assert MatchesAll(left) && MatchesAll(right);
    MatchesReplaced(unique, i, merged);
  }

  lemma {:induction false} MatchesReplaced(unique: seq<NodeTree>, i: nat, t: NodeTree)
    requires i < |unique|
    requires MatchesAll(unique[..i]) && Matches(t) && MatchesAll(unique[i + 1..])
    ensures MatchesAll(unique[i := t])
  {
    UpdateSplit(unique, i, t);
    MatchesAround(unique[..i], t, unique[i + 1..]);
  }

  /** One iteration of the sibling loop. */
  method MergeChild(child: CallNode, childMap: map<string, CallNode>, uniqueChildren: seq<CallNode>,
                    ghost unique: seq<NodeTree>, ghost c: NodeTree, ghost rest: seq<NodeTree>)
    returns (childMap': map<string, CallNode>, uniqueChildren': seq<CallNode>)
    requires child == c.tag
    requires uniqueChildren == Roots(unique) && Indexes(childMap, unique)
    requires UnsharedAll(unique) && Unshared(c) && NodesAll(unique) !! Nodes(c)
    requires NodesAll(unique) !! NodesAll(rest)
    requires MatchesAll(unique) && Matches(c) && MatchesAll(rest)
    modifies NodesAll(unique)
    ensures MatchesAll(rest)
    ensures uniqueChildren' == Roots(Absorb(unique, c)) && Indexes(childMap', Absorb(unique, c))
    ensures MatchesAll(Absorb(unique, c))
  {
    childMap', uniqueChildren' := childMap, uniqueChildren;
    assert allocated(NodesAll(rest));
    IndexesFind(childMap, unique, child.name);
    if child.name in childMap {
      ghost var j := Find(unique, child.name);
      ForestAt(unique, j);
      IndexesUpdate(childMap, unique, j, Merged(unique[j], c));
      AbsorbAt(childMap[child.name], child, unique, j, c);
    } else {
      IndexesAppend(childMap, unique, c);
      MatchesAllConcat(unique, [c]);
      MatchesSingleton(c);
      childMap' := childMap'[child.name := child];
      uniqueChildren' := uniqueChildren' + [child];
    }
  }

  /** The sibling loop: later siblings are folded into the first one of the same name. */
  method MergeChildren(node: CallNode, ghost t: NodeTree) returns (uniqueChildren: seq<CallNode>)
    requires node == t.tag && Unshared(t) && Matches(t)
    modifies NodesAll(t.kids)
    ensures unchanged(node)
    ensures uniqueChildren == Roots(MergeSiblings(t.kids))
    ensures MatchesAll(MergeSiblings(t.kids))
  {
    ghost var kids := t.kids;
    ghost var unique: seq<NodeTree> := [];
    var childMap: map<string, CallNode> := map[];
    uniqueChildren := [];
    assert kids[0..] == kids;
    for i := 0 to |node.children|
      invariant node.children == Roots(kids)
      invariant unchanged(node)
      invariant unique == MergeSiblings(kids[..i])
      invariant uniqueChildren == Roots(unique) && Indexes(childMap, unique)
      invariant MatchesAll(unique) && MatchesAll(kids[i..])
    {
      MergeNext(kids, i);
      MatchesAllFrom(kids, i);
      childMap, uniqueChildren :=
        MergeChild(node.children[i], childMap, uniqueChildren, unique, kids[i], kids[i + 1..]);
      unique := Absorb(unique, kids[i]);
    }
    assert kids[..|kids|] == kids;
  }

  /** `aggregateNode`: the tree below the node is rewritten in place into its aggregation. */
  method AggregateNode(node: CallNode, ghost t: NodeTree)
    requires node == t.tag && Unshared(t) && Matches(t)
    modifies Nodes(t)
    ensures Matches(Aggregate(t))
    decreases Size(t), 0
  {
    if |node.children| == 0 {
      assert t.kids == [];
      return;
    }
    ghost var unique := MergeSiblings(t.kids);
    MergeSiblingsUnshared(t.kids);
    assert allocated(NodesAll(unique));
    var uniqueChildren := MergeChildren(node, t);
    node.children := uniqueChildren;
    assert MatchesAll(unique);
    AggregateChildren(node, unique);
    AggregateKeepsRoots(unique);
  }

  lemma {:induction false} AggregateKeepsRoots(siblings: seq<NodeTree>)
    ensures Roots(AggregateAll(siblings)) == Roots(siblings)
  {
    forall i | 0 <= i < |siblings| ensures AggregateAll(siblings)[i].tag == siblings[i].tag {
      AggregateAllAt(siblings, i);
    }
  }

  /** One recursive call leaves the siblings on both sides alone. */
  method AggregateChild(child: CallNode, ghost left: seq<NodeTree>, ghost t: NodeTree, ghost right: seq<NodeTree>)
    requires child == t.tag && Unshared(t)
    requires NodesAll(left) !! Nodes(t) && NodesAll(right) !! Nodes(t)
    requires MatchesAll(left) && Matches(t) && MatchesAll(right)
    modifies Nodes(t)
    ensures MatchesAll(left + [Aggregate(t)]) && MatchesAll(right)
    decreases Size(t), 1
  {
    assert allocated(NodesAll(left)) && allocated(NodesAll(right));
    AggregateNode(child, t);
    MatchesAllConcat(left, [Aggregate(t)]);
    MatchesSingleton(Aggregate(t));
  }

  /** The loop of recursive calls over the surviving children. */
  method AggregateChildren(node: CallNode, ghost unique: seq<NodeTree>)
    requires node.children == Roots(unique) && node !in NodesAll(unique)
    requires UnsharedAll(unique) && MatchesAll(unique)
    modifies NodesAll(unique)
    ensures MatchesAll(AggregateAll(unique))
    decreases SizeAll(unique), 2
  {
    assert unique[0..] == unique;
    ghost var done: seq<NodeTree> := [];
    for i := 0 to |node.children|
      invariant node.children == Roots(unique)
      invariant done == AggregateAll(unique[..i])
      invariant MatchesAll(done) && MatchesAll(unique[i..])
    {
      AggregateNext(unique, i, done);
      AggregateAllNext(unique, i);
      MatchesAllFrom(unique, i);
      AggregateChild(node.children[i], done, unique[i], unique[i + 1..]);
      done := done + [Aggregate(unique[i])];
    }
    assert unique[..|unique|] == unique;
  }

  /** `collectFunctionTimes`: adds the time of every node of the tree to the table of its name. */
  method CollectFunctionTimes(node: CallNode, ghost t: NodeTree, funcTimes: map<string, int>)
    returns (result: map<string, int>)
    requires node == t.tag && Matches(t)
    ensures forall name :: Recorded(result, name) == Recorded(funcTimes, name) + Total(Time(name), t)
    decreases t
  {
    result := funcTimes[node.name := Recorded(funcTimes, node.name) + node.duration];
    ghost var kids := t.kids;
    assert allocated(NodesAll(kids));
    for i := 0 to |node.children|
      invariant MatchesAll(kids)
      invariant forall name :: Recorded(result, name)
                               == Recorded(funcTimes, name) + Weight(Time(name), t) + TotalAll(Time(name), kids[..i])
    {
      MatchesAllAt(kids, i);
      result := CollectFunctionTimes(node.children[i], kids[i], result);
      assert kids[..i + 1][..i] == kids[..i];
    }
    assert kids[..|kids|] == kids;
  }

  function Recorded(funcTimes: map<string, int>, name: string): int {
    if name in funcTimes then funcTimes[name] else 0
  }

  lemma {:induction false} MatchesAllAt(siblings: seq<NodeTree>, i: nat)
    requires i < |siblings|
    requires MatchesAll(siblings)
    ensures Matches(siblings[i])
  {
    if i < |siblings| - 1 {
      MatchesAllAt(siblings[..|siblings| - 1], i);
    }
  }
}
