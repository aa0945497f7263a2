/** The nodes of a call tree, told apart by their tags, and what aggregation does to them. */
module NodeSets {
  import opened CallTree

  // ---------------------------------------------------------------------------------------
  // The nodes of a tree

  ghost function Nodes<T>(t: Tree<T>): set<T> {
    {t.tag} + NodesAll(t.kids)
  }

  ghost function NodesAll<T>(siblings: seq<Tree<T>>): set<T> {
    if siblings == [] then {}
    else NodesAll(siblings[..|siblings| - 1]) + Nodes(siblings[|siblings| - 1])
  }

  /** No node occurs twice in the tree. */
  ghost predicate Unshared<T>(t: Tree<T>) {
    t.tag !in NodesAll(t.kids) && UnsharedAll(t.kids)
  }

  ghost predicate UnsharedAll<T>(siblings: seq<Tree<T>>) {
    siblings != [] ==>
      var init, last := siblings[..|siblings| - 1], siblings[|siblings| - 1];
      UnsharedAll(init) && Unshared(last) && NodesAll(init) !! Nodes(last)
  }

  lemma {:induction false} NodesAllConcat<T>(a: seq<Tree<T>>, b: seq<Tree<T>>)
    ensures NodesAll(a + b) == NodesAll(a) + NodesAll(b)
  {
    if b == [] {
      assert a + b == a;
    } else {
      NodesAllConcat(a, b[..|b| - 1]);
      assert (a + b)[..|a + b| - 1] == a + b[..|b| - 1];
    }
  }

  lemma {:induction false} UnsharedAllConcat<T>(a: seq<Tree<T>>, b: seq<Tree<T>>)
    ensures UnsharedAll(a + b) <==> UnsharedAll(a) && UnsharedAll(b) && NodesAll(a) !! NodesAll(b)
  {
    if b == [] {
      assert a + b == a;
    } else {
      var init := b[..|b| - 1];
      UnsharedAllConcat(a, init);
      NodesAllConcat(a, init);
      assert (a + b)[..|a + b| - 1] == a + init;
    }
  }

  lemma {:induction false} Singleton<T>(t: Tree<T>)
    ensures NodesAll([t]) == Nodes(t)
    ensures UnsharedAll([t]) <==> Unshared(t)
  {
    assert [t][..0] == [];
  }

  /** A forest taken apart around one of its trees. */
  lemma {:induction false} Around<T>(left: seq<Tree<T>>, t: Tree<T>, right: seq<Tree<T>>)
    ensures NodesAll(left + [t] + right) == NodesAll(left) + Nodes(t) + NodesAll(right)
    ensures UnsharedAll(left + [t] + right) <==>
            && UnsharedAll(left) && Unshared(t) && UnsharedAll(right)
            && NodesAll(left) !! Nodes(t) && NodesAll(left) + Nodes(t) !! NodesAll(right)
  {
    NodesAllConcat(left + [t], right);
    NodesAllConcat(left, [t]);
    UnsharedAllConcat(left + [t], right);
    UnsharedAllConcat(left, [t]);
    Singleton(t);
  }

  lemma {:induction false} MergedUnshared<T>(existing: Tree<T>, child: Tree<T>)
    requires Unshared(existing) && Unshared(child) && Nodes(existing) !! Nodes(child)
    ensures Unshared(Merged(existing, child))
    ensures Nodes(Merged(existing, child)) <= Nodes(existing) + Nodes(child)
  {
    NodesAllConcat(existing.kids, child.kids);
    UnsharedAllConcat(existing.kids, child.kids);
  }

  lemma {:induction false} UpdateSplit<T>(a: seq<Tree<T>>, i: nat, t: Tree<T>)
    requires i < |a|
    ensures a[i := t] == a[..i] + [t] + a[i + 1..]
  {
  }

  /** A forest taken apart at the position a loop has reached. */
  lemma {:induction false} Reached<T>(kids: seq<Tree<T>>, i: nat)
    requires i < |kids|
    requires UnsharedAll(kids)
    ensures UnsharedAll(kids[..i]) && Unshared(kids[i]) && UnsharedAll(kids[i + 1..])
    ensures NodesAll(kids[..i]) !! Nodes(kids[i]) !! NodesAll(kids[i + 1..])
    ensures NodesAll(kids[..i]) <= NodesAll(kids) && Nodes(kids[i]) <= NodesAll(kids)
    ensures NodesAll(kids[i + 1..]) <= NodesAll(kids)
  {
    var left, right := kids[..i], kids[i + 1..];
    assert kids == left + [kids[i]] + right;
    Around(left, kids[i], right);
  }

  lemma {:induction false} ForestAt<T>(a: seq<Tree<T>>, i: nat)
    requires i < |a|
    requires UnsharedAll(a)
    ensures Unshared(a[i]) && Nodes(a[i]) <= NodesAll(a)
  {
    if i < |a| - 1 {
      ForestAt(a[..|a| - 1], i);
    }
  }

  /** A tree of the forest is replaced by one over the same nodes and some new ones. */
  lemma {:induction false} SwapTree<T>(a: seq<Tree<T>>, i: nat, t: Tree<T>, extra: set<T>)
    requires i < |a|
    requires UnsharedAll(a) && Unshared(t)
    requires Nodes(t) <= Nodes(a[i]) + extra && extra !! NodesAll(a)
    ensures UnsharedAll(a[i := t])
    ensures NodesAll(a[i := t]) <= NodesAll(a) + extra
  {
    Reached(a, i);
    assert NodesAll(a[..i]) !! Nodes(t) !! NodesAll(a[i + 1..]);
    var left, right := a[..i], a[i + 1..];
    UpdateSplit(a, i, t);
    Around(left, t, right);
  }

  lemma {:induction false} AbsorbUnshared<T>(unique: seq<Tree<T>>, child: Tree<T>)
    requires UnsharedAll(unique) && Unshared(child) && NodesAll(unique) !! Nodes(child)
    ensures UnsharedAll(Absorb(unique, child))
    ensures NodesAll(Absorb(unique, child)) <= NodesAll(unique) + Nodes(child)
  {
    var i := Find(unique, child.name);
    if i < |unique| {
      ForestAt(unique, i);
      MergedUnshared(unique[i], child);
      SwapTree(unique, i, Merged(unique[i], child), Nodes(child));
    } else {
      NodesAllConcat(unique, [child]);
      UnsharedAllConcat(unique, [child]);
      Singleton(child);
    }
  }

  lemma {:induction false} MergeSiblingsUnshared<T>(kids: seq<Tree<T>>)
    requires UnsharedAll(kids)
    ensures UnsharedAll(MergeSiblings(kids))
    ensures NodesAll(MergeSiblings(kids)) <= NodesAll(kids)
  {
    if kids != [] {
      MergeSiblingsUnshared(kids[..|kids| - 1]);
      AbsorbUnshared(MergeSiblings(kids[..|kids| - 1]), kids[|kids| - 1]);
    }
  }

  lemma {:induction false} AggregateUnshared<T>(t: Tree<T>)
    requires Unshared(t)
    ensures Unshared(Aggregate(t))
    ensures Nodes(Aggregate(t)) <= Nodes(t)
    decreases Size(t), 0
  {
    MergeSiblingsUnshared(t.kids);
    AggregateAllUnshared(MergeSiblings(t.kids));
  }

  lemma {:induction false} AggregateAllUnshared<T>(siblings: seq<Tree<T>>)
    requires UnsharedAll(siblings)
    ensures UnsharedAll(AggregateAll(siblings))
    ensures NodesAll(AggregateAll(siblings)) <= NodesAll(siblings)
    decreases SizeAll(siblings), 1
  {
    if siblings != [] {
      AggregateAllUnshared(siblings[..|siblings| - 1]);
      AggregateUnshared(siblings[|siblings| - 1]);
    }
  }
}
