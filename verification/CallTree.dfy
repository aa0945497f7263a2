/**
 The call tree of the profiler (cmd/profiler/tracer/tracer.go) as a value, and what its
 aggregation keeps. A node carries a tag, so that the same functions describe the tree of heap
 nodes that `aggregateNode` rewrites in place.
 */
module CallTree {

  datatype Tree<T> = Node(tag: T, name: string, duration: int, count: int, kids: seq<Tree<T>>)

  // ---------------------------------------------------------------------------------------
  // Aggregation

  /** The index of the first sibling with the given name, or the number of siblings. */
  function Find<T>(siblings: seq<Tree<T>>, name: string): (i: nat)
    ensures i <= |siblings|
    ensures i < |siblings| ==> siblings[i].name == name
    ensures forall j :: 0 <= j < i ==> siblings[j].name != name
  {
    if siblings == [] then 0
    else
      var i := Find(siblings[..|siblings| - 1], name);
      if i < |siblings| - 1 || siblings[i].name == name then i else |siblings|
  }

  function Merged<T>(existing: Tree<T>, child: Tree<T>): Tree<T> {
    existing.(count := existing.count + 1,
    duration := existing.duration + child.duration,
    kids := existing.kids + child.kids)
  }

  /** One iteration of the sibling loop. */
  function Absorb<T>(unique: seq<Tree<T>>, child: Tree<T>): seq<Tree<T>> {
    var i := Find(unique, child.name);
    if i < |unique| then unique[i := Merged(unique[i], child)] else unique + [child]
  }

  function MergeSiblings<T>(kids: seq<Tree<T>>): (unique: seq<Tree<T>>)
    ensures SizeAll(unique) <= SizeAll(kids)
  {
    if kids == [] then []
    else
      var unique, child := MergeSiblings(kids[..|kids| - 1]), kids[|kids| - 1];
      AbsorbSize(unique, child);
      Absorb(unique, child)
  }

  /** The result of `aggregateNode`: merged children are not subtrees, so the measure is the node count. */
  function Aggregate<T>(t: Tree<T>): Tree<T>
    decreases Size(t), 0
  {
    t.(kids := AggregateAll(MergeSiblings(t.kids)))
  }

  function AggregateAll<T>(siblings: seq<Tree<T>>): (result: seq<Tree<T>>)
    ensures |result| == |siblings|
    decreases SizeAll(siblings), 1
  {
    if siblings == [] then []
    else AggregateAll(siblings[..|siblings| - 1]) + [Aggregate(siblings[|siblings| - 1])]
  }

  // ---------------------------------------------------------------------------------------
  // Node count

  function Size<T>(t: Tree<T>): (size: nat)
    ensures 1 <= size
  {
    1 + SizeAll(t.kids)
  }

  function SizeAll<T>(siblings: seq<Tree<T>>): nat {
    if siblings == [] then 0
    else SizeAll(siblings[..|siblings| - 1]) + Size(siblings[|siblings| - 1])
  }

  lemma {:induction false} SizeAllConcat<T>(a: seq<Tree<T>>, b: seq<Tree<T>>)
    ensures SizeAll(a + b) == SizeAll(a) + SizeAll(b)
  {
    if b == [] {
      assert a + b == a;
    } else {
      SizeAllConcat(a, b[..|b| - 1]);
      assert (a + b)[..|a + b| - 1] == a + b[..|b| - 1];
    }
  }

  lemma {:induction false} SizeAllUpdate<T>(a: seq<Tree<T>>, i: nat, x: Tree<T>)
    requires i < |a|
    ensures SizeAll(a[i := x]) == SizeAll(a) - Size(a[i]) + Size(x)
  {
    if i == |a| - 1 {
      assert a[i := x][..i] == a[..i];
    } else {
      SizeAllUpdate(a[..|a| - 1], i, x);
      assert a[i := x][..|a| - 1] == a[..|a| - 1][i := x];
    }
  }

  lemma {:induction false} AbsorbSize<T>(unique: seq<Tree<T>>, child: Tree<T>)
    ensures SizeAll(Absorb(unique, child)) <= SizeAll(unique) + Size(child)
  {
    var i := Find(unique, child.name);
    if i < |unique| {
      SizeAllConcat(unique[i].kids, child.kids);
      SizeAllUpdate(unique, i, Merged(unique[i], child));
    } else {
      SizeAllConcat(unique, [child]);
    }
  }

  // ---------------------------------------------------------------------------------------
  // Sibling names are pairwise distinct

  ghost predicate DistinctNames<T>(siblings: seq<Tree<T>>) {
    forall i, j :: 0 <= i < j < |siblings| ==> siblings[i].name != siblings[j].name
  }

  /** At every level of the tree. */
  ghost predicate DistinctSiblings<T>(t: Tree<T>) {
    DistinctNames(t.kids) && forall k :: k in t.kids ==> DistinctSiblings(k)
  }

  lemma {:induction false} AbsorbKeepsDistinct<T>(unique: seq<Tree<T>>, child: Tree<T>)
    requires DistinctNames(unique)
    ensures DistinctNames(Absorb(unique, child))
  {
  }

  lemma {:induction false} MergeSiblingsDistinct<T>(kids: seq<Tree<T>>)
    ensures DistinctNames(MergeSiblings(kids))
  {
    if kids != [] {
      MergeSiblingsDistinct(kids[..|kids| - 1]);
      AbsorbKeepsDistinct(MergeSiblings(kids[..|kids| - 1]), kids[|kids| - 1]);
    }
  }

  lemma {:induction false} AggregateAllAt<T>(siblings: seq<Tree<T>>, i: nat)
    requires i < |siblings|
    ensures AggregateAll(siblings)[i] == Aggregate(siblings[i])
    ensures Size(siblings[i]) <= SizeAll(siblings)
  {
    if i < |siblings| - 1 {
      AggregateAllAt(siblings[..|siblings| - 1], i);
    }
  }

  /** Aggregation leaves no two siblings with the same name anywhere in the tree. */
  lemma {:induction false} AggregateDistinct<T>(t: Tree<T>)
    ensures DistinctSiblings(Aggregate(t))
    decreases Size(t)
  {
    var unique := MergeSiblings(t.kids);
    var kids := AggregateAll(unique);
    MergeSiblingsDistinct(t.kids);
    forall i | 0 <= i < |kids|
      ensures DistinctSiblings(kids[i]) && kids[i].name == unique[i].name
    {
      AggregateAllAt(unique, i);
      AggregateDistinct(unique[i]);
    }
  }

  lemma {:induction false} MergeSiblingsOfDistinct<T>(kids: seq<Tree<T>>)
    requires DistinctNames(kids)
    ensures MergeSiblings(kids) == kids
  {
    if kids != [] {
      var init, last := kids[..|kids| - 1], kids[|kids| - 1];
      MergeSiblingsOfDistinct(init);
      assert Find(init, last.name) == |init|;
      assert kids == init + [last];
    }
  }

  /** The aggregated trees are exactly the fixed points of aggregation. */
  lemma {:induction false} AggregateFixedPoint<T>(t: Tree<T>)
    ensures Aggregate(t) == t <==> DistinctSiblings(t)
    decreases Size(t)
  {
    AggregateDistinct(t);
    if DistinctSiblings(t) {
      MergeSiblingsOfDistinct(t.kids);
      forall i | 0 <= i < |t.kids|
        ensures AggregateAll(t.kids)[i] == t.kids[i]
      {
        AggregateAllAt(t.kids, i);
        AggregateFixedPoint(t.kids[i]);
      }
      assert AggregateAll(t.kids) == t.kids;
    }
  }

  lemma {:induction false} AggregateIdempotent<T>(t: Tree<T>)
    ensures Aggregate(Aggregate(t)) == Aggregate(t)
  {
    AggregateDistinct(t);
    AggregateFixedPoint(Aggregate(t));
  }

  // ---------------------------------------------------------------------------------------
  // Totals

  /** What is added up over the nodes that carry a given name. */
  datatype Measure = Time(name: string) | Calls(name: string)

  function Weight<T>(m: Measure, t: Tree<T>): int {
    if t.name != m.name then 0
    else match m
         case Time(_) => t.duration
         case Calls(_) => t.count
  }

  function Total<T>(m: Measure, t: Tree<T>): int {
    Weight(m, t) + TotalAll(m, t.kids)
  }

  function TotalAll<T>(m: Measure, siblings: seq<Tree<T>>): int {
    if siblings == [] then 0
    else TotalAll(m, siblings[..|siblings| - 1]) + Total(m, siblings[|siblings| - 1])
  }

  /** Every node counts one call, as when the tracer has just built the tree. */
  ghost predicate Raw<T>(t: Tree<T>) {
    t.count == 1 && forall k :: k in t.kids ==> Raw(k)
  }

  /** No earlier sibling has the name of the j-th. */
  ghost predicate NewName<T>(siblings: seq<Tree<T>>, j: nat)
    requires j < |siblings|
  {
    forall i :: 0 <= i < j ==> siblings[i].name != siblings[j].name
  }

  /**
   As a tree is when calls have been traced into an aggregated one: a node with the name of an
   earlier sibling, which aggregation will fold into it, has not been aggregated itself.
   */
  ghost predicate Tidy<T>(t: Tree<T>) {
    TidyAll(t.kids)
  }

  ghost predicate TidyAll<T>(siblings: seq<Tree<T>>) {
    forall j :: 0 <= j < |siblings| ==> Raw(siblings[j]) || (Tidy(siblings[j]) && NewName(siblings, j))
  }

  lemma {:induction false} RawIsTidy<T>(t: Tree<T>)
    requires Raw(t)
    ensures Tidy(t)
  {
    assert forall j :: 0 <= j < |t.kids| ==> t.kids[j] in t.kids;
  }

  lemma {:induction false} TotalAllConcat<T>(m: Measure, a: seq<Tree<T>>, b: seq<Tree<T>>)
    ensures TotalAll(m, a + b) == TotalAll(m, a) + TotalAll(m, b)
  {
    if b == [] {
      assert a + b == a;
    } else {
      TotalAllConcat(m, a, b[..|b| - 1]);
      assert (a + b)[..|a + b| - 1] == a + b[..|b| - 1];
    }
  }

  lemma {:induction false} TotalAllUpdate<T>(m: Measure, a: seq<Tree<T>>, i: nat, x: Tree<T>)
    requires i < |a|
    ensures TotalAll(m, a[i := x]) == TotalAll(m, a) - Total(m, a[i]) + Total(m, x)
  {
    if i == |a| - 1 {
      assert a[i := x][..i] == a[..i];
    } else {
      TotalAllUpdate(m, a[..|a| - 1], i, x);
      assert a[i := x][..|a| - 1] == a[..|a| - 1][i := x];
    }
  }

  ghost predicate TidyBelow<T>(siblings: seq<Tree<T>>) {
    forall i :: 0 <= i < |siblings| ==> Tidy(siblings[i])
  }

  ghost predicate Named<T>(siblings: seq<Tree<T>>, name: string) {
    exists i :: 0 <= i < |siblings| && siblings[i].name == name
  }

  lemma {:induction false} NamedNext<T>(siblings: seq<Tree<T>>, name: string)
    requires siblings != []
    ensures var n := |siblings| - 1;
            Named(siblings, name) <==> Named(siblings[..n], name) || siblings[n].name == name
  {
    var n := |siblings| - 1;
    if Named(siblings[..n], name) {
      var i :| 0 <= i < n && siblings[..n][i].name == name;
      assert siblings[i].name == name;
    }
  }

  /** The survivors of a merge have the names of the siblings. */
  lemma {:induction false} MergedNames<T>(kids: seq<Tree<T>>, name: string)
    ensures Find(MergeSiblings(kids), name) < |MergeSiblings(kids)| <==> Named(kids, name)
  {
    if kids != [] {
      var n := |kids| - 1;
      MergedNames(kids[..n], name);
      AbsorbedNames(MergeSiblings(kids[..n]), kids[n], name);
      NamedNext(kids, name);
    }
  }

  lemma {:induction false} AbsorbedNames<T>(unique: seq<Tree<T>>, child: Tree<T>, name: string)
    ensures Find(Absorb(unique, child), name) < |Absorb(unique, child)|
            <==> Find(unique, name) < |unique| || child.name == name
  {
    var i, longer := Find(unique, name), Absorb(unique, child);
    if i < |unique| {
      assert longer[i].name == name;
    }
    if child.name == name && i == |unique| {
      assert longer[|unique|].name == name;
    }
  }

  lemma {:induction false} MergedTotal<T>(m: Measure, existing: Tree<T>, child: Tree<T>)
    requires child.name == existing.name && (m.Calls? ==> child.count == 1)
    ensures Total(m, Merged(existing, child)) == Total(m, existing) + Total(m, child)
  {
    TotalAllConcat(m, existing.kids, child.kids);
  }

  lemma {:induction false} AbsorbTotal<T>(m: Measure, unique: seq<Tree<T>>, child: Tree<T>)
    requires m.Calls? && Find(unique, child.name) < |unique| ==> child.count == 1
    ensures TotalAll(m, Absorb(unique, child)) == TotalAll(m, unique) + Total(m, child)
  {
    var i := Find(unique, child.name);
    if i < |unique| {
      MergedTotal(m, unique[i], child);
      TotalAllUpdate(m, unique, i, Merged(unique[i], child));
    } else {
      assert (unique + [child])[..|unique|] == unique;
    }
  }

  lemma {:induction false} MergedTidy<T>(existing: Tree<T>, child: Tree<T>)
    requires Tidy(existing) && Raw(child)
    ensures Tidy(Merged(existing, child))
  {
    var kids := existing.kids + child.kids;
    forall j | 0 <= j < |kids| ensures Raw(kids[j]) || (Tidy(kids[j]) && NewName(kids, j)) {
      if j < |existing.kids| {
        assert kids[j] == existing.kids[j];
        assert NewName(existing.kids, j) ==> NewName(kids, j);
      } else {
        assert kids[j] == child.kids[j - |existing.kids|];
        assert kids[j] in child.kids;
      }
    }
  }

  /** What merging tidy siblings folds together counts one call each. */
  lemma {:induction false} FoldedIsRaw<T>(kids: seq<Tree<T>>)
    requires kids != [] && TidyAll(kids)
    ensures var n := |kids| - 1;
            && TidyAll(kids[..n]) && Tidy(kids[n])
            && (Find(MergeSiblings(kids[..n]), kids[n].name) < |MergeSiblings(kids[..n])| ==> Raw(kids[n]))
  {
    var n := |kids| - 1;
    forall j | 0 <= j < n ensures Raw(kids[..n][j]) || (Tidy(kids[..n][j]) && NewName(kids[..n], j)) {
      assert kids[..n][j] == kids[j];
      assert NewName(kids, j) ==> NewName(kids[..n], j);
    }
    if Raw(kids[n]) {
      RawIsTidy(kids[n]);
    }
    MergedNames(kids[..n], kids[n].name);
  }

  lemma {:induction false} AbsorbTidy<T>(unique: seq<Tree<T>>, child: Tree<T>)
    requires TidyBelow(unique) && Tidy(child)
    requires Find(unique, child.name) < |unique| ==> Raw(child)
    ensures TidyBelow(Absorb(unique, child))
  {
    var i := Find(unique, child.name);
    if i < |unique| {
      MergedTidy(unique[i], child);
    }
  }

  lemma {:induction false} MergeSiblingsTotal<T>(m: Measure, kids: seq<Tree<T>>)
    requires m.Time? || TidyAll(kids)
    ensures TotalAll(m, MergeSiblings(kids)) == TotalAll(m, kids)
  {
    if kids != [] {
      if TidyAll(kids) {
        FoldedIsRaw(kids);
      }
      MergeSiblingsTotal(m, kids[..|kids| - 1]);
      AbsorbTotal(m, MergeSiblings(kids[..|kids| - 1]), kids[|kids| - 1]);
    }
  }

  lemma {:induction false} MergeSiblingsTidy<T>(kids: seq<Tree<T>>)
    requires TidyAll(kids)
    ensures TidyBelow(MergeSiblings(kids))
  {
    if kids != [] {
      FoldedIsRaw(kids);
      MergeSiblingsTidy(kids[..|kids| - 1]);
      AbsorbTidy(MergeSiblings(kids[..|kids| - 1]), kids[|kids| - 1]);
    }
  }

  lemma {:induction false} AggregateTotal<T>(m: Measure, t: Tree<T>)
    requires m.Time? || Tidy(t)
    ensures Total(m, Aggregate(t)) == Total(m, t)
    decreases Size(t), 0
  {
    if Tidy(t) {
      MergeSiblingsTidy(t.kids);
    }
    MergeSiblingsTotal(m, t.kids);
    AggregateAllTotal(m, MergeSiblings(t.kids));
  }

  lemma {:induction false} AggregateAllTotal<T>(m: Measure, siblings: seq<Tree<T>>)
    requires m.Time? || TidyBelow(siblings)
    ensures TotalAll(m, AggregateAll(siblings)) == TotalAll(m, siblings)
    decreases SizeAll(siblings), 1
  {
    if siblings != [] {
      var n := |siblings| - 1;
      AggregateAllTotal(m, siblings[..n]);
      AggregateTotal(m, siblings[n]);
    }
  }

  /** Aggregation keeps the total time of every function, whatever the tree. */
  lemma {:induction false} AggregateKeepsTime<T>(t: Tree<T>, name: string)
    ensures Total(Time(name), Aggregate(t)) == Total(Time(name), t)
  {
    AggregateTotal(Time(name), t);
  }

  /** Aggregation of a tree as traced, between aggregations or not, keeps the number of calls of every function. */
  lemma {:induction false} AggregateKeepsCalls<T>(t: Tree<T>, name: string)
    requires Tidy(t)
    ensures Total(Calls(name), Aggregate(t)) == Total(Calls(name), t)
  {
    AggregateTotal(Calls(name), t);
  }

  /** A tree with distinct sibling names everywhere can be traced into again. */
  lemma {:induction false} DistinctIsTidy<T>(t: Tree<T>)
    requires DistinctSiblings(t)
    ensures Tidy(t)
  {
    forall j | 0 <= j < |t.kids| ensures Tidy(t.kids[j]) && NewName(t.kids, j) {
      assert t.kids[j] in t.kids;
      DistinctIsTidy(t.kids[j]);
    }
  }
}
