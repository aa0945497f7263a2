/**
 Building the call tree: `Enter`, the function it returns for the exit, and printing with
 aggregation while calls are open (cmd/profiler/tracer/tracer.go). A node is told apart by its tag;
 the call stack is a list of tags, and a call changes the node with its tag wherever it is.
 */
module TraceRuns {
  import opened Prelude
  import opened CallTree
  import opened NodeSets

  /** Entering a function makes a new node; leaving ends the call on top of the stack after some time. */
  datatype Event<T> = Enter(tag: T, name: string) | Exit(elapsed: int) | Print

  datatype Trace<T> = Trace(root: Option<Tree<T>>, stack: seq<T>)

  function Leaf<T>(tag: T, name: string): Tree<T> {
    Node(tag, name, 0, 1, [])
  }

  /** What a call does to the node on top of the stack. */
  datatype Change<T> = Child(child: Tree<T>) | Duration(elapsed: int)

  function Changed<T>(t: Tree<T>, c: Change<T>): Tree<T> {
    match c
    case Child(child) => t.(kids := t.kids + [child])
    case Duration(elapsed) => t.(duration := elapsed)
  }

  /** A tree with a change at the node of a tag; nothing changes if the node is not in the tree. */
  function Edit<T(==)>(t: Tree<T>, tag: T, c: Change<T>): Tree<T> {
    var edited := t.(kids := EditAll(t.kids, tag, c));
    if t.tag == tag then Changed(edited, c) else edited
  }

  function EditAll<T(==)>(siblings: seq<Tree<T>>, tag: T, c: Change<T>): seq<Tree<T>> {
    if siblings == [] then []
    else
      var n := |siblings| - 1;
      EditAll(siblings[..n], tag, c) + [Edit(siblings[n], tag, c)]
  }

  function EditRoot<T(==)>(root: Option<Tree<T>>, tag: T, c: Change<T>): Option<Tree<T>> {
    if root.Some? then Some(Edit(root.value, tag, c)) else None
  }

  function Step<T(==)>(s: Trace<T>, e: Event<T>): Trace<T> {
    var n := |s.stack| - 1;
    match e
    case Enter(tag, name) =>
      if s.stack == [] then Trace(Some(Leaf(tag, name)), [tag])
      else Trace(EditRoot(s.root, s.stack[n], Child(Leaf(tag, name))), s.stack + [tag])
    case Exit(elapsed) =>
      if s.stack == [] then s
      else Trace(EditRoot(s.root, s.stack[n], Duration(elapsed)), s.stack[..n])
    case Print => if s.root.Some? then s.(root := Some(Aggregate(s.root.value))) else s
  }

  /** The trace after any sequence of entries, exits and prints, balanced or not. */
  function Run<T(==)>(events: seq<Event<T>>): Trace<T> {
    if events == [] then Trace(None, [])
    else Step(Run(events[..|events| - 1]), events[|events| - 1])
  }

  // ---------------------------------------------------------------------------------------
  // What the events themselves say

  /** The open calls after an event. */
  function Opened<T>(open: seq<string>, e: Event<T>): seq<string> {
    match e
    case Enter(_, name) => open + [name]
    case Exit(_) => if open == [] then [] else open[..|open| - 1]
    case Print => open
  }

  /** The names of the open calls, outermost first. */
  function Open<T>(events: seq<Event<T>>): seq<string> {
    if events == [] then [] else Opened(Open(events[..|events| - 1]), events[|events| - 1])
  }

  /** What an event adds for a function: a call when it is entered, its time when it is left. */
  function Added<T>(open: seq<string>, e: Event<T>, m: Measure): int {
    match (e, m)
    case (Enter(_, name), Calls(f)) => if name == f then 1 else 0
    case (Exit(elapsed), Time(f)) => if open != [] && open[|open| - 1] == f then elapsed else 0
    case _ => 0
  }

  /** The calls of a function and the time spent in them since no call was open. */
  function Recorded<T>(events: seq<Event<T>>, m: Measure): int {
    if events == [] then 0
    else
      var n := |events| - 1;
      var open := Open(events[..n]);
      (if events[n].Enter? && open == [] then 0 else Recorded(events[..n], m)) + Added(open, events[n], m)
  }

  ghost function Entered<T>(events: seq<Event<T>>): set<T> {
    if events == [] then {}
    else
      var n := |events| - 1;
      Entered(events[..n]) + if events[n].Enter? then {events[n].tag} else {}
  }

  /** Every call has a node of its own. */
  ghost predicate Fresh<T>(events: seq<Event<T>>) {
    events != [] ==>
      var n := |events| - 1;
      Fresh(events[..n]) && (events[n].Enter? ==> events[n].tag !in Entered(events[..n]))
  }

  function TotalOf<T>(m: Measure, root: Option<Tree<T>>): int {
    if root.Some? then Total(m, root.value) else 0
  }

  // ---------------------------------------------------------------------------------------
  // Changing one node

  lemma {:induction false} EditMissing<T>(t: Tree<T>, tag: T, c: Change<T>)
    requires tag !in Nodes(t)
    ensures Edit(t, tag, c) == t
    decreases t, 1
  {
    EditAllMissing(t.kids, tag, c);
  }

  lemma {:induction false} EditAllMissing<T>(siblings: seq<Tree<T>>, tag: T, c: Change<T>)
    requires tag !in NodesAll(siblings)
    ensures EditAll(siblings, tag, c) == siblings
    decreases siblings
  {
    if siblings != [] {
      var n := |siblings| - 1;
      EditAllMissing(siblings[..n], tag, c);
      EditMissing(siblings[n], tag, c);
    }
  }

  ghost function ChildNodes<T>(c: Change<T>): set<T> {
    if c.Child? then Nodes(c.child) else {}
  }

  lemma {:induction false} EditNodes<T>(t: Tree<T>, tag: T, c: Change<T>)
    ensures Nodes(t) <= Nodes(Edit(t, tag, c)) <= Nodes(t) + ChildNodes(c)
    decreases t, 1
  {
    EditAllNodes(t.kids, tag, c);
    if c.Child? {
      NodesAllConcat(EditAll(t.kids, tag, c), [c.child]);
      Singleton(c.child);
    }
  }

  lemma {:induction false} EditAllNodes<T>(siblings: seq<Tree<T>>, tag: T, c: Change<T>)
    ensures NodesAll(siblings) <= NodesAll(EditAll(siblings, tag, c)) <= NodesAll(siblings) + ChildNodes(c)
    decreases siblings
  {
    if siblings != [] {
      var n := |siblings| - 1;
      EditAllNodes(siblings[..n], tag, c);
      EditNodes(siblings[n], tag, c);
    }
  }

  /** A change that brings only new nodes. */
  ghost predicate FreshChange<T>(c: Change<T>, nodes: set<T>) {
    c.Child? ==> Unshared(c.child) && Nodes(c.child) !! nodes
  }

  lemma {:induction false} EditUnshared<T>(t: Tree<T>, tag: T, c: Change<T>)
    requires Unshared(t) && FreshChange(c, Nodes(t))
    ensures Unshared(Edit(t, tag, c))
    decreases t, 1
  {
    EditAllNodes(t.kids, tag, c);
    if t.tag == tag {
      EditAllMissing(t.kids, tag, c);
      if c.Child? {
        UnsharedAllConcat(t.kids, [c.child]);
        NodesAllConcat(t.kids, [c.child]);
        Singleton(c.child);
      }
    } else {
      EditAllUnshared(t.kids, tag, c);
    }
  }

  lemma {:induction false} EditAllUnshared<T>(siblings: seq<Tree<T>>, tag: T, c: Change<T>)
    requires UnsharedAll(siblings) && FreshChange(c, NodesAll(siblings))
    ensures UnsharedAll(EditAll(siblings, tag, c))
    decreases siblings
  {
    if siblings != [] {
      var n := |siblings| - 1;
      EditAllUnshared(siblings[..n], tag, c);
      EditUnshared(siblings[n], tag, c);
      EditAllNodes(siblings[..n], tag, c);
      EditNodes(siblings[n], tag, c);
      if tag in Nodes(siblings[n]) {
        EditAllMissing(siblings[..n], tag, c);
      } else {
        EditMissing(siblings[n], tag, c);
      }
    }
  }

  /** In every run no node occurs twice, and the nodes and the stack come from the calls made. */
  lemma {:induction false} RunUnshared<T>(events: seq<Event<T>>)
    requires Fresh(events)
    ensures var s := Run(events);
            && (s.root.Some? ==> Unshared(s.root.value) && Nodes(s.root.value) <= Entered(events))
            && (forall j :: 0 <= j < |s.stack| ==> s.stack[j] in Entered(events))
            && (s.stack != [] ==> s.root.Some?)
  {
    if events != [] {
      var n := |events| - 1;
      RunUnshared(events[..n]);
      var before := Run(events[..n]);
      if before.root.Some? {
        var t := before.root.value;
        match events[n]
        case Enter(tag, name) =>
          if before.stack != [] {
            EditUnshared(t, before.stack[|before.stack| - 1], Child(Leaf(tag, name)));
            EditNodes(t, before.stack[|before.stack| - 1], Child(Leaf(tag, name)));
          }
        case Exit(elapsed) =>
          if before.stack != [] {
            EditUnshared(t, before.stack[|before.stack| - 1], Duration(elapsed));
            EditNodes(t, before.stack[|before.stack| - 1], Duration(elapsed));
          }
        case Print => AggregateUnshared(t);
      }
    }
  }

  // ---------------------------------------------------------------------------------------
  // The open calls lie on the rightmost path

  function Last<T>(t: Tree<T>): Tree<T>
    requires t.kids != []
  {
    t.kids[|t.kids| - 1]
  }

  /** The nodes of the stack follow one another as last children, with the names of the open calls and no time yet. */
  ghost predicate Path<T>(t: Tree<T>, stack: seq<T>, names: seq<string>)
    decreases |stack|
  {
    && |names| == |stack|
    && (stack != [] ==>
          && t.tag == stack[0] && t.name == names[0] && t.duration == 0
          && (|stack| > 1 ==> t.kids != [] && Path(Last(t), stack[1..], names[1..])))
  }

  lemma {:induction false} PathNodes<T>(t: Tree<T>, stack: seq<T>, names: seq<string>, j: nat)
    requires Path(t, stack, names) && j < |stack|
    ensures stack[j] in Nodes(t)
    decreases |stack|
  {
    if j > 0 {
      PathNodes(Last(t), stack[1..], names[1..], j - 1);
    }
  }

  /** A change at the top of the stack, below the root, is a change in the last child. */
  lemma {:induction false} EditLast<T>(t: Tree<T>, stack: seq<T>, names: seq<string>, c: Change<T>)
    requires Unshared(t) && Path(t, stack, names) && |stack| > 1
    ensures var n := |t.kids| - 1;
            var top := stack[|stack| - 1];
            Edit(t, top, c) == t.(kids := t.kids[..n] + [Edit(t.kids[n], top, c)])
  {
    var n := |t.kids| - 1;
    PathNodes(Last(t), stack[1..], names[1..], |stack| - 2);
    EditAllMissing(t.kids[..n], stack[|stack| - 1], c);
  }

  lemma {:induction false} EditTop<T>(t: Tree<T>, c: Change<T>)
    requires Unshared(t)
    ensures Edit(t, t.tag, c) == Changed(t, c)
  {
    EditAllMissing(t.kids, t.tag, c);
  }

  lemma {:induction false} ChildPath<T>(t: Tree<T>, stack: seq<T>, names: seq<string>, leaf: Tree<T>)
    requires Unshared(t) && Path(t, stack, names) && stack != [] && leaf.duration == 0
    ensures Path(Edit(t, stack[|stack| - 1], Child(leaf)), stack + [leaf.tag], names + [leaf.name])
    decreases |stack|
  {
    var edited := Edit(t, stack[|stack| - 1], Child(leaf));
    if |stack| == 1 {
      EditTop(t, Child(leaf));
    } else {
      EditLast(t, stack, names, Child(leaf));
      ChildPath(Last(t), stack[1..], names[1..], leaf);
    }
    assert (stack + [leaf.tag])[1..] == stack[1..] + [leaf.tag];
    assert (names + [leaf.name])[1..] == names[1..] + [leaf.name];
  }

  lemma {:induction false} ClosePath<T>(t: Tree<T>, stack: seq<T>, names: seq<string>, elapsed: int)
    requires Unshared(t) && Path(t, stack, names) && stack != []
    ensures var n := |stack| - 1;
            Path(Edit(t, stack[n], Duration(elapsed)), stack[..n], names[..n])
    decreases |stack|
  {
    var n := |stack| - 1;
    if n > 0 {
      EditLast(t, stack, names, Duration(elapsed));
      ClosePath(Last(t), stack[1..], names[1..], elapsed);
      assert stack[..n][1..] == stack[1..][..n - 1] && names[..n][1..] == names[1..][..n - 1];
    }
  }

  // ---------------------------------------------------------------------------------------
  // Totals

  lemma {:induction false} AppendTotal<T>(m: Measure, kids: seq<Tree<T>>, child: Tree<T>)
    ensures TotalAll(m, kids + [child]) == TotalAll(m, kids) + Total(m, child)
  {
    assert (kids + [child])[..|kids|] == kids;
  }

  /** Replacing the last of some siblings. */
  lemma {:induction false} LastTotal<T>(m: Measure, kids: seq<Tree<T>>, last: Tree<T>)
    requires kids != []
    ensures TotalAll(m, kids[..|kids| - 1] + [last])
         == TotalAll(m, kids) - Total(m, kids[|kids| - 1]) + Total(m, last)
  {
    AppendTotal(m, kids[..|kids| - 1], last);
  }

  /** What a change adds at a node with the given name and no time yet. */
  function Gain<T>(m: Measure, name: string, c: Change<T>): int {
    match c
    case Child(child) => Total(m, child)
    case Duration(elapsed) => if m.Time? && name == m.name then elapsed else 0
  }

  lemma {:induction false} EditTotal<T>(m: Measure, t: Tree<T>, stack: seq<T>, names: seq<string>, c: Change<T>)
    requires Unshared(t) && Path(t, stack, names) && stack != []
    ensures Total(m, Edit(t, stack[|stack| - 1], c)) == Total(m, t) + Gain(m, names[|names| - 1], c)
    decreases |stack|
  {
    if |stack| == 1 {
      EditTop(t, c);
      if c.Child? {
        AppendTotal(m, t.kids, c.child);
      }
    } else {
      EditLast(t, stack, names, c);
      EditTotal(m, Last(t), stack[1..], names[1..], c);
      LastTotal(m, t.kids, Edit(Last(t), stack[|stack| - 1], c));
    }
  }

  lemma {:induction false} EditTidy<T>(t: Tree<T>, stack: seq<T>, names: seq<string>, c: Change<T>)
    requires Unshared(t) && Path(t, stack, names) && stack != []
    requires c.Child? ==> Raw(c.child)
    ensures var edited := Edit(t, stack[|stack| - 1], c);
            && edited.name == t.name
            && (Raw(t) ==> Raw(edited)) && (Tidy(t) ==> Tidy(edited))
    decreases |stack|
  {
    if |stack| == 1 {
      EditTop(t, c);
      if c.Child? && Tidy(t) {
        AppendTidy(t.kids, c.child);
      }
    } else {
      EditLast(t, stack, names, c);
      EditTidy(Last(t), stack[1..], names[1..], c);
      if Tidy(t) {
        LastTidy(t.kids, Edit(Last(t), stack[|stack| - 1], c));
      }
    }
  }

  lemma {:induction false} AppendTidy<T>(kids: seq<Tree<T>>, child: Tree<T>)
    requires TidyAll(kids) && Raw(child)
    ensures TidyAll(kids + [child])
  {
    var longer := kids + [child];
    forall j | 0 <= j < |longer| ensures Raw(longer[j]) || (Tidy(longer[j]) && NewName(longer, j)) {
      if j < |kids| {
        assert longer[j] == kids[j];
        assert NewName(kids, j) ==> NewName(longer, j);
      }
    }
  }

  lemma {:induction false} LastTidy<T>(kids: seq<Tree<T>>, last: Tree<T>)
    requires kids != [] && TidyAll(kids) && last.name == kids[|kids| - 1].name
    requires Raw(kids[|kids| - 1]) ==> Raw(last)
    requires Tidy(kids[|kids| - 1]) ==> Tidy(last)
    ensures TidyAll(kids[..|kids| - 1] + [last])
  {
    var n := |kids| - 1;
    var replaced := kids[..n] + [last];
    forall j | 0 <= j < |replaced| ensures Raw(replaced[j]) || (Tidy(replaced[j]) && NewName(replaced, j)) {
      assert NewName(kids, j) ==> NewName(replaced, j);
      if j < n {
        assert replaced[j] == kids[j];
      }
    }
  }

  // ---------------------------------------------------------------------------------------
  // Printing while calls are open

  /** No call open at the first `n` heights has the name of an earlier sibling. */
  ghost predicate Harmless<T>(t: Tree<T>, n: nat)
    decreases n
  {
    n > 1 && t.kids != [] ==> !Named(t.kids[..|t.kids| - 1], Last(t).name) && Harmless(Last(t), n - 1)
  }

  lemma {:induction false} MergeKeepsLast<T>(kids: seq<Tree<T>>)
    requires kids != [] && !Named(kids[..|kids| - 1], kids[|kids| - 1].name)
    ensures MergeSiblings(kids) == MergeSiblings(kids[..|kids| - 1]) + [kids[|kids| - 1]]
  {
    MergedNames(kids[..|kids| - 1], kids[|kids| - 1].name);
  }

  /** An aggregation whose last child is kept aggregates that child last. */
  lemma {:induction false} AggregateLast<T>(t: Tree<T>)
    requires t.kids != [] && !Named(t.kids[..|t.kids| - 1], Last(t).name)
    ensures var unique := MergeSiblings(t.kids[..|t.kids| - 1]);
            Aggregate(t) == t.(kids := AggregateAll(unique) + [Aggregate(Last(t))])
  {
    var unique := MergeSiblings(t.kids[..|t.kids| - 1]);
    MergeKeepsLast(t.kids);
    assert (unique + [Last(t)])[..|unique|] == unique;
  }

  lemma {:induction false} PrintPath<T>(t: Tree<T>, stack: seq<T>, names: seq<string>)
    requires Path(t, stack, names) && Harmless(t, |stack|)
    ensures Path(Aggregate(t), stack, names)
    decreases |stack|
  {
    if |stack| > 1 {
      AggregateLast(t);
      PrintPath(Last(t), stack[1..], names[1..]);
    }
  }

  /** An open call with the name of an earlier sibling is no longer in the tree once that is aggregated. */
  lemma {:induction false} PrintDetaches<T>(t: Tree<T>, stack: seq<T>, names: seq<string>)
    requires Unshared(t) && Path(t, stack, names) && !Harmless(t, |stack|)
    ensures exists j :: 1 <= j < |stack| && stack[j] !in Nodes(Aggregate(t))
    decreases |stack|
  {
    if Named(t.kids[..|t.kids| - 1], Last(t).name) {
      FoldedIsGone(t);
      assert stack[1] !in Nodes(Aggregate(t));
    } else {
      PrintDetaches(Last(t), stack[1..], names[1..]);
      var j :| 1 <= j < |stack[1..]| && stack[1..][j] !in Nodes(Aggregate(Last(t)));
      PathNodes(Last(t), stack[1..], names[1..], j);
      GoneFromLast(t, stack[j + 1]);
    }
  }

  lemma {:induction false} GoneFromLast<T>(t: Tree<T>, x: T)
    requires Unshared(t) && t.kids != [] && !Named(t.kids[..|t.kids| - 1], Last(t).name)
    requires x in Nodes(Last(t)) && x !in Nodes(Aggregate(Last(t)))
    ensures x !in Nodes(Aggregate(t))
  {
    var unique := MergeSiblings(t.kids[..|t.kids| - 1]);
    AggregateLast(t);
    MergeSiblingsUnshared(t.kids[..|t.kids| - 1]);
    AggregateAllUnshared(unique);
    NodesAllConcat(AggregateAll(unique), [Aggregate(Last(t))]);
    Singleton(Aggregate(Last(t)));
  }

  lemma {:induction false} FoldedIsGone<T>(t: Tree<T>)
    requires Unshared(t) && t.kids != [] && Named(t.kids[..|t.kids| - 1], Last(t).name)
    ensures Last(t).tag !in Nodes(Aggregate(t))
  {
    var n := |t.kids| - 1;
    var init, last := t.kids[..n], Last(t);
    var unique := MergeSiblings(init);
    MergedNames(init, last.name);
    MergeSiblingsUnshared(init);
    var i := Find(unique, last.name);
    ForestAt(unique, i);
    var merged := Merged(unique[i], last);
    NodesAllConcat(unique[i].kids, last.kids);
    MergedUnshared(unique[i], last);
    SwapTree(unique, i, merged, NodesAll(last.kids));
    AggregateAllUnshared(unique[i := merged]);
  }

  // ---------------------------------------------------------------------------------------
  // Runs

  /** Printing in a state folds no open call into an earlier sibling. */
  ghost predicate PrintHarmless<T>(s: Trace<T>) {
    s.root.Some? ==> Harmless(s.root.value, |s.stack|)
  }

  /** No print of the run does. */
  ghost predicate HarmlessRun<T>(events: seq<Event<T>>) {
    events != [] ==>
      var n := |events| - 1;
      HarmlessRun(events[..n]) && (events[n].Print? ==> PrintHarmless(Run(events[..n])))
  }

  /** The stack holds the nodes of the open calls, on the rightmost path of a tree that can be aggregated. */
  ghost predicate Tracked<T>(s: Trace<T>, names: seq<string>) {
    && |names| == |s.stack|
    && (s.root.Some? ==> Unshared(s.root.value) && Tidy(s.root.value) && Path(s.root.value, s.stack, names))
    && (s.root.None? ==> s.stack == [])
  }

  lemma {:induction false} StepTracked<T>(s: Trace<T>, e: Event<T>, names: seq<string>)
    requires Tracked(s, names)
    requires e.Print? ==> PrintHarmless(s)
    requires e.Enter? && s.root.Some? ==> e.tag !in Nodes(s.root.value)
    ensures Tracked(Step(s, e), Opened(names, e))
  {
    if s.root.Some? {
      var t := s.root.value;
      match e
      case Enter(tag, name) =>
        if s.stack != [] {
          ChildPath(t, s.stack, names, Leaf(tag, name));
          EditTidy(t, s.stack, names, Child(Leaf(tag, name)));
          EditUnshared(t, s.stack[|s.stack| - 1], Child(Leaf(tag, name)));
        }
      case Exit(elapsed) =>
        if s.stack != [] {
          ClosePath(t, s.stack, names, elapsed);
          EditTidy(t, s.stack, names, Duration(elapsed));
          EditUnshared(t, s.stack[|s.stack| - 1], Duration(elapsed));
        }
      case Print =>
        PrintPath(t, s.stack, names);
        AggregateDistinct(t);
        DistinctIsTidy(Aggregate(t));
        AggregateUnshared(t);
    }
  }

  /** After any entries, exits and harmless prints the stack is exactly the open calls, on the rightmost path. */
  lemma {:induction false} RunTracked<T>(events: seq<Event<T>>)
    requires Fresh(events) && HarmlessRun(events)
    ensures Tracked(Run(events), Open(events))
  {
    if events != [] {
      var n := |events| - 1;
      RunTracked(events[..n]);
      RunUnshared(events[..n]);
      StepTracked(Run(events[..n]), events[n], Open(events[..n]));
    }
  }

  lemma {:induction false} StepTotal<T>(m: Measure, s: Trace<T>, e: Event<T>, names: seq<string>)
    requires Tracked(s, names)
    ensures TotalOf(m, Step(s, e).root)
         == (if e.Enter? && names == [] then 0 else TotalOf(m, s.root)) + Added(names, e, m)
  {
    match e
    case Enter(tag, name) =>
      assert Total(m, Leaf(tag, name)) == Weight(m, Leaf(tag, name));
      if s.stack != [] {
        EditTotal(m, s.root.value, s.stack, names, Child(Leaf(tag, name)));
      }
    case Exit(elapsed) =>
      if s.stack != [] {
        EditTotal(m, s.root.value, s.stack, names, Duration(elapsed));
      }
    case Print =>
      if s.root.Some? {
        AggregateTotal(m, s.root.value);
      }
  }

  /** The traced tree accounts for exactly the calls made and the time spent in them. */
  lemma {:induction false} RunTotal<T>(events: seq<Event<T>>, m: Measure)
    requires Fresh(events) && HarmlessRun(events)
    ensures TotalOf(m, Run(events).root) == Recorded(events, m)
  {
    if events != [] {
      var n := |events| - 1;
      RunTotal(events[..n], m);
      RunTracked(events[..n]);
      StepTotal(m, Run(events[..n]), events[n], Open(events[..n]));
    }
  }

  /**
   After any entries, exits and harmless prints, the aggregated tree shows, for every function,
   exactly the number of its calls and the time spent in them, at nodes with distinct names among
   siblings.
   */
  lemma {:induction false} AggregatedRun<T>(events: seq<Event<T>>, name: string)
    requires Fresh(events) && HarmlessRun(events) && Run(events).root.Some?
    ensures var aggregated := Aggregate(Run(events).root.value);
            && DistinctSiblings(aggregated)
            && Total(Calls(name), aggregated) == Recorded(events, Calls(name))
            && Total(Time(name), aggregated) == Recorded(events, Time(name))
  {
    var t := Run(events).root.value;
    RunTracked(events);
    RunTotal(events, Calls(name));
    RunTotal(events, Time(name));
    AggregateKeepsCalls(t, name);
    AggregateKeepsTime(t, name);
    AggregateDistinct(t);
  }

  // ---------------------------------------------------------------------------------------
  // Exactly the harmless prints keep the totals

  function Exits<T>(elapsed: seq<int>): seq<Event<T>> {
    seq(|elapsed|, i requires 0 <= i < |elapsed| => Exit(elapsed[i]))
  }

  lemma {:induction false} RunNext<T>(events: seq<Event<T>>, e: Event<T>)
    ensures Run(events + [e]) == Step(Run(events), e)
    ensures Open(events + [e]) == Opened(Open(events), e)
    ensures Fresh(events) && !e.Enter? ==> Fresh(events + [e])
    ensures HarmlessRun(events) && (e.Print? ==> PrintHarmless(Run(events))) ==> HarmlessRun(events + [e])
  {
    assert (events + [e])[..|events|] == events;
  }

  lemma {:induction false} RecordedNext<T>(events: seq<Event<T>>, elapsed: int, m: Measure)
    ensures Recorded(events + [Exit(elapsed)], m)
         == Recorded(events, m) + Added<T>(Open(events), Exit(elapsed), m)
  {
    assert (events + [Exit(elapsed)])[..|events|] == events;
  }

  lemma {:induction false} ExitsNext<T>(events: seq<Event<T>>, elapsed: seq<int>, last: int)
    ensures events + Exits<T>(elapsed + [last]) == (events + Exits<T>(elapsed)) + [Exit(last)]
  {
  }

  function Zeros(k: nat): seq<int> {
    if k == 0 then [] else Zeros(k - 1) + [0]
  }

  /** The innermost `k` calls have been left; the same nodes are in the tree. */
  ghost predicate Left<T>(events: seq<Event<T>>, after: seq<Event<T>>, k: nat) {
    && k <= |Run(events).stack| == |Open(events)|
    && Run(after).stack == Run(events).stack[..|Run(events).stack| - k]
    && Open(after) == Open(events)[..|Open(events)| - k]
    && (Run(events).root.Some? ==>
          Run(after).root.Some? && Nodes(Run(after).root.value) == Nodes(Run(events).root.value))
  }

  lemma {:induction false} LeftNext<T>(events: seq<Event<T>>, after: seq<Event<T>>, k: nat)
    requires Left(events, after, k) && k < |Open(events)|
    ensures Left(events, after + [Exit(0)], k + 1)
  {
    RunNext(after, Exit(0));
    if Run(after).root.Some? {
      EditNodes(Run(after).root.value, Run(after).stack[|Run(after).stack| - 1], Duration(0));
    }
  }

  lemma {:induction false} RunExits<T>(events: seq<Event<T>>, k: nat)
    requires k <= |Run(events).stack| == |Open(events)|
    ensures Left(events, events + Exits<T>(Zeros(k)), k)
  {
    if k == 0 {
      assert events + Exits<T>(Zeros(0)) == events;
    } else {
      RunExits(events, k - 1);
      ExitsNext(events, Zeros(k - 1), 0);
      LeftNext(events, events + Exits<T>(Zeros(k - 1)), k - 1);
    }
  }

  /** The tree accounts for what happened. */
  ghost predicate Accounts<T>(events: seq<Event<T>>, m: Measure) {
    TotalOf(m, Run(events).root) == Recorded(events, m)
  }

  /** The time of a call that is no longer in the tree is lost. */
  lemma {:induction false} DetachedLoses<T>(events: seq<Event<T>>)
    requires |Run(events).stack| == |Open(events)| > 0 && Run(events).root.Some?
    requires Run(events).stack[|Run(events).stack| - 1] !in Nodes(Run(events).root.value)
    ensures var m := Time(Open(events)[|Open(events)| - 1]);
            !Accounts(events, m) || !Accounts(events + [Exit(1)], m)
  {
    RunNext(events, Exit(1));
    RecordedNext(events, 1, Time(Open(events)[|Open(events)| - 1]));
    EditMissing(Run(events).root.value, Run(events).stack[|Run(events).stack| - 1], Duration(1));
  }

  /** However the open calls end, the tree accounts for them. */
  ghost predicate KeepsTotals<T>(events: seq<Event<T>>) {
    forall elapsed: seq<int>, m: Measure :: Accounts(events + Exits<T>(elapsed), m)
  }

  lemma {:induction false} ExitsHarmless<T>(events: seq<Event<T>>, elapsed: seq<int>)
    requires Fresh(events) && HarmlessRun(events)
    ensures Fresh(events + Exits<T>(elapsed)) && HarmlessRun(events + Exits<T>(elapsed))
  {
    if elapsed == [] {
      assert events + Exits<T>(elapsed) == events;
    } else {
      var n := |elapsed| - 1;
      ExitsHarmless(events, elapsed[..n]);
      assert elapsed == elapsed[..n] + [elapsed[n]];
      ExitsNext(events, elapsed[..n], elapsed[n]);
      RunNext(events + Exits<T>(elapsed[..n]), Exit(elapsed[n]));
    }
  }

  /**
   A print keeps the totals, however the open calls end, if and only if no open call has the name of
   an earlier sibling.
   */
  lemma {:induction false} PrintKeepsTotals<T>(events: seq<Event<T>>)
    requires Fresh(events) && HarmlessRun(events)
    ensures KeepsTotals(events + [Print]) <==> PrintHarmless(Run(events))
  {
    var printed := events + [Print];
    RunNext(events, Print);
    if PrintHarmless(Run(events)) {
      forall elapsed: seq<int>, m: Measure
        ensures Accounts(printed + Exits<T>(elapsed), m)
      {
        ExitsHarmless(printed, elapsed);
        RunTotal(printed + Exits<T>(elapsed), m);
      }
    } else {
      PrintLoses(events);
    }
  }

  lemma {:induction false} PrintLoses<T>(events: seq<Event<T>>)
    requires Fresh(events) && HarmlessRun(events) && !PrintHarmless(Run(events))
    ensures !KeepsTotals(events + [Print])
  {
    RunNext(events, Print);
    RunTracked(events);
    var s := Run(events);
    PrintDetaches(s.root.value, s.stack, Open(events));
    var j :| 1 <= j < |s.stack| && s.stack[j] !in Nodes(Aggregate(s.root.value));
    OpenCallLost(events + [Print], j);
  }

  /** The totals are not kept while the node of an open call is not in the tree. */
  lemma {:induction false} OpenCallLost<T>(events: seq<Event<T>>, j: nat)
    requires j < |Run(events).stack| == |Open(events)| && Run(events).root.Some?
    requires Run(events).stack[j] !in Nodes(Run(events).root.value)
    ensures !KeepsTotals(events)
  {
    var k := |Run(events).stack| - 1 - j;
    RunExits(events, k);
    DetachedLoses(events + Exits<T>(Zeros(k)));
    ExitsNext(events, Zeros(k), 1);
  }
}
