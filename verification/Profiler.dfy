/**
 The profiler's global state on the heap (cmd/profiler/tracer/tracer.go), proved against the runs of
 module TraceRuns: the nodes that the call stack and the root point to hold exactly the traced tree.
 Entries while the tracer is disabled leave no trace, and are not events.
 */
module Profiler {
  import opened Prelude
  import opened CallTree
  import opened NodeSets
  import opened Tracer
  import opened TraceRuns

  // ---------------------------------------------------------------------------------------
  // Writing to one node

  /** The tree itself and all trees below it. */
  ghost function Subtrees(t: NodeTree): set<NodeTree> {
    {t} + SubtreesAll(t.kids)
  }

  ghost function SubtreesAll(siblings: seq<NodeTree>): set<NodeTree> {
    if siblings == [] then {}
    else SubtreesAll(siblings[..|siblings| - 1]) + Subtrees(siblings[|siblings| - 1])
  }

  /** The root of the tree is on the heap as it should be. */
  ghost predicate At(t: NodeTree)
    reads t.tag
  {
    && t.tag.name == t.name && t.tag.duration == t.duration
    && t.tag.callCount == t.count && t.tag.children == Roots(t.kids)
  }

  lemma {:induction false} SubtreesMatch(t: NodeTree)
    requires Matches(t)
    ensures forall u :: u in Subtrees(t) ==> u.tag in Nodes(t) && At(u)
    decreases t, 1
  {
    SubtreesAllMatch(t.kids);
  }

  lemma {:induction false} SubtreesAllMatch(siblings: seq<NodeTree>)
    requires MatchesAll(siblings)
    ensures forall u :: u in SubtreesAll(siblings) ==> u.tag in NodesAll(siblings) && At(u)
    decreases siblings
  {
    if siblings != [] {
      SubtreesAllMatch(siblings[..|siblings| - 1]);
      SubtreesMatch(siblings[|siblings| - 1]);
    }
  }

  /** The heap holds the tree but for a change at one node. */
  ghost predicate Written(u: NodeTree, node: CallNode, c: Change<CallNode>)
    reads u.tag
  {
    At(if u.tag == node then Changed(u, c) else u)
  }

  lemma {:induction false} EditMatches(t: NodeTree, node: CallNode, c: Change<CallNode>)
    requires Unshared(t) && (c.Child? ==> Matches(c.child))
    requires forall u :: u in Subtrees(t) ==> Written(u, node, c)
    ensures Matches(Edit(t, node, c))
    decreases t, 1
  {
    EditAllMatches(t.kids, node, c);
    EditAllRoots(t.kids, node, c);
    assert Written(t, node, c);
    if t.tag == node {
      EditAllMissing(t.kids, node, c);
      if c.Child? {
        MatchesAllConcat(t.kids, [c.child]);
        MatchesSingleton(c.child);
      }
    }
  }

  lemma {:induction false} EditAllMatches(siblings: seq<NodeTree>, node: CallNode, c: Change<CallNode>)
    requires UnsharedAll(siblings) && (c.Child? ==> Matches(c.child))
    requires forall u :: u in SubtreesAll(siblings) ==> Written(u, node, c)
    ensures MatchesAll(EditAll(siblings, node, c))
    decreases siblings
  {
    if siblings != [] {
      var n := |siblings| - 1;
      EditAllMatches(siblings[..n], node, c);
      EditMatches(siblings[n], node, c);
      EditAllRoots(siblings[..n], node, c);
      assert EditAll(siblings, node, c)[..n] == EditAll(siblings[..n], node, c);
    }
  }

  lemma {:induction false} EditAllRoots(siblings: seq<NodeTree>, node: CallNode, c: Change<CallNode>)
    ensures |EditAll(siblings, node, c)| == |siblings|
    ensures Roots(EditAll(siblings, node, c)) == Roots(siblings)
  {
    if siblings != [] {
      var n := |siblings| - 1;
      EditAllRoots(siblings[..n], node, c);
      assert Roots(siblings) == Roots(siblings[..n]) + [siblings[n].tag];
    }
  }

  /** Whether or not the parent is still in the tree. */
  method AppendChild(parent: CallNode, node: CallNode, ghost t: NodeTree, ghost leaf: NodeTree)
    requires Unshared(t) && Matches(t) && Matches(leaf) && node == leaf.tag && parent !in Nodes(leaf)
    modifies parent
    ensures Matches(Edit(t, parent, Child(leaf)))
  {
    SubtreesMatch(t);
    assert allocated(Subtrees(t)) && allocated(Nodes(leaf));
    parent.children := parent.children + [node];
    EditMatches(t, parent, Child(leaf));
  }

  method SetDuration(node: CallNode, elapsed: int, ghost t: NodeTree)
    requires Unshared(t) && Matches(t)
    modifies node
    ensures Matches(Edit(t, node, Duration(elapsed)))
  {
    SubtreesMatch(t);
    assert allocated(Subtrees(t));
    node.duration := elapsed;
    EditMatches(t, node, Duration(elapsed));
  }

  class Profiler {
    var rootNode: CallNode?
    var callStack: seq<CallNode>
    ghost var events: seq<Event<CallNode>>

    /** The stack is that of the run, and the heap holds its tree. */
    ghost predicate Valid()
      reads this, Entered(events)
    {
      var s := Run(events);
      && Fresh(events)
      && callStack == s.stack
      && (rootNode == null <==> s.root.None?)
      && (s.root.Some? ==>
            && rootNode == s.root.value.tag
            && Nodes(s.root.value) <= Entered(events) && Matches(s.root.value))
    }

    /** `Enable`: nothing traced yet. */
    constructor ()
      ensures Valid() && events == []
    {
      rootNode, callStack, events := null, [], [];
    }

    /** `Enter`: a new node below the one on top of the stack, or a new root. */
    method Enter(name: string) returns (node: CallNode)
      requires Valid()
      modifies this, Entered(events)
      ensures Valid() && fresh(node)
      ensures events == old(events) + [Event.Enter(node, name)]
    {
      ghost var e := events;
      ghost var before := Run(e);
      RunUnshared(e);
      assert allocated(Entered(e));
      node := new CallNode(name);
      ghost var leaf := Leaf(node, name);
      assert Matches(leaf);
      if |callStack| > 0 {
        AppendChild(callStack[|callStack| - 1], node, before.root.value, leaf);
      } else {
        rootNode := node;
      }
      callStack := callStack + [node];
      events := e + [Event.Enter(node, name)];
      EnteredNext(e, Event.Enter(node, name));
      RunUnshared(events);
    }

    /** The function that `Enter` returns: it ends the call on top of the stack, whichever that is. */
    method Exit(elapsed: int)
      requires Valid()
      modifies this, Entered(events)
      ensures Valid() && events == old(events) + [Event.Exit(elapsed)]
    {
      ghost var e := events;
      ghost var before := Run(e);
      RunUnshared(e);
      if |callStack| > 0 {
        SetDuration(callStack[|callStack| - 1], elapsed, before.root.value);
        callStack := callStack[..|callStack| - 1];
      }
      events := e + [Event.Exit(elapsed)];
      EnteredNext(e, Event.Exit(elapsed));
      RunUnshared(events);
    }

    /** `PrintWithOptions` from the root, with `AggregateLoops`: the live tree is aggregated in place. */
    method Print()
      requires Valid()
      modifies this, Entered(events)
      ensures Valid() && events == old(events) + [Event.Print]
    {
      ghost var e := events;
      ghost var before := Run(e);
      RunUnshared(e);
      if rootNode != null {
        AggregateUnshared(before.root.value);
        AggregateNode(rootNode, before.root.value);
      }
      events := e + [Event.Print];
      EnteredNext(e, Event.Print);
    }

    /**
     The table of `PrintSummary`: the time per function of the events themselves, provided that no
     print folded an open call into an earlier sibling.
     */
    method FunctionTimes() returns (funcTimes: map<string, int>)
      requires Valid()
      ensures forall name :: Tracer.Recorded(funcTimes, name) == TotalOf(Time(name), Run(events).root)
      ensures HarmlessRun(events) ==>
                forall name :: Tracer.Recorded(funcTimes, name) == TraceRuns.Recorded(events, Time(name))
    {
      funcTimes := map[];
      if rootNode != null {
        funcTimes := CollectFunctionTimes(rootNode, Run(events).root.value, funcTimes);
      }
      if HarmlessRun(events) {
        forall name ensures Tracer.Recorded(funcTimes, name) == TraceRuns.Recorded(events, Time(name)) {
          RunTotal(events, Time(name));
        }
      }
    }
  }

  lemma {:induction false} EnteredNext(events: seq<Event<CallNode>>, e: Event<CallNode>)
    ensures Entered(events + [e]) == Entered(events) + if e.Enter? then {e.tag} else {}
    ensures Run(events + [e]) == Step(Run(events), e)
    ensures Fresh(events + [e]) <==> Fresh(events) && (e.Enter? ==> e.tag !in Entered(events))
  {
    assert (events + [e])[..|events|] == events;
  }
}
