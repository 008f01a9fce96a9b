/**
 `detect_cycle` of src/config/validate.rs: an iterative three-colour depth-first search over the ref graph with an
 explicit stack of enter and leave frames.

 A child is pushed while it is White and is not recoloured, so the same node can be pushed several times, and an enter
 frame may pop on a node that is already Black. The search then greys that node again. The invariants below say
 why this is harmless: what a node has once finished is never undone, even though its colour is.
 */
module CycleCheck {
  import opened Outcomes
  import opened Digraph

  type RefGraph = map<string, seq<string>>

  /** The edges the search can see: an entry that names no key of the graph is skipped. */
  ghost function RefEdges(graph: RefGraph): Edges<string> {
    set u, v | u in graph && v in graph[u] && v in graph :: (u, v)
  }

  datatype Colour = White | Grey | Black

  type Colours = map<string, Colour>

  /** A stack frame: `leaving` tells the second visit of the node from the first. */
  datatype Frame = Frame(node: string, leaving: bool)

  /** The error carries the ref the search names. */
  datatype CycleFound = CycleFound(taskRef: string)

  ghost function Whites(colour: Colours): set<string> {
    set k | k in colour && colour[k] == White
  }

  ghost function Entries(stack: seq<Frame>): nat {
    if stack == [] then 0
    else Entries(stack[..|stack| - 1]) + (if stack[|stack| - 1].leaving then 0 else 1)
  }

  lemma EntriesPush(stack: seq<Frame>, f: Frame)
    ensures Entries(stack + [f]) == Entries(stack) + (if f.leaving then 0 else 1)
  {}

  /** Black nodes are finished, White nodes are not. */
  ghost predicate ColoursAgree(colour: Colours, finished: seq<string>) {
    && (forall n :: n in colour && colour[n] == Black ==> n in finished)
    && (forall n :: n in finished ==> n in colour && colour[n] != White)
  }

  /** Leave frames are exactly the Grey nodes, and no frame of a Grey node sits above its leave frame. */
  ghost predicate LeaveFramesAreGrey(colour: Colours, stack: seq<Frame>) {
    && (forall f :: f in stack ==> f.node in colour)
    && (forall n :: n in colour ==> (colour[n] == Grey <==> Frame(n, true) in stack))
    && (forall i, j :: 0 <= i < j < |stack| && stack[i].leaving ==> stack[i].node != stack[j].node)
  }

  /** Whatever sits above a leave frame is reachable from its node. */
  ghost predicate AboveIsReachable(edges: Edges<string>, stack: seq<Frame>) {
    forall i, j :: 0 <= i < j < |stack| && stack[i].leaving ==> Reaches(edges, stack[i].node, stack[j].node)
  }

  ghost predicate PendingAbove(stack: seq<Frame>, i: int, v: string) {
    exists j :: 0 <= i < j < |stack| && stack[j].node == v
  }

  /** Up to position `limit`, a node waiting to be left has each successor finished or pending above it. */
  ghost predicate SuccessorsPending(edges: Edges<string>, stack: seq<Frame>, finished: seq<string>, limit: nat) {
    forall i, v :: 0 <= i < |stack| && i < limit && stack[i].leaving && (stack[i].node, v) in edges ==>
      v in finished || PendingAbove(stack, i, v)
  }

  ghost predicate SearchInvariant(edges: Edges<string>, colour: Colours, stack: seq<Frame>, finished: seq<string>) {
    && ColoursAgree(colour, finished)
    && TopologicalOrder(edges, finished)
    && LeaveFramesAreGrey(colour, stack)
    && AboveIsReachable(edges, stack)
    && SuccessorsPending(edges, stack, finished, |stack|)
  }

  /** Popping a leave frame: the node finishes, after all of its successors. */
  function Finish(finished: seq<string>, node: string): seq<string> {
    if node in finished then finished else finished + [node]
  }

  lemma FinishKeepsOrder(edges: Edges<string>, finished: seq<string>, node: string)
    requires TopologicalOrder(edges, finished)
    requires forall v :: (node, v) in edges ==> v in finished
    ensures TopologicalOrder(edges, Finish(finished, node))
  {
    var longer := Finish(finished, node);
    forall k, v | 0 <= k < |longer| && (longer[k], v) in edges ensures v in longer[..k] {
      if k < |finished| {
        assert v in finished[..k] && finished[..k] == longer[..k];
      } else {
        assert longer[..k] == finished;
      }
    }
  }

  lemma LeaveKeepsFrames(colour: Colours, rest: seq<Frame>, node: string)
    requires LeaveFramesAreGrey(colour, rest + [Frame(node, true)])
    ensures LeaveFramesAreGrey(colour[node := Black], rest)
  {
    var stack := rest + [Frame(node, true)];
    assert Frame(node, true) !in rest by {
      assert stack[|rest|] == Frame(node, true);
      assert forall i :: 0 <= i < |rest| ==> rest[i] == stack[i];
    }
    forall n | n in colour ensures colour[node := Black][n] == Grey <==> Frame(n, true) in rest {
      assert Frame(n, true) in stack <==> n == node || Frame(n, true) in rest by {
        assert stack[|rest|] == Frame(node, true);
      }
    }
    forall i, j | 0 <= i < j < |rest| && rest[i].leaving ensures rest[i].node != rest[j].node {
      assert stack[i] == rest[i] && stack[j] == rest[j];
    }
  }

  lemma LeaveKeepsPending(edges: Edges<string>, rest: seq<Frame>, finished: seq<string>, node: string)
    requires SuccessorsPending(edges, rest + [Frame(node, true)], finished, |rest| + 1)
    ensures SuccessorsPending(edges, rest, Finish(finished, node), |rest|)
    ensures forall v :: (node, v) in edges ==> v in finished
  {
    var stack := rest + [Frame(node, true)];
    forall i, v | 0 <= i < |rest| && rest[i].leaving && (rest[i].node, v) in edges
      ensures v in Finish(finished, node) || PendingAbove(rest, i, v)
    {
      assert stack[i] == rest[i];
      if v !in finished {
        assert PendingAbove(stack, i, v);
        var j :| i < j < |stack| && stack[j].node == v;
        if j < |rest| {
          assert rest[j].node == v;
        }
      }
    }
    forall v | (node, v) in edges ensures v in finished {
      assert stack[|rest|] == Frame(node, true);
      assert v in finished || PendingAbove(stack, |rest|, v);
    }
  }

  lemma LeaveKeepsInvariant(edges: Edges<string>, colour: Colours, rest: seq<Frame>, finished: seq<string>, node: string)
    requires SearchInvariant(edges, colour, rest + [Frame(node, true)], finished)
    ensures SearchInvariant(edges, colour[node := Black], rest, Finish(finished, node))
    ensures Whites(colour[node := Black]) == Whites(colour)
  {
    var stack := rest + [Frame(node, true)];
    LeaveKeepsFrames(colour, rest, node);
    LeaveKeepsPending(edges, rest, finished, node);
    FinishKeepsOrder(edges, finished, node);
    assert stack[|rest|] == Frame(node, true);
    assert node in colour && colour[node] == Grey;
    forall i, j | 0 <= i < j < |rest| && rest[i].leaving ensures Reaches(edges, rest[i].node, rest[j].node) {
      assert stack[i] == rest[i] && stack[j] == rest[j];
    }
  }

  /** The invariant just after a node was entered, before its children are pushed. */
  ghost predicate Entered(edges: Edges<string>, colour: Colours, stack: seq<Frame>, finished: seq<string>) {
    && ColoursAgree(colour, finished)
    && TopologicalOrder(edges, finished)
    && LeaveFramesAreGrey(colour, stack)
    && AboveIsReachable(edges, stack)
    && 0 < |stack| && stack[|stack| - 1].leaving
    && SuccessorsPending(edges, stack, finished, |stack| - 1)
  }

  lemma EnterKeepsFrames(colour: Colours, rest: seq<Frame>, node: string)
    requires LeaveFramesAreGrey(colour, rest + [Frame(node, false)])
    ensures node in colour && colour[node] != Grey
    ensures LeaveFramesAreGrey(colour[node := Grey], rest + [Frame(node, true)])
  {
    var stack := rest + [Frame(node, false)];
    var stack' := rest + [Frame(node, true)];
    assert stack[|rest|] == Frame(node, false);
    assert forall i :: 0 <= i < |rest| && stack[i].leaving ==> stack[i].node != stack[|rest|].node;
    assert Frame(node, true) !in stack;
    forall n | n in colour ensures colour[node := Grey][n] == Grey <==> Frame(n, true) in stack' {
      assert Frame(n, true) in stack <==> Frame(n, true) in rest;
      assert Frame(n, true) in stack' <==> n == node || Frame(n, true) in rest by {
        assert stack'[|rest|] == Frame(node, true);
      }
    }
    forall f | f in stack' ensures f.node in colour {
      assert f in rest ==> f in stack;
    }
    forall i, j | 0 <= i < j < |stack'| && stack'[i].leaving ensures stack'[i].node != stack'[j].node {
      assert stack[i] == stack'[i] && stack[j].node == stack'[j].node;
    }
  }

  /**
   Popping an enter frame and pushing the leave frame in its place. In particular the node cannot be Grey, so the
   branch of the source that skips a Grey node is never taken.
   */
  lemma EnterKeepsInvariant(edges: Edges<string>, colour: Colours, rest: seq<Frame>, finished: seq<string>, node: string)
    requires SearchInvariant(edges, colour, rest + [Frame(node, false)], finished)
    ensures node in colour && colour[node] != Grey
    ensures Entered(edges, colour[node := Grey], rest + [Frame(node, true)], finished)
  {
    var stack := rest + [Frame(node, false)];
    var stack' := rest + [Frame(node, true)];
    EnterKeepsFrames(colour, rest, node);
    forall i, j | 0 <= i < j < |stack'| && stack'[i].leaving ensures Reaches(edges, stack'[i].node, stack'[j].node) {
      assert stack[i] == stack'[i] && stack[j].node == stack'[j].node;
    }
    forall i, v | 0 <= i < |stack'| - 1 && stack'[i].leaving && (stack'[i].node, v) in edges
      ensures v in finished || PendingAbove(stack', i, v)
    {
      assert stack[i] == stack'[i];
      if v !in finished {
        assert PendingAbove(stack, i, v);
        var j :| i < j < |stack| && stack[j].node == v;
        assert stack'[j].node == v;
      }
    }
  }

  /** `pushed` holds an enter frame for each White child among `seen` of the node just entered. */
  ghost predicate ChildrenPushed(edges: Edges<string>, colour: Colours, node: string, pushed: seq<Frame>,
                                 finished: seq<string>, seen: seq<string>) {
    && (forall f :: f in pushed ==>
          !f.leaving && f.node in colour && colour[f.node] == White && (node, f.node) in edges)
    && (forall v :: v in seen && v in colour ==> v in finished || Frame(v, false) in pushed)
  }

  lemma PushedDoesNotLeave(stack: seq<Frame>, pushed: seq<Frame>, i: nat)
    requires forall f :: f in pushed ==> !f.leaving
    requires i < |stack + pushed| && (stack + pushed)[i].leaving
    ensures i < |stack| && (stack + pushed)[i] == stack[i]
  {}

  lemma ChildrenKeepFrames(colour: Colours, stack: seq<Frame>, pushed: seq<Frame>)
    requires LeaveFramesAreGrey(colour, stack)
    requires forall f :: f in pushed ==> !f.leaving && f.node in colour && colour[f.node] == White
    ensures LeaveFramesAreGrey(colour, stack + pushed)
  {}

  lemma ChildrenKeepReachable(edges: Edges<string>, stack: seq<Frame>, node: string, pushed: seq<Frame>)
    requires AboveIsReachable(edges, stack)
    requires stack != [] && stack[|stack| - 1] == Frame(node, true)
    requires forall f :: f in pushed ==> !f.leaving && (node, f.node) in edges
    ensures AboveIsReachable(edges, stack + pushed)
  {
    var all := stack + pushed;
    var top := |stack| - 1;
    forall i, j | 0 <= i < j < |all| && all[i].leaving ensures Reaches(edges, all[i].node, all[j].node) {
      PushedDoesNotLeave(stack, pushed, i);
      assert all[i] == stack[i];
      if j < |stack| {
        assert all[j] == stack[j];
      } else {
        assert all[j] in pushed;
        EdgeReaches(edges, node, all[j].node);
        if i < top {
          assert Reaches(edges, stack[i].node, stack[top].node);
          ReachesTransitive(edges, stack[i].node, node, all[j].node);
        }
      }
    }
  }

  lemma ChildrenKeepPending(edges: Edges<string>, colour: Colours, stack: seq<Frame>, node: string, pushed: seq<Frame>,
                            finished: seq<string>, deps: seq<string>)
    requires stack != [] && stack[|stack| - 1] == Frame(node, true)
    requires SuccessorsPending(edges, stack, finished, |stack| - 1)
    requires ChildrenPushed(edges, colour, node, pushed, finished, deps)
    requires forall v :: (node, v) in edges ==> v in deps && v in colour
    ensures SuccessorsPending(edges, stack + pushed, finished, |stack + pushed|)
  {
    var all := stack + pushed;
    var top := |stack| - 1;
    forall i, v | 0 <= i < |all| && all[i].leaving && (all[i].node, v) in edges
      ensures v in finished || PendingAbove(all, i, v)
    {
      PushedDoesNotLeave(stack, pushed, i);
      assert all[i] == stack[i];
      if v !in finished {
        if i < top {
          assert PendingAbove(stack, i, v);
          var j :| i < j < |stack| && stack[j].node == v;
          assert all[j].node == v;
        } else {
          var j :| 0 <= j < |pushed| && pushed[j] == Frame(v, false);
          assert all[|stack| + j].node == v;
        }
      }
    }
  }

  /** A Grey child has its leave frame on the stack, so the edge to it closes a cycle. */
  lemma GreyChildClosesCycle(edges: Edges<string>, colour: Colours, stack: seq<Frame>, node: string, dep: string)
    requires LeaveFramesAreGrey(colour, stack) && AboveIsReachable(edges, stack)
    requires stack != [] && stack[|stack| - 1] == Frame(node, true)
    requires dep in colour && colour[dep] == Grey
    requires (node, dep) in edges
    ensures Reaches(edges, dep, dep)
  {
    EdgeReaches(edges, node, dep);
    var i :| 0 <= i < |stack| && stack[i] == Frame(dep, true);
    if i < |stack| - 1 {
      assert Reaches(edges, stack[i].node, stack[|stack| - 1].node);
      ReachesTransitive(edges, dep, node, dep);
    }
  }

  lemma FinishedHasNoWhiteSuccessor(edges: Edges<string>, colour: Colours, finished: seq<string>, node: string, dep: string)
    requires ColoursAgree(colour, finished) && TopologicalOrder(edges, finished)
    requires node in finished && (node, dep) in edges
    ensures dep in colour && colour[dep] != White
  {}

  /**
   The loop over the successors of the node just entered: White ones are pushed, a Grey one closes a cycle, Black ones
   and entries that name no key are passed over. A node entered again pushes nothing.
   */
  method PushChildren(graph: RefGraph, colour: Colours, entered: seq<Frame>, node: string, ghost finished: seq<string>)
    returns (stack: seq<Frame>, back: Option<string>)
    requires colour.Keys == graph.Keys && node in graph
    requires Entered(RefEdges(graph), colour, entered, finished) && entered[|entered| - 1] == Frame(node, true)
    ensures back.Some? ==> Reaches(RefEdges(graph), back.value, back.value)
    ensures back.None? ==> SearchInvariant(RefEdges(graph), colour, stack, finished)
    ensures entered <= stack
    ensures node in finished ==> stack == entered
  {
    ghost var edges := RefEdges(graph);
    assert forall v :: (node, v) in edges ==> v in graph[node] && v in colour;
    var deps := graph[node];
    stack := entered;
    ghost var pushed: seq<Frame> := [];
    for d := 0 to |deps|
      invariant stack == entered + pushed
      invariant ChildrenPushed(edges, colour, node, pushed, finished, deps[..d])
      invariant node in finished ==> pushed == []
    {
      var dep := deps[d];
      assert deps[..d + 1] == deps[..d] + [dep];
      if dep in colour {
        assert (node, dep) in edges;
        if colour[dep] == Grey {
          GreyChildClosesCycle(edges, colour, entered, node, dep);
          return stack, Some(dep);
        } else if colour[dep] == White {
          if node in finished {
            FinishedHasNoWhiteSuccessor(edges, colour, finished, node, dep);
            assert false;
          }
          stack := stack + [Frame(dep, false)];
          pushed := pushed + [Frame(dep, false)];
        }
      }
    }
    assert deps[..|deps|] == deps;
    ChildrenKeepFrames(colour, entered, pushed);
    ChildrenKeepReachable(edges, entered, node, pushed);
    ChildrenKeepPending(edges, colour, entered, node, pushed, finished, deps);
    back := None;
  }

  /**
   Entering a node makes progress: a White node leaves the White set; a node entered again pushes nothing but its leave
   frame, so one enter frame is gone.
   */
  lemma EnterDecreases(colour: Colours, rest: seq<Frame>, stack: seq<Frame>, node: string)
    requires node in colour && colour[node] != Grey
    requires colour[node] == Black ==> stack == rest + [Frame(node, true)]
    ensures |Whites(colour[node := Grey])| < |Whites(colour)| ||
            (Whites(colour[node := Grey]) == Whites(colour) && Entries(stack) < Entries(rest + [Frame(node, false)]))
  {
    if colour[node] == White {
      assert Whites(colour[node := Grey]) == Whites(colour) - {node};
      assert node in Whites(colour);
    } else {
      EntriesPush(rest, Frame(node, true));
      EntriesPush(rest, Frame(node, false));
      assert Whites(colour[node := Grey]) == Whites(colour);
    }
  }

  lemma StartKeepsInvariant(edges: Edges<string>, colour: Colours, finished: seq<string>, start: string)
    requires SearchInvariant(edges, colour, [], finished)
    requires start in colour && colour[start] == White
    ensures SearchInvariant(edges, colour, [Frame(start, false)], finished)
  {}

  /** What one turn of the inner loop does to the colours, the stack and the finished list. */
  ghost predicate Advanced(colour: Colours, stack: seq<Frame>, colour': Colours, stack': seq<Frame>) {
    && colour'.Keys == colour.Keys
    && stack != [] && stack[|stack| - 1].node in colour && colour'[stack[|stack| - 1].node] != White
    && (forall n :: n in colour && colour[n] != White ==> colour'[n] != White)
    && (|| |Whites(colour')| < |Whites(colour)|
        || (Whites(colour') == Whites(colour) && Entries(stack') < Entries(stack))
        || (Whites(colour') == Whites(colour) && Entries(stack') == Entries(stack) && |stack'| < |stack|))
  }

  /** One turn of the inner loop: pop a frame, then leave its node or enter it. */
  method Visit(graph: RefGraph, colour: Colours, stack: seq<Frame>, ghost finished: seq<string>)
    returns (colour': Colours, stack': seq<Frame>, back: Option<string>, ghost finished': seq<string>)
    requires colour.Keys == graph.Keys && stack != []
    requires SearchInvariant(RefEdges(graph), colour, stack, finished)
    ensures back.Some? ==> Reaches(RefEdges(graph), back.value, back.value)
    ensures back.None? ==> SearchInvariant(RefEdges(graph), colour', stack', finished')
    ensures back.None? ==> Advanced(colour, stack, colour', stack')
  {
    ghost var edges := RefEdges(graph);
    var Frame(node, leaving) := stack[|stack| - 1];
    var rest := stack[..|stack| - 1];
    assert stack == rest + [Frame(node, leaving)];
    finished' := finished;
    if leaving {
      LeaveKeepsInvariant(edges, colour, rest, finished, node);
      EntriesPush(rest, Frame(node, true));
      colour' := colour[node := Black];
      return colour', rest, None, Finish(finished, node);
    }
    EnterKeepsInvariant(edges, colour, rest, finished, node);
    if colour[node] == Grey {
      assert false; // no run of the search takes the branch that skips a Grey node
    }
    colour' := colour[node := Grey];
    stack', back := PushChildren(graph, colour', rest + [Frame(node, true)], node, finished);
    if back.None? {
      EnterDecreases(colour, rest, stack', node);
    }
  }

  /** The inner loop: the search from one White start node, run until its stack is empty. */
  method ExploreFrom(graph: RefGraph, unexplored: Colours, start: string, ghost before: seq<string>)
    returns (colour: Colours, back: Option<string>, ghost finished: seq<string>)
    requires unexplored.Keys == graph.Keys && start in graph && unexplored[start] == White
    requires SearchInvariant(RefEdges(graph), unexplored, [], before)
    ensures back.Some? ==> Reaches(RefEdges(graph), back.value, back.value)
    ensures back.None? ==> colour.Keys == graph.Keys && SearchInvariant(RefEdges(graph), colour, [], finished)
    ensures back.None? ==> colour[start] != White
    ensures back.None? ==> forall n :: n in graph && unexplored[n] != White ==> colour[n] != White
  {
    colour, finished, back := unexplored, before, None;
    var stack := [Frame(start, false)];
    StartKeepsInvariant(RefEdges(graph), colour, finished, start);
    while stack != []
      invariant back.None? && colour.Keys == graph.Keys
      invariant SearchInvariant(RefEdges(graph), colour, stack, finished)
      invariant forall n :: n in graph && unexplored[n] != White ==> colour[n] != White
      invariant colour[start] != White || stack == [Frame(start, false)]
      decreases |Whites(colour)|, Entries(stack), |stack|
    {
      colour, stack, back, finished := Visit(graph, colour, stack, finished);
      if back.Some? {
        return;
      }
    }
  }

  lemma AllExplored(graph: RefGraph, colour: Colours, finished: seq<string>)
    requires colour.Keys == graph.Keys && SearchInvariant(RefEdges(graph), colour, [], finished)
    requires forall k :: k in graph ==> colour[k] != White
    ensures forall k :: k in graph <==> k in finished
    ensures Acyclic(RefEdges(graph))
  {
    assert forall k :: k in graph ==> colour[k] == Black;
    assert forall e :: e in RefEdges(graph) ==> e.0 in graph;
    TopologicalOrderMeansAcyclic(RefEdges(graph), finished);
  }

  /**
   Whether the ref graph has a cycle, for whatever order `keyOrder` the hash map yields its keys in.

   On `Ok` the nodes are returned in the order they first finished, a topological order of the whole graph; on `Err`
   the named ref lies on a real cycle.
   */
  method DetectCycle(graph: RefGraph, keyOrder: seq<string>)
    returns (r: Result<(), CycleFound>, ghost finished: seq<string>)
    requires forall k :: k in keyOrder <==> k in graph
    ensures r.Ok? <==> Acyclic(RefEdges(graph))
    ensures r.Err? ==> Reaches(RefEdges(graph), r.error.taskRef, r.error.taskRef)
    ensures r.Ok? ==> TopologicalOrder(RefEdges(graph), finished) && (forall k :: k in graph <==> k in finished)
  {
    ghost var edges := RefEdges(graph);
    var colour := map k | k in graph :: White;
    finished := [];
    for s := 0 to |keyOrder|
      invariant colour.Keys == graph.Keys
      invariant SearchInvariant(edges, colour, [], finished)
      invariant forall i :: 0 <= i < s ==> colour[keyOrder[i]] != White
    {
      var start := keyOrder[s];
      if colour[start] != White {
        continue;
      }
      var back;
      colour, back, finished := ExploreFrom(graph, colour, start, finished);
      if back.Some? {
        return Err(CycleFound(back.value)), finished;
      }
    }
    assert forall k :: k in graph ==> k in keyOrder && colour[k] != White;
    AllExplored(graph, colour, finished);
    r := Ok(());
  }
}
