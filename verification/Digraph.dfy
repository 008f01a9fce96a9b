/**
 Finite directed graphs as edge sets, and the one notion of acyclicity that every dependency graph of the
 program is measured against: the graph of authored refs, the graph of task positions, and the `task_deps` table.
 */
module Digraph {

  type Edges<T(==)> = set<(T, T)>

  /** Consecutive nodes of `p` are joined by edges. */
  ghost predicate IsPath<T>(edges: Edges<T>, p: seq<T>) {
    |p| > 0 && forall i :: 0 < i < |p| ==> (p[i - 1], p[i]) in edges
  }

  ghost predicate PathBetween<T>(edges: Edges<T>, p: seq<T>, u: T, v: T) {
    |p| >= 2 && IsPath(edges, p) && p[0] == u && p[|p| - 1] == v
  }

  /** A walk of at least one edge leads from `u` to `v`. */
  ghost predicate Reaches<T(!new)>(edges: Edges<T>, u: T, v: T) {
    exists p: seq<T> :: PathBetween(edges, p, u, v)
  }

  ghost predicate Acyclic<T(!new)>(edges: Edges<T>) {
    forall n: T :: !Reaches(edges, n, n)
  }

  ghost predicate Distinct<T>(s: seq<T>) {
    forall i, j :: 0 <= i < j < |s| ==> s[i] != s[j]
  }

  lemma EdgeReaches<T(!new)>(edges: Edges<T>, u: T, v: T)
    requires (u, v) in edges
    ensures Reaches(edges, u, v)
  {
    assert PathBetween(edges, [u, v], u, v);
  }

  lemma ReachesTransitive<T(!new)>(edges: Edges<T>, u: T, v: T, w: T)
    requires Reaches(edges, u, v) && Reaches(edges, v, w)
    ensures Reaches(edges, u, w)
  {
    var p :| PathBetween(edges, p, u, v);
    var q :| PathBetween(edges, q, v, w);
    var r := p + q[1..];
    forall i | 0 < i < |r| ensures (r[i - 1], r[i]) in edges {
      if i >= |p| {
        assert r[i] == q[i - |p| + 1] && r[i - 1] == q[i - |p|];
        assert (q[i - |p| + 1 - 1], q[i - |p| + 1]) in edges;
      } else {
        assert r[i] == p[i] && r[i - 1] == p[i - 1];
      }
    }
    assert PathBetween(edges, r, u, w);
  }

  /**
   `order` lists the nodes so that every edge out of a listed node leads to an earlier one — the order in which a
   depth-first search finishes the nodes of a graph without cycles.
   */
  ghost predicate TopologicalOrder<T(!new)>(edges: Edges<T>, order: seq<T>) {
    && Distinct(order)
    && (forall k, v :: 0 <= k < |order| && (order[k], v) in edges ==> v in order[..k])
  }

  lemma {:induction false} PathDescends<T(!new)>(edges: Edges<T>, order: seq<T>, k: nat, p: seq<T>)
    requires TopologicalOrder(edges, order)
    requires k < |order| && |p| >= 2 && IsPath(edges, p) && p[0] == order[k]
    ensures p[|p| - 1] in order[..k]
    decreases |p|
  {
    assert (p[1 - 1], p[1]) in edges;
    var j :| 0 <= j < k && order[j] == p[1];
    if |p| > 2 {
      var q := p[1..];
      forall i | 0 < i < |q| ensures (q[i - 1], q[i]) in edges {
        assert q[i] == p[i + 1] && q[i - 1] == p[i + 1 - 1];
      }
      PathDescends(edges, order, j, q);
      assert order[..j] <= order[..k];
    }
  }

  /** A topological order that covers every source of an edge rules cycles out. */
  lemma TopologicalOrderMeansAcyclic<T(!new)>(edges: Edges<T>, order: seq<T>)
    requires TopologicalOrder(edges, order)
    requires forall e :: e in edges ==> e.0 in order
    ensures Acyclic(edges)
  {
    forall n: T ensures !Reaches(edges, n, n) {
      if Reaches(edges, n, n) {
        var p :| PathBetween(edges, p, n, n);
        assert (p[1 - 1], p[1]) in edges;
        assert (p[1 - 1], p[1]).0 in order;
        var k :| 0 <= k < |order| && order[k] == n;
        PathDescends(edges, order, k, p);
        assert false;
      }
    }
  }

  /**
   Every edge that continues another one — the only edges a cycle can use — is carried into `target` by `rename`.
   A node that is no edge's target, such as a task without a ref, needs no name.
   */
  ghost predicate Relabels<A(!new), B(!new)>(edges: Edges<A>, target: Edges<B>, rename: map<A, B>) {
    forall e, into :: e in edges && into in edges && into.1 == e.0 ==>
      e.0 in rename && e.1 in rename && (rename[e.0], rename[e.1]) in target
  }

  lemma CycleUnderRelabelling<A(!new), B(!new)>(edges: Edges<A>, target: Edges<B>, rename: map<A, B>, n: A)
    requires Relabels(edges, target, rename)
    requires Reaches(edges, n, n)
    ensures n in rename && Reaches(target, rename[n], rename[n])
  {
    var p :| PathBetween(edges, p, n, n);
    var last := |p| - 1;
    forall i: nat | i < |p| ensures p[i] in rename {
      var into := if i == 0 then (p[last - 1], p[last]) else (p[i - 1], p[i]);
      var out := if i == last then (p[0], p[1]) else (p[i], p[i + 1]);
      assert (p[0], p[1]) == (p[1 - 1], p[1]);
      assert i < last ==> (p[i], p[i + 1]) == (p[i + 1 - 1], p[i + 1]);
      assert into in edges && out in edges && into.1 == out.0;
    }
    var q := seq(|p|, i requires 0 <= i < |p| => rename[p[i]]);
    forall i | 0 < i < |q| ensures (q[i - 1], q[i]) in target {
      var into := if i == 1 then (p[last - 1], p[last]) else (p[i - 2], p[i - 1]);
      assert i > 1 ==> (p[i - 2], p[i - 1]) == (p[i - 1 - 1], p[i - 1]);
      assert into in edges && (p[i - 1], p[i]) in edges && into.1 == (p[i - 1], p[i]).0;
    }
    assert PathBetween(target, q, rename[n], rename[n]);
  }

  lemma AcyclicUnderRelabelling<A(!new), B(!new)>(edges: Edges<A>, target: Edges<B>, rename: map<A, B>)
    requires Relabels(edges, target, rename)
    requires Acyclic(target)
    ensures Acyclic(edges)
  {
    forall n: A ensures !Reaches(edges, n, n) {
      if Reaches(edges, n, n) {
        CycleUnderRelabelling(edges, target, rename, n);
      }
    }
  }

  lemma ReachingNeedsEdges<T(!new)>(edges: Edges<T>, u: T, v: T)
    requires Reaches(edges, u, v)
    ensures edges != {}
  {
    var p :| PathBetween(edges, p, u, v);
    assert (p[1 - 1], p[1]) in edges;
  }

  lemma MoreEdgesReachMore<T(!new)>(edges: Edges<T>, more: Edges<T>, u: T, v: T)
    requires edges <= more && Reaches(edges, u, v)
    ensures Reaches(more, u, v)
  {
    var p :| PathBetween(edges, p, u, v);
    assert forall i :: 0 < i < |p| ==> (p[i - 1], p[i]) in edges;
    assert PathBetween(more, p, u, v);
  }

  lemma {:induction false} PathStaysInside<T(!new)>(edges: Edges<T>, inside: set<T>, p: seq<T>, i: nat)
    requires IsPath(edges, p) && i < |p|
    requires forall e :: e in edges ==> (e.0 in inside <==> e.1 in inside)
    ensures p[i] in inside <==> p[0] in inside
  {
    if i > 0 {
      PathStaysInside(edges, inside, p, i - 1);
      assert (p[i - 1], p[i]) in edges;
    }
  }

  /** Two acyclic graphs on separate nodes are acyclic together. */
  lemma AcyclicSideBySide<T(!new)>(a: Edges<T>, b: Edges<T>, inside: set<T>)
    requires Acyclic(a) && Acyclic(b)
    requires forall e :: e in a ==> e.0 in inside && e.1 in inside
    requires forall e :: e in b ==> e.0 !in inside && e.1 !in inside
    ensures Acyclic(a + b)
  {
    forall n: T ensures !Reaches(a + b, n, n) {
      if Reaches(a + b, n, n) {
        var p :| PathBetween(a + b, p, n, n);
        var side := if n in inside then a else b;
        forall i | 0 < i < |p| ensures (p[i - 1], p[i]) in side {
          assert (p[i - 1], p[i]) in a + b;
          PathStaysInside(a + b, inside, p, i);
        }
        assert PathBetween(side, p, n, n);
        assert Reaches(side, n, n);
      }
    }
  }

  ghost predicate ReachesOrIs<T(!new)>(edges: Edges<T>, u: T, v: T) {
    u == v || Reaches(edges, u, v)
  }

  lemma ReachesOrIsTransitive<T(!new)>(edges: Edges<T>, u: T, v: T, w: T)
    requires ReachesOrIs(edges, u, v) && ReachesOrIs(edges, v, w)
    ensures ReachesOrIs(edges, u, w)
  {
    if u != v && v != w {
      ReachesTransitive(edges, u, v, w);
    }
  }

  /** A walk that may use one new edge either does without it, or leads to its start and on from its end. */
  lemma {:induction false} WalkWithNewEdge<T(!new)>(edges: Edges<T>, from: T, to: T, p: seq<T>)
    requires IsPath(edges + {(from, to)}, p)
    ensures || ReachesOrIs(edges, p[0], p[|p| - 1])
            || (ReachesOrIs(edges, p[0], from) && ReachesOrIs(edges, to, p[|p| - 1]))
  {
    if |p| > 1 {
      var front, last := p[..|p| - 1], p[|p| - 1];
      var before := front[|front| - 1];
      assert (p[|p| - 1 - 1], p[|p| - 1]) in edges + {(from, to)};
      forall i | 0 < i < |front| ensures (front[i - 1], front[i]) in edges + {(from, to)} {
        assert (p[i - 1], p[i]) in edges + {(from, to)};
      }
      WalkWithNewEdge(edges, from, to, front);
      if (before, last) in edges {
        EdgeReaches(edges, before, last);
        if ReachesOrIs(edges, p[0], before) {
          ReachesOrIsTransitive(edges, p[0], before, last);
        } else {
          ReachesOrIsTransitive(edges, to, before, last);
        }
      }
    }
  }

  /** Adding an edge to a graph without cycles closes one exactly if the edge is new and its end already leads to its start. */
  lemma AddingEdgeClosesCycle<T(!new)>(edges: Edges<T>, from: T, to: T)
    requires Acyclic(edges)
    ensures Acyclic(edges + {(from, to)}) <==> (from, to) in edges || (from != to && !Reaches(edges, to, from))
  {
    var more := edges + {(from, to)};
    if (from, to) in edges {
      assert more == edges;
    } else if from == to || Reaches(edges, to, from) {
      EdgeReaches(more, from, to);
      if from != to {
        MoreEdgesReachMore(edges, more, to, from);
        ReachesTransitive(more, from, to, from);
      }
    } else {
      forall n ensures !Reaches(more, n, n) {
        if Reaches(more, n, n) {
          NewCycleUsesNewEdge(edges, from, to, n);
        }
      }
    }
  }

  lemma NewCycleUsesNewEdge<T(!new)>(edges: Edges<T>, from: T, to: T, n: T)
    requires Acyclic(edges) && Reaches(edges + {(from, to)}, n, n)
    ensures ReachesOrIs(edges, to, from)
  {
    var p :| PathBetween(edges + {(from, to)}, p, n, n);
    var q := p[1..];
    assert (p[1 - 1], p[1]) in edges + {(from, to)};
    forall i | 0 < i < |q| ensures (q[i - 1], q[i]) in edges + {(from, to)} {
      assert (p[i + 1 - 1], p[i + 1]) in edges + {(from, to)};
    }
    WalkWithNewEdge(edges, from, to, q);
    if (n, q[0]) in edges {
      EdgeReaches(edges, n, q[0]);
      if ReachesOrIs(edges, q[0], n) {
        if q[0] != n {
          ReachesTransitive(edges, n, q[0], n);
        }
      } else {
        ReachesOrIsTransitive(edges, n, q[0], from);
        ReachesOrIsTransitive(edges, to, n, from);
      }
    } else {
      assert n == from && q[0] == to;
    }
  }
}
