/** resolve_dependencies: the depth-first ordering of plugins by their dependencies. */
module PluginOrder {
  import opened Graphs

  datatype Issue = CycleAt(path: set<Name>) | Missing(id: Name)

  datatype Resolution = Resolution(visited: set<Name>, order: seq<Name>, issues: seq<Issue>)

  function Visit(g: Graph, id: Name, path: set<Name>, s: Resolution): Resolution
    decreases g.Keys - path, 0
  {
    if id in s.visited then s
    else if id in path then s.(issues := s.issues + [CycleAt(path)])
    else if id !in g then s.(issues := s.issues + [Missing(id)])
    else
      var r := VisitAll(g, g[id], path + {id}, s);
      r.(visited := r.visited + {id}, order := r.order + [id])
  }

  function VisitAll(g: Graph, ids: seq<Name>, path: set<Name>, s: Resolution): Resolution
    decreases g.Keys - path, 1 + |ids|
  {
    if ids == [] then s else VisitAll(g, ids[1..], path, Visit(g, ids[0], path, s))
  }

  const NOTHING: Resolution := Resolution({}, [], [])

  /** `ids` lists the plugins in registration order, `g` their dependencies. */
  function Resolve(g: Graph, ids: seq<Name>): Resolution {
    VisitAll(g, ids, {}, NOTHING)
  }

  class Resolver {
    var visited: set<Name>
    var path: set<Name>
    var order: seq<Name>
    var issues: seq<Issue>

    constructor ()
      ensures View() == NOTHING && path == {}
    {
      visited, path, order, issues := {}, {}, [], [];
    }

    function View(): Resolution
      reads this
    {
      Resolution(visited, order, issues)
    }

    method VisitPlugin(g: Graph, id: Name)
      modifies this
      ensures View() == Visit(g, id, old(path), old(View())) && path == old(path)
      decreases g.Keys - path
    {
      if id in visited {
        return;
      }
      if id in path {
        issues := issues + [CycleAt(path)];
        return;
      }
      if id !in g {
        issues := issues + [Missing(id)];
        return;
      }
      path := path + {id};
      ghost var entered := View();
      for i := 0 to |g[id]|
        invariant path == old(path) + {id}
        invariant VisitAll(g, g[id][i..], path, View()) == VisitAll(g, g[id], path, entered)
      {
        assert g[id][i..][1..] == g[id][i + 1..];
        VisitPlugin(g, g[id][i]);
      }
      path := path - {id};
      visited := visited + {id};
      order := order + [id];
    }

    method ResolveAll(g: Graph, ids: seq<Name>) returns (sorted: seq<Name>, unresolved: seq<Issue>)
      requires View() == NOTHING && path == {}
      modifies this
      ensures sorted == Resolve(g, ids).order && unresolved == Resolve(g, ids).issues
    {
      for i := 0 to |ids|
        invariant path == {}
        invariant VisitAll(g, ids[i..], {}, View()) == Resolve(g, ids)
      {
        assert ids[i..][1..] == ids[i + 1..];
        if ids[i] !in visited {
          VisitPlugin(g, ids[i]);
        }
      }
      return order, issues;
    }
  }

  // ---------- what holds at any moment ----------

  ghost predicate NoCycleIssue(issues: seq<Issue>) {
    forall i :: i in issues ==> !i.CycleAt?
  }

  /** Each plugin comes after those of its dependencies that exist. */
  ghost predicate Ordered(g: Graph, order: seq<Name>) {
    forall i, d :: 0 <= i < |order| && d in Succ(g, order[i]) && d in g ==> d in order[..i]
  }

  ghost predicate IsMissing(g: Graph, d: Name) {
    d !in g && exists p :: p in g && d in g[p]
  }

  ghost predicate RealIssue(g: Graph, i: Issue) {
    match i
    case Missing(d) => IsMissing(g, d)
    case CycleAt(_) => !Acyclic(g)
  }

  ghost predicate Ok(g: Graph, s: Resolution) {
    && NoDup(s.order) && (forall x :: x in s.order <==> x in s.visited) && s.visited <= g.Keys
    && (forall i :: i in s.issues ==> RealIssue(g, i))
    && (forall x, d :: x in s.visited && d in Succ(g, x) && d !in g ==> Missing(d) in s.issues)
    && (NoCycleIssue(s.issues) ==> Ordered(g, s.order))
  }

  /** From s to r: lists grow at the end, and nothing on the path is finished. */
  ghost predicate Grows(path: set<Name>, s: Resolution, r: Resolution) {
    && s.order <= r.order && s.issues <= r.issues && s.visited <= r.visited
    && path * (r.visited - s.visited) == {}
  }

  /** id is a plugin, or a dependency at the end of a chain through all of the path. */
  ghost predicate Entry(g: Graph, path: set<Name>, id: Name) {
    && path <= g.Keys && (id !in g ==> IsMissing(g, id))
    && forall p :: p in path ==> ReachesPlus(g, p, id)
  }

  /** After a visit without a cycle message the plugin is finished, or does not exist. */
  ghost predicate Settled(g: Graph, id: Name, r: Resolution) {
    && (NoCycleIssue(r.issues) && id in g ==> id in r.visited)
    && (id !in g ==> Missing(id) in r.issues)
  }

  lemma EntryBelow(g: Graph, path: set<Name>, id: Name, d: Name)
    requires Entry(g, path, id) && id in g && d in g[id]
    ensures Entry(g, path + {id}, d)
  {
    EdgeReaches(g, id, d);
    forall p | p in path + {id} ensures ReachesPlus(g, p, d) {
      if p != id {
        PlusReaches(g, p, id);
        ReachesTransitive(g, p, id, d);
      }
    }
  }

  lemma FinishOk(g: Graph, id: Name, r: Resolution)
    requires Ok(g, r) && id in g && id !in r.visited
    requires forall d :: d in g[id] ==> Settled(g, d, r)
    ensures Ok(g, r.(visited := r.visited + {id}, order := r.order + [id]))
  {
    var order := r.order + [id];
    if NoCycleIssue(r.issues) {
      forall i, d | 0 <= i < |order| && d in Succ(g, order[i]) && d in g ensures d in order[..i] {
        if i < |r.order| { assert order[..i] == r.order[..i]; } else { assert order[..i] == r.order && Settled(g, d, r); }
      }
    }
    forall x, d | x in r.visited + {id} && d in Succ(g, x) && d !in g ensures Missing(d) in r.issues {
      if x == id { assert Settled(g, d, r); }
    }
  }

  lemma {:induction false} VisitOk(g: Graph, id: Name, path: set<Name>, s: Resolution)
    requires Ok(g, s) && Entry(g, path, id) && path * s.visited == {}
    ensures var r := Visit(g, id, path, s); Ok(g, r) && Grows(path, s, r) && Settled(g, id, r)
    ensures id in g && id !in path ==> id in Visit(g, id, path, s).visited
    decreases g.Keys - path, 0
  {
    if id in s.visited {
    } else if id in path {
      assert ReachesPlus(g, id, id);
      assert CycleAt(path) in Visit(g, id, path, s).issues;
    } else if id in g {
      forall d | d in g[id] ensures Entry(g, path + {id}, d) { EntryBelow(g, path, id, d); }
      assert (path + {id}) * s.visited == {};
      VisitAllOk(g, g[id], path + {id}, s);
      var r := VisitAll(g, g[id], path + {id}, s);
      hide Ok, Settled;
      StillOpen(path, id, s, r);
      FinishOk(g, id, r);
      assert Visit(g, id, path, s) == r.(visited := r.visited + {id}, order := r.order + [id]);
      SettledSelf(g, id, r);
    }
  }

  /** What is on the path is not finished below it, and finishing it adds nothing of the path above. */
  lemma StillOpen(path: set<Name>, id: Name, s: Resolution, r: Resolution)
    requires Grows(path + {id}, s, r) && id !in s.visited && id !in path
    ensures id !in r.visited && Grows(path, s, r.(visited := r.visited + {id}, order := r.order + [id]))
  {
    forall p | p in path + {id} ensures p !in r.visited - s.visited {
      assert p in r.visited - s.visited ==> p in (path + {id}) * (r.visited - s.visited);
    }
    assert id in path + {id};
    forall p | p in path ensures p !in r.visited + {id} - s.visited {
      assert p in path + {id};
    }
  }

  lemma SettledSelf(g: Graph, id: Name, r: Resolution)
    requires id in g
    ensures Settled(g, id, r.(visited := r.visited + {id}, order := r.order + [id]))
  {
  }

  lemma {:induction false} VisitAllOk(g: Graph, ids: seq<Name>, path: set<Name>, s: Resolution)
    requires Ok(g, s) && path * s.visited == {} && forall d :: d in ids ==> Entry(g, path, d)
    ensures var r := VisitAll(g, ids, path, s); Ok(g, r) && Grows(path, s, r)
    ensures forall d :: d in ids ==> Settled(g, d, VisitAll(g, ids, path, s))
    ensures forall d :: d in ids && d in g && d !in path ==> d in VisitAll(g, ids, path, s).visited
    decreases g.Keys - path, 1 + |ids|
  {
    if ids != [] {
      VisitOk(g, ids[0], path, s);
      VisitAllOk(g, ids[1..], path, Visit(g, ids[0], path, s));
    }
  }

  // ---------- the results ----------

  /** In an order that puts dependencies first, walks only go down. */
  lemma {:induction false} OrderedWalk(g: Graph, order: seq<Name>, p: seq<Name>, i: nat)
    requires NoDup(order) && Ordered(g, order) && (forall x :: x in g ==> x in order)
    requires Walk(g, p) && |p| >= 2 && i < |order| && order[i] == p[0] && p[|p| - 1] in g
    ensures p[|p| - 1] in order[..i]
  {
    assert p[1] in Succ(g, p[0]);
    if |p| > 2 {
      assert p[2] in Succ(g, p[1]);
      var j :| 0 <= j < i && order[j] == p[1];
      OrderedWalk(g, order, p[1..], j);
    }
  }

  lemma OrderedAcyclic(g: Graph, order: seq<Name>)
    requires NoDup(order) && Ordered(g, order) && forall x :: x in g ==> x in order
    ensures Acyclic(g)
  {
    forall v | ReachesPlus(g, v, v) ensures false {
      var p :| WalkFrom(g, p, v, v) && |p| >= 2;
      assert p[1] in Succ(g, v);
      var i :| 0 <= i < |order| && order[i] == v;
      OrderedWalk(g, order, p, i);
    }
  }

  /** Every plugin is output exactly once; a missing dependency is named exactly when some
      plugin asks for it; a cycle is reported exactly when there is one; and without cycles
      every plugin comes after its dependencies. */
  lemma ResolveExact(g: Graph, ids: seq<Name>)
    requires forall x :: x in ids <==> x in g
    ensures var r := Resolve(g, ids);
      && NoDup(r.order) && (forall x :: x in r.order <==> x in g)
      && (forall d :: Missing(d) in r.issues <==> IsMissing(g, d))
      && (NoCycleIssue(r.issues) <==> Acyclic(g))
      && (Acyclic(g) ==> Ordered(g, r.order))
  {
    VisitAllOk(g, ids, {}, NOTHING);
    var r := Resolve(g, ids);
    if NoCycleIssue(r.issues) {
      OrderedAcyclic(g, r.order);
    }
  }

  /** Nothing is left unresolved exactly when the dependencies are acyclic and all exist,
      and then every dependency precedes its dependents. */
  lemma ResolvedExactly(g: Graph, ids: seq<Name>)
    requires forall x :: x in ids <==> x in g
    ensures var r := Resolve(g, ids);
      && (r.issues == [] <==> Acyclic(g) && forall p, d :: p in g && d in g[p] ==> d in g)
      && (r.issues == [] ==> forall i, d :: 0 <= i < |r.order| && d in Succ(g, r.order[i]) ==> d in r.order[..i])
  {
    ResolveExact(g, ids);
    VisitAllOk(g, ids, {}, NOTHING);
    hide Resolve, Acyclic, Settled;
    var r := Resolve(g, ids);
    if r.issues != [] {
      assert RealIssue(g, r.issues[0]);
    } else {
      forall p, d | p in g && d in g[p] ensures d in g { assert IsMissing(g, d) ==> Missing(d) in r.issues; }
      forall i, d | 0 <= i < |r.order| && d in Succ(g, r.order[i]) ensures d in r.order[..i] {
        assert r.order[i] in r.order;
        assert r.order[i] in g && d in g[r.order[i]];
        assert d in g && NoCycleIssue(r.issues);
      }
    }
  }
}
