/**
 Worklists over the graph: what a set of nodes leads to, collected either by marking a node when it
 is pushed or by marking it when it is popped.
 */
module Reachability {
  import opened Digraph

  // A seed, or something a seed leads to.
  ghost predicate Reached<T(!new)>(e: Edges<T>, seeds: seq<T>, x: T) {
    x in seeds || exists s :: s in seeds && Leads(e, s, x)
  }

  // `next` gives the heads of the edges out of a node.
  ghost predicate Enumerates<T(!new)>(e: Edges<T>, next: T -> seq<T>) {
    forall u, v :: v in next(u) <==> (u, v) in e
  }

  // Everything reachable, for the sake of termination.
  ghost function Universe<T(!new)>(e: Edges<T>, seeds: seq<T>): set<T> {
    (set x | x in seeds) + set p | p in e :: p.1
  }

  lemma ReachedStep<T(!new)>(e: Edges<T>, seeds: seq<T>, u: T, v: T)
    requires Reached(e, seeds, u) && (u, v) in e
    ensures Reached(e, seeds, v) && v in Universe(e, seeds)
  {
    LeadsEdge(e, u, v);
    if u !in seeds {
      var s :| s in seeds && Leads(e, s, u);
      LeadsTrans(e, s, u, v);
    }
  }

  ghost predicate ClosedUnder<T(!new)>(e: Edges<T>, s: set<T>) {
    forall p :: p in e && p.0 in s ==> p.1 in s
  }

  lemma {:induction false} ClosedWalk<T(!new)>(e: Edges<T>, s: set<T>, w: seq<T>)
    requires ClosedUnder(e, s) && Walk(e, w) && w[0] in s
    ensures forall k :: 0 <= k < |w| ==> w[k] in s
    decreases |w|
  {
    if |w| > 1 {
      assert (w[0], w[1]) in e;
      ClosedWalk(e, s, w[1..]);
    }
  }

  // A closed set of reached nodes that holds the seeds holds exactly what they reach.
  lemma ClosureComplete<T(!new)>(e: Edges<T>, seeds: seq<T>, s: set<T>)
    requires ClosedUnder(e, s) && (forall x :: x in seeds ==> x in s) && (forall x :: x in s ==> Reached(e, seeds, x))
    ensures forall x :: x in s <==> Reached(e, seeds, x)
  {
    forall x | Reached(e, seeds, x) ensures x in s {
      if x !in seeds {
        var r :| r in seeds && Leads(e, r, x);
        var w :| Path(e, w, r, x);
        ClosedWalk(e, s, w);
      }
    }
  }

  ghost predicate Explored<T(!new)>(e: Edges<T>, seeds: seq<T>, marked: set<T>, todo: seq<T>) {
    && (forall x :: x in marked || x in todo ==> Reached(e, seeds, x) && x in Universe(e, seeds))
    && (forall x :: x in seeds ==> x in marked || x in todo)
    && forall p :: p in e && p.0 in marked && p.0 !in todo ==> p.1 in marked || p.1 in todo
  }

  // The walks that mark on push: nothing is pushed twice.
  method Spread<T(==,!new)>(next: T -> seq<T>, ghost e: Edges<T>, seeds: seq<T>) returns (marked: set<T>)
    requires Enumerates(e, next)
    ensures forall x :: x in marked <==> Reached(e, seeds, x)
  {
    marked := {};
    var todo: seq<T> := [];
    for i := 0 to |seeds|
      invariant forall x :: x in marked <==> x in seeds[..i]
      invariant forall x :: x in todo <==> x in marked
    {
      assert forall x :: x in seeds[..i + 1] <==> x in seeds[..i] || x == seeds[i];
      if seeds[i] !in marked {
        marked, todo := marked + {seeds[i]}, todo + [seeds[i]];
      }
    }
    assert seeds[..|seeds|] == seeds;
    while todo != []
      invariant Explored(e, seeds, marked, todo) && forall x :: x in todo ==> x in marked
      decreases Universe(e, seeds) - marked, |todo|
    {
      var id := todo[|todo| - 1];
      ghost var before := todo;
      todo := todo[..|todo| - 1];
      assert forall x :: x in before <==> x in todo || x == id;
      var heads := next(id);
      ghost var marked0 := marked;
      for k := 0 to |heads|
        invariant marked0 <= marked && (marked == marked0 ==> |todo| < |before|)
        invariant forall x :: x in marked <==> x in marked0 || x in heads[..k]
        invariant forall x :: x in todo ==> x in marked
        invariant forall x :: x in before && x != id ==> x in todo
        invariant forall x :: x in marked && x !in marked0 ==> x in todo
        invariant forall x :: x in todo ==> x in before || x in heads
      {
        assert forall x :: x in heads[..k + 1] <==> x in heads[..k] || x == heads[k];
        if heads[k] !in marked {
          marked, todo := marked + {heads[k]}, todo + [heads[k]];
        }
      }
      assert heads[..|heads|] == heads;
      forall x | x in heads ensures Reached(e, seeds, x) && x in Universe(e, seeds) {
        ReachedStep(e, seeds, id, x);
      }
    }
    ClosureComplete(e, seeds, marked);
  }

  // The walks that mark on pop: a node may wait on the stack more than once, and is expanded once.
  method Collect<T(==,!new)>(next: T -> seq<T>, ghost e: Edges<T>, seeds: seq<T>) returns (visited: set<T>)
    requires Enumerates(e, next)
    ensures forall x :: x in visited <==> Reached(e, seeds, x)
  {
    visited := {};
    var todo := seeds;
    while todo != []
      invariant Pending(e, seeds, visited, todo)
      decreases Universe(e, seeds) - visited, |todo|
    {
      var id := todo[|todo| - 1];
      var rest := todo[..|todo| - 1];
      if id in visited {
        PopVisited(e, seeds, visited, todo);
        todo := rest;
      } else {
        PopFresh(e, seeds, visited, todo, next(id));
        visited, todo := visited + {id}, rest + next(id);
      }
    }
    ClosureComplete(e, seeds, visited);
  }

  ghost predicate Pending<T(!new)>(e: Edges<T>, seeds: seq<T>, visited: set<T>, todo: seq<T>) {
    && (forall x :: x in visited || x in todo ==> Reached(e, seeds, x) && x in Universe(e, seeds))
    && (forall x :: x in seeds ==> x in visited || x in todo)
    && forall p :: p in e && p.0 in visited ==> p.1 in visited || p.1 in todo
  }

  lemma PopVisited<T(!new)>(e: Edges<T>, seeds: seq<T>, visited: set<T>, todo: seq<T>)
    requires Pending(e, seeds, visited, todo) && todo != [] && todo[|todo| - 1] in visited
    ensures Pending(e, seeds, visited, todo[..|todo| - 1])
  {
    hide Reached, Universe;
    assert forall x :: x in todo <==> x in todo[..|todo| - 1] || x == todo[|todo| - 1];
  }

  // `more` may leave out heads that were visited already.
  lemma PopFresh<T(!new)>(e: Edges<T>, seeds: seq<T>, visited: set<T>, todo: seq<T>, more: seq<T>)
    requires Pending(e, seeds, visited, todo) && todo != []
    requires var id := todo[|todo| - 1];
             forall v :: (v in more ==> (id, v) in e) && ((id, v) in e ==> v in more || v in visited + {id})
    ensures var id := todo[|todo| - 1];
            id in Universe(e, seeds) && Pending(e, seeds, visited + {id}, todo[..|todo| - 1] + more)
  {
    var id := todo[|todo| - 1];
    assert forall x :: x in todo <==> x in todo[..|todo| - 1] || x == id;
    forall v | v in more ensures Reached(e, seeds, v) && v in Universe(e, seeds) {
      ReachedStep(e, seeds, id, v);
    }
    hide Reached, Universe;
  }

  // Whether one node leads to another: the search stops as soon as it pops the target.
  method HasPath<T(==,!new)>(next: T -> seq<T>, ghost e: Edges<T>, source: T, target: T) returns (r: bool)
    requires Enumerates(e, next)
    ensures r <==> source == target || Leads(e, source, target)
  {
    if source == target { return true; }
    var visited: set<T>, todo := {}, [source];
    while todo != []
      invariant Pending(e, [source], visited, todo) && target !in visited
      decreases Universe(e, [source]) - visited, |todo|
    {
      var id := todo[|todo| - 1];
      var rest := todo[..|todo| - 1];
      if id == target {
        assert Reached(e, [source], id);
        return true;
      }
      if id in visited {
        PopVisited(e, [source], visited, todo);
        todo := rest;
      } else {
        var more := Unvisited(next(id), visited + {id});
        PopFresh(e, [source], visited, todo, more);
        visited, todo := visited + {id}, rest + more;
      }
    }
    ClosureComplete(e, [source], visited);
    assert source in [source];
    return false;
  }

  function Unvisited<T(==,!new)>(list: seq<T>, visited: set<T>): (r: seq<T>)
    ensures forall v :: v in r <==> v in list && v !in visited
  {
    if list == [] then []
    else
      var rest := Unvisited(list[1..], visited);
      assert forall x :: x in list <==> x == list[0] || x in list[1..];
      if list[0] in visited then rest else [list[0]] + rest
  }
}
