/** Dependency-loop detection: the three-colour depth-first search over the
    dependents graph, with the loop assembled while returning. */
module KconfigLoops {
  import opened Options

  /** `g[u]` holds the items that depend on item `u`. */
  type Graph = seq<set<nat>>

  ghost predicate ValidGraph(g: Graph) {
    forall u, v :: 0 <= u < |g| && v in g[u] ==> v < |g|
  }

  /** Each item of a walk is a dependent of the item after it. */
  ghost predicate IsWalk(g: Graph, w: seq<nat>) {
    && |w| > 0
    && (forall i :: 0 <= i < |w| ==> w[i] < |g|)
    && (forall i :: 0 <= i < |w| - 1 ==> w[i] in g[w[i + 1]])
  }

  ghost predicate IsCycle(g: Graph, w: seq<nat>) {
    IsWalk(g, w) && w[|w| - 1] in g[w[0]]
  }

  ghost predicate HasCycle(g: Graph) { exists w :: IsCycle(g, w) }

  /** Every item comes after all its dependents, and no item comes twice. */
  ghost predicate DependentsFirst(g: Graph, order: seq<nat>) {
    && (forall k :: 0 <= k < |order| ==> order[k] < |g|)
    && (forall j, k :: 0 <= j < k < |order| ==> order[j] != order[k])
    && (forall k, v :: 0 <= k < |order| && v in g[order[k]] ==> v in order[..k])
  }

  ghost function Position(order: seq<nat>, u: nat): (k: nat)
    requires u in order
    ensures k < |order| && order[k] == u
  {
    var k :| 0 <= k < |order| && order[k] == u; k
  }

  lemma DependentEarlier(g: Graph, order: seq<nat>, u: nat, v: nat)
    requires DependentsFirst(g, order) && u in order && v in g[u]
    ensures v in order && Position(order, v) < Position(order, u)
  {
    var k := Position(order, u);
    assert v in order[..k];
  }

  /** Along a walk inside a dependents-first order, positions only grow. */
  lemma {:induction false} WalkPositions(g: Graph, order: seq<nat>, w: seq<nat>, n: nat)
    requires DependentsFirst(g, order) && IsWalk(g, w) && n < |w|
    requires forall i :: 0 <= i < |w| ==> w[i] in order
    ensures Position(order, w[0]) <= Position(order, w[n])
  {
    if n > 0 {
      WalkPositions(g, order, w, n - 1);
      DependentEarlier(g, order, w[n], w[n - 1]);
    }
  }

  lemma OrderedHasNoCycle(g: Graph, order: seq<nat>, w: seq<nat>)
    requires DependentsFirst(g, order)
    requires forall u, v :: 0 <= u < |g| && v in g[u] ==> v in order
    ensures !IsCycle(g, w)
  {
    if IsCycle(g, w) {
      forall i | 0 <= i < |w| ensures w[i] in order {
        if i < |w| - 1 { assert w[i] in g[w[i + 1]]; }
      }
      DependentEarlier(g, order, w[0], w[|w| - 1]);
      WalkPositions(g, order, w, |w| - 1);
    }
  }

  /** `Partial` is a loop still being assembled on the way back, `Raised` a complete one. */
  datatype Outcome = NoLoop | Partial(loop: seq<nat>) | Raised(loop: seq<nat>)

  class Checker {
    const g: Graph
    var visited: seq<nat>       // 0 unvisited, 1 on the call stack, 2 finished
    ghost var order: seq<nat>   // the finished items, as they finished

    constructor (g: Graph)
      requires ValidGraph(g)
      ensures this.g == g && Valid() && Colour(1) == {}
    {
      this.g := g;
      visited := seq(|g|, _ => 0);
      order := [];
    }

    ghost predicate Valid()
      reads this
    {
      && ValidGraph(g)
      && |visited| == |g|
      && (forall u :: 0 <= u < |visited| ==> visited[u] <= 2)
      && (forall u :: 0 <= u < |visited| ==> (visited[u] == 2 <==> u in order))
      && DependentsFirst(g, order)
    }

    ghost function Colour(c: nat): set<nat>
      reads this
    {
      set u | 0 <= u < |visited| && visited[u] == c
    }

    /** One visit.  A finished visit leaves the call stack as it was; an unfinished
        loop starts at an item on the call stack and ends at `s`. */
    method CheckSym(s: nat) returns (r: Outcome)
      requires Valid() && s < |g|
      modifies this
      ensures r.NoLoop? ==> Valid() && s in order && Colour(1) == old(Colour(1)) && old(order) <= order
      ensures r.NoLoop? ==> Colour(0) <= old(Colour(0))
      ensures r.Partial? ==> IsWalk(g, r.loop) && r.loop[|r.loop| - 1] == s && r.loop[0] in old(Colour(1))
      ensures r.Raised? ==> IsCycle(g, r.loop)
      decreases Colour(0)
    {
      if visited[s] == 0 {
        ghost var stack := Colour(1);
        visited := visited[s := 1];
        assert Colour(1) == stack + {s};
        assert s in old(Colour(0)) && s !in Colour(0) && Colour(0) <= old(Colour(0));
        var todo := g[s];
        while todo != {}
          invariant todo <= g[s]
          invariant Valid() && Colour(1) == stack + {s} && visited[s] == 1
          invariant Colour(0) <= old(Colour(0)) - {s} && old(order) <= order
          invariant forall v :: v in g[s] - todo ==> v in order
        {
          var dep :| dep in todo;
          ghost var before := order;
          var sub := CheckSym(dep);
          match sub {
            case NoLoop =>
              assert s in Colour(1);
              assert order[..|before|] == before;
              assert forall v :: v in before ==> v in order;
              todo := todo - {dep};
            case Raised(_) => return sub;
            case Partial(loop) =>
              if s != loop[0] {
                return Partial(loop + [s]);
              }
              return Raised(loop);
          }
        }
        ghost var finished, unseen := order, Colour(0);
        assert forall v :: v in g[s] ==> v in finished;
        visited := visited[s := 2];
        order := finished + [s];
        assert forall k :: 0 <= k <= |finished| ==> order[..k] == finished[..k];
        assert Colour(1) == stack;
        assert Colour(0) == unseen;
        return NoLoop;
      }
      if visited[s] == 2 {
        return NoLoop;
      }
      assert s in Colour(1);
      return Partial([s]);
    }

    /** The check over all defined items: it raises exactly when there is a loop, shows
        one if so, and otherwise leaves every defined item ordered after its dependents. */
    method CheckAll(defined: seq<nat>) returns (raised: Option<seq<nat>>)
      requires Valid() && Colour(1) == {}
      requires forall u :: u in defined ==> u < |g|
      requires forall u, v :: 0 <= u < |g| && v in g[u] ==> v in defined
      modifies this
      ensures raised.Some? <==> HasCycle(g)
      ensures raised.Some? ==> IsCycle(g, raised.value)
      ensures raised.None? ==> DependentsFirst(g, order) && forall u :: u in defined ==> u in order
    {
      for k := 0 to |defined|
        invariant Valid() && Colour(1) == {}
        invariant forall j :: 0 <= j < k ==> defined[j] in order
      {
        assert defined[k] in defined;
        var r := CheckSym(defined[k]);
        if r.Raised? {
          return Some(r.loop);
        }
      }
      assert forall u :: u in defined ==> u in order;
      forall w ensures !IsCycle(g, w) {
        OrderedHasNoCycle(g, order, w);
      }
      return None;
    }
  }
}
