/** From loop detection to termination of evaluation.

    The loop check looks at the dependents graph.  Evaluation also reads MODULES for
    every tristate symbol, which is no edge of that graph.  Acceptance therefore gives
    a well-founded order exactly when MODULES does not itself depend on a tristate. */
module KconfigOrder {
  import opened Options
  import opened KconfigExpr
  import opened KconfigLoops
  import opened KconfigCache

  ghost predicate GraphOf(c: Config, g: Graph) {
    && |g| == |c.defs|
    && forall r, s :: 0 <= r < |c.defs| ==> (s in g[r] <==> IsDependent(c, r, s))
  }

  /** MODULES depends, directly or not, on `s`, or is `s`. */
  ghost predicate FeedsModules(c: Config, g: Graph, s: Sym) {
    exists w :: IsWalk(g, w) && w[0] == c.modules && w[|w| - 1] == s
  }

  ghost predicate NoTristateFeedsModules(c: Config, g: Graph) {
    forall s :: 0 <= s < |c.defs| && c.defs[s].defined && c.defs[s].orig == Tristate ==> !FeedsModules(c, g, s)
  }

  lemma FeedsExtends(c: Config, g: Graph, r: Sym, s: Sym)
    requires FeedsModules(c, g, s) && r < |g| && s in g[r]
    ensures FeedsModules(c, g, r)
  {
    var w :| IsWalk(g, w) && w[0] == c.modules && w[|w| - 1] == s;
    assert IsWalk(g, w + [r]);
  }

  ghost function Base(c: Config, order: seq<nat>, s: Sym): nat
    requires s < |c.defs|
    requires c.defs[s].defined ==> s in order
  {
    if c.defs[s].defined then |order| - Position(order, s) else 0
  }

  ghost function RankOf(c: Config, g: Graph, order: seq<nat>, s: Sym): nat
    requires s < |c.defs|
    requires c.defs[s].defined ==> s in order
  {
    if !c.defs[s].defined || FeedsModules(c, g, s) then Base(c, order, s) else Base(c, order, s) + |order| + 1
  }

  lemma ReadsRankLower(c: Config, g: Graph, order: seq<nat>, s: Sym, r: Sym)
    requires WellFormed(c) && GraphOf(c, g) && DependentsFirst(g, order)
    requires forall u :: 0 <= u < |c.defs| && c.defs[u].defined ==> u in order
    requires NoTristateFeedsModules(c, g)
    requires s < |c.defs| && c.defs[s].defined && r in Reads(c, c.defs[s])
    ensures r < |c.defs| && RankOf(c, g, order, r) < RankOf(c, g, order, s)
  {
    hide Mentions;
    if c.defs[r].defined {
      if r in Mentions(c.defs[s]) {
        assert IsDependent(c, r, s);
        DependentEarlier(g, order, r, s);
        if FeedsModules(c, g, s) { FeedsExtends(c, g, r, s); }
      } else {
        assert IsWalk(g, [c.modules]);
      }
    }
  }

  ghost function Ranks(c: Config, g: Graph, order: seq<nat>): (rank: seq<nat>)
    requires forall u :: 0 <= u < |c.defs| && c.defs[u].defined ==> u in order
    ensures |rank| == |c.defs| && forall s :: 0 <= s < |rank| ==> rank[s] == RankOf(c, g, order, s)
  {
    seq(|c.defs|, s requires 0 <= s < |c.defs| => RankOf(c, g, order, s))
  }

  lemma AcceptedIsRanked(c: Config, g: Graph, order: seq<nat>) returns (rank: seq<nat>)
    requires WellFormed(c) && GraphOf(c, g) && DependentsFirst(g, order)
    requires forall u :: 0 <= u < |c.defs| && c.defs[u].defined ==> u in order
    requires NoTristateFeedsModules(c, g)
    ensures Ranked(c, rank)
  {
    hide Mentions, RankOf, Ranks;
    rank := Ranks(c, g, order);
    forall s: Sym | s < |c.defs| && c.defs[s].defined
      ensures forall r :: r in Reads(c, c.defs[s]) ==> r < |c.defs| && rank[r] < rank[s]
    {
      forall r | r in Reads(c, c.defs[s]) ensures r < |c.defs| && rank[r] < rank[s] {
        ReadsRankLower(c, g, order, s, r);
      }
    }
  }

  /** Checking the dependents graph and ordering the symbols for evaluation. */
  method CheckedOrder(c: Config, g: Graph, defined: seq<nat>)
    returns (raised: Option<seq<nat>>, ghost rank: seq<nat>)
    requires WellFormed(c) && GraphOf(c, g)
    requires forall s: Sym :: s in defined <==> s < |c.defs| && c.defs[s].defined
    ensures raised.Some? <==> HasCycle(g)
    ensures raised.Some? ==> IsCycle(g, raised.value)
    ensures raised.None? && NoTristateFeedsModules(c, g) ==> Ranked(c, rank)
  {
    hide Reads, Mentions, NoTristateFeedsModules;
    rank := [];
    var checker := new Checker(g);
    raised := checker.CheckAll(defined);
    if raised.None? && NoTristateFeedsModules(c, g) {
      rank := AcceptedIsRanked(c, g, checker.order);
    }
  }

  lemma {:induction false} WalkRanks(c: Config, g: Graph, rank: seq<nat>, w: seq<nat>, n: nat)
    requires WellFormed(c) && GraphOf(c, g) && Ranked(c, rank) && IsWalk(g, w) && n < |w|
    ensures rank[w[n]] <= rank[w[0]]
  {
    hide Mentions;
    if n > 0 {
      WalkRanks(c, g, rank, w, n - 1);
      assert IsDependent(c, w[n], w[n - 1]);
    }
  }

  /** Conversely, an order for evaluation rules out both loops and a MODULES that
      depends on a tristate symbol. */
  lemma RankedOnlyIf(c: Config, g: Graph, rank: seq<nat>)
    requires WellFormed(c) && GraphOf(c, g) && Ranked(c, rank)
    ensures !HasCycle(g) && NoTristateFeedsModules(c, g)
  {
    hide Mentions;
    forall w ensures !IsCycle(g, w) {
      if IsCycle(g, w) {
        assert IsDependent(c, w[0], w[|w| - 1]);
        WalkRanks(c, g, rank, w, |w| - 1);
      }
    }
    forall s | 0 <= s < |c.defs| && c.defs[s].defined && c.defs[s].orig == Tristate
      ensures !FeedsModules(c, g, s)
    {
      if FeedsModules(c, g, s) {
        var w :| IsWalk(g, w) && w[0] == c.modules && w[|w| - 1] == s;
        assert c.modules in Reads(c, c.defs[s]);
        WalkRanks(c, g, rank, w, |w| - 1);
      }
    }
  }

  // -------------------------------------------------------------------------
  // An accepted configuration on which evaluation never ends

  function Const(name: string, v: Tri): SymDef {
    SymDef(name, None, Tristate, true, v, false, [], [], Leaf(0), Leaf(0), Leaf(0))
  }

  function Defaulting(name: string, t: SymType, value: Sym): SymDef {
    SymDef(name, None, t, false, 0, true, [], [(Leaf(value), Leaf(2))], Leaf(0), Leaf(0), Leaf(2))
  }

  /** n, m, y; MODULES defaults to DRIVER; tristate DRIVER defaults to m. */
  const SPIRAL := Config([Const("n", 0), Const("m", 1), Const("y", 2),
                          Defaulting("MODULES", Bool, 4), Defaulting("DRIVER", Tristate, 1)], 3)

  lemma SymsCons(e: Expr, es: seq<Expr>)
    ensures SymsOf([e] + es) == Syms(e) + SymsOf(es)
  {
    assert ([e] + es)[1..] == es;
  }

  lemma DefaultingSyms(name: string, t: SymType, value: Sym)
    ensures Mentions(Defaulting(name, t, value)) == {0, 2, value}
  {
    var es := [Leaf(value)] + ([Leaf(2)] + ([Leaf(0)] + ([Leaf(0)] + ([Leaf(2)] + []))));
    assert DefaultExprs([(Leaf(value), Leaf(2))]) == [Leaf(value), Leaf(2)];
    assert ExprsOf(Defaulting(name, t, value)) == es;
    SymsCons(Leaf(2), []);
    SymsCons(Leaf(0), [Leaf(2)] + []);
    SymsCons(Leaf(0), [Leaf(0)] + ([Leaf(2)] + []));
    SymsCons(Leaf(2), [Leaf(0)] + ([Leaf(0)] + ([Leaf(2)] + [])));
    SymsCons(Leaf(value), es[1..]);
    assert SymsOf(es) == {0, 2, value};
  }

  lemma ConstSyms(name: string, v: Tri)
    ensures Mentions(Const(name, v)) == {0}
  {
    assert ExprsOf(Const(name, v)) == [Leaf(0)] + ([Leaf(0)] + ([Leaf(0)] + []));
    SymsCons(Leaf(0), []);
    SymsCons(Leaf(0), [Leaf(0)] + []);
    SymsCons(Leaf(0), [Leaf(0)] + ([Leaf(0)] + []));
  }

  lemma SpiralSyms()
    ensures Mentions(SPIRAL.defs[3]) == {0, 2, 4} && Mentions(SPIRAL.defs[4]) == {0, 1, 2}
    ensures forall k :: 0 <= k < 3 ==> Mentions(SPIRAL.defs[k]) == {0}
  {
    DefaultingSyms("MODULES", Bool, 4);
    DefaultingSyms("DRIVER", Tristate, 1);
    ConstSyms("n", 0);
    ConstSyms("m", 1);
    ConstSyms("y", 2);
  }

  /** The dependents graph of SPIRAL has no loop, so the check accepts it. */
  lemma SpiralAccepted(g: Graph)
    requires GraphOf(SPIRAL, g)
    ensures WellFormed(SPIRAL) && !HasCycle(g)
  {
    SpiralSyms();
    hide Mentions;
    assert g[4] == {3} by { assert IsDependent(SPIRAL, 4, 3); }
    assert g[3] == {};
    assert [3, 4][..1] == [3];
    forall w ensures !IsCycle(g, w) {
      OrderedHasNoCycle(g, [3, 4], w);
    }
  }

  lemma SpiralSteps(user: map<Sym, Tri>, depth: nat)
    requires depth > 0
    ensures Eval(SPIRAL, user, 3, depth - 1).None? ==> Eval(SPIRAL, user, 4, depth).None?
    ensures Eval(SPIRAL, user, 4, depth - 1).None? ==> Eval(SPIRAL, user, 3, depth).None?
  {
    var val := Evaluator(SPIRAL, user, depth - 1);
    EvalFixed(SPIRAL, user, 0, depth - 1);
    EvalFixed(SPIRAL, user, 1, depth - 1);
    EvalFixed(SPIRAL, user, 2, depth - 1);
    assert val(0) == Some(0) && val(1) == Some(1) && val(2) == Some(2);
    var d, m := SPIRAL.defs[4], SPIRAL.defs[3];
    assert VisBody(SPIRAL, d, val) == Some(0) && VisBody(SPIRAL, m, val) == Some(0);
    assert FirstDefault(SPIRAL, d.defaults, val) == Some((1, true));
    assert val(4).None? ==> FirstDefault(SPIRAL, m.defaults, val).None?;
  }

  /** Yet no depth of recursion is enough to evaluate DRIVER. */
  lemma {:induction false} SpiralNeverEnds(user: map<Sym, Tri>, depth: nat)
    ensures Eval(SPIRAL, user, 4, depth).None? && Eval(SPIRAL, user, 3, depth).None?
  {
    if depth > 0 {
      SpiralNeverEnds(user, depth - 1);
      SpiralSteps(user, depth);
    }
  }
}
