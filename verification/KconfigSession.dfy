/** A configuration from its definitions to the values read from it: the dependents are built,
    checked for loops, and then used to keep the caches. */
module KconfigSession {
  import opened Options
  import opened KconfigExpr
  import opened KconfigLoops
  import opened KconfigCache
  import opened KconfigOrder
  import opened KconfigSymbols
  import opened KconfigMeaning

  /** The list of defined symbols. */
  method Defined(c: Config) returns (defined: seq<Sym>)
    ensures forall s: Sym :: s in defined <==> s < |c.defs| && c.defs[s].defined
  {
    defined := [];
    for n := 0 to |c.defs|
      invariant forall s: Sym :: s in defined <==> s < n && c.defs[s].defined
    {
      if c.defs[n].defined { defined := defined + [n]; }
    }
  }

  /** The dependents graph has no cycle, and MODULES does not depend on a tristate symbol. */
  ghost predicate Evaluable(c: Config) {
    exists g :: GraphOf(c, g) && !HasCycle(g) && NoTristateFeedsModules(c, g)
  }

  /** A read returned the value that evaluation from scratch settles on. */
  ghost predicate Settled(c: Config, user: map<Sym, Tri>, op: Op, r: Option<Tri>) {
    exists d: nat :: FromScratch(c, user, op, r, d)
  }

  /** A read returned what the one consistent assignment says. */
  ghost predicate Meant(c: Config, user: map<Sym, Tri>, op: Op, r: Option<Tri>) {
    && (exists w :: Consistent(c, user, w))
    && forall w :: Consistent(c, user, w) ==> MeantBy(c, w, op, r)
  }

  ghost predicate MeantBy(c: Config, w: Assignment, op: Op, r: Option<Tri>) {
    op.sym < |c.defs| &&
    match op
    case GetTri(s) => r == Some(w(s))
    case GetVisibility(s) => r.Some? && forall t: Tri :: t > 0 ==> (r.value >= t <==> Visible(c, c.defs[s], w, t))
    case _ => true
  }

  lemma ScratchMeans(c: Config, rank: seq<nat>, user: map<Sym, Tri>, op: Op, r: Option<Tri>, d: nat)
    requires WellFormed(c) && Ranked(c, rank) && op.sym < |c.defs| && FromScratch(c, user, op, r, d)
    ensures Meant(c, user, op, r)
  {
    hide Consistent, Eval, VisBody, Visible, Reads;
    var w0 := ConsistentExists(c, rank, user);
    forall w | Consistent(c, user, w) ensures MeantBy(c, w, op, r) {
      match op {
        case GetTri(s) =>
          ConsistentIsEval(c, rank, user, w, s, d + rank[s] + 1);
        case GetVisibility(s) =>
          ScratchVisible(c, rank, user, w, s, d + rank[s]);
        case _ =>
      }
    }
  }

  lemma ScratchVisible(c: Config, rank: seq<nat>, user: map<Sym, Tri>, w: Assignment, s: Sym, depth: nat)
    requires WellFormed(c) && Ranked(c, rank) && s < |c.defs| && Consistent(c, user, w) && depth >= rank[s]
    ensures var v := VisBody(c, c.defs[s], Evaluator(c, user, depth));
            v.Some? && forall t: Tri :: t > 0 ==> (v.value >= t <==> Visible(c, c.defs[s], w, t))
  {
    hide Consistent, Eval;
    var d, val := c.defs[s], Evaluator(c, user, depth);
    if d.defined {
      forall r | r in Reads(c, d) ensures val(r) == Some(w(r)) {
        ConsistentIsEval(c, rank, user, w, r, depth);
        EvalFixed(c, user, r, depth);
      }
      VisibilityMeans(c, d, val, w);
    }
  }

  lemma SameGraph(c: Config, g: Graph, h: Graph)
    requires GraphOf(c, g) && GraphOf(c, h)
    ensures g == h
  {
    forall r | 0 <= r < |g| ensures g[r] == h[r] {
      assert forall s :: s in g[r] <==> IsDependent(c, r, s);
      assert forall s :: s in h[r] <==> IsDependent(c, r, s);
    }
  }

  /** The loop check raises exactly on a cycle. Where no tristate symbol feeds MODULES, every
      read in every run on an accepted configuration returns what evaluation from scratch gives
      for the user values at that moment, which is what the one consistent assignment says. */
  method Session(c: Config, ops: seq<Op>) returns (raised: Option<seq<nat>>, out: seq<Option<Tri>>)
    requires WellFormed(c) && forall k :: 0 <= k < |ops| ==> ops[k].sym < |c.defs|
    requires forall g :: GraphOf(c, g) ==> NoTristateFeedsModules(c, g)
    ensures raised.None? <==> Evaluable(c)
    ensures raised.Some? ==> exists g :: GraphOf(c, g) && IsCycle(g, raised.value)
    ensures raised.None? ==> |out| == |ops|
    ensures raised.None? ==> forall k :: 0 <= k < |ops| ==> Settled(c, UserAt(c, map[], ops, k), ops[k], out[k])
    ensures raised.None? ==> forall k :: 0 <= k < |ops| ==> Meant(c, UserAt(c, map[], ops, k), ops[k], out[k])
  {
    hide WellFormed, NoTristateFeedsModules, Ranked, FromScratch, HasCycle, IsCycle, UserAt, Meant;
    out := [];
    var deps := BuildDep(c);
    assert GraphOf(c, deps);
    var defined := Defined(c);
    ghost var rank;
    raised, rank := CheckedOrder(c, deps, defined);
    if raised.Some? {
      if g :| GraphOf(c, g) && !HasCycle(g) && NoTristateFeedsModules(c, g) { SameGraph(c, g, deps); }
      return;
    }
    var kconfig := new Kconfig(c, rank, deps);
    out := kconfig.Run(ops);
    forall k | 0 <= k < |ops|
      ensures Settled(c, UserAt(c, map[], ops, k), ops[k], out[k])
      ensures Meant(c, UserAt(c, map[], ops, k), ops[k], out[k])
    {
      assert ops[k].sym < |rank| && FromScratch(c, UserAt(c, map[], ops, k), ops[k], out[k], rank[ops[k].sym] + 1);
      ScratchMeans(c, rank, UserAt(c, map[], ops, k), ops[k], out[k], rank[ops[k].sym] + 1);
    }
  }
}
