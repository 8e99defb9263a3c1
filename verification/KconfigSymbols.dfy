/** The symbol store: cached properties, assignment and recursive invalidation. */
module KconfigSymbols {
  import opened Options
  import opened KconfigExpr
  import opened KconfigCache

  datatype Op = SetValue(sym: Sym, value: int) | UnsetValue(sym: Sym) | GetTri(sym: Sym) | GetVisibility(sym: Sym)

  predicate ValidFor(t: SymType, value: int) {
    match t
    case Bool => value == 0 || value == 2
    case Tristate => 0 <= value <= 2
    case Unknown => false
  }

  /** The user values after one operation: an assignment that does not fit the type is ignored. */
  function UserAfter(c: Config, user: map<Sym, Tri>, op: Op): map<Sym, Tri> {
    match op
    case SetValue(s, value) =>
      if s < |c.defs| && ValidFor(c.defs[s].orig, value) then user[s := value] else user
    case UnsetValue(s) => user - {s}
    case _ => user
  }

  /** A read returned what evaluation without caches gives at every depth from `d` on. */
  ghost predicate FromScratch(c: Config, user: map<Sym, Tri>, op: Op, r: Option<Tri>, d: nat) {
    op.sym < |c.defs| &&
    match op
    case GetTri(s) => r.Some? && forall depth: nat :: depth >= d ==> Eval(c, user, s, depth) == r
    case GetVisibility(s) =>
      r.Some? && forall depth: nat :: depth >= d ==> VisBody(c, c.defs[s], Evaluator(c, user, depth)) == r
    case _ => true
  }

  /** The answers so far to a run of operations. */
  ghost predicate Answered(c: Config, user: map<Sym, Tri>, rank: seq<nat>, ops: seq<Op>, out: seq<Option<Tri>>) {
    |out| <= |ops| && forall k :: 0 <= k < |out| ==>
      ops[k].sym < |rank| && FromScratch(c, UserAt(c, user, ops, k), ops[k], out[k], rank[ops[k].sym] + 1)
  }

  lemma AnswerNext(c: Config, user: map<Sym, Tri>, rank: seq<nat>, ops: seq<Op>, out: seq<Option<Tri>>, r: Option<Tri>)
    requires Answered(c, user, rank, ops, out) && |out| < |ops| && ops[|out|].sym < |rank|
    requires FromScratch(c, UserAt(c, user, ops, |out|), ops[|out|], r, rank[ops[|out|].sym] + 1)
    ensures Answered(c, user, rank, ops, out + [r])
  {
    hide FromScratch, UserAt;
  }

  function UserAt(c: Config, user: map<Sym, Tri>, ops: seq<Op>, k: nat): map<Sym, Tri>
    requires k <= |ops|
  {
    if k == 0 then user else UserAfter(c, UserAt(c, user, ops, k - 1), ops[k - 1])
  }

  /** Adds `sc` to the dependents of every non-constant symbol in `e`. */
  function DependOn(c: Config, deps: seq<set<Sym>>, sc: Sym, e: Expr): (r: seq<set<Sym>>)
    requires |deps| == |c.defs|
    decreases e
    ensures |r| == |deps|
    ensures forall k :: 0 <= k < |r| ==>
              r[k] == deps[k] + (if k in Syms(e) && !c.defs[k].constant then {sc} else {})
  {
    match e
    case Leaf(s) => DependOnSym(c, deps, sc, s)
    case Not(a) => DependOn(c, deps, sc, a)
    case And(l, r) => DependOn(c, DependOn(c, deps, sc, l), sc, r)
    case Or(l, r) => DependOn(c, DependOn(c, deps, sc, l), sc, r)
    case Relation(_, a, b) => DependOnSym(c, DependOnSym(c, deps, sc, a), sc, b)
  }

  function DependOnSym(c: Config, deps: seq<set<Sym>>, sc: Sym, s: Sym): (r: seq<set<Sym>>)
    requires |deps| == |c.defs|
    ensures |r| == |deps|
    ensures forall k :: 0 <= k < |r| ==>
              r[k] == deps[k] + (if k == s && !c.defs[k].constant then {sc} else {})
  {
    if s < |deps| && !c.defs[s].constant then deps[s := deps[s] + {sc}] else deps
  }

  lemma {:induction false} SymsOfAppend(es: seq<Expr>, k: nat)
    requires k < |es|
    ensures SymsOf(es[..k + 1]) == SymsOf(es[..k]) + Syms(es[k])
  {
    if k > 0 {
      SymsOfAppend(es[1..], k - 1);
      assert es[..k + 1][1..] == es[1..][..k] && es[..k][1..] == es[1..][..k - 1];
    } else {
      assert es[..1][1..] == [] && es[..0] == [];
    }
  }

  lemma SymsOfNone(es: seq<Expr>)
    ensures SymsOf(es[..0]) == {}
  {
  }

  /** Registers one defined symbol with everything its properties mention. */
  method Register(c: Config, deps0: seq<set<Sym>>, s: Sym) returns (deps: seq<set<Sym>>)
    requires |deps0| == |c.defs| && s < |c.defs|
    ensures |deps| == |c.defs|
    ensures forall r :: 0 <= r < |c.defs| ==>
      deps[r] == deps0[r] + (if r in Mentions(c.defs[s]) && !c.defs[r].constant then {s} else {})
  {
    hide SymsOf, Syms, DependOn, ExprsOf;
    deps := deps0;
    var es := ExprsOf(c.defs[s]);
    SymsOfNone(es);
    for k := 0 to |es|
      invariant |deps| == |c.defs|
      invariant forall r :: 0 <= r < |c.defs| ==>
        deps[r] == deps0[r] + (if r in SymsOf(es[..k]) && !c.defs[r].constant then {s} else {})
    {
      deps := DependOn(c, deps, s, es[k]);
      SymsOfAppend(es, k);
    }
    assert es[..|es|] == es;
  }

  /** The dependents sets: `deps[r]` holds exactly the defined symbols that mention `r`. */
  method BuildDep(c: Config) returns (deps: seq<set<Sym>>)
    ensures |deps| == |c.defs|
    ensures forall r, s :: 0 <= r < |c.defs| ==> (s in deps[r] <==> IsDependent(c, r, s))
  {
    hide Mentions;
    deps := seq(|c.defs|, _ => {});
    for s := 0 to |c.defs|
      invariant |deps| == |c.defs|
      invariant forall r, x: Sym :: 0 <= r < |c.defs| ==> (x in deps[r] <==> x < s && IsDependent(c, r, x))
    {
      if c.defs[s].defined {
        deps := Register(c, deps, s);
      }
    }
  }

  class Kconfig {
    const c: Config
    ghost const rank: seq<nat>
    const dependents: seq<set<Sym>>
    var user: map<Sym, Tri>
    var vis: map<Sym, Tri>          // _cached_vis, where present
    var tri: map<Sym, (Tri, bool)>  // _cached_tri_val and _write_to_conf, where present

    ghost predicate Valid()
      reads this
    {
      && WellFormed(c) && Ranked(c, rank) && Replays(c, user, vis, tri)
      && |dependents| == |c.defs|
      && forall r, s :: 0 <= r < |c.defs| ==> (s in dependents[r] <==> IsDependent(c, r, s))
    }

    constructor (c: Config, ghost rank: seq<nat>, deps: seq<set<Sym>>)
      requires WellFormed(c) && Ranked(c, rank) && |deps| == |c.defs|
      requires forall r, s :: 0 <= r < |c.defs| ==> (s in deps[r] <==> IsDependent(c, r, s))
      ensures this.c == c && this.rank == rank && user == map[] && Valid()
    {
      this.c, this.rank, dependents := c, rank, deps;
      user, vis, tri := map[], map[], map[];
    }

    ghost function Val(): Valuation
      reads this
    {
      Lookup(c, tri)
    }

    ghost function Rank(s: Sym): nat { if s < |rank| then rank[s] else 0 }

    ghost function Lower(bound: nat): set<Sym> { set r | 0 <= r < |c.defs| && Rank(r) < bound }

    /** A defined symbol reads lower symbols only. */
    lemma PropertiesLower(s: Sym)
      requires Valid() && s < |c.defs| && c.defs[s].defined
      ensures var d, low := c.defs[s], Lower(Rank(s));
              && (forall k :: 0 <= k < |d.prompts| ==> Syms(d.prompts[k]) <= low)
              && (forall k :: 0 <= k < |d.defaults| ==> Syms(d.defaults[k].0) <= low && Syms(d.defaults[k].1) <= low)
              && Syms(d.revDep) <= low && Syms(d.weakRevDep) <= low && Syms(d.directDep) <= low
              && (d.orig == Tristate ==> c.modules in low)
    {
      PropertySyms(c.defs[s]);
      assert Reads(c, c.defs[s]) <= Lower(Rank(s));
    }

    lemma PromptsAreDefined(s: Sym)
      requires Valid() && s < |c.defs|
      ensures c.defs[s].prompts != [] ==> c.defs[s].defined
    {
    }

    // ------------------------------------------------------------------ reading

    method ExprValue(e: Expr, ghost bound: nat) returns (v: Tri)
      requires Valid() && Syms(e) <= Lower(bound)
      modifies this`vis, this`tri
      ensures Valid() && Grown(old(vis), vis) && Grown(old(tri), tri)
      ensures Value(e, In(c, Val())) == Some(v)
      decreases bound, 0, e
    {
      hide Valid, Lookup;
      match e {
        case Leaf(s) =>
          assert s in Lower(bound);
          v := TriValue(s);
        case And(l, r) =>
          v := ExprValue(l, bound);
          if v != 0 {
            ghost var t := tri;
            var v2 := ExprValue(r, bound);
            ValueGrows(c, l, t, tri);
            v := Min(v, v2);
          }
        case Or(l, r) =>
          v := ExprValue(l, bound);
          if v != 2 {
            ghost var t := tri;
            var v2 := ExprValue(r, bound);
            ValueGrows(c, l, t, tri);
            v := Max(v, v2);
          }
        case Not(a) =>
          var va := ExprValue(a, bound);
          v := 2 - va;
        case Relation(rel, a, b) =>
          assert a in Lower(bound) && b in Lower(bound);
          var va := TriValue(a);
          ghost var t := tri;
          var vb := TriValue(b);
          ValueGrows(c, Leaf(a), t, tri);
          v := if RelHolds(rel, Compare(OperandOf(c, a, va), OperandOf(c, b, vb))) then 2 else 0;
      }
    }

    method TypeIsBool(s: Sym) returns (b: bool)
      requires Valid() && s < |c.defs| && c.defs[s].defined
      modifies this`vis, this`tri
      ensures Valid() && Grown(old(vis), vis) && Grown(old(tri), tri)
      ensures IsBool(c, c.defs[s], Val()) == Some(b)
      decreases Rank(s), 1
    {
      hide Valid, Lookup;
      if c.defs[s].orig != Tristate { return true; }
      PropertiesLower(s);
      var m := TriValue(c.modules);
      b := m == 0;
    }

    method ComputeVisibility(s: Sym) returns (v: Tri)
      requires Valid() && s < |c.defs|
      modifies this`vis, this`tri
      ensures Valid() && Grown(old(vis), vis) && Grown(old(tri), tri)
      ensures VisBody(c, c.defs[s], Val()) == Some(v)
      decreases Rank(s), 2
    {
      var d := c.defs[s];
      hide Valid, Value, IsBool, Lookup, Lower, Rank, PromptMax;
      PromptNone(c, d.prompts, Val());
      if d.defined { PropertiesLower(s); } else { PromptsAreDefined(s); }
      v := 0;
      for k := 0 to |d.prompts|
        invariant Valid() && Grown(old(vis), vis) && Grown(old(tri), tri)
        invariant PromptMax(c, d.prompts[..k], Val()) == Some(v)
      {
        ghost var t := tri;
        var p := ExprValue(d.prompts[k], Rank(s));
        PromptGrows(c, d.prompts[..k], t, tri);
        PromptStep(c, d.prompts, k, Val(), v, p);
        v := Max(v, p);
      }
      assert d.prompts[..|d.prompts|] == d.prompts;
      if v == 1 {
        ghost var t := tri;
        var b := TypeIsBool(s);
        PromptGrows(c, d.prompts, t, tri);
        v := if b then 2 else 1;
      }
    }

    method Visibility(s: Sym) returns (v: Tri)
      requires Valid() && s < |c.defs|
      modifies this`vis, this`tri
      ensures Valid() && Grown(old(vis), vis) && Grown(old(tri), tri)
      ensures s in vis && v == vis[s]
      decreases Rank(s), 3
    {
      if s in vis { return vis[s]; }
      v := ComputeVisibility(s);
      StoreVis(c, user, vis, tri, s, v);
      vis := vis[s := v];
    }

    /** The value a symbol gets from its defaults and implies. */
    method UnsetValueOf(s: Sym, visible: bool) returns (v: Tri, write: bool)
      requires Valid() && s < |c.defs| && c.defs[s].defined
      modifies this`vis, this`tri
      ensures Valid() && Grown(old(vis), vis) && Grown(old(tri), tri)
      ensures Unset(c, c.defs[s], visible, Val()) == Some((v, write))
      decreases Rank(s), 2
    {
      hide Valid, Value, Lookup, Lower, Rank;
      var d := c.defs[s];
      PropertiesLower(s);
      var p := DefaultOf(s);
      v, write := p.0, visible || p.1;
      ghost var t := tri;
      var weak := ExprValue(d.weakRevDep, Rank(s));
      DefaultGrows(c, d.defaults, t, tri);
      if weak != 0 {
        t := tri;
        var dep := ExprValue(d.directDep, Rank(s));
        DefaultGrows(c, d.defaults, t, tri);
        ValueGrows(c, d.weakRevDep, t, tri);
        if dep != 0 {
          v, write := Max(weak, v), true;
        }
      }
    }

    method DefaultOf(s: Sym) returns (p: (Tri, bool))
      requires Valid() && s < |c.defs| && c.defs[s].defined
      modifies this`vis, this`tri
      ensures Valid() && Grown(old(vis), vis) && Grown(old(tri), tri)
      ensures FirstDefault(c, c.defs[s].defaults, Val()) == Some(p)
      decreases Rank(s), 1
    {
      hide Valid, Value, Lookup, Lower, Rank;
      var ds := c.defs[s].defaults;
      PropertiesLower(s);
      for k := 0 to |ds|
        invariant Valid() && Grown(old(vis), vis) && Grown(old(tri), tri)
        invariant forall j :: 0 <= j < k ==> Value(ds[j].1, In(c, Val())) == Some(0)
      {
        ghost var t := tri;
        var cond := ExprValue(ds[k].1, Rank(s));
        forall j | 0 <= j < k { ValueGrows(c, ds[j].1, t, tri); }
        if cond != 0 {
          t := tri;
          var v := ExprValue(ds[k].0, Rank(s));
          forall j | 0 <= j < k { ValueGrows(c, ds[j].1, t, tri); }
          ValueGrows(c, ds[k].1, t, tri);
          SkipDefaults(c, ds, k, Val());
          assert ds[k..][0] == ds[k];
          return (Min(v, cond), Min(v, cond) != 0);
        }
      }
      SkipDefaults(c, ds, |ds|, Val());
      return (0, false);
    }

    /** Selects raise the value, and m is promoted to y where m is not allowed. */
    method SelectedValueOf(s: Sym, v0: Tri, write0: bool) returns (v: Tri, write: bool)
      requires Valid() && s < |c.defs| && c.defs[s].defined
      modifies this`vis, this`tri
      ensures Valid() && Grown(old(vis), vis) && Grown(old(tri), tri)
      ensures var q := Selected(c, c.defs[s], (v0, write0), Val());
              q.Some? && Promoted(c, c.defs[s], q.value, Val()) == Some((v, write))
      decreases Rank(s), 2
    {
      hide Valid, Value, IsBool, Lookup, Lower, Rank;
      var d := c.defs[s];
      PropertiesLower(s);
      v, write := v0, write0;
      var rev := ExprValue(d.revDep, Rank(s));
      if rev != 0 {
        ghost var t := tri;
        var dep := ExprValue(d.directDep, Rank(s));
        ValueGrows(c, d.revDep, t, tri);
        v, write := Max(rev, v), true;
      }
      ghost var q := (v, write);
      assert Selected(c, d, (v0, write0), Val()) == Some(q);
      if v == 1 {
        ghost var t := tri;
        var b := TypeIsBool(s);
        SelectGrows(c, d, (v0, write0), t, tri);
        if b {
          v := 2;
        } else {
          t := tri;
          var weak := ExprValue(d.weakRevDep, Rank(s));
          SelectGrows(c, d, (v0, write0), t, tri);
          if weak == 2 { v := 2; }
        }
      }
    }

    method ComputeValue(s: Sym) returns (v: Tri, write: bool)
      requires Valid() && s < |c.defs| && c.defs[s].defined
      modifies this`vis, this`tri
      ensures Valid() && Grown(old(vis), vis) && Grown(old(tri), tri)
      ensures s in vis && TriBody(c, c.defs[s], UserOf(user, s), Val()) == Some((v, write))
      decreases Rank(s), 4
    {
      hide Valid, VisBody, Unset, Selected, Promoted;
      var d := c.defs[s];
      var vi := Visibility(s);
      write := vi != 0;
      if vi != 0 && s in user {
        v := Min(user[s], vi);
        v, write := SelectedValueOf(s, v, write);
      } else {
        v, write := UnsetValueOf(s, vi != 0);
        ghost var t := tri;
        v, write := SelectedValueOf(s, v, write);
        UnsetGrows(c, d, vi != 0, t, tri);
      }
      CachedVis(s);
    }

    lemma CachedVis(s: Sym)
      requires Valid() && s in vis
      ensures s < |c.defs| && VisBody(c, c.defs[s], Val()) == Some(vis[s])
    {
    }

    method TriValue(s: Sym) returns (v: Tri)
      requires Valid() && s < |c.defs|
      modifies this`vis, this`tri
      ensures Valid() && Grown(old(vis), vis) && Grown(old(tri), tri)
      ensures Val()(s) == Some(v)
      decreases Rank(s), 5
    {
      if Fixed(c, s).Some? { return Fixed(c, s).value; }
      if s in tri { return tri[s].0; }
      var write;
      v, write := ComputeValue(s);
      StoreTri(c, user, vis, tri, s, (v, write));
      tri := tri[s := (v, write)];
    }

    // ------------------------------------------------------------------ invalidation

    ghost predicate Structure()
      reads this
    {
      && WellFormed(c) && |dependents| == |c.defs|
      && (forall r, s :: 0 <= r < |c.defs| ==> (s in dependents[r] <==> IsDependent(c, r, s)))
      && (forall x :: x in vis ==> x < |c.defs|) && tri.Keys <= vis.Keys
    }

    method InvalidateAll()
      requires Structure()
      modifies this`vis, this`tri
      ensures Structure() && Shrunk(vis, old(vis)) && Shrunk(tri, old(tri))
      ensures forall x :: x in vis ==> !c.defs[x].defined
      ensures forall x :: x in old(tri) ==> (x in vis <==> x in tri)
    {
      for s := 0 to |c.defs|
        invariant Structure() && Shrunk(vis, old(vis)) && Shrunk(tri, old(tri))
        invariant forall x :: x in vis && x < s ==> !c.defs[x].defined
        invariant forall x :: x in old(tri) ==> (x in vis <==> x in tri)
      {
        if c.defs[s].defined {
          vis, tri := vis - {s}, tri - {s};
        }
      }
    }

    /** Drops the cached values of `s` and of everything that may depend on it, going
        on only from symbols that had something cached. */
    method RecInvalidate(s: Sym)
      requires Structure() && s < |c.defs|
      modifies this`vis, this`tri
      ensures Structure() && Shrunk(vis, old(vis)) && Shrunk(tri, old(tri))
      ensures c.defs[s].defined ==> s !in vis
      ensures c.defs[s].defined ==> Swept(c, old(vis), vis)
      ensures c.defs[s].defined ==> forall d :: IsDependent(c, s, d) ==> d !in vis
      ensures forall x :: x in old(tri) ==> (x in vis <==> x in tri)
      decreases vis.Keys - {s}
    {
      hide Mentions, WellFormed;
      if s == c.modules {
        InvalidateAll();
      } else {
        vis, tri := vis - {s}, tri - {s};
        ghost var vis1 := vis;
        var todo := dependents[s];
        while todo != {}
          invariant todo <= dependents[s]
          invariant Structure() && Shrunk(vis, vis1) && Shrunk(tri, old(tri)) && Swept(c, vis1, vis)
          invariant forall d :: d in dependents[s] - todo ==> d !in vis
          invariant forall x :: x in old(tri) ==> (x in vis <==> x in tri)
        {
          var item :| item in todo;
          assert IsDependent(c, s, item);
          if item in vis {
            ghost var vis2 := vis;
            RecInvalidate(item);
            SweptTwice(c, vis1, vis2, vis);
          }
          todo := todo - {item};
        }
        assert forall d :: IsDependent(c, s, d) ==> d in dependents[s];
      }
    }

    // ------------------------------------------------------------------ assignment

    method RecInvalidateIfHasPrompt(s: Sym, ghost user0: map<Sym, Tri>)
      requires Structure() && Replays(c, user0, vis, tri) && Ranked(c, rank)
      requires s < |c.defs| && forall x :: x != s ==> UserOf(user, x) == UserOf(user0, x)
      modifies this`vis, this`tri
      ensures Valid()
    {
      if c.defs[s].prompts != [] {
        ghost var vis0, tri0 := vis, tri;
        RecInvalidate(s);
        SweepKeepsReplay(c, user0, user, vis0, tri0, vis, tri, s);
      } else {
        PromptlessKeepsReplay(c, user0, user, vis, tri, s);
      }
    }

    /** Assigns a user value, unless it does not fit the type. */
    method SetValue(s: Sym, value: int) returns (ok: bool)
      requires Valid() && s < |c.defs|
      modifies this
      ensures Valid()
      ensures ok <==> (c.defs[s].orig == Bool && value in {0, 2}) || (c.defs[s].orig == Tristate && value in {0, 1, 2})
                      || (s in old(user) && old(user)[s] == value)
      ensures user == if ok then old(user)[s := value] else old(user)
    {
      if s in user && user[s] == value {
        assert user == user[s := value];
        return true;
      }
      if !ValidFor(c.defs[s].orig, value) {
        return false;
      }
      ghost var user0 := user;
      user := user[s := value];
      RecInvalidateIfHasPrompt(s, user0);
      return true;
    }

    method UnsetValue(s: Sym)
      requires Valid() && s < |c.defs|
      modifies this
      ensures Valid() && user == old(user) - {s}
    {
      if s in user {
        ghost var user0 := user;
        user := user - {s};
        RecInvalidateIfHasPrompt(s, user0);
      }
    }

    // ------------------------------------------------------------------ what a client sees

    /** A read returns what evaluation from scratch returns, whatever was cached before. */
    method ReadTri(s: Sym) returns (v: Tri)
      requires Valid() && s < |c.defs|
      modifies this`vis, this`tri
      ensures Valid()
      ensures forall depth: nat :: depth > rank[s] ==> Eval(c, user, s, depth) == Some(v)
    {
      v := TriValue(s);
      forall depth: nat | depth > rank[s] ensures Eval(c, user, s, depth) == Some(v) {
        EvalFixed(c, user, s, depth);
        if Fixed(c, s).None? {
          Coherent(c, rank, user, vis, tri, s, depth);
        }
      }
    }

    method ReadVisibility(s: Sym) returns (v: Tri)
      requires Valid() && s < |c.defs|
      modifies this`vis, this`tri
      ensures Valid()
      ensures forall depth: nat :: depth >= rank[s] ==> VisBody(c, c.defs[s], Evaluator(c, user, depth)) == Some(v)
    {
      v := Visibility(s);
      forall depth: nat | depth >= rank[s]
        ensures VisBody(c, c.defs[s], Evaluator(c, user, depth)) == Some(v)
      {
        CoherentVis(c, rank, user, vis, tri, s, depth);
      }
    }

    method Apply(op: Op) returns (r: Option<Tri>)
      requires Valid() && op.sym < |c.defs|
      modifies this
      ensures Valid() && user == UserAfter(c, old(user), op)
      ensures FromScratch(c, old(user), op, r, rank[op.sym] + 1)
    {
      hide Replays, WellFormed, IsDependent, VisBody, Eval, Evaluator;
      r := None;
      match op {
        case SetValue(s, value) => var ok := SetValue(s, value);
        case UnsetValue(s) => this.UnsetValue(s);
        case GetTri(s) =>
          var v := ReadTri(s);
          r := Some(v);
        case GetVisibility(s) =>
          var v := ReadVisibility(s);
          r := Some(v);
      }
    }

    lemma RankAt(s: Sym)
      requires Valid() && s < |c.defs|
      ensures s < |rank|
    {
    }

    /** Every run of assignments and reads: each read agrees with evaluation from
        scratch under the user values set so far. */
    method Run(ops: seq<Op>) returns (out: seq<Option<Tri>>)
      requires Valid() && forall k :: 0 <= k < |ops| ==> ops[k].sym < |c.defs|
      modifies this
      ensures Valid() && |out| == |ops| && user == UserAt(c, old(user), ops, |ops|)
      ensures Answered(c, old(user), rank, ops, out)
    {
      hide Valid, Answered, FromScratch, UserAfter;
      out := [];
      AnswerNone(c, user, rank, ops);
      for k := 0 to |ops|
        invariant Valid() && |out| == k && user == UserAt(c, old(user), ops, k)
        invariant Answered(c, old(user), rank, ops, out)
      {
        RankAt(ops[k].sym);
        var r := Apply(ops[k]);
        AnswerNext(c, old(user), rank, ops, out, r);
        out := out + [r];
      }
    }
  }

  lemma AnswerNone(c: Config, user: map<Sym, Tri>, rank: seq<nat>, ops: seq<Op>)
    ensures Answered(c, user, rank, ops, [])
  {
  }

  lemma SweptTwice(c: Config, vis0: map<Sym, Tri>, vis1: map<Sym, Tri>, vis2: map<Sym, Tri>)
    requires Swept(c, vis0, vis1) && Swept(c, vis1, vis2) && Shrunk(vis2, vis1)
    ensures Swept(c, vis0, vis2)
  {
  }

  lemma PromptNone(c: Config, prompts: seq<Expr>, val: Valuation)
    ensures PromptMax(c, prompts[..0], val) == Some(0)
  {
  }

  lemma PromptStep(c: Config, prompts: seq<Expr>, k: nat, val: Valuation, v: Tri, p: Tri)
    requires k < |prompts| && PromptMax(c, prompts[..k], val) == Some(v) && Value(prompts[k], In(c, val)) == Some(p)
    ensures PromptMax(c, prompts[..k + 1], val) == Some(Max(v, p))
  {
    assert prompts[..k + 1][..k] == prompts[..k];
  }

  /** Defaults whose conditions are n are passed over. */
  lemma {:induction false} SkipDefaults(c: Config, ds: seq<(Expr, Expr)>, k: nat, val: Valuation)
    requires k <= |ds|
    requires forall j :: 0 <= j < k ==> Value(ds[j].1, In(c, val)) == Some(0)
    ensures FirstDefault(c, ds, val) == FirstDefault(c, ds[k..], val)
  {
    if k > 0 {
      SkipDefaults(c, ds[1..], k - 1, val);
      assert ds[1..][k - 1..] == ds[k..];
    }
  }
}
