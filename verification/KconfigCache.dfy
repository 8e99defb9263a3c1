/** Memoised symbol values with partial invalidation.

    `Eval` is the plain recursive evaluation without caches.  The class keeps the
    caches as the program does.  The invariant behind everything: each cached value
    can be recomputed by reading cached values only. */
module KconfigCache {
  import opened Options
  import opened KconfigExpr

  datatype SymType = Unknown | Bool | Tristate

  /** `constant` marks n, m, y and quoted strings; `num` is the number the name reads as. */
  datatype SymDef = SymDef(
    name: string,
    num: Option<int>,
    orig: SymType,
    constant: bool,
    constVal: Tri,
    defined: bool,
    prompts: seq<Expr>,
    defaults: seq<(Expr, Expr)>,  // value, condition
    revDep: Expr,
    weakRevDep: Expr,
    directDep: Expr)

  datatype Config = Config(defs: seq<SymDef>, modules: Sym)

  type Valuation = Sym -> Option<Tri>

  function DefaultExprs(ds: seq<(Expr, Expr)>): seq<Expr> {
    if ds == [] then [] else [ds[0].0, ds[0].1] + DefaultExprs(ds[1..])
  }

  function ExprsOf(d: SymDef): seq<Expr> {
    d.prompts + DefaultExprs(d.defaults) + [d.revDep, d.weakRevDep, d.directDep]
  }

  function SymsOf(es: seq<Expr>): set<Sym> {
    if es == [] then {} else Syms(es[0]) + SymsOf(es[1..])
  }

  /** The symbols in the properties of a symbol, as dependency building collects them. */
  function Mentions(d: SymDef): set<Sym> { SymsOf(ExprsOf(d)) }

  ghost predicate WellFormed(c: Config) {
    && c.modules < |c.defs|
    && forall s :: 0 <= s < |c.defs| ==>
         var d := c.defs[s];
         && (forall r :: r in Mentions(d) ==> r < |c.defs|)
         && (d.constant ==> !d.defined)
         && (!d.defined ==> d.prompts == [])
         && (d.orig != Unknown && !d.constant ==> d.defined)
  }

  /** Values that never change: constants, and symbols that have no type. */
  function Fixed(c: Config, s: Sym): Option<Tri> {
    if s >= |c.defs| then None
    else if c.defs[s].orig == Unknown then Some(0)
    else if c.defs[s].constant then Some(c.defs[s].constVal)
    else None
  }

  function OperandOf(c: Config, s: Sym, v: Tri): Operand {
    if s < |c.defs| && c.defs[s].orig == Unknown then Operand(c.defs[s].num, c.defs[s].name)
    else Operand(Some(v), if v == 0 then "n" else if v == 1 then "m" else "y")
  }

  function In(c: Config, val: Valuation): Env { Env(val, (s: Sym, v: Tri) => OperandOf(c, s, v)) }

  // -------------------------------------------------------------------------
  // The computations, over any valuation

  /** Whether the effective type is not tristate: tristate symbols count as bool
      while MODULES is n. */
  function IsBool(c: Config, d: SymDef, val: Valuation): Option<bool> {
    if d.orig != Tristate then Some(true) else
    var m :- val(c.modules);
    Some(m == 0)
  }

  function PromptMax(c: Config, prompts: seq<Expr>, val: Valuation): Option<Tri> {
    if prompts == [] then Some(0) else
    var before :- PromptMax(c, prompts[..|prompts| - 1], val);
    var v :- Value(prompts[|prompts| - 1], In(c, val));
    Some(Max(before, v))
  }

  function VisBody(c: Config, d: SymDef, val: Valuation): Option<Tri> {
    var v :- PromptMax(c, d.prompts, val);
    if v != 1 then Some(v) else
      var bool_ :- IsBool(c, d, val);
      Some(if bool_ then 2 else 1)
  }

  /** The first default whose condition is not n, and whether it gives an entry. */
  function FirstDefault(c: Config, ds: seq<(Expr, Expr)>, val: Valuation): Option<(Tri, bool)> {
    if ds == [] then Some((0, false)) else
    var cond :- Value(ds[0].1, In(c, val));
    if cond == 0 then FirstDefault(c, ds[1..], val) else
      var v :- Value(ds[0].0, In(c, val));
      Some((Min(v, cond), Min(v, cond) != 0))
  }

  /** Defaults and implies, used when no user value is in effect. */
  function Unset(c: Config, d: SymDef, visible: bool, val: Valuation): Option<(Tri, bool)> {
    var p :- FirstDefault(c, d.defaults, val);
    var weak :- Value(d.weakRevDep, In(c, val));
    if weak == 0 then Some((p.0, visible || p.1)) else
      var dep :- Value(d.directDep, In(c, val));
      if dep == 0 then Some((p.0, visible || p.1)) else Some((Max(weak, p.0), true))
  }

  function Selected(c: Config, d: SymDef, p: (Tri, bool), val: Valuation): Option<(Tri, bool)> {
    var rev :- Value(d.revDep, In(c, val));
    if rev == 0 then Some(p) else
      var _ :- Value(d.directDep, In(c, val));
      Some((Max(rev, p.0), true))
  }

  function Promoted(c: Config, d: SymDef, p: (Tri, bool), val: Valuation): Option<(Tri, bool)> {
    if p.0 != 1 then Some(p) else
    var bool_ :- IsBool(c, d, val);
    if bool_ then Some((2, p.1)) else
      var weak :- Value(d.weakRevDep, In(c, val));
      Some((if weak == 2 then 2 else 1, p.1))
  }

  /** The value of a symbol and whether it gets a .config entry. */
  function TriBody(c: Config, d: SymDef, user: Option<Tri>, val: Valuation): Option<(Tri, bool)> {
    var vis :- VisBody(c, d, val);
    var p :- if vis != 0 && user.Some? then Some((Min(user.value, vis), true))
             else Unset(c, d, vis != 0, val);
    var q :- Selected(c, d, p, val);
    Promoted(c, d, q, val)
  }

  function UserOf(user: map<Sym, Tri>, s: Sym): Option<Tri> {
    if s in user then Some(user[s]) else None
  }

  /** Evaluation from scratch, without caches; missing when `depth` nested calls do not suffice. */
  function Eval(c: Config, user: map<Sym, Tri>, s: Sym, depth: nat): Option<Tri>
    decreases depth, 0
  {
    if Fixed(c, s).Some? then Fixed(c, s)
    else if s >= |c.defs| || depth == 0 then None
    else
      var p :- TriBody(c, c.defs[s], UserOf(user, s), Evaluator(c, user, depth - 1));
      Some(p.0)
  }

  function Evaluator(c: Config, user: map<Sym, Tri>, depth: nat): Valuation
    decreases depth, 1
  {
    s => Eval(c, user, s, depth)
  }

  // -------------------------------------------------------------------------
  // Order

  /** The symbols whose values a defined symbol's computation may read. */
  function Reads(c: Config, d: SymDef): set<Sym> {
    Mentions(d) + if d.orig == Tristate then {c.modules} else {}
  }

  ghost predicate Ranked(c: Config, rank: seq<nat>) {
    && |rank| == |c.defs|
    && forall s, r :: 0 <= s < |c.defs| && c.defs[s].defined && r in Reads(c, c.defs[s]) ==>
         r < |c.defs| && rank[r] < rank[s]
  }

  lemma {:induction false} MentionsEach(es: seq<Expr>, k: nat)
    requires k < |es|
    ensures Syms(es[k]) <= SymsOf(es)
  {
    if k > 0 {
      MentionsEach(es[1..], k - 1);
    }
  }

  lemma {:induction false} DefaultExprsAt(ds: seq<(Expr, Expr)>, k: nat)
    requires k < |ds|
    ensures |DefaultExprs(ds)| == 2 * |ds|
    ensures DefaultExprs(ds)[2 * k] == ds[k].0 && DefaultExprs(ds)[2 * k + 1] == ds[k].1
  {
    if |ds| > 1 {
      DefaultExprsAt(ds[1..], if k > 0 then k - 1 else 0);
    }
  }

  lemma PropertySyms(d: SymDef)
    ensures forall k :: 0 <= k < |d.prompts| ==> Syms(d.prompts[k]) <= Mentions(d)
    ensures forall k :: 0 <= k < |d.defaults| ==>
              Syms(d.defaults[k].0) <= Mentions(d) && Syms(d.defaults[k].1) <= Mentions(d)
    ensures Syms(d.revDep) <= Mentions(d) && Syms(d.weakRevDep) <= Mentions(d) && Syms(d.directDep) <= Mentions(d)
  {
    var es, n, m := ExprsOf(d), |d.prompts|, |DefaultExprs(d.defaults)|;
    forall k | 0 <= k < n ensures Syms(d.prompts[k]) <= Mentions(d) {
      MentionsEach(es, k);
    }
    forall k | 0 <= k < |d.defaults|
      ensures Syms(d.defaults[k].0) <= Mentions(d) && Syms(d.defaults[k].1) <= Mentions(d)
    {
      DefaultExprsAt(d.defaults, k);
      MentionsEach(es, n + 2 * k);
      MentionsEach(es, n + 2 * k + 1);
    }
    MentionsEach(es, n + m);
    MentionsEach(es, n + m + 1);
    MentionsEach(es, n + m + 2);
  }

  // -------------------------------------------------------------------------
  // Every computation is monotone: more known values never change a known result

  ghost predicate Below(on: set<Sym>, v: Valuation, w: Valuation) {
    forall r :: r in on && v(r).Some? ==> w(r) == v(r)
  }

  lemma {:induction false} ValueMono(c: Config, e: Expr, v: Valuation, w: Valuation)
    requires Below(Syms(e), v, w)
    ensures Value(e, In(c, v)).Some? ==> Value(e, In(c, w)) == Value(e, In(c, v))
  {
    match e
    case And(l, r) => ValueMono(c, l, v, w); ValueMono(c, r, v, w);
    case Or(l, r) => ValueMono(c, l, v, w); ValueMono(c, r, v, w);
    case Not(a) => ValueMono(c, a, v, w);
    case _ =>
  }

  lemma {:induction false} PromptMono(c: Config, prompts: seq<Expr>, v: Valuation, w: Valuation)
    requires forall k :: 0 <= k < |prompts| ==> Below(Syms(prompts[k]), v, w)
    ensures PromptMax(c, prompts, v).Some? ==> PromptMax(c, prompts, w) == PromptMax(c, prompts, v)
  {
    if prompts != [] {
      PromptMono(c, prompts[..|prompts| - 1], v, w);
      ValueMono(c, prompts[|prompts| - 1], v, w);
    }
  }

  lemma {:induction false} DefaultMono(c: Config, ds: seq<(Expr, Expr)>, v: Valuation, w: Valuation)
    requires forall k :: 0 <= k < |ds| ==> Below(Syms(ds[k].0), v, w) && Below(Syms(ds[k].1), v, w)
    ensures FirstDefault(c, ds, v).Some? ==> FirstDefault(c, ds, w) == FirstDefault(c, ds, v)
  {
    if ds != [] {
      ValueMono(c, ds[0].1, v, w);
      ValueMono(c, ds[0].0, v, w);
      DefaultMono(c, ds[1..], v, w);
    }
  }

  lemma VisMono(c: Config, d: SymDef, v: Valuation, w: Valuation)
    requires Below(Reads(c, d), v, w)
    ensures VisBody(c, d, v).Some? ==> VisBody(c, d, w) == VisBody(c, d, v)
  {
    PropertySyms(d);
    PromptMono(c, d.prompts, v, w);
  }

  lemma UnsetMono(c: Config, d: SymDef, visible: bool, v: Valuation, w: Valuation)
    requires Below(Reads(c, d), v, w)
    ensures Unset(c, d, visible, v).Some? ==> Unset(c, d, visible, w) == Unset(c, d, visible, v)
  {
    hide Value, FirstDefault;
    PropertySyms(d);
    DefaultMono(c, d.defaults, v, w);
    ValueMono(c, d.weakRevDep, v, w);
    ValueMono(c, d.directDep, v, w);
  }

  lemma SelectedMono(c: Config, d: SymDef, p: (Tri, bool), v: Valuation, w: Valuation)
    requires Below(Reads(c, d), v, w)
    ensures Selected(c, d, p, v).Some? ==> Selected(c, d, p, w) == Selected(c, d, p, v)
    ensures Promoted(c, d, p, v).Some? ==> Promoted(c, d, p, w) == Promoted(c, d, p, v)
  {
    hide Value;
    PropertySyms(d);
    ValueMono(c, d.revDep, v, w);
    ValueMono(c, d.weakRevDep, v, w);
    ValueMono(c, d.directDep, v, w);
  }

  lemma TriMono(c: Config, d: SymDef, user: Option<Tri>, v: Valuation, w: Valuation)
    requires Below(Reads(c, d), v, w)
    ensures TriBody(c, d, user, v).Some? ==> TriBody(c, d, user, w) == TriBody(c, d, user, v)
  {
    hide VisBody, Unset, Selected, Promoted, Reads;
    VisMono(c, d, v, w);
    forall visible { UnsetMono(c, d, visible, v, w); }
    forall p { SelectedMono(c, d, p, v, w); }
  }

  // -------------------------------------------------------------------------
  // Evaluation terminates on ranked configurations

  lemma {:induction false} ValueTotal(c: Config, e: Expr, v: Valuation)
    requires forall r :: r in Syms(e) ==> v(r).Some?
    ensures Value(e, In(c, v)).Some?
  {
    match e
    case And(l, r) => ValueTotal(c, l, v); ValueTotal(c, r, v);
    case Or(l, r) => ValueTotal(c, l, v); ValueTotal(c, r, v);
    case Not(a) => ValueTotal(c, a, v);
    case _ =>
  }

  lemma {:induction false} PromptTotal(c: Config, prompts: seq<Expr>, v: Valuation)
    requires forall k, r :: 0 <= k < |prompts| && r in Syms(prompts[k]) ==> v(r).Some?
    ensures PromptMax(c, prompts, v).Some?
  {
    if prompts != [] {
      PromptTotal(c, prompts[..|prompts| - 1], v);
      ValueTotal(c, prompts[|prompts| - 1], v);
    }
  }

  lemma {:induction false} DefaultTotal(c: Config, ds: seq<(Expr, Expr)>, v: Valuation)
    requires forall k, r :: 0 <= k < |ds| && (r in Syms(ds[k].0) || r in Syms(ds[k].1)) ==> v(r).Some?
    ensures FirstDefault(c, ds, v).Some?
  {
    if ds != [] {
      ValueTotal(c, ds[0].1, v);
      ValueTotal(c, ds[0].0, v);
      DefaultTotal(c, ds[1..], v);
    }
  }

  lemma TriTotal(c: Config, d: SymDef, user: Option<Tri>, v: Valuation)
    requires forall r :: r in Reads(c, d) ==> v(r).Some?
    ensures TriBody(c, d, user, v).Some?
  {
    PropertySyms(d);
    PromptTotal(c, d.prompts, v);
    DefaultTotal(c, d.defaults, v);
    ValueTotal(c, d.revDep, v);
    ValueTotal(c, d.weakRevDep, v);
    ValueTotal(c, d.directDep, v);
  }

  /** The recursion never goes deeper than the rank of the symbol it starts at, and
      the value does not depend on how much deeper it may go. */
  lemma {:induction false} EvalTerminates(c: Config, rank: seq<nat>, user: map<Sym, Tri>, s: Sym, depth: nat)
    requires WellFormed(c) && Ranked(c, rank) && s < |c.defs| && depth > rank[s]
    ensures Eval(c, user, s, depth).Some?
    ensures Eval(c, user, s, depth) == Eval(c, user, s, rank[s] + 1)
    decreases rank[s]
  {
    if Fixed(c, s).None? {
      var d := c.defs[s];
      var shallow, deep := Evaluator(c, user, rank[s]), Evaluator(c, user, depth - 1);
      forall r | r in Reads(c, d) ensures shallow(r).Some? && deep(r) == shallow(r) {
        EvalTerminates(c, rank, user, r, rank[s]);
        EvalTerminates(c, rank, user, r, depth - 1);
      }
      TriTotal(c, d, UserOf(user, s), shallow);
      TriMono(c, d, UserOf(user, s), shallow, deep);
    }
  }

  // -------------------------------------------------------------------------
  // Coherence of the caches

  function Lookup(c: Config, tri: map<Sym, (Tri, bool)>): Valuation {
    s => if Fixed(c, s).Some? then Fixed(c, s) else if s in tri then Some(tri[s].0) else None
  }

  /** Each cached value can be recomputed from cached values, without a miss. */
  ghost predicate Replays(c: Config, user: map<Sym, Tri>, vis: map<Sym, Tri>, tri: map<Sym, (Tri, bool)>) {
    && (forall s :: s in vis ==> s < |c.defs| && VisBody(c, c.defs[s], Lookup(c, tri)) == Some(vis[s]))
    && (forall s :: s in tri ==>
          && s in vis && Fixed(c, s).None?
          && TriBody(c, c.defs[s], UserOf(user, s), Lookup(c, tri)) == Some(tri[s]))
  }

  lemma EvalFixed(c: Config, user: map<Sym, Tri>, s: Sym, depth: nat)
    ensures Evaluator(c, user, depth)(s) == Eval(c, user, s, depth)
    ensures Fixed(c, s).Some? ==> Eval(c, user, s, depth) == Fixed(c, s)
  {
  }

  lemma EvalFrom(c: Config, user: map<Sym, Tri>, s: Sym, depth: nat, v: Valuation, p: (Tri, bool))
    requires s < |c.defs| && Fixed(c, s).None? && depth > 0
    requires Below(Reads(c, c.defs[s]), v, Evaluator(c, user, depth - 1))
    requires TriBody(c, c.defs[s], UserOf(user, s), v) == Some(p)
    ensures Eval(c, user, s, depth) == Some(p.0)
    ensures TriBody(c, c.defs[s], UserOf(user, s), Evaluator(c, user, depth - 1)) == Some(p)
  {
    hide TriBody;
    TriMono(c, c.defs[s], UserOf(user, s), v, Evaluator(c, user, depth - 1));
  }

  lemma ReadsAgree(c: Config, user: map<Sym, Tri>, tri: map<Sym, (Tri, bool)>, r: Sym, depth: nat)
    requires Fixed(c, r).None? && r in tri ==> Eval(c, user, r, depth) == Some(tri[r].0)
    ensures Lookup(c, tri)(r).Some? ==> Evaluator(c, user, depth)(r) == Lookup(c, tri)(r)
  {
    hide TriBody;
    EvalFixed(c, user, r, depth);
  }

  /** Hence each cached value is the value evaluation from scratch would give. */
  lemma {:induction false} Coherent(c: Config, rank: seq<nat>, user: map<Sym, Tri>, vis: map<Sym, Tri>,
                                    tri: map<Sym, (Tri, bool)>, s: Sym, depth: nat)
    requires WellFormed(c) && Ranked(c, rank) && Replays(c, user, vis, tri)
    requires s in tri && s < |c.defs| && depth > rank[s]
    ensures Eval(c, user, s, depth) == Some(tri[s].0)
    ensures TriBody(c, c.defs[s], UserOf(user, s), Evaluator(c, user, depth - 1)) == Some(tri[s])
    decreases rank[s]
  {
    hide TriBody, VisBody, Mentions, Eval, Evaluator, Lookup;
    var v, w := Lookup(c, tri), Evaluator(c, user, depth - 1);
    forall r | r in Reads(c, c.defs[s]) ensures v(r).Some? ==> w(r) == v(r) {
      if Fixed(c, r).None? && r in tri {
        Coherent(c, rank, user, vis, tri, r, depth - 1);
      }
      ReadsAgree(c, user, tri, r, depth - 1);
    }
    EvalFrom(c, user, s, depth, v, tri[s]);
  }

  lemma CoherentVis(c: Config, rank: seq<nat>, user: map<Sym, Tri>, vis: map<Sym, Tri>,
                    tri: map<Sym, (Tri, bool)>, s: Sym, depth: nat)
    requires WellFormed(c) && Ranked(c, rank) && Replays(c, user, vis, tri)
    requires s in vis && s < |c.defs| && depth >= rank[s]
    ensures VisBody(c, c.defs[s], Evaluator(c, user, depth)) == Some(vis[s])
  {
    if c.defs[s].defined {
      hide TriBody, VisBody, Mentions, Eval, Evaluator, Lookup;
      var v, w := Lookup(c, tri), Evaluator(c, user, depth);
      forall r | r in Reads(c, c.defs[s]) ensures v(r).Some? ==> w(r) == v(r) {
        if Fixed(c, r).None? && r in tri {
          Coherent(c, rank, user, vis, tri, r, depth);
        }
        ReadsAgree(c, user, tri, r, depth);
      }
      VisMono(c, c.defs[s], v, w);
    }
  }

  ghost predicate Grown<V>(m: map<Sym, V>, m': map<Sym, V>) {
    forall k :: k in m ==> k in m' && m'[k] == m[k]
  }

  /** Storing a freshly computed value keeps every other cached value replayable. */
  lemma StoreTri(c: Config, user: map<Sym, Tri>, vis: map<Sym, Tri>, tri: map<Sym, (Tri, bool)>,
                 s: Sym, p: (Tri, bool))
    requires Replays(c, user, vis, tri) && s in vis && Fixed(c, s).None?
    requires TriBody(c, c.defs[s], UserOf(user, s), Lookup(c, tri)) == Some(p)
    ensures Replays(c, user, vis, tri[s := p]) && Grown(tri, tri[s := p])
  {
    hide TriBody, VisBody;
    var v, w := Lookup(c, tri), Lookup(c, tri[s := p]);
    forall x | x in vis ensures VisBody(c, c.defs[x], w) == Some(vis[x]) {
      VisMono(c, c.defs[x], v, w);
    }
    forall x | x in tri[s := p] ensures TriBody(c, c.defs[x], UserOf(user, x), w) == Some(tri[s := p][x]) {
      TriMono(c, c.defs[x], UserOf(user, x), v, w);
    }
  }

  lemma StoreVis(c: Config, user: map<Sym, Tri>, vis: map<Sym, Tri>, tri: map<Sym, (Tri, bool)>, s: Sym, v: Tri)
    requires Replays(c, user, vis, tri) && s < |c.defs|
    requires VisBody(c, c.defs[s], Lookup(c, tri)) == Some(v)
    ensures Replays(c, user, vis[s := v], tri) && Grown(vis, vis[s := v])
  {
    hide TriBody, VisBody;
  }

  lemma ValueGrows(c: Config, e: Expr, tri: map<Sym, (Tri, bool)>, tri': map<Sym, (Tri, bool)>)
    requires Grown(tri, tri')
    ensures Value(e, In(c, Lookup(c, tri))).Some? ==>
              Value(e, In(c, Lookup(c, tri'))) == Value(e, In(c, Lookup(c, tri)))
  {
    ValueMono(c, e, Lookup(c, tri), Lookup(c, tri'));
  }

  lemma PromptGrows(c: Config, prompts: seq<Expr>, tri: map<Sym, (Tri, bool)>, tri': map<Sym, (Tri, bool)>)
    requires Grown(tri, tri')
    ensures PromptMax(c, prompts, Lookup(c, tri)).Some? ==>
              PromptMax(c, prompts, Lookup(c, tri')) == PromptMax(c, prompts, Lookup(c, tri))
  {
    PromptMono(c, prompts, Lookup(c, tri), Lookup(c, tri'));
  }

  lemma DefaultGrows(c: Config, ds: seq<(Expr, Expr)>, tri: map<Sym, (Tri, bool)>, tri': map<Sym, (Tri, bool)>)
    requires Grown(tri, tri')
    ensures FirstDefault(c, ds, Lookup(c, tri)).Some? ==>
              FirstDefault(c, ds, Lookup(c, tri')) == FirstDefault(c, ds, Lookup(c, tri))
  {
    DefaultMono(c, ds, Lookup(c, tri), Lookup(c, tri'));
  }

  lemma UnsetGrows(c: Config, d: SymDef, visible: bool, tri: map<Sym, (Tri, bool)>, tri': map<Sym, (Tri, bool)>)
    requires Grown(tri, tri')
    ensures Unset(c, d, visible, Lookup(c, tri)).Some? ==>
              Unset(c, d, visible, Lookup(c, tri')) == Unset(c, d, visible, Lookup(c, tri))
  {
    UnsetMono(c, d, visible, Lookup(c, tri), Lookup(c, tri'));
  }

  lemma SelectGrows(c: Config, d: SymDef, p: (Tri, bool), tri: map<Sym, (Tri, bool)>, tri': map<Sym, (Tri, bool)>)
    requires Grown(tri, tri')
    ensures Selected(c, d, p, Lookup(c, tri)).Some? ==>
              Selected(c, d, p, Lookup(c, tri')) == Selected(c, d, p, Lookup(c, tri))
    ensures IsBool(c, d, Lookup(c, tri)).Some? ==>
              IsBool(c, d, Lookup(c, tri')) == IsBool(c, d, Lookup(c, tri))
  {
    SelectedMono(c, d, p, Lookup(c, tri), Lookup(c, tri'));
  }

  // -------------------------------------------------------------------------
  // Invalidation

  /** `s` goes into the dependents of `r`: constants have none, since they never change. */
  ghost predicate IsDependent(c: Config, r: Sym, s: Sym) {
    && r < |c.defs| && s < |c.defs|
    && c.defs[s].defined && r in Mentions(c.defs[s]) && !c.defs[r].constant
  }

  ghost predicate Shrunk<V>(m: map<Sym, V>, m0: map<Sym, V>) {
    forall k :: k in m ==> k in m0 && m[k] == m0[k]
  }

  /** Whatever depends on a symbol that lost its cached values has lost its own;
      everything has when MODULES lost its values. */
  ghost predicate Swept(c: Config, vis0: map<Sym, Tri>, vis: map<Sym, Tri>) {
    forall r :: r in vis0 && r !in vis ==>
      && (forall d :: IsDependent(c, r, d) ==> d !in vis)
      && (r == c.modules ==> forall d :: d in vis && d < |c.defs| ==> !c.defs[d].defined)
  }

  lemma StillCached(c: Config, vis0: map<Sym, Tri>, vis: map<Sym, Tri>, x: Sym, r: Sym)
    requires WellFormed(c) && Swept(c, vis0, vis) && x in vis && x < |c.defs| && c.defs[x].defined
    requires r in Reads(c, c.defs[x]) && r in vis0 && Fixed(c, r).None?
    ensures r in vis
  {
    hide Mentions;
    assert r in Mentions(c.defs[x]) ==> IsDependent(c, r, x);
  }

  /** A symbol that kept its cached visibility reads the same cached values as before. */
  lemma SweepAgrees(c: Config, vis0: map<Sym, Tri>, tri0: map<Sym, (Tri, bool)>,
                    vis: map<Sym, Tri>, tri: map<Sym, (Tri, bool)>, x: Sym)
    requires WellFormed(c) && tri0.Keys <= vis0.Keys && Shrunk(tri, tri0) && Swept(c, vis0, vis)
    requires forall k :: k in tri0 ==> (k in vis <==> k in tri)
    requires x in vis && x < |c.defs| && c.defs[x].defined
    ensures Below(Reads(c, c.defs[x]), Lookup(c, tri0), Lookup(c, tri))
  {
    hide Mentions;
    forall r | r in Reads(c, c.defs[x]) && Lookup(c, tri0)(r).Some?
      ensures Lookup(c, tri)(r) == Lookup(c, tri0)(r)
    {
      if Fixed(c, r).None? { StillCached(c, vis0, vis, x, r); }
    }
  }

  /** A sweep after a change of one symbol's user value leaves only good values cached,
      although it stops at symbols that have nothing cached. */
  lemma SweepKeepsReplay(c: Config, user0: map<Sym, Tri>, user: map<Sym, Tri>,
                         vis0: map<Sym, Tri>, tri0: map<Sym, (Tri, bool)>,
                         vis: map<Sym, Tri>, tri: map<Sym, (Tri, bool)>, s: Sym)
    requires WellFormed(c) && Replays(c, user0, vis0, tri0)
    requires forall x :: x != s ==> UserOf(user, x) == UserOf(user0, x)
    requires Shrunk(vis, vis0) && Shrunk(tri, tri0) && Swept(c, vis0, vis) && s !in vis
    requires forall x :: x in tri0 ==> (x in vis <==> x in tri)
    ensures Replays(c, user, vis, tri)
  {
    hide TriBody, VisBody, Mentions, Lookup, Swept, Reads, IsDependent;
    var v, w := Lookup(c, tri0), Lookup(c, tri);
    forall x | x in vis ensures VisBody(c, c.defs[x], w) == Some(vis[x]) {
      if c.defs[x].defined {
        SweepAgrees(c, vis0, tri0, vis, tri, x);
        VisMono(c, c.defs[x], v, w);
      } else {
        UndefinedVis(c, c.defs[x], v, w);
      }
    }
    forall x | x in tri ensures TriBody(c, c.defs[x], UserOf(user, x), w) == Some(tri[x]) {
      SweepAgrees(c, vis0, tri0, vis, tri, x);
      TriMono(c, c.defs[x], UserOf(user, x), v, w);
    }
  }

  lemma UndefinedVis(c: Config, d: SymDef, v: Valuation, w: Valuation)
    requires d.prompts == []
    ensures VisBody(c, d, v) == VisBody(c, d, w) == Some(0)
  {
  }

  /** User values have no effect on symbols without a prompt, so their change needs no sweep. */
  lemma PromptlessKeepsReplay(c: Config, user0: map<Sym, Tri>, user: map<Sym, Tri>,
                              vis: map<Sym, Tri>, tri: map<Sym, (Tri, bool)>, s: Sym)
    requires Replays(c, user0, vis, tri) && s < |c.defs| && c.defs[s].prompts == []
    requires forall x :: x != s ==> UserOf(user, x) == UserOf(user0, x)
    ensures Replays(c, user, vis, tri)
  {
    if s in tri {
      PromptlessBody(c, c.defs[s], UserOf(user0, s), UserOf(user, s), Lookup(c, tri));
    }
  }

  lemma PromptlessBody(c: Config, d: SymDef, u: Option<Tri>, u': Option<Tri>, val: Valuation)
    requires d.prompts == []
    ensures TriBody(c, d, u, val) == TriBody(c, d, u', val)
  {
    UndefinedVis(c, d, val, val);
  }
}
