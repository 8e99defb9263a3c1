/** What the values of a configuration mean, without saying how they are computed.

    An expression is read as a question: is it at least m, is it at least y?  A symbol has
    the least value its type allows that covers everything in its favour.  Exactly one
    assignment gives every symbol such a value, and it is the one evaluation finds. */
module KconfigMeaning {
  import opened Options
  import opened KconfigExpr
  import opened KconfigCache

  type Assignment = Sym -> Tri

  // -------------------------------------------------------------------------
  // Expressions

  ghost predicate BeforeAt(s: string, t: string, k: nat) {
    k <= |s| && k < |t| && s[..k] == t[..k] && (k == |s| || s[k] < t[k])
  }

  /** `s` comes before `t` in a dictionary: they part at some place. */
  ghost predicate Lexical(s: string, t: string) { exists k :: BeforeAt(s, t, k) }

  ghost predicate Same(a: Operand, b: Operand) {
    if a.num.Some? && b.num.Some? then a.num.value == b.num.value else a.text == b.text
  }

  ghost predicate Before(a: Operand, b: Operand) {
    if a.num.Some? && b.num.Some? then a.num.value < b.num.value else Lexical(a.text, b.text)
  }

  ghost predicate Related(rel: Rel, a: Operand, b: Operand) {
    match rel
    case Equal => Same(a, b)
    case Unequal => !Same(a, b)
    case Less => Before(a, b)
    case LessEqual => Before(a, b) || Same(a, b)
    case Greater => Before(b, a)
    case GreaterEqual => Before(b, a) || Same(a, b)
  }

  /** A symbol with a type compares by its value, any other by its name. */
  ghost function Operands(c: Config, w: Assignment, s: Sym): Operand {
    if s < |c.defs| && c.defs[s].orig == Unknown then Operand(c.defs[s].num, c.defs[s].name)
    else Operand(Some(w(s)), ["n", "m", "y"][w(s)])
  }

  /** The expression is at least `t`, for m and y. */
  ghost predicate Holds(c: Config, w: Assignment, e: Expr, t: Tri) {
    match e
    case Leaf(s) => w(s) >= t
    case And(l, r) => Holds(c, w, l, t) && Holds(c, w, r, t)
    case Or(l, r) => Holds(c, w, l, t) || Holds(c, w, r, t)
    case Not(a) => t == 0 || !Holds(c, w, a, 3 - t)
    case Relation(rel, a, b) => t == 0 || Related(rel, Operands(c, w, a), Operands(c, w, b))
  }

  lemma SameFirst(s: string, t: string, k: nat)
    requires BeforeAt(s, t, k)
    ensures k > 0 ==> s[0] == t[0]
  {
    assert k > 0 ==> s[..k][0] == t[..k][0];
  }

  lemma LexicalFirst(s: string, t: string)
    requires s == [] || t == [] || s[0] != t[0]
    ensures Lexical(s, t) <==> t != [] && (s == [] || s[0] < t[0])
  {
    forall k | BeforeAt(s, t, k) { SameFirst(s, t, k); }
    assert t != [] && (s == [] || s[0] < t[0]) ==> BeforeAt(s, t, 0);
  }

  lemma LexicalRest(s: string, t: string)
    requires s != [] && t != [] && s[0] == t[0]
    ensures Lexical(s, t) <==> Lexical(s[1..], t[1..])
  {
    if k: nat :| BeforeAt(s[1..], t[1..], k) {
      assert s[..k + 1] == [s[0]] + s[1..][..k] && t[..k + 1] == [t[0]] + t[1..][..k];
      assert BeforeAt(s, t, k + 1);
    }
    if k: nat :| BeforeAt(s, t, k) {
      assert s[1..][..k - 1] == s[..k][1..] && t[1..][..k - 1] == t[..k][1..];
      assert BeforeAt(s[1..], t[1..], k - 1);
    }
  }

  lemma {:induction false} StrcmpOrders(s: string, t: string)
    ensures Strcmp(s, t) == 0 <==> s == t
    ensures Strcmp(s, t) < 0 <==> Lexical(s, t)
    ensures Strcmp(s, t) == -Strcmp(t, s)
  {
    hide Lexical;
    if s != [] && t != [] && s[0] == t[0] {
      StrcmpOrders(s[1..], t[1..]);
      LexicalRest(s, t);
      assert s == [s[0]] + s[1..] && t == [t[0]] + t[1..];
    } else {
      LexicalFirst(s, t);
    }
  }

  lemma CompareOrders(rel: Rel, a: Operand, b: Operand)
    ensures RelHolds(rel, Compare(a, b)) <==> Related(rel, a, b)
  {
    StrcmpOrders(a.text, b.text);
    StrcmpOrders(b.text, a.text);
  }

  /** Everything in `on` is known, with the values of `w`. */
  ghost predicate Knows(val: Valuation, w: Assignment, on: set<Sym>) {
    forall s :: s in on ==> val(s) == Some(w(s))
  }

  /** Evaluating an expression answers both questions. */
  lemma {:induction false} ValueHolds(c: Config, val: Valuation, w: Assignment, e: Expr)
    requires Knows(val, w, Syms(e))
    ensures Value(e, In(c, val)).Some?
    ensures forall t: Tri :: Value(e, In(c, val)).value >= t <==> Holds(c, w, e, t)
  {
    match e
    case Leaf(s) => assert val(s) == Some(w(s));
    case And(l, r) => ValueHolds(c, val, w, l); ValueHolds(c, val, w, r);
    case Or(l, r) => ValueHolds(c, val, w, l); ValueHolds(c, val, w, r);
    case Not(a) => ValueHolds(c, val, w, a);
    case Relation(rel, a, b) =>
      assert val(a) == Some(w(a)) && val(b) == Some(w(b));
      CompareOrders(rel, Operands(c, w, a), Operands(c, w, b));
  }

  // -------------------------------------------------------------------------
  // Symbols

  /** m is for tristate symbols, and only while MODULES is not n. */
  ghost predicate Admits(c: Config, d: SymDef, w: Assignment, t: Tri) {
    t == 1 ==> d.orig == Tristate && w(c.modules) != 0
  }

  ghost predicate AnyHolds(c: Config, w: Assignment, es: seq<Expr>, t: Tri) {
    exists k :: 0 <= k < |es| && Holds(c, w, es[k], t)
  }

  /** Some prompt lets the user raise the symbol to `t`; where there is no m, m will do for y. */
  ghost predicate Visible(c: Config, d: SymDef, w: Assignment, t: Tri) {
    AnyHolds(c, w, d.prompts, t) || (!Admits(c, d, w, 1) && AnyHolds(c, w, d.prompts, 1))
  }

  /** Default `k` is the first whose condition is not n, and it is at least `t`. */
  ghost predicate DefaultAt(c: Config, w: Assignment, ds: seq<(Expr, Expr)>, t: Tri, k: nat) {
    && k < |ds| && (forall j :: 0 <= j < k ==> !Holds(c, w, ds[j].1, 1))
    && Holds(c, w, ds[k].1, 1) && Holds(c, w, ds[k].1, t) && Holds(c, w, ds[k].0, t)
  }

  ghost predicate Defaulted(c: Config, w: Assignment, ds: seq<(Expr, Expr)>, t: Tri) {
    exists k :: DefaultAt(c, w, ds, t, k)
  }

  /** Selects ask for at least `t`. */
  ghost predicate Required(c: Config, d: SymDef, w: Assignment, t: Tri) { Holds(c, w, d.revDep, t) }

  /** Implies do, and the dependencies are met. */
  ghost predicate Implied(c: Config, d: SymDef, w: Assignment, t: Tri) {
    Holds(c, w, d.weakRevDep, t) && Holds(c, w, d.directDep, 1)
  }

  /** Something speaks for a value of at least `t`, m or y. */
  ghost predicate Favoured(c: Config, d: SymDef, user: Option<Tri>, w: Assignment, t: Tri) {
    || Required(c, d, w, t)
    || if user.Some? && Visible(c, d, w, 1) then user.value >= t && Visible(c, d, w, t)
       else Defaulted(c, w, d.defaults, t) || Implied(c, d, w, t)
  }

  /** An imply of y rules m out too. */
  ghost predicate Allowed(c: Config, d: SymDef, w: Assignment, t: Tri) {
    Admits(c, d, w, t) && (t == 1 ==> !Holds(c, w, d.weakRevDep, 2))
  }

  ghost predicate Covers(c: Config, d: SymDef, user: Option<Tri>, w: Assignment, v: Tri) {
    Allowed(c, d, w, v) && forall t: Tri :: t > v ==> !Favoured(c, d, user, w, t)
  }

  /** `v` is the least allowed value that covers everything in the symbol's favour. */
  ghost predicate Means(c: Config, d: SymDef, user: Option<Tri>, w: Assignment, v: Tri) {
    Covers(c, d, user, w, v) && forall u: Tri :: u < v ==> !Covers(c, d, user, w, u)
  }

  /** The symbol gets a line in the .config file. */
  ghost predicate Written(c: Config, d: SymDef, w: Assignment) {
    Visible(c, d, w, 1) || Defaulted(c, w, d.defaults, 1) || Implied(c, d, w, 1) || Required(c, d, w, 1)
  }

  lemma {:induction false} PromptsHold(c: Config, prompts: seq<Expr>, val: Valuation, w: Assignment)
    requires forall k :: 0 <= k < |prompts| ==> Knows(val, w, Syms(prompts[k]))
    ensures PromptMax(c, prompts, val).Some?
    ensures forall t: Tri :: t > 0 ==> (PromptMax(c, prompts, val).value >= t <==> AnyHolds(c, w, prompts, t))
  {
    hide Value, Holds;
    if prompts != [] {
      var n := |prompts| - 1;
      PromptsHold(c, prompts[..n], val, w);
      ValueHolds(c, val, w, prompts[n]);
      forall t: Tri
        ensures AnyHolds(c, w, prompts, t) <==> AnyHolds(c, w, prompts[..n], t) || Holds(c, w, prompts[n], t)
      {
        assert forall k :: 0 <= k < n ==> prompts[..n][k] == prompts[k];
      }
    }
  }

  /** The visibility of a symbol is how far the user may raise it. */
  lemma VisibilityMeans(c: Config, d: SymDef, val: Valuation, w: Assignment)
    requires Knows(val, w, Reads(c, d))
    ensures VisBody(c, d, val).Some?
    ensures forall t: Tri :: t > 0 ==> (VisBody(c, d, val).value >= t <==> Visible(c, d, w, t))
  {
    hide AnyHolds;
    PropertySyms(d);
    PromptsHold(c, d.prompts, val, w);
    assert d.orig == Tristate ==> c.modules in Reads(c, d);
  }

  lemma DefaultsShift(c: Config, w: Assignment, ds: seq<(Expr, Expr)>, t: Tri)
    requires ds != []
    ensures Defaulted(c, w, ds, t) <==>
              if Holds(c, w, ds[0].1, 1) then Holds(c, w, ds[0].1, t) && Holds(c, w, ds[0].0, t)
              else Defaulted(c, w, ds[1..], t)
  {
    hide Holds;
    assert forall k :: 0 <= k < |ds[1..]| ==> ds[1..][k] == ds[k + 1];
    if k: nat :| DefaultAt(c, w, ds[1..], t, k) {
      assert !Holds(c, w, ds[0].1, 1) ==> DefaultAt(c, w, ds, t, k + 1);
    }
    if k: nat :| DefaultAt(c, w, ds, t, k) {
      assert k > 0 ==> DefaultAt(c, w, ds[1..], t, k - 1);
    }
    if Holds(c, w, ds[0].1, 1) && Holds(c, w, ds[0].1, t) && Holds(c, w, ds[0].0, t) {
      assert DefaultAt(c, w, ds, t, 0);
    }
  }

  lemma {:induction false} DefaultsHold(c: Config, ds: seq<(Expr, Expr)>, val: Valuation, w: Assignment)
    requires forall k :: 0 <= k < |ds| ==> Knows(val, w, Syms(ds[k].0)) && Knows(val, w, Syms(ds[k].1))
    ensures var p := FirstDefault(c, ds, val);
            && p.Some? && (p.value.1 <==> p.value.0 > 0)
            && forall t: Tri :: t > 0 ==> (p.value.0 >= t <==> Defaulted(c, w, ds, t))
  {
    hide Value, Holds, Defaulted;
    if ds != [] {
      ValueHolds(c, val, w, ds[0].1);
      ValueHolds(c, val, w, ds[0].0);
      DefaultsHold(c, ds[1..], val, w);
      forall t: Tri { DefaultsShift(c, w, ds, t); }
    } else {
      NoDefaults(c, w);
    }
  }

  lemma NoDefaults(c: Config, w: Assignment)
    ensures forall t: Tri :: !Defaulted(c, w, [], t)
  {
  }

  lemma LeastCover(c: Config, d: SymDef, user: Option<Tri>, w: Assignment, most: Tri, v: Tri)
    requires forall t: Tri :: t > 0 ==> (most >= t <==> Favoured(c, d, user, w, t))
    requires v == if Allowed(c, d, w, most) then most else 2
    ensures Means(c, d, user, w, v)
  {
    hide Favoured;
    assert most > 0 ==> Favoured(c, d, user, w, most);
  }

  lemma UnsetMeans(c: Config, d: SymDef, visible: bool, val: Valuation, w: Assignment)
    requires Knows(val, w, Reads(c, d))
    ensures var p := Unset(c, d, visible, val);
            && p.Some?
            && (forall t: Tri :: t > 0 ==>
                  (p.value.0 >= t <==> Defaulted(c, w, d.defaults, t) || Implied(c, d, w, t)))
            && (p.value.1 <==> visible || Defaulted(c, w, d.defaults, 1) || Implied(c, d, w, 1))
  {
    hide Value, Holds, Defaulted, FirstDefault;
    PropertySyms(d);
    DefaultsHold(c, d.defaults, val, w);
    ValueHolds(c, val, w, d.weakRevDep);
    ValueHolds(c, val, w, d.directDep);
  }

  lemma SelectedMeans(c: Config, d: SymDef, p: (Tri, bool), val: Valuation, w: Assignment)
    requires Knows(val, w, Reads(c, d))
    ensures Selected(c, d, p, val).Some?
    ensures Selected(c, d, p, val).value.1 <==> p.1 || Required(c, d, w, 1)
    ensures forall t: Tri :: t > 0 ==>
              (Selected(c, d, p, val).value.0 >= t <==> p.0 >= t || Required(c, d, w, t))
    ensures var q := Selected(c, d, p, val).value;
            Promoted(c, d, q, val) == Some((if Allowed(c, d, w, q.0) then q.0 else 2, q.1))
  {
    hide Value, Holds;
    PropertySyms(d);
    ValueHolds(c, val, w, d.revDep);
    ValueHolds(c, val, w, d.weakRevDep);
    ValueHolds(c, val, w, d.directDep);
    assert d.orig == Tristate ==> c.modules in Reads(c, d);
  }

  /** The value of a symbol is what it means, and so is whether it gets a line. */
  lemma TriMeans(c: Config, d: SymDef, user: Option<Tri>, val: Valuation, w: Assignment)
    requires Knows(val, w, Reads(c, d))
    ensures TriBody(c, d, user, val).Some?
    ensures Means(c, d, user, w, TriBody(c, d, user, val).value.0)
    ensures TriBody(c, d, user, val).value.1 <==> Written(c, d, w)
  {
    hide Holds, Defaulted, VisBody, Visible, Implied, Unset, Promoted, Allowed, Means, Reads;
    VisibilityMeans(c, d, val, w);
    var vis := VisBody(c, d, val).value;
    UnsetMeans(c, d, vis != 0, val, w);
    var p: (Tri, bool) := if vis != 0 && user.Some? then (Min(user.value, vis), true)
                          else Unset(c, d, vis != 0, val).value;
    SelectedMeans(c, d, p, val, w);
    var q := Selected(c, d, p, val).value;
    forall t: Tri | t > 0 ensures q.0 >= t <==> Favoured(c, d, user, w, t) {
      assert vis >= 1 <==> Visible(c, d, w, 1);
      assert vis >= t <==> Visible(c, d, w, t);
    }
    LeastCover(c, d, user, w, q.0, TriBody(c, d, user, val).value.0);
  }

  lemma MeansOne(c: Config, d: SymDef, user: Option<Tri>, w: Assignment, u: Tri, v: Tri)
    requires Means(c, d, user, w, u) && Means(c, d, user, w, v)
    ensures u == v
  {
    hide Covers;
  }

  // -------------------------------------------------------------------------
  // Whole configurations

  /** Symbols without a type are n, constants are themselves, and every other symbol has the
      value it means among the others. */
  ghost predicate Consistent(c: Config, user: map<Sym, Tri>, w: Assignment) {
    forall s: Sym :: s < |c.defs| ==>
      var d := c.defs[s];
      if d.orig == Unknown then w(s) == 0 else if d.constant then w(s) == d.constVal
      else Means(c, d, if s in user then Some(user[s]) else None, w, w(s))
  }

  /** Evaluation finds the values of any consistent assignment, so there is at most one. */
  lemma {:induction false} ConsistentIsEval(c: Config, rank: seq<nat>, user: map<Sym, Tri>, w: Assignment,
                                            s: Sym, depth: nat)
    requires WellFormed(c) && Ranked(c, rank) && Consistent(c, user, w) && s < |c.defs| && depth > rank[s]
    ensures Eval(c, user, s, depth) == Some(w(s))
    decreases rank[s]
  {
    hide TriBody, Means;
    if Fixed(c, s).None? {
      var d, val := c.defs[s], Evaluator(c, user, depth - 1);
      forall r | r in Reads(c, d) ensures val(r) == Some(w(r)) {
        ConsistentIsEval(c, rank, user, w, r, depth - 1);
      }
      TriMeans(c, d, UserOf(user, s), val, w);
      MeansOne(c, d, UserOf(user, s), w, TriBody(c, d, UserOf(user, s), val).value.0, w(s));
    }
  }

  lemma {:induction false} Highest(rank: seq<nat>) returns (top: nat)
    ensures forall s :: 0 <= s < |rank| ==> rank[s] < top
  {
    if rank == [] {
      top := 0;
    } else {
      var n := |rank| - 1;
      top := Highest(rank[..n]);
      assert forall s :: 0 <= s < n ==> rank[..n][s] == rank[s];
      top := if rank[n] < top then top else rank[n] + 1;
    }
  }

  /** An order for evaluation gives a consistent assignment. */
  lemma ConsistentExists(c: Config, rank: seq<nat>, user: map<Sym, Tri>) returns (w: Assignment)
    requires WellFormed(c) && Ranked(c, rank)
    ensures Consistent(c, user, w)
  {
    hide TriBody, Means;
    var top := Highest(rank);
    w := s => if Eval(c, user, s, top).Some? then Eval(c, user, s, top).value else 0;
    var val := Evaluator(c, user, top);
    forall s: Sym | s < |c.defs| && Fixed(c, s).None? ensures Means(c, c.defs[s], UserOf(user, s), w, w(s)) {
      EvalTerminates(c, rank, user, s, top);
      EvalTerminates(c, rank, user, s, top + 1);
      forall r | r in Reads(c, c.defs[s]) ensures val(r) == Some(w(r)) {
        EvalTerminates(c, rank, user, r, top);
      }
      TriMeans(c, c.defs[s], UserOf(user, s), val, w);
    }
  }
}
