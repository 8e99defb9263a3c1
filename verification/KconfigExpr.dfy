/** Kconfig expressions: evaluation, printing and parsing.

    An expression is a tree over symbols.  Values are tristate: n, m and y count
    as 0, 1 and 2.  Evaluation is partial: a symbol's value may be missing, which
    stands for a cache miss in one use and for exhausted recursion in another.
    The printer yields the token list of the text it would write. */
module KconfigExpr {
  import opened Options

  type Tri = v: int | 0 <= v <= 2

  type Sym = nat

  datatype Rel = Equal | Unequal | Less | LessEqual | Greater | GreaterEqual

  datatype Expr =
    | Leaf(sym: Sym)
    | And(left: Expr, right: Expr)
    | Or(left: Expr, right: Expr)
    | Not(arg: Expr)
    | Relation(rel: Rel, a: Sym, b: Sym)

  function Min(a: int, b: int): int { if a < b then a else b }

  function Max(a: int, b: int): int { if a < b then b else a }

  // -------------------------------------------------------------------------
  // Evaluation

  /** What a relation sees of an operand: its number, if it has one, and its text. */
  datatype Operand = Operand(num: Option<int>, text: string)

  function Strcmp(s: string, t: string): int {
    if s == [] then (if t == [] then 0 else -1)
    else if t == [] then 1
    else if s[0] < t[0] then -1
    else if t[0] < s[0] then 1
    else Strcmp(s[1..], t[1..])
  }

  /** Numbers are compared as numbers; if either operand has none, the texts are compared. */
  function Compare(a: Operand, b: Operand): int {
    if a.num.Some? && b.num.Some? then a.num.value - b.num.value else Strcmp(a.text, b.text)
  }

  function RelHolds(rel: Rel, comp: int): bool {
    match rel
    case Equal => comp == 0
    case Unequal => comp != 0
    case Less => comp < 0
    case LessEqual => comp <= 0
    case Greater => comp > 0
    case GreaterEqual => comp >= 0
  }

  /** The values an expression is evaluated under, and how each symbol compares
      given its tristate value. */
  datatype Env = Env(val: Sym -> Option<Tri>, operand: (Sym, Tri) -> Operand)

  /** `&&` does not look at its right operand when the left is n, nor `||` when
      the left is y. */
  function Value(e: Expr, env: Env): Option<Tri> {
    match e
    case Leaf(s) => env.val(s)
    case And(l, r) =>
      var v1 :- Value(l, env);
      if v1 == 0 then Some(0) else
        var v2 :- Value(r, env);
        Some(Min(v1, v2))
    case Or(l, r) =>
      var v1 :- Value(l, env);
      if v1 == 2 then Some(2) else
        var v2 :- Value(r, env);
        Some(Max(v1, v2))
    case Not(a) =>
      var v :- Value(a, env);
      Some(2 - v)
    case Relation(rel, a, b) =>
      var va :- env.val(a);
      var vb :- env.val(b);
      Some(if RelHolds(rel, Compare(env.operand(a, va), env.operand(b, vb))) then 2 else 0)
  }

  /** The same value with both operands always looked at. */
  function FullValue(e: Expr, val: Sym -> Tri, operand: (Sym, Tri) -> Operand): Tri {
    match e
    case Leaf(s) => val(s)
    case And(l, r) => Min(FullValue(l, val, operand), FullValue(r, val, operand))
    case Or(l, r) => Max(FullValue(l, val, operand), FullValue(r, val, operand))
    case Not(a) => 2 - FullValue(a, val, operand)
    case Relation(rel, a, b) =>
      if RelHolds(rel, Compare(operand(a, val(a)), operand(b, val(b)))) then 2 else 0
  }

  /** Short-circuiting never changes the outcome. */
  lemma {:induction false} ShortCircuit(e: Expr, env: Env, val: Sym -> Tri)
    requires forall s :: s in Syms(e) ==> env.val(s) == Some(val(s))
    ensures Value(e, env) == Some(FullValue(e, val, env.operand))
  {
    match e
    case And(l, r) => ShortCircuit(l, env, val); ShortCircuit(r, env, val);
    case Or(l, r) => ShortCircuit(l, env, val); ShortCircuit(r, env, val);
    case Not(a) => ShortCircuit(a, env, val);
    case _ =>
  }

  function Syms(e: Expr): set<Sym> {
    match e
    case Leaf(s) => {s}
    case And(l, r) => Syms(l) + Syms(r)
    case Or(l, r) => Syms(l) + Syms(r)
    case Not(a) => Syms(a)
    case Relation(_, a, b) => {a, b}
  }

  // -------------------------------------------------------------------------
  // Printing

  datatype Token =
    | TSym(sym: Sym)
    | TAnd | TOr | TNot | TOpen | TClose
    | TRel(rel: Rel)
    | TOther(code: nat)  // any other keyword or a string

  function Print(e: Expr): seq<Token>
    decreases e, 0
  {
    match e
    case Leaf(s) => [TSym(s)]
    case And(l, r) => Operands(l, true) + [TAnd] + Operands(r, true)
    case Or(l, r) => Operands(l, false) + [TOr] + Operands(r, false)
    case Not(a) => if a.Leaf? then [TNot] + Print(a) else [TNot, TOpen] + Print(a) + [TClose]
    case Relation(rel, a, b) => [TSym(a), TRel(rel), TSym(b)]
  }

  /** An operand of `&&` is parenthesized when it is an `||`, and the other way round. */
  function Operands(e: Expr, ofAnd: bool): seq<Token>
    decreases e, 1
  {
    if (ofAnd && e.Or?) || (!ofAnd && e.And?) then [TOpen] + Print(e) + [TClose] else Print(e)
  }

  // -------------------------------------------------------------------------
  // Parsing

  /** Parsing a prefix of a token list yields an expression and the rest, or an error.
      The end of the list stands for the terminating None token. */
  datatype Parse = Parsed(expr: Expr, rest: seq<Token>) | ParseError

  predicate Head(ts: seq<Token>, t: Token) { ts != [] && ts[0] == t }

  /** With `ctx.Some?` (conditional expressions) a plain `m` means `m && MODULES`. */
  datatype Context = Context(m: Sym, modules: Sym)

  function PlainSymbol(s: Sym, ctx: Option<Context>): Expr {
    if ctx.Some? && s == ctx.value.m then And(Leaf(s), Leaf(ctx.value.modules)) else Leaf(s)
  }

  function ParseExpr(ts: seq<Token>, ctx: Option<Context>): (p: Parse)
    ensures p.Parsed? ==> |p.rest| < |ts|
    decreases |ts|, 2
  {
    match ParseAnd(ts, ctx)
    case ParseError => ParseError
    case Parsed(l, rest) =>
      if !Head(rest, TOr) then Parsed(l, rest) else
      match ParseExpr(rest[1..], ctx)
      case ParseError => ParseError
      case Parsed(r, rest') => Parsed(Or(l, r), rest')
  }

  function ParseAnd(ts: seq<Token>, ctx: Option<Context>): (p: Parse)
    ensures p.Parsed? ==> |p.rest| < |ts|
    decreases |ts|, 1
  {
    match ParseFactor(ts, ctx)
    case ParseError => ParseError
    case Parsed(l, rest) =>
      if !Head(rest, TAnd) then Parsed(l, rest) else
      match ParseAnd(rest[1..], ctx)
      case ParseError => ParseError
      case Parsed(r, rest') => Parsed(And(l, r), rest')
  }

  function ParseFactor(ts: seq<Token>, ctx: Option<Context>): (p: Parse)
    ensures p.Parsed? ==> |p.rest| < |ts|
    decreases |ts|, 0
  {
    if ts == [] then ParseError else
    match ts[0]
    case TSym(s) =>
      if |ts| == 1 || !ts[1].TRel? then Parsed(PlainSymbol(s, ctx), ts[1..])
      else if |ts| == 2 || !ts[2].TSym? then ParseError
      else Parsed(Relation(ts[1].rel, s, ts[2].sym), ts[3..])
    case TNot =>
      (match ParseFactor(ts[1..], ctx)
       case ParseError => ParseError
       case Parsed(e, rest) => Parsed(Not(e), rest))
    case TOpen =>
      (match ParseExpr(ts[1..], ctx)
       case ParseError => ParseError
       case Parsed(e, rest) => if Head(rest, TClose) then Parsed(e, rest[1..]) else ParseError)
    case _ => ParseError
  }

  lemma SymbolFactor(a: Sym, rest: seq<Token>)
    requires rest == [] || !rest[0].TRel?
    ensures ParseFactor([TSym(a)] + rest, None) == Parsed(Leaf(a), rest)
  {
    assert ([TSym(a)] + rest)[1..] == rest;
  }

  lemma SymbolAnd(a: Sym, rest: seq<Token>)
    requires rest == [] || (!rest[0].TRel? && rest[0] != TAnd)
    ensures ParseAnd([TSym(a)] + rest, None) == Parsed(Leaf(a), rest)
  {
    SymbolFactor(a, rest);
  }

  lemma SymbolsAnd(a: Sym, b: Sym, rest: seq<Token>)
    requires rest == [] || (!rest[0].TRel? && rest[0] != TAnd)
    ensures ParseAnd([TSym(a), TAnd, TSym(b)] + rest, None) == Parsed(And(Leaf(a), Leaf(b)), rest)
  {
    hide ParseFactor;
    var ts := [TSym(a), TAnd, TSym(b)] + rest;
    SymbolFactor(a, [TAnd, TSym(b)] + rest);
    SymbolAnd(b, rest);
    assert ts == [TSym(a)] + ([TAnd, TSym(b)] + rest);
    assert ([TAnd, TSym(b)] + rest)[1..] == [TSym(b)] + rest;
  }

  /** In a condition a plain m stands for m && MODULES; other symbols, and m in a relation, for themselves. */
  lemma PlainM(ctx: Context, a: Sym, b: Sym, rel: Rel)
    ensures ParseFactor([TSym(ctx.m)], Some(ctx)) == Parsed(And(Leaf(ctx.m), Leaf(ctx.modules)), [])
    ensures a != ctx.m ==> ParseFactor([TSym(a)], Some(ctx)) == Parsed(Leaf(a), [])
    ensures ParseFactor([TSym(a), TRel(rel), TSym(b)], Some(ctx)) == Parsed(Relation(rel, a, b), [])
  {
    assert [TSym(ctx.m)][1..] == [] && [TSym(a)][1..] == [];
  }

  /** `&&` binds tighter than `||`, whichever comes first. */
  lemma AndBindsTighter(a: Sym, b: Sym, c: Sym)
    ensures ParseExpr([TSym(a), TOr, TSym(b), TAnd, TSym(c)], None)
         == Parsed(Or(Leaf(a), And(Leaf(b), Leaf(c))), [])
    ensures ParseExpr([TSym(a), TAnd, TSym(b), TOr, TSym(c)], None)
         == Parsed(Or(And(Leaf(a), Leaf(b)), Leaf(c)), [])
  {
    hide ParseFactor, ParseAnd;
    var x, y := [TOr, TSym(b), TAnd, TSym(c)], [TOr, TSym(c)];
    SymbolAnd(a, x);
    SymbolsAnd(b, c, []);
    assert x[1..] == [TSym(b), TAnd, TSym(c)] + [] && [TSym(a)] + x == [TSym(a), TOr, TSym(b), TAnd, TSym(c)];
    SymbolsAnd(a, b, y);
    SymbolAnd(c, []);
    assert y[1..] == [TSym(c)] + [] && [TSym(a), TAnd, TSym(b)] + y == [TSym(a), TAnd, TSym(b), TOr, TSym(c)];
  }

  /** `!` and relations bind tighter than both. */
  lemma NotBindsTightest(a: Sym, b: Sym, c: Sym, rel: Rel)
    ensures ParseAnd([TNot, TSym(a), TRel(rel), TSym(b), TAnd, TSym(c)], None)
         == Parsed(And(Not(Relation(rel, a, b)), Leaf(c)), [])
  {
    var ts := [TNot, TSym(a), TRel(rel), TSym(b), TAnd, TSym(c)];
    assert ts[1..][3..] == [TAnd, TSym(c)];
    assert ParseFactor(ts[1..], None) == Parsed(Relation(rel, a, b), [TAnd, TSym(c)]);
    SymbolAnd(c, []);
    assert [TAnd, TSym(c)][1..] == [TSym(c)] + [];
  }

  // -------------------------------------------------------------------------
  // Round trip

  /** What parsing the print of `e` yields: chains of `&&` and of `||` lean to the
      right, and a plain `m` is rewritten when there is a context. */
  function Normal(e: Expr, ctx: Option<Context>): Expr
    decreases e, 0
  {
    match e
    case Leaf(s) => PlainSymbol(s, ctx)
    case And(l, r) => AndOnto(l, Normal(r, ctx), ctx)
    case Or(l, r) => OrOnto(l, Normal(r, ctx), ctx)
    case Not(a) => Not(Normal(a, ctx))
    case Relation(_, _, _) => e
  }

  function AndOnto(e: Expr, tail: Expr, ctx: Option<Context>): (r: Expr)
    ensures r.And?
    decreases e, 1
  {
    if e.And? then AndOnto(e.left, AndOnto(e.right, tail, ctx), ctx) else And(Normal(e, ctx), tail)
  }

  function OrOnto(e: Expr, tail: Expr, ctx: Option<Context>): (r: Expr)
    ensures r.Or?
    decreases e, 1
  {
    if e.Or? then OrOnto(e.left, OrOnto(e.right, tail, ctx), ctx) else Or(Normal(e, ctx), tail)
  }

  ghost predicate NoRel(rest: seq<Token>) { rest == [] || !rest[0].TRel? }

  ghost predicate EndsAnd(rest: seq<Token>) { NoRel(rest) && !Head(rest, TAnd) }

  ghost predicate EndsOr(rest: seq<Token>) { EndsAnd(rest) && !Head(rest, TOr) }

  /** Parentheses turn any printed expression into a factor. */
  lemma {:induction false} Parenthesized(e: Expr, rest: seq<Token>, ctx: Option<Context>)
    ensures ParseFactor([TOpen] + Print(e) + [TClose] + rest, ctx) == Parsed(Normal(e, ctx), rest)
    decreases e, 3
  {
    var ts := [TOpen] + Print(e) + [TClose] + rest;
    assert ts[1..] == Print(e) + ([TClose] + rest);
    PrintedExpr(e, [TClose] + rest, ctx);
    assert ([TClose] + rest)[1..] == rest;
  }

  /** An expression that is neither an `&&` nor an `||` prints as a factor. */
  lemma {:induction false} PrintedFactor(e: Expr, rest: seq<Token>, ctx: Option<Context>)
    requires !e.And? && !e.Or?
    requires NoRel(rest)
    ensures ParseFactor(Print(e) + rest, ctx) == Parsed(Normal(e, ctx), rest)
    decreases e, 0
  {
    var ts := Print(e) + rest;
    match e
    case Leaf(s) =>
      assert ts[1..] == rest;
    case Relation(_, _, _) =>
      assert ts[3..] == rest;
    case Not(a) =>
      if a.Leaf? {
        assert ts[1..] == Print(a) + rest;
        PrintedFactor(a, rest, ctx);
      } else {
        assert ts[1..] == [TOpen] + Print(a) + [TClose] + rest;
        Parenthesized(a, rest, ctx);
      }
  }

  lemma {:induction false} OperandFactor(e: Expr, ofAnd: bool, rest: seq<Token>, ctx: Option<Context>)
    requires if ofAnd then !e.And? else e.And?
    requires NoRel(rest)
    ensures ParseFactor(Operands(e, ofAnd) + rest, ctx) == Parsed(Normal(e, ctx), rest)
    decreases e, 4
  {
    if e.And? || e.Or? {
      assert Operands(e, ofAnd) + rest == [TOpen] + Print(e) + [TClose] + rest;
      Parenthesized(e, rest, ctx);
    } else {
      PrintedFactor(e, rest, ctx);
    }
  }

  /** An `&&`-operand followed by `&&` and more is prefixed, re-associated, to that more. */
  lemma {:induction false} AndChain(e: Expr, more: seq<Token>, tail: Expr, rest: seq<Token>, ctx: Option<Context>)
    requires ParseAnd(more, ctx) == Parsed(tail, rest)
    ensures ParseAnd(Operands(e, true) + [TAnd] + more, ctx) == Parsed(AndOnto(e, tail, ctx), rest)
    decreases e, 5
  {
    hide ParseExpr, ParseFactor;
    if e.And? {
      var inner := Operands(e.right, true) + [TAnd] + more;
      AndChain(e.right, more, tail, rest, ctx);
      AndChain(e.left, inner, AndOnto(e.right, tail, ctx), rest, ctx);
      assert Operands(e, true) + [TAnd] + more == Operands(e.left, true) + [TAnd] + inner;
    } else {
      OperandFactor(e, true, [TAnd] + more, ctx);
      assert Operands(e, true) + [TAnd] + more == Operands(e, true) + ([TAnd] + more);
      assert ([TAnd] + more)[1..] == more;
    }
  }

  lemma {:induction false} AndOperand(e: Expr, rest: seq<Token>, ctx: Option<Context>)
    requires EndsAnd(rest)
    ensures ParseAnd(Operands(e, true) + rest, ctx) == Parsed(Normal(e, ctx), rest)
    decreases e, 6
  {
    if e.And? {
      AndOperand(e.right, rest, ctx);
      AndChain(e.left, Operands(e.right, true) + rest, Normal(e.right, ctx), rest, ctx);
      assert Operands(e, true) + rest == Operands(e.left, true) + [TAnd] + (Operands(e.right, true) + rest);
    } else {
      OperandFactor(e, true, rest, ctx);
    }
  }

  /** An `||`-operand that is not itself an `||` parses as an and-expression. */
  lemma {:induction false} OrOperandAnd(e: Expr, rest: seq<Token>, ctx: Option<Context>)
    requires !e.Or?
    requires EndsAnd(rest)
    ensures ParseAnd(Operands(e, false) + rest, ctx) == Parsed(Normal(e, ctx), rest)
    decreases e, 6
  {
    if e.And? {
      OperandFactor(e, false, rest, ctx);
    } else {
      PrintedFactor(e, rest, ctx);
    }
  }

  lemma {:induction false} OrChain(e: Expr, more: seq<Token>, tail: Expr, rest: seq<Token>, ctx: Option<Context>)
    requires ParseExpr(more, ctx) == Parsed(tail, rest)
    ensures ParseExpr(Operands(e, false) + [TOr] + more, ctx) == Parsed(OrOnto(e, tail, ctx), rest)
    decreases e, 7
  {
    hide ParseAnd, ParseFactor;
    if e.Or? {
      var inner := Operands(e.right, false) + [TOr] + more;
      OrChain(e.right, more, tail, rest, ctx);
      OrChain(e.left, inner, OrOnto(e.right, tail, ctx), rest, ctx);
      assert Operands(e, false) + [TOr] + more == Operands(e.left, false) + [TOr] + inner;
    } else {
      OrOperandAnd(e, [TOr] + more, ctx);
      assert Operands(e, false) + [TOr] + more == Operands(e, false) + ([TOr] + more);
      assert ([TOr] + more)[1..] == more;
    }
  }

  lemma {:induction false} OrOperand(e: Expr, rest: seq<Token>, ctx: Option<Context>)
    requires EndsOr(rest)
    ensures ParseExpr(Operands(e, false) + rest, ctx) == Parsed(Normal(e, ctx), rest)
    decreases e, 8
  {
    if e.Or? {
      OrOperand(e.right, rest, ctx);
      OrChain(e.left, Operands(e.right, false) + rest, Normal(e.right, ctx), rest, ctx);
      assert Operands(e, false) + rest == Operands(e.left, false) + [TOr] + (Operands(e.right, false) + rest);
    } else {
      OrOperandAnd(e, rest, ctx);
    }
  }

  /** Main step: the printed expression is consumed exactly, whatever follows it,
      as long as what follows cannot continue an expression. */
  lemma {:induction false} PrintedExpr(e: Expr, rest: seq<Token>, ctx: Option<Context>)
    requires EndsOr(rest)
    ensures ParseExpr(Print(e) + rest, ctx) == Parsed(Normal(e, ctx), rest)
    decreases e, 2
  {
    hide ParseFactor, Operands;
    match e
    case And(l, r) =>
      AndOperand(r, rest, ctx);
      AndChain(l, Operands(r, true) + rest, Normal(r, ctx), rest, ctx);
      assert Print(e) + rest == Operands(l, true) + [TAnd] + (Operands(r, true) + rest);
    case Or(l, r) =>
      OrOperand(r, rest, ctx);
      OrChain(l, Operands(r, false) + rest, Normal(r, ctx), rest, ctx);
      assert Print(e) + rest == Operands(l, false) + [TOr] + (Operands(r, false) + rest);
    case _ =>
      PrintedFactor(e, rest, ctx);
  }

  /** Parsing the print of any expression succeeds, uses up every token, and gives
      the right-leaning form. */
  lemma RoundTrip(e: Expr, ctx: Option<Context>)
    ensures ParseExpr(Print(e), ctx) == Parsed(Normal(e, ctx), [])
  {
    PrintedExpr(e, [], ctx);
    assert Print(e) + [] == Print(e);
  }

  // -------------------------------------------------------------------------
  // Meaning

  function AndValue(a: Option<Tri>, b: Option<Tri>): Option<Tri> {
    if a == Some(0) then a else if a.None? || b.None? then None else Some(Min(a.value, b.value))
  }

  function OrValue(a: Option<Tri>, b: Option<Tri>): Option<Tri> {
    if a == Some(2) then a else if a.None? || b.None? then None else Some(Max(a.value, b.value))
  }

  lemma {:induction false} AndOntoValue(e: Expr, tail: Expr, env: Env)
    ensures Value(AndOnto(e, tail, None), env) == AndValue(Value(e, env), Value(tail, env))
    decreases e, 1
  {
    if e.And? {
      AndOntoValue(e.left, AndOnto(e.right, tail, None), env);
      AndOntoValue(e.right, tail, env);
    } else {
      NormalValue(e, env);
    }
  }

  lemma {:induction false} OrOntoValue(e: Expr, tail: Expr, env: Env)
    ensures Value(OrOnto(e, tail, None), env) == OrValue(Value(e, env), Value(tail, env))
    decreases e, 1
  {
    if e.Or? {
      OrOntoValue(e.left, OrOnto(e.right, tail, None), env);
      OrOntoValue(e.right, tail, env);
    } else {
      NormalValue(e, env);
    }
  }

  /** Re-association changes no value, not even which values may be missing. */
  lemma {:induction false} NormalValue(e: Expr, env: Env)
    ensures Value(Normal(e, None), env) == Value(e, env)
    decreases e, 0
  {
    match e
    case And(l, r) =>
      AndOntoValue(l, Normal(r, None), env);
      NormalValue(r, env);
    case Or(l, r) =>
      OrOntoValue(l, Normal(r, None), env);
      NormalValue(r, env);
    case Not(a) =>
      NormalValue(a, env);
    case _ =>
  }

  lemma RoundTripKeepsMeaning(e: Expr, env: Env)
    ensures var p := ParseExpr(Print(e), None);
            p.Parsed? && p.rest == [] && Value(p.expr, env) == Value(e, env)
  {
    RoundTrip(e, None);
    NormalValue(e, env);
  }

  lemma {:induction false} AndOntoPrint(e: Expr, tail: Expr)
    ensures Operands(AndOnto(e, tail, None), true) == Operands(e, true) + [TAnd] + Operands(tail, true)
    decreases e, 1
  {
    if e.And? {
      AndOntoPrint(e.left, AndOnto(e.right, tail, None));
      AndOntoPrint(e.right, tail);
    } else {
      NormalPrint(e);
      assert Operands(Normal(e, None), true) == Operands(e, true);
    }
  }

  lemma {:induction false} OrOntoPrint(e: Expr, tail: Expr)
    ensures Operands(OrOnto(e, tail, None), false) == Operands(e, false) + [TOr] + Operands(tail, false)
    decreases e, 1
  {
    if e.Or? {
      OrOntoPrint(e.left, OrOnto(e.right, tail, None));
      OrOntoPrint(e.right, tail);
    } else {
      NormalPrint(e);
      assert Operands(Normal(e, None), false) == Operands(e, false);
    }
  }

  /** The right-leaning form prints like the original and keeps the top operator. */
  lemma {:induction false} NormalPrint(e: Expr)
    ensures Print(Normal(e, None)) == Print(e)
    ensures Normal(e, None).And? == e.And? && Normal(e, None).Or? == e.Or? && Normal(e, None).Leaf? == e.Leaf?
    decreases e, 0
  {
    match e
    case And(l, r) =>
      AndOntoPrint(l, Normal(r, None));
      NormalPrint(r);
      assert Operands(Normal(r, None), true) == Operands(r, true);
    case Or(l, r) =>
      OrOntoPrint(l, Normal(r, None));
      NormalPrint(r);
      assert Operands(Normal(r, None), false) == Operands(r, false);
    case Not(a) =>
      NormalPrint(a);
    case _ =>
  }

  /** Two expressions print alike exactly when they agree up to re-association. */
  lemma SamePrintIffSameNormal(e: Expr, f: Expr)
    ensures Print(e) == Print(f) <==> Normal(e, None) == Normal(f, None)
  {
    RoundTrip(e, None);
    RoundTrip(f, None);
    NormalPrint(e);
    NormalPrint(f);
  }

  // -------------------------------------------------------------------------
  // The parser as it runs, with a token index

  class Parser {
    const tokens: seq<Token>
    const ctx: Option<Context>
    var i: nat

    constructor (tokens: seq<Token>, ctx: Option<Context>)
      ensures this.tokens == tokens && this.ctx == ctx && i == 0
    {
      this.tokens, this.ctx, i := tokens, ctx, 0;
    }

    ghost function Rest(): seq<Token>
      reads this
    {
      if i <= |tokens| then tokens[i..] else []
    }

    /** The field and the result say what `p` says. */
    ghost predicate Outcome(p: Parse, r: Option<Expr>)
      reads this
    {
      match p
      case ParseError => r.None?
      case Parsed(e, rest) => r == Some(e) && i <= |tokens| && Rest() == rest
    }

    method CheckToken(t: Token) returns (found: bool)
      modifies this
      ensures found == Head(old(Rest()), t)
      ensures found ==> i == old(i) + 1 && Rest() == old(Rest())[1..]
      ensures !found ==> i == old(i)
    {
      found := i < |tokens| && tokens[i] == t;
      if found {
        i := i + 1;
      }
    }

    method Expr() returns (r: Option<Expr>)
      requires i <= |tokens|
      modifies this
      ensures Outcome(ParseExpr(old(Rest()), ctx), r)
      decreases |tokens| - i, 2
    {
      r := AndExpr();
      if r.None? { return; }
      var more := CheckToken(TOr);
      if more {
        var right := this.Expr();
        r := if right.None? then None else Some(Or(r.value, right.value));
      }
    }

    method AndExpr() returns (r: Option<Expr>)
      requires i <= |tokens|
      modifies this
      ensures Outcome(ParseAnd(old(Rest()), ctx), r)
      decreases |tokens| - i, 1
    {
      r := Factor();
      if r.None? { return; }
      var more := CheckToken(TAnd);
      if more {
        var right := AndExpr();
        r := if right.None? then None else Some(And(r.value, right.value));
      }
    }

    method Factor() returns (r: Option<Expr>)
      requires i <= |tokens|
      modifies this
      ensures Outcome(ParseFactor(old(Rest()), ctx), r)
      decreases |tokens| - i, 0
    {
      if i == |tokens| { return None; }
      var token := tokens[i];
      i := i + 1;
      match token {
        case TSym(s) =>
          if i == |tokens| || !tokens[i].TRel? {
            return Some(PlainSymbol(s, ctx));
          }
          i := i + 2;
          if i - 1 == |tokens| || !tokens[i - 1].TSym? {
            return None;
          }
          return Some(Relation(tokens[i - 2].rel, s, tokens[i - 1].sym));
        case TNot =>
          r := Factor();
          if r.Some? { r := Some(Not(r.value)); }
        case TOpen =>
          r := this.Expr();
          if r.Some? {
            var closed := CheckToken(TClose);
            if !closed { r := None; }
          }
        case _ =>
          r := None;
      }
    }
  }
}
