/** What the spellings of custom rules mean: the value and the answer of a spelling, by the symbol that joins its parts. */
module FocusMeaning {
  import opened Wrappers
  import opened Texts
  import opened FocusGrammar
  import opened FocusTheorems
  import opened FocusEval

  // The numbers are the reals; division and remainder are given.
  function Reals(literal: string -> real, div: (real, real) -> real, rem: (real, real) -> real): Arith<real> {
    Arith(literal, 0.0, 1.0, x => x == 0.0, (x, y) => x + y, (x, y) => x - y, (x, y) => x * y, div, rem,
          (x, y) => x >= y, (x, y) => x <= y, (x, y) => x == y, (x, y) => x != y, (x, y) => x > y, (x, y) => x < y)
  }

  // The two parts with a symbol between them, and spaces before the symbol.
  function Joined(l: Spelling, gap: nat, symbol: string, r: Spelling): string {
    Text(l) + (Spaces(gap) + symbol + Text(r))
  }

  lemma SpelledValue<V>(ops: Arith<V>, vars: map<string, V>, c: Spelling, k: nat)
    requires Fits(c, k, vars.Keys)
    ensures ValueOf(ops, vars, Text(c)) == Some(Eval(ops, vars, Tree(c)))
  {
    assert Fits(c, 0, vars.Keys);
    hide *;
    BlanksAreTrimmed("", c, "", vars.Keys);
    assert "" + Text(c) + "" == Text(c);
    ReadAs(ops, vars, Text(c), Tree(c));
  }

  lemma ReadAs<V>(ops: Arith<V>, vars: map<string, V>, expression: string, e: Expr)
    requires Parse(Trim(expression), vars.Keys) == Some(e)
    ensures ValueOf(ops, vars, expression) == Some(Eval(ops, vars, e))
  {
  }

  // Two parts that may stand beside an operator, and the whole.
  lemma JoinedValue<V>(ops: Arith<V>, vars: map<string, V>, l: Spelling, gap: nat, op: BinOp, r: Spelling) returns (x: V, y: V)
    requires Fits(l, if Prec(op) == COMPARISON then 3 else Prec(op), vars.Keys) && Fits(r, Prec(op) + 1, vars.Keys)
    ensures ValueOf(ops, vars, Text(l)) == Some(x) && ValueOf(ops, vars, Text(r)) == Some(y)
    ensures ValueOf(ops, vars, Joined(l, gap, Symbol(op), r)) == Some(Combine(ops, op, x, y))
  {
    x, y := Eval(ops, vars, Tree(l)), Eval(ops, vars, Tree(r));
    var node := Node(l, gap, op, r);
    assert Fits(node, Prec(op), vars.Keys) && Text(node) == Joined(l, gap, Symbol(op), r);
    assert Eval(ops, vars, Tree(node)) == Combine(ops, op, x, y);
    hide ValueOf, Eval, Fits, Text, Joined;
    SpelledValue(ops, vars, l, if Prec(op) == COMPARISON then 3 else Prec(op));
    SpelledValue(ops, vars, r, Prec(op) + 1);
    SpelledValue(ops, vars, node, Prec(op));
  }

  /** Each comparison of two sums answers whether the left value stands in that relation to the right one. */
  lemma ComparisonsAnswer(literal: string -> real, div: (real, real) -> real, rem: (real, real) -> real, vars: map<string, real>,
                          l: Spelling, gap: nat, r: Spelling) returns (x: real, y: real)
    requires Fits(l, 3, vars.Keys) && Fits(r, 3, vars.Keys)
    ensures var ops := Reals(literal, div, rem);
            && ValueOf(ops, vars, Text(l)) == Some(x) && ValueOf(ops, vars, Text(r)) == Some(y)
            && Answer(ops, vars, Joined(l, gap, ">", r)) == Some(x > y)
            && Answer(ops, vars, Joined(l, gap, "<", r)) == Some(x < y)
            && Answer(ops, vars, Joined(l, gap, ">=", r)) == Some(x >= y)
            && Answer(ops, vars, Joined(l, gap, "<=", r)) == Some(x <= y)
            && Answer(ops, vars, Joined(l, gap, "==", r)) == Some(x == y)
            && Answer(ops, vars, Joined(l, gap, "!=", r)) == Some(x != y)
  {
    var ops := Reals(literal, div, rem);
    hide ValueOf, Fits, Text, Joined;
    x, y := JoinedValue(ops, vars, l, gap, Gt, r);
    var x1, y1 := JoinedValue(ops, vars, l, gap, Lt, r);
    var x2, y2 := JoinedValue(ops, vars, l, gap, Ge, r);
    var x3, y3 := JoinedValue(ops, vars, l, gap, Le, r);
    var x4, y4 := JoinedValue(ops, vars, l, gap, Eq, r);
    var x5, y5 := JoinedValue(ops, vars, l, gap, Ne, r);
  }

  /** Sums: the left value comes first. */
  lemma SumsMean(literal: string -> real, div: (real, real) -> real, rem: (real, real) -> real, vars: map<string, real>,
                 l: Spelling, gap: nat, r: Spelling) returns (x: real, y: real)
    requires Fits(l, 3, vars.Keys) && Fits(r, 4, vars.Keys)
    ensures var ops := Reals(literal, div, rem);
            && ValueOf(ops, vars, Text(l)) == Some(x) && ValueOf(ops, vars, Text(r)) == Some(y)
            && ValueOf(ops, vars, Joined(l, gap, "+", r)) == Some(x + y)
            && ValueOf(ops, vars, Joined(l, gap, "-", r)) == Some(x - y)
  {
    var ops := Reals(literal, div, rem);
    hide ValueOf, Fits, Text, Joined;
    x, y := JoinedValue(ops, vars, l, gap, Add, r);
    var x1, y1 := JoinedValue(ops, vars, l, gap, Sub, r);
  }

  /** Products, quotients and remainders: the left value comes first. */
  lemma ProductsMean(literal: string -> real, div: (real, real) -> real, rem: (real, real) -> real, vars: map<string, real>,
                     l: Spelling, gap: nat, r: Spelling) returns (x: real, y: real)
    requires Fits(l, 4, vars.Keys) && Fits(r, PRIMARY, vars.Keys)
    ensures var ops := Reals(literal, div, rem);
            && ValueOf(ops, vars, Text(l)) == Some(x) && ValueOf(ops, vars, Text(r)) == Some(y)
            && ValueOf(ops, vars, Joined(l, gap, "*", r)) == Some(x * y)
            && ValueOf(ops, vars, Joined(l, gap, "/", r)) == Some(div(x, y))
            && ValueOf(ops, vars, Joined(l, gap, "%", r)) == Some(rem(x, y))
  {
    var ops := Reals(literal, div, rem);
    hide ValueOf, Fits, Text, Joined;
    x, y := JoinedValue(ops, vars, l, gap, Mul, r);
    assert ops.mul(x, y) == x * y;
    var x1, y1 := JoinedValue(ops, vars, l, gap, Div, r);
    var x2, y2 := JoinedValue(ops, vars, l, gap, Mod, r);
  }

  /** A disjunction answers true if and only if one of its parts does. */
  lemma DisjunctionAnswers<V>(ops: Arith<V>, vars: map<string, V>, l: Spelling, gap: nat, r: Spelling) returns (a: bool, b: bool)
    requires ops.isZero(ops.zero) && !ops.isZero(ops.one) && Fits(l, 0, vars.Keys) && Fits(r, 1, vars.Keys)
    ensures Answer(ops, vars, Text(l)) == Some(a) && Answer(ops, vars, Text(r)) == Some(b)
    ensures Answer(ops, vars, Joined(l, gap, "||", r)) == Some(a || b)
  {
    assert Symbol(Or) == "||";
    hide ValueOf, Fits, Text, Joined, Symbol;
    var x, y := JoinedValue(ops, vars, l, gap, Or, r);
    a, b := !ops.isZero(x), !ops.isZero(y);
  }

  /** A conjunction answers true if and only if both of its parts do. */
  lemma ConjunctionAnswers<V>(ops: Arith<V>, vars: map<string, V>, l: Spelling, gap: nat, r: Spelling) returns (a: bool, b: bool)
    requires ops.isZero(ops.zero) && !ops.isZero(ops.one) && Fits(l, 1, vars.Keys) && Fits(r, 2, vars.Keys)
    ensures Answer(ops, vars, Text(l)) == Some(a) && Answer(ops, vars, Text(r)) == Some(b)
    ensures Answer(ops, vars, Joined(l, gap, "&&", r)) == Some(a && b)
  {
    assert Symbol(And) == "&&";
    hide ValueOf, Fits, Text, Joined, Symbol;
    var x, y := JoinedValue(ops, vars, l, gap, And, r);
    a, b := !ops.isZero(x), !ops.isZero(y);
  }

  /** A literal has its number as value, a name that of the variable, and parentheses change nothing. */
  lemma TokensMean<V>(ops: Arith<V>, vars: map<string, V>, gap: nat, token: string, inner: Spelling, closeGap: nat)
    ensures IsLiteral(token) ==> ValueOf(ops, vars, Spaces(gap) + token) == Some(ops.literal(token))
    ensures IsName(token) && token in vars ==> ValueOf(ops, vars, Spaces(gap) + token) == Some(vars[token])
    ensures Fits(inner, 0, vars.Keys) ==>
      ValueOf(ops, vars, Spaces(gap) + ("(" + Text(inner) + Spaces(closeGap) + ")")) == ValueOf(ops, vars, Text(inner))
  {
    hide ValueOf, IsLiteral, IsName;
    if IsLiteral(token) { SpelledValue(ops, vars, Lit(gap, token), 0); }
    if IsName(token) && token in vars { SpelledValue(ops, vars, Name(gap, token), 0); }
    if Fits(inner, 0, vars.Keys) {
      SpelledValue(ops, vars, inner, 0);
      SpelledValue(ops, vars, Group(gap, inner, closeGap), 0);
    }
  }
}
