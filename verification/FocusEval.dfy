/** The evaluator of custom focus rules: parsing and computing in one pass over a cursor. */
module FocusEval {
  import opened Wrappers
  import opened Texts
  import opened FocusGrammar
  import opened FocusTheorems

  /** The number arithmetic, left abstract: what is parsed does not depend on it. */
  datatype Arith<!V> = Arith(
    literal: string -> V,
    zero: V,
    one: V,
    isZero: V -> bool,
    add: (V, V) -> V, sub: (V, V) -> V, mul: (V, V) -> V, div: (V, V) -> V, rem: (V, V) -> V,
    ge: (V, V) -> bool, le: (V, V) -> bool, eq: (V, V) -> bool, ne: (V, V) -> bool, gt: (V, V) -> bool, lt: (V, V) -> bool)

  // The value of a tree. Logical operators do not short-circuit: both sides are always computed.
  function Eval<V>(ops: Arith<V>, vars: map<string, V>, e: Expr): V {
    match e
    case Num(text) => ops.literal(text)
    case Var(name) => if name in vars then vars[name] else ops.zero
    case Bin(op, left, right) => Combine(ops, op, Eval(ops, vars, left), Eval(ops, vars, right))
  }

  function Truth<V>(ops: Arith<V>, b: bool): V { if b then ops.one else ops.zero }

  function Combine<V>(ops: Arith<V>, op: BinOp, a: V, b: V): V {
    match op
    case Or => Truth(ops, !ops.isZero(a) || !ops.isZero(b))
    case And => Truth(ops, !ops.isZero(a) && !ops.isZero(b))
    case Ge => Truth(ops, ops.ge(a, b))
    case Le => Truth(ops, ops.le(a, b))
    case Eq => Truth(ops, ops.eq(a, b))
    case Ne => Truth(ops, ops.ne(a, b))
    case Gt => Truth(ops, ops.gt(a, b))
    case Lt => Truth(ops, ops.lt(a, b))
    case Add => ops.add(a, b)
    case Sub => ops.sub(a, b)
    case Mul => ops.mul(a, b)
    case Div => ops.div(a, b)
    case Mod => ops.rem(a, b)
  }

  lemma BinValue<V>(ops: Arith<V>, vars: map<string, V>, op: BinOp, left: Expr, right: Expr)
    ensures Eval(ops, vars, Bin(op, left, right)) == Combine(ops, op, Eval(ops, vars, left), Eval(ops, vars, right))
  {
  }

  // What a parsing method has to return: the value of the tree the grammar reads, or nothing.
  ghost predicate Agrees<V>(p: Parsed, ops: Arith<V>, vars: map<string, V>, r: Option<V>, rest: string) {
    match p
    case Rejected => r.None?
    case Accepted(e, after) => r == Some(Eval(ops, vars, e)) && rest == after
  }

  class Evaluator<V> {
    const ops: Arith<V>
    const vars: map<string, V>
    const src: string
    var pos: nat

    constructor (ops: Arith<V>, vars: map<string, V>, src: string)
      ensures this.ops == ops && this.vars == vars && this.src == src && pos == 0
    {
      this.ops, this.vars, this.src, pos := ops, vars, src, 0;
    }

    method SkipWs()
      requires pos <= |src|
      modifies `pos
      ensures old(pos) <= pos <= |src| && src[pos..] == Skip(src[old(pos)..])
    {
      while pos < |src| && src[pos] == ' '
        invariant old(pos) <= pos <= |src|
        invariant Skip(src[pos..]) == Skip(src[old(pos)..])
      {
        assert src[pos..][1..] == src[pos + 1..];
        pos := pos + 1;
      }
    }

    // The operator of level k at the cursor.
    method PeekOp(k: nat) returns (op: Option<BinOp>)
      requires pos <= |src|
      ensures op == OpAt(k, src[pos..])
    {
      op := OpAt(k, src[pos..]);
    }

    method ParseNumber() returns (v: V)
      requires pos <= |src| && StartsNumber(src[pos..])
      modifies `pos
      ensures pos == old(pos) + LiteralLength(src[old(pos)..]) && pos <= |src|
      ensures v == ops.literal(src[old(pos)..][..LiteralLength(src[old(pos)..])])
    {
      ghost var s := src[pos..];
      var start := pos;
      if src[pos] == '-' { pos := pos + 1; }
      ghost var from := pos;
      while pos < |src| && IsNumChar(src[pos])
        invariant from <= pos <= |src|
        invariant (pos - from) + NumRun(src[pos..]) == NumRun(src[from..])
      {
        assert src[pos..][1..] == src[pos + 1..];
        pos := pos + 1;
      }
      assert s[0] == '-' ==> s[1..] == src[from..];
      assert src[start..pos] == s[..pos - start];
      v := ops.literal(src[start..pos]);
    }

    method ParseVariable() returns (r: Option<V>)
      requires pos <= |src|
      modifies `pos
      ensures pos == old(pos) + NameRun(src[old(pos)..]) && pos <= |src|
      ensures var name := src[old(pos)..][..NameRun(src[old(pos)..])];
              r == if name in vars then Some(vars[name]) else None
    {
      var start := pos;
      while pos < |src| && IsNameChar(src[pos])
        invariant start <= pos <= |src|
        invariant (pos - start) + NameRun(src[pos..]) == NameRun(src[start..])
      {
        assert src[pos..][1..] == src[pos + 1..];
        pos := pos + 1;
      }
      assert src[start..pos] == src[start..][..pos - start];
      r := if src[start..pos] in vars then Some(vars[src[start..pos]]) else None;
    }

    method Primary() returns (r: Option<V>)
      requires pos <= |src|
      modifies `pos
      ensures pos <= |src| && Agrees(Level(PRIMARY, src[old(pos)..], vars.Keys), ops, vars, r, src[pos..])
      decreases |src| - pos, 0
    {
      ghost var s := src[pos..];
      SkipWs();
      ghost var t := src[pos..];
      if pos < |src| && src[pos] == '(' {
        pos := pos + 1;
        assert t[1..] == src[pos..];
        r := LogicalOr();
        if r.Some? {
          ghost var rest := src[pos..];
          if pos < |src| && src[pos] == ')' {
            pos := pos + 1;
            assert rest[1..] == src[pos..];
          } else {
            r := None;
          }
        }
      } else if StartsNumber(src[pos..]) {
        var v := ParseNumber();
        r := Some(v);
      } else if pos < |src| && IsNameChar(src[pos]) {
        r := ParseVariable();
      } else {
        r := None;
      }
    }

    // What the loops do with two operands, by the operator between them.
    method Multiplied(op: BinOp, a: V, b: V) returns (v: V)
      requires Prec(op) == 4
      ensures v == Combine(ops, op, a, b)
    {
      if op == Mul { v := ops.mul(a, b); } else if op == Div { v := ops.div(a, b); } else { v := ops.rem(a, b); }
    }

    method Added(op: BinOp, a: V, b: V) returns (v: V)
      requires Prec(op) == 3
      ensures v == Combine(ops, op, a, b)
    {
      if op == Add { v := ops.add(a, b); } else { v := ops.sub(a, b); }
    }

    method Compared(op: BinOp, a: V, b: V) returns (v: V)
      requires Prec(op) == COMPARISON
      ensures v == Combine(ops, op, a, b)
    {
      var holds := match op
        case Ge => ops.ge(a, b)
        case Le => ops.le(a, b)
        case Eq => ops.eq(a, b)
        case Ne => ops.ne(a, b)
        case Gt => ops.gt(a, b)
        case _ => ops.lt(a, b);
      v := if holds then ops.one else ops.zero;
    }

    method Conjoined(op: BinOp, a: V, b: V) returns (v: V)
      requires Prec(op) == 1
      ensures v == Combine(ops, op, a, b)
    {
      v := if !ops.isZero(a) && !ops.isZero(b) then ops.one else ops.zero;
    }

    method Disjoined(op: BinOp, a: V, b: V) returns (v: V)
      requires Prec(op) == 0
      ensures v == Combine(ops, op, a, b)
    {
      v := if !ops.isZero(a) || !ops.isZero(b) then ops.one else ops.zero;
    }

    method Multiplicative() returns (r: Option<V>)
      requires pos <= |src|
      modifies `pos
      ensures pos <= |src| && Agrees(Level(4, src[old(pos)..], vars.Keys), ops, vars, r, src[pos..])
      decreases |src| - pos, 1
    {
      hide Level, Tail, OpAt, Symbol, Skip, Combine, Eval;
      ghost var s := src[pos..];
      SkipWs();
      LevelSkips(PRIMARY, s, vars.Keys);
      LevelEquation(4, s, vars.Keys);
      ghost var goal := Level(4, s, vars.Keys);
      r := Primary();
      if r.None? { return; }
      ghost var tree := Level(PRIMARY, s, vars.Keys).e;
      SkipWs();
      var op := PeekOp(4);
      while op.Some?
        invariant pos <= |src| && op == OpAt(4, src[pos..]) && r == Some(Eval(ops, vars, tree))
        invariant goal == Tail(4, tree, src[pos..], vars.Keys)
        invariant |src[pos..]| < |s|
        decreases |src| - pos
      {
        ghost var rest := src[pos..];
        TailEquation(4, tree, rest, vars.Keys);
        SymbolLength(op.value);
        pos := pos + 1;
        assert rest[1..] == src[pos..];
        var right := Primary();
        if right.None? { return None; }
        var product := Multiplied(op.value, r.value, right.value);
        r := Some(product);
        BinValue(ops, vars, op.value, tree, Level(PRIMARY, rest[1..], vars.Keys).e);
        tree := Bin(op.value, tree, Level(PRIMARY, rest[1..], vars.Keys).e);
        assert goal == Tail(4, tree, Skip(src[pos..]), vars.Keys);
        SkipWs();
        op := PeekOp(4);
      }
      TailEquation(4, tree, src[pos..], vars.Keys);
    }

    method Additive() returns (r: Option<V>)
      requires pos <= |src|
      modifies `pos
      ensures pos <= |src| && Agrees(Level(3, src[old(pos)..], vars.Keys), ops, vars, r, src[pos..])
      decreases |src| - pos, 2
    {
      hide Level, Tail, OpAt, Symbol, Skip, Combine, Eval;
      ghost var s := src[pos..];
      SkipWs();
      LevelSkips(4, s, vars.Keys);
      LevelEquation(3, s, vars.Keys);
      ghost var goal := Level(3, s, vars.Keys);
      r := Multiplicative();
      if r.None? { return; }
      ghost var tree := Level(4, s, vars.Keys).e;
      SkipWs();
      var op := PeekOp(3);
      while op.Some?
        invariant pos <= |src| && op == OpAt(3, src[pos..]) && r == Some(Eval(ops, vars, tree))
        invariant goal == Tail(3, tree, src[pos..], vars.Keys)
        invariant |src[pos..]| < |s|
        decreases |src| - pos
      {
        ghost var rest := src[pos..];
        TailEquation(3, tree, rest, vars.Keys);
        SymbolLength(op.value);
        pos := pos + 1;
        assert rest[1..] == src[pos..];
        var right := Multiplicative();
        if right.None? { return None; }
        var sum := Added(op.value, r.value, right.value);
        r := Some(sum);
        BinValue(ops, vars, op.value, tree, Level(4, rest[1..], vars.Keys).e);
        tree := Bin(op.value, tree, Level(4, rest[1..], vars.Keys).e);
        assert goal == Tail(3, tree, Skip(src[pos..]), vars.Keys);
        SkipWs();
        op := PeekOp(3);
      }
      TailEquation(3, tree, src[pos..], vars.Keys);
    }

    method Comparison() returns (r: Option<V>)
      requires pos <= |src|
      modifies `pos
      ensures pos <= |src| && Agrees(Level(COMPARISON, src[old(pos)..], vars.Keys), ops, vars, r, src[pos..])
      decreases |src| - pos, 3
    {
      hide Level, Tail, OpAt, Symbol, Skip, Combine, Eval;
      ghost var s := src[pos..];
      SkipWs();
      LevelSkips(3, s, vars.Keys);
      LevelEquation(COMPARISON, s, vars.Keys);
      r := Additive();
      if r.None? { return; }
      ghost var rest0 := src[pos..];
      SkipWs();
      ghost var rest := src[pos..];
      TailEquation(COMPARISON, Level(3, s, vars.Keys).e, rest, vars.Keys);
      var op := PeekOp(COMPARISON);
      if op.Some? {
        pos := pos + |Symbol(op.value)|;
        assert rest[|Symbol(op.value)|..] == src[pos..];
        var right := Additive();
        if right.None? { return None; }
        BinValue(ops, vars, op.value, Level(3, s, vars.Keys).e, Level(3, rest[|Symbol(op.value)|..], vars.Keys).e);
        var holds := Compared(op.value, r.value, right.value);
        r := Some(holds);
      }
    }

    method LogicalAnd() returns (r: Option<V>)
      requires pos <= |src|
      modifies `pos
      ensures pos <= |src| && Agrees(Level(1, src[old(pos)..], vars.Keys), ops, vars, r, src[pos..])
      decreases |src| - pos, 4
    {
      hide Level, Tail, OpAt, Symbol, Skip, Combine, Eval;
      ghost var s := src[pos..];
      SkipWs();
      LevelSkips(COMPARISON, s, vars.Keys);
      LevelEquation(1, s, vars.Keys);
      ghost var goal := Level(1, s, vars.Keys);
      r := Comparison();
      if r.None? { return; }
      ghost var tree := Level(COMPARISON, s, vars.Keys).e;
      SkipWs();
      var op := PeekOp(1);
      while op.Some?
        invariant pos <= |src| && op == OpAt(1, src[pos..]) && r == Some(Eval(ops, vars, tree))
        invariant goal == Tail(1, tree, src[pos..], vars.Keys)
        invariant |src[pos..]| < |s|
        decreases |src| - pos
      {
        ghost var rest := src[pos..];
        TailEquation(1, tree, rest, vars.Keys);
        SymbolLength(op.value);
        pos := pos + 2;
        assert rest[2..] == src[pos..];
        var right := Comparison();
        if right.None? { return None; }
        var both := Conjoined(op.value, r.value, right.value);
        r := Some(both);
        BinValue(ops, vars, op.value, tree, Level(COMPARISON, rest[2..], vars.Keys).e);
        tree := Bin(op.value, tree, Level(COMPARISON, rest[2..], vars.Keys).e);
        assert goal == Tail(1, tree, Skip(src[pos..]), vars.Keys);
        SkipWs();
        op := PeekOp(1);
      }
      TailEquation(1, tree, src[pos..], vars.Keys);
    }

    method LogicalOr() returns (r: Option<V>)
      requires pos <= |src|
      modifies `pos
      ensures pos <= |src| && Agrees(Level(0, src[old(pos)..], vars.Keys), ops, vars, r, src[pos..])
      decreases |src| - pos, 5
    {
      hide Level, Tail, OpAt, Symbol, Skip, Combine, Eval;
      ghost var s := src[pos..];
      SkipWs();
      LevelSkips(1, s, vars.Keys);
      LevelEquation(0, s, vars.Keys);
      ghost var goal := Level(0, s, vars.Keys);
      r := LogicalAnd();
      if r.None? { return; }
      ghost var tree := Level(1, s, vars.Keys).e;
      SkipWs();
      var op := PeekOp(0);
      while op.Some?
        invariant pos <= |src| && op == OpAt(0, src[pos..]) && r == Some(Eval(ops, vars, tree))
        invariant goal == Tail(0, tree, src[pos..], vars.Keys)
        invariant |src[pos..]| < |s|
        decreases |src| - pos
      {
        ghost var rest := src[pos..];
        TailEquation(0, tree, rest, vars.Keys);
        SymbolLength(op.value);
        pos := pos + 2;
        assert rest[2..] == src[pos..];
        var right := LogicalAnd();
        if right.None? { return None; }
        var either := Disjoined(op.value, r.value, right.value);
        r := Some(either);
        BinValue(ops, vars, op.value, tree, Level(1, rest[2..], vars.Keys).e);
        tree := Bin(op.value, tree, Level(1, rest[2..], vars.Keys).e);
        assert goal == Tail(0, tree, Skip(src[pos..]), vars.Keys);
        SkipWs();
        op := PeekOp(0);
      }
      TailEquation(0, tree, src[pos..], vars.Keys);
    }
  }

  // The value of a whole input, and whether it differs from zero; None for what is not an expression.
  function ValueOf<V>(ops: Arith<V>, vars: map<string, V>, expression: string): Option<V> {
    match Parse(Trim(expression), vars.Keys)
    case None => None
    case Some(e) => Some(Eval(ops, vars, e))
  }

  function Answer<V>(ops: Arith<V>, vars: map<string, V>, expression: string): Option<bool> {
    match ValueOf(ops, vars, expression)
    case None => None
    case Some(v) => Some(!ops.isZero(v))
  }

  /** Ok exactly for the spellings of trees (up to blanks at both ends), with the tree's value compared with zero. */
  method SafeEval<V>(ops: Arith<V>, expression: string, vars: map<string, V>) returns (r: Option<bool>)
    ensures r == Answer(ops, vars, expression)
  {
    var src := Trim(expression);
    var evaluator := new Evaluator(ops, vars, src);
    assert src[0..] == src;
    var value := evaluator.LogicalOr();
    if value.None? { return None; }
    ghost var rest := src[evaluator.pos..];
    evaluator.SkipWs();
    assert Skip(rest) == src[evaluator.pos..];
    r := if evaluator.pos < |src| then None else Some(!ops.isZero(value.value));
  }

  // ---------- The whole input, blanks included ----------

  // The same spelling without the spaces before its first token.
  function DropGap(c: Spelling): Spelling {
    match c
    case Lit(_, text) => Lit(0, text)
    case Name(_, name) => Name(0, name)
    case Group(_, inner, closeGap) => Group(0, inner, closeGap)
    case Node(left, gap, op, right) => Node(DropGap(left), gap, op, right)
  }

  function FirstGap(c: Spelling): nat {
    match c
    case Lit(gap, _) => gap
    case Name(gap, _) => gap
    case Group(gap, _, _) => gap
    case Node(left, _, _, _) => FirstGap(left)
  }

  lemma NumRunIsNumeric(s: string)
    ensures forall i | 0 <= i < NumRun(s) :: IsNumChar(s[i])
  {
  }

  lemma NameRunIsAlphabetic(s: string)
    ensures forall i | 0 <= i < NameRun(s) :: IsNameChar(s[i])
  {
  }

  lemma LeafIsTrimmed(token: string)
    requires IsLiteral(token) || IsName(token)
    ensures token != "" && Trimmed(token)
  {
    if IsLiteral(token) {
      if token[0] == '-' {
        NumRunIsNumeric(token[1..]);
        assert token[|token| - 1] == token[1..][|token| - 2];
      } else {
        NumRunIsNumeric(token);
      }
    } else {
      NameRunIsAlphabetic(token);
    }
  }

  lemma {:induction false} DropGapFits(c: Spelling, k: nat, vars: set<string>)
    requires Fits(c, k, vars)
    ensures Fits(DropGap(c), k, vars) && Tree(DropGap(c)) == Tree(c)
    ensures AddGap(DropGap(c), FirstGap(c)) == c && FirstGap(DropGap(c)) == 0
    decreases c
  {
    if c.Node? { DropGapFits(c.left, if Prec(c.op) == COMPARISON then 3 else Prec(c.op), vars); }
  }

  lemma {:induction false} TextEnds(c: Spelling, k: nat, vars: set<string>)
    requires Fits(c, k, vars)
    ensures Text(c) != "" && !IsWhite(Text(c)[|Text(c)| - 1])
    decreases c
  {
    var t := Text(c);
    match c
    case Lit(gap, text) =>
      LeafIsTrimmed(text);
      assert t[|t| - 1] == text[|text| - 1];
    case Name(gap, name) =>
      LeafIsTrimmed(name);
      assert t[|t| - 1] == name[|name| - 1];
    case Group(_, _, _) => assert t[|t| - 1] == ')';
    case Node(_, _, op, right) =>
      TextEnds(right, Prec(op) + 1, vars);
      assert t[|t| - 1] == Text(right)[|Text(right)| - 1];
  }

  lemma {:induction false} TextBegins(c: Spelling, k: nat, vars: set<string>)
    requires Fits(c, k, vars) && FirstGap(c) == 0
    ensures Text(c) != "" && !IsWhite(Text(c)[0])
    decreases c
  {
    match c
    case Lit(_, text) =>
      LeafIsTrimmed(text);
      assert Text(c) == text;
    case Name(_, name) =>
      LeafIsTrimmed(name);
      assert Text(c) == name;
    case Group(_, _, _) => assert Text(c)[0] == '(';
    case Node(left, _, op, _) =>
      TextBegins(left, if Prec(op) == COMPARISON then 3 else Prec(op), vars);
      assert Text(c)[0] == Text(left)[0];
  }

  lemma DropGapText(c: Spelling, vars: set<string>)
    requires Fits(c, 0, vars)
    ensures Fits(DropGap(c), 0, vars) && Tree(DropGap(c)) == Tree(c)
    ensures Text(c) == Spaces(FirstGap(c)) + Text(DropGap(c)) && Trimmed(Text(DropGap(c)))
  {
    DropGapFits(c, 0, vars);
    AddGapText(DropGap(c), FirstGap(c));
    TextBegins(DropGap(c), 0, vars);
    TextEnds(DropGap(c), 0, vars);
  }

  /**
    The complete characterization: an input is accepted with tree e exactly when it is a spelling of e
    between two (possibly empty) runs of blanks.
   */
  lemma AcceptedInputs(expression: string, vars: set<string>, e: Expr)
    ensures Parse(Trim(expression), vars) == Some(e)
            <==> exists pre, c, post :: AllWhite(pre) && AllWhite(post) && Fits(c, 0, vars) && Tree(c) == e
                                        && expression == pre + Text(c) + post
  {
    if Parse(Trim(expression), vars) == Some(e) {
      var pre, post := TrimSplits(expression);
      var c, n := AcceptedIsSpelling(Trim(expression), vars);
      assert expression == pre + Text(c) + (Spaces(n) + post);
      assert AllWhite(Spaces(n) + post);
    }
    forall pre, c, post | AllWhite(pre) && AllWhite(post) && Fits(c, 0, vars) && Tree(c) == e
                          && expression == pre + Text(c) + post
      ensures Parse(Trim(expression), vars) == Some(e)
    {
      BlanksAreTrimmed(pre, c, post, vars);
    }
  }

  lemma BlanksAreTrimmed(pre: string, c: Spelling, post: string, vars: set<string>)
    requires AllWhite(pre) && AllWhite(post) && Fits(c, 0, vars)
    ensures Parse(Trim(pre + Text(c) + post), vars) == Some(Tree(c))
  {
    DropGapText(c, vars);
    var core := Text(DropGap(c));
    assert pre + Text(c) + post == (pre + Spaces(FirstGap(c))) + core + post;
    TrimUndoes(pre + Spaces(FirstGap(c)), core, post);
    SpellingParses(DropGap(c), 0, vars);
    assert core + Spaces(0) == core;
  }
}
