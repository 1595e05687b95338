/**
  The expression language of custom focus rules: the trees, their spellings, and the
  recursive-descent grammar over the remaining input.
 */
module FocusGrammar {
  import opened Wrappers

  datatype BinOp = Or | And | Ge | Le | Eq | Ne | Gt | Lt | Add | Sub | Mul | Div | Mod

  // Literals keep their text: the number it denotes is the evaluator's business.
  datatype Expr = Num(text: string) | Var(name: string) | Bin(op: BinOp, left: Expr, right: Expr)

  function Symbol(op: BinOp): (s: string)
    ensures 1 <= |s| <= 2
  {
    match op
    case Or => "||" case And => "&&"
    case Ge => ">=" case Le => "<=" case Eq => "==" case Ne => "!=" case Gt => ">" case Lt => "<"
    case Add => "+" case Sub => "-"
    case Mul => "*" case Div => "/" case Mod => "%"
  }

  // Grammar levels: 0 logicalOr, 1 logicalAnd, 2 comparison, 3 additive, 4 multiplicative, 5 primary.
  const COMPARISON := 2
  const PRIMARY := 5

  function Prec(op: BinOp): (k: nat)
    ensures k < PRIMARY
  {
    match op
    case Or => 0
    case And => 1
    case Ge => 2 case Le => 2 case Eq => 2 case Ne => 2 case Gt => 2 case Lt => 2
    case Add => 3 case Sub => 3
    case Mul => 4 case Div => 4 case Mod => 4
  }

  predicate IsDigit(c: char) { '0' <= c <= '9' }

  predicate IsNumChar(c: char) { IsDigit(c) || c == '.' }

  predicate IsNameChar(c: char) { 'a' <= c <= 'z' || 'A' <= c <= 'Z' || c == '_' }

  function Skip(s: string): (r: string)
    ensures |r| <= |s|
  {
    if s != "" && s[0] == ' ' then Skip(s[1..]) else s
  }

  // The length of the longest prefix of digits and dots, and of name characters.
  function NumRun(s: string): (n: nat)
    ensures n <= |s|
  {
    if s != "" && IsNumChar(s[0]) then 1 + NumRun(s[1..]) else 0
  }

  function NameRun(s: string): (n: nat)
    ensures n <= |s|
  {
    if s != "" && IsNameChar(s[0]) then 1 + NameRun(s[1..]) else 0
  }

  // A number starts with a digit, or with a minus sign and a digit.
  predicate StartsNumber(s: string) {
    (|s| >= 1 && IsDigit(s[0])) || (|s| >= 2 && s[0] == '-' && IsDigit(s[1]))
  }

  function LiteralLength(s: string): (n: nat)
    requires StartsNumber(s)
    ensures 1 <= n <= |s|
  {
    if s[0] == '-' then 1 + NumRun(s[1..]) else NumRun(s)
  }

  // The operator of level k that the input starts with, if any.
  function OpAt(k: nat, s: string): (op: Option<BinOp>)
    ensures op.Some? ==> Prec(op.value) == k && |Symbol(op.value)| <= |s|
  {
    if s == "" then None
    else match k
      case 0 => if |s| > 1 && s[0] == '|' && s[1] == '|' then Some(Or) else None
      case 1 => if |s| > 1 && s[0] == '&' && s[1] == '&' then Some(And) else None
      case 2 =>
        if |s| > 1 && s[1] == '=' && s[0] == '>' then Some(Ge)
        else if |s| > 1 && s[1] == '=' && s[0] == '<' then Some(Le)
        else if |s| > 1 && s[1] == '=' && s[0] == '=' then Some(Eq)
        else if |s| > 1 && s[1] == '=' && s[0] == '!' then Some(Ne)
        else if s[0] == '>' then Some(Gt)
        else if s[0] == '<' then Some(Lt)
        else None
      case 3 => if s[0] == '+' then Some(Add) else if s[0] == '-' then Some(Sub) else None
      case 4 => if s[0] == '*' then Some(Mul) else if s[0] == '/' then Some(Div) else if s[0] == '%' then Some(Mod) else None
      case _ => None
  }

  // ---------- The grammar as a function of the remaining input ----------

  datatype Parsed = Accepted(e: Expr, rest: string) | Rejected

  function Level(k: nat, s: string, vars: set<string>): (p: Parsed)
    requires k <= PRIMARY
    ensures p.Accepted? ==> |p.rest| < |s|
    decreases |s|, PRIMARY - k
  {
    if k == PRIMARY then
      var t := Skip(s);
      if t != "" && t[0] == '(' then
        match Level(0, t[1..], vars)
        case Rejected => Rejected
        case Accepted(e, rest) => if rest != "" && rest[0] == ')' then Accepted(e, rest[1..]) else Rejected
      else if StartsNumber(t) then
        Accepted(Num(t[..LiteralLength(t)]), t[LiteralLength(t)..])
      else if t != "" && IsNameChar(t[0]) && t[..NameRun(t)] in vars then
        Accepted(Var(t[..NameRun(t)]), t[NameRun(t)..])
      else Rejected
    else
      match Level(k + 1, Skip(s), vars)
      case Rejected => Rejected
      case Accepted(left, rest) => Tail(k, left, Skip(rest), vars)
  }

  // The operators of level k after a first operand; a comparison takes at most one.
  function Tail(k: nat, left: Expr, s: string, vars: set<string>): (p: Parsed)
    requires k < PRIMARY
    ensures p.Accepted? ==> |p.rest| <= |s|
    decreases |s|, PRIMARY - k
  {
    match OpAt(k, s)
    case None => Accepted(left, s)
    case Some(op) =>
      match Level(k + 1, s[|Symbol(op)|..], vars)
      case Rejected => Rejected
      case Accepted(right, rest) =>
        if k == COMPARISON then Accepted(Bin(op, left, right), rest)
        else Tail(k, Bin(op, left, right), Skip(rest), vars)
  }

  // The whole (trimmed) input must be one expression.
  function Parse(src: string, vars: set<string>): Option<Expr> {
    match Level(0, src, vars)
    case Accepted(e, rest) => if Skip(rest) == "" then Some(e) else None
    case Rejected => None
  }

  // ---------- Spellings ----------

  /** A spelling of a tree: where the parentheses are and how many spaces precede each token. */
  datatype Spelling =
    | Lit(gap: nat, text: string)
    | Name(gap: nat, name: string)
    | Group(gap: nat, inner: Spelling, closeGap: nat)
    | Node(left: Spelling, gap: nat, op: BinOp, right: Spelling)

  function Spaces(n: nat): (s: string)
    ensures |s| == n && forall i | 0 <= i < n :: s[i] == ' '
  {
    if n == 0 then "" else " " + Spaces(n - 1)
  }

  function Text(c: Spelling): string {
    match c
    case Lit(gap, text) => Spaces(gap) + text
    case Name(gap, name) => Spaces(gap) + name
    case Group(gap, inner, closeGap) => Spaces(gap) + ("(" + Text(inner) + Spaces(closeGap) + ")")
    case Node(left, gap, op, right) => Text(left) + (Spaces(gap) + Symbol(op) + Text(right))
  }

  function Tree(c: Spelling): Expr {
    match c
    case Lit(_, text) => Num(text)
    case Name(_, name) => Var(name)
    case Group(_, inner, _) => Tree(inner)
    case Node(left, _, op, right) => Bin(op, Tree(left), Tree(right))
  }

  predicate IsLiteral(text: string) {
    StartsNumber(text) && LiteralLength(text) == |text|
  }

  predicate IsName(name: string) {
    name != "" && NameRun(name) == |name|
  }

  // The spelling respects precedence and left associativity at level k: a node of a lower level is
  // inside parentheses, and so is a node of the same level on the right, or under a comparison.
  predicate Fits(c: Spelling, k: nat, vars: set<string>) {
    match c
    case Lit(_, text) => k <= PRIMARY && IsLiteral(text)
    case Name(_, name) => k <= PRIMARY && IsName(name) && name in vars
    case Group(_, inner, _) => k <= PRIMARY && Fits(inner, 0, vars)
    case Node(left, _, op, right) =>
      && k <= Prec(op)
      && Fits(left, if Prec(op) == COMPARISON then 3 else Prec(op), vars)
      && Fits(right, Prec(op) + 1, vars)
  }

  // By character code: 0 to 9; A to Z, a to z and the underscore.
  predicate Digit(c: char) { 48 <= c as int <= 57 }

  predicate Letter(c: char) { 65 <= c as int <= 90 || 97 <= c as int <= 122 || c as int == 95 }

  predicate DigitsAndDots(s: string) { forall i | 0 <= i < |s| :: Digit(s[i]) || s[i] == '.' }

  /** A literal is a digit, perhaps after a minus sign, and any digits and dots after it; a name is a run of letters. */
  lemma TokensAre(token: string)
    ensures IsLiteral(token) <==>
      || (|token| >= 1 && Digit(token[0]) && DigitsAndDots(token))
      || (|token| >= 2 && token[0] == '-' && Digit(token[1]) && DigitsAndDots(token[1..]))
    ensures IsName(token) <==> token != "" && forall i | 0 <= i < |token| :: Letter(token[i])
  {
    NumRunIsAll(token);
    NameRunIsAll(token);
    if token != "" && token[0] == '-' { NumRunIsAll(token[1..]); }
    hide NumRun, NameRun;
  }

  lemma {:induction false} NumRunIsAll(s: string)
    ensures NumRun(s) == |s| <==> DigitsAndDots(s)
  {
    if s != "" { NumRunIsAll(s[1..]); assert s == [s[0]] + s[1..]; }
  }

  lemma {:induction false} NameRunIsAll(s: string)
    ensures NameRun(s) == |s| <==> forall i | 0 <= i < |s| :: Letter(s[i])
  {
    if s != "" { NameRunIsAll(s[1..]); assert s == [s[0]] + s[1..]; }
  }

  // ---------- Lexical lemmas ----------

  lemma {:induction false} SkipSpaces(n: nat, s: string)
    ensures Skip(Spaces(n) + s) == Skip(s)
  {
    if n > 0 {
      assert (Spaces(n) + s)[1..] == Spaces(n - 1) + s;
      SkipSpaces(n - 1, s);
    } else {
      assert Spaces(0) + s == s;
    }
  }

  lemma {:induction false} SkipStops(s: string)
    ensures Skip(s) != "" ==> Skip(s)[0] != ' '
    ensures Skip(Skip(s)) == Skip(s)
  {
    if s != "" && s[0] == ' ' { SkipStops(s[1..]); }
  }

  lemma {:induction false} SkipSplits(s: string) returns (n: nat)
    ensures s == Spaces(n) + Skip(s)
  {
    if s != "" && s[0] == ' ' {
      var m := SkipSplits(s[1..]);
      n := m + 1;
      assert s == [s[0]] + s[1..] && Spaces(n) == " " + Spaces(m);
    } else {
      n := 0;
    }
  }

  // Leading spaces do not matter at any level.
  lemma LevelSkips(k: nat, s: string, vars: set<string>)
    requires k <= PRIMARY
    ensures Level(k, Skip(s), vars) == Level(k, s, vars)
  {
    SkipStops(s);
  }

  // The equations of the grammar, one at a time.
  lemma LevelEquation(k: nat, s: string, vars: set<string>)
    requires k < PRIMARY
    ensures Level(k, s, vars) == match Level(k + 1, s, vars)
                                 case Rejected => Rejected
                                 case Accepted(left, rest) => Tail(k, left, Skip(rest), vars)
  {
    LevelSkips(k + 1, s, vars);
  }

  lemma GroupEquation(s: string, vars: set<string>)
    requires Skip(s) != "" && Skip(s)[0] == '('
    ensures Level(PRIMARY, s, vars) == match Level(0, Skip(s)[1..], vars)
                                       case Rejected => Rejected
                                       case Accepted(e, rest) =>
                                         if rest != "" && rest[0] == ')' then Accepted(e, rest[1..]) else Rejected
  {
  }

  lemma TokenEquation(s: string, vars: set<string>)
    requires Level(PRIMARY, s, vars).Accepted? && Skip(s) != "" && Skip(s)[0] != '('
    ensures var t := Skip(s);
            if StartsNumber(t) then Level(PRIMARY, s, vars) == Accepted(Num(t[..LiteralLength(t)]), t[LiteralLength(t)..])
            else 0 < NameRun(t) && t[..NameRun(t)] in vars
                 && Level(PRIMARY, s, vars) == Accepted(Var(t[..NameRun(t)]), t[NameRun(t)..])
  {
  }

  lemma SymbolLength(op: BinOp)
    ensures Prec(op) < COMPARISON ==> |Symbol(op)| == 2
    ensures Prec(op) > COMPARISON ==> |Symbol(op)| == 1
  {
  }

  lemma TailEquation(k: nat, left: Expr, s: string, vars: set<string>)
    requires k < PRIMARY
    ensures OpAt(k, s).None? ==> Tail(k, left, s, vars) == Accepted(left, s)
    ensures OpAt(k, s).Some? ==>
              Tail(k, left, s, vars) == match Level(k + 1, s[|Symbol(OpAt(k, s).value)|..], vars)
                                        case Rejected => Rejected
                                        case Accepted(right, rest) =>
                                          if k == COMPARISON then Accepted(Bin(OpAt(k, s).value, left, right), rest)
                                          else Tail(k, Bin(OpAt(k, s).value, left, right), Skip(rest), vars)
  {
  }

  lemma {:induction false} NumRunAppend(s: string, rest: string)
    requires NumRun(s) == |s| && (rest == "" || !IsNumChar(rest[0]))
    ensures NumRun(s + rest) == |s|
  {
    if s == "" { assert s + rest == rest; }
    else { assert (s + rest)[1..] == s[1..] + rest; NumRunAppend(s[1..], rest); }
  }

  lemma {:induction false} NameRunAppend(s: string, rest: string)
    requires NameRun(s) == |s| && (rest == "" || !IsNameChar(rest[0]))
    ensures NameRun(s + rest) == |s|
  {
    if s == "" { assert s + rest == rest; }
    else { assert (s + rest)[1..] == s[1..] + rest; NameRunAppend(s[1..], rest); }
  }

  lemma {:induction false} NumRunPrefix(s: string)
    ensures NumRun(s[..NumRun(s)]) == NumRun(s)
  {
    if s != "" && IsNumChar(s[0]) {
      NumRunPrefix(s[1..]);
      assert s[..NumRun(s)][1..] == s[1..][..NumRun(s[1..])];
    }
  }

  lemma {:induction false} NameRunPrefix(s: string)
    ensures NameRun(s[..NameRun(s)]) == NameRun(s)
  {
    if s != "" && IsNameChar(s[0]) {
      NameRunPrefix(s[1..]);
      assert s[..NameRun(s)][1..] == s[1..][..NameRun(s[1..])];
    }
  }
}
