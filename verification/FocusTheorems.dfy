/** The grammar accepts exactly the spellings of trees, and reads each spelling as its tree. */
module FocusTheorems {
  import opened Wrappers
  import opened FocusGrammar

  // ---------- Every spelling is read as its tree ----------

  // What may follow a spelling: nothing that could extend its last token ...
  predicate Delimits(rest: string) {
    rest == "" || !(IsNumChar(rest[0]) || IsNameChar(rest[0]))
  }

  // ... and no operator of level k or tighter.
  predicate Stops(k: nat, rest: string) {
    forall j | k <= j < PRIMARY :: OpAt(j, Skip(rest)).None?
  }

  // A token that can begin an operand.
  predicate StartsOperand(s: string) {
    s != "" && (s[0] == '(' || s[0] == ' ' || s[0] == '-' || IsDigit(s[0]) || IsNameChar(s[0]))
  }

  lemma {:induction false} TextStarts(c: Spelling, k: nat, vars: set<string>)
    requires Fits(c, k, vars)
    ensures StartsOperand(Text(c))
    decreases c
  {
    match c
    case Lit(gap, text) =>
    case Name(gap, name) =>
    case Group(gap, inner, closeGap) =>
    case Node(left, gap, op, right) =>
      TextStarts(left, if Prec(op) == COMPARISON then 3 else Prec(op), vars);
      assert Text(c)[0] == Text(left)[0];
  }

  // After an operator the input starts with that operator and no tighter one.
  lemma OpFound(op: BinOp, tail: string)
    requires StartsOperand(tail)
    ensures OpAt(Prec(op), Symbol(op) + tail) == Some(op)
    ensures (Symbol(op) + tail)[|Symbol(op)|..] == tail
    ensures forall j | Prec(op) < j < PRIMARY :: OpAt(j, Symbol(op) + tail).None?
    ensures Skip(Symbol(op) + tail) == Symbol(op) + tail
    ensures Delimits(Symbol(op) + tail)
  {
    var s := Symbol(op) + tail;
    assert s[0] == Symbol(op)[0];
    if |Symbol(op)| > 1 { assert s[1] == Symbol(op)[1]; } else { assert s[1] == tail[0]; }
  }

  lemma GapDelimits(gap: nat, s: string)
    requires Delimits(s)
    ensures Delimits(Spaces(gap) + s) && Skip(Spaces(gap) + s) == Skip(s)
  {
    SkipSpaces(gap, s);
    if gap == 0 { assert Spaces(gap) + s == s; }
  }

  // The operand c of level k has been read, and rest remains.
  function After(k: nat, c: Spelling, rest: string, vars: set<string>): Parsed
    requires k <= PRIMARY
  {
    if k == PRIMARY then Accepted(Tree(c), rest)
    else if k == COMPARISON && c.Node? && Prec(c.op) == COMPARISON then Accepted(Tree(c), Skip(rest))
    else Tail(k, Tree(c), Skip(rest), vars)
  }

  lemma StoppedAfter(k: nat, c: Spelling, rest: string, vars: set<string>)
    requires k <= PRIMARY && Stops(k, rest)
    ensures After(k, c, rest, vars) == Accepted(Tree(c), if k == PRIMARY then rest else Skip(rest))
  {
  }

  lemma TokenIsRead(token: string, rest: string)
    requires IsLiteral(token) && Delimits(rest)
    ensures StartsNumber(token + rest) && LiteralLength(token + rest) == |token|
  {
    var t := token + rest;
    assert t[0] == token[0];
    if token[0] == '-' {
      assert t[1..] == token[1..] + rest && t[1] == token[1];
      NumRunAppend(token[1..], rest);
    } else {
      NumRunAppend(token, rest);
    }
  }

  lemma LeafIsRead(c: Spelling, rest: string, vars: set<string>)
    requires (c.Lit? || c.Name?) && Fits(c, PRIMARY, vars) && Delimits(rest)
    ensures Level(PRIMARY, Text(c) + rest, vars) == Accepted(Tree(c), rest)
  {
    var token := if c.Lit? then c.text else c.name;
    var t := token + rest;
    assert Text(c) + rest == Spaces(c.gap) + t;
    SkipSpaces(c.gap, t);
    assert t[0] == token[0] && Skip(t) == t;
    if c.Lit? {
      TokenIsRead(token, rest);
    } else {
      NameRunAppend(token, rest);
      assert !StartsNumber(t);
    }
    assert t[..|token|] == token && t[|token|..] == rest;
  }

  lemma {:induction false} SpellingIsRead(k: nat, c: Spelling, rest: string, vars: set<string>)
    requires k <= PRIMARY && Fits(c, k, vars) && Delimits(rest) && Stops(k + 1, rest)
    ensures Level(k, Text(c) + rest, vars) == After(k, c, rest, vars)
    decreases c, 1 + PRIMARY - k
  {
    hide Level, Tail, Text, OpAt, Symbol, Skip, Stops, Delimits;
    if k == PRIMARY {
      if c.Group? { GroupIsRead(c, rest, vars); } else { LeafIsRead(c, rest, vars); }
    } else if c.Node? && Prec(c.op) == k {
      NodeIsRead(c, rest, vars);
    } else {
      StopsLater(k + 1, rest);
      SpellingIsRead(k + 1, c, rest, vars);
      OperandIsRead(k, c, rest, vars);
    }
  }

  lemma GroupText(c: Spelling, rest: string)
    requires c.Group?
    ensures Text(c) + rest == Spaces(c.gap) + ("(" + (Text(c.inner) + (Spaces(c.closeGap) + (")" + rest))))
  {
  }

  lemma ClosingStops(s: string)
    requires s != "" && s[0] == ')'
    ensures Skip(s) == s && forall j | 0 <= j < PRIMARY :: OpAt(j, s).None?
  {
  }

  lemma {:induction false} GroupIsRead(c: Spelling, rest: string, vars: set<string>)
    requires c.Group? && Fits(c, PRIMARY, vars)
    ensures Level(PRIMARY, Text(c) + rest, vars) == Accepted(Tree(c), rest)
    decreases c, 0
  {
    var closing := Spaces(c.closeGap) + (")" + rest);
    var t := "(" + (Text(c.inner) + closing);
    GroupText(c, rest);
    SkipSpaces(c.gap, t);
    GapDelimits(c.closeGap, ")" + rest);
    ClosingStops(")" + rest);
    assert Skip(t) == t && Stops(0, closing);
    StopsLater(0, closing);
    hide Level, Tail, Text, OpAt, Symbol, Skip, Stops, Delimits;
    SpellingIsRead(0, c.inner, closing, vars);
    StoppedAfter(0, c.inner, closing, vars);
    assert t[1..] == Text(c.inner) + closing;
    GroupEquation(Text(c) + rest, vars);
    assert (")" + rest)[1..] == rest;
  }

  // One round of the loop of level k: an operator and its right operand.
  lemma TailRound(k: nat, left: Expr, op: BinOp, tail: string, right: Expr, rest: string, vars: set<string>)
    requires k == Prec(op) && StartsOperand(tail) && Level(k + 1, tail, vars) == Accepted(right, rest)
    ensures Tail(k, left, Symbol(op) + tail, vars)
            == if k == COMPARISON then Accepted(Bin(op, left, right), rest)
               else Tail(k, Bin(op, left, right), Skip(rest), vars)
  {
    OpFound(op, tail);
  }

  lemma OperandIsRead(k: nat, c: Spelling, rest: string, vars: set<string>)
    requires k < PRIMARY && Stops(k + 1, rest)
    requires Level(k + 1, Text(c) + rest, vars) == After(k + 1, c, rest, vars)
    ensures Level(k + 1, Text(c) + rest, vars) == Accepted(Tree(c), if k + 1 == PRIMARY then rest else Skip(rest))
    ensures Level(k, Text(c) + rest, vars) == Tail(k, Tree(c), Skip(rest), vars)
  {
    StoppedAfter(k + 1, c, rest, vars);
    LevelSkips(k + 1, Text(c) + rest, vars);
    SkipStops(rest);
  }

  // The rest of the input after the left operand of a node.
  function Remainder(c: Spelling, rest: string): string
    requires c.Node?
  {
    Spaces(c.gap) + (Symbol(c.op) + (Text(c.right) + rest))
  }

  lemma Regroup(left: string, gap: string, symbol: string, right: string, rest: string)
    ensures (left + (gap + symbol + right)) + rest == left + (gap + (symbol + (right + rest)))
  {
  }

  lemma RemainderFacts(c: Spelling, rest: string, vars: set<string>)
    requires c.Node? && Fits(c, Prec(c.op), vars)
    ensures Text(c) + rest == Text(c.left) + Remainder(c, rest)
    ensures StartsOperand(Text(c.right) + rest)
    ensures Delimits(Remainder(c, rest)) && Stops(Prec(c.op) + 1, Remainder(c, rest))
    ensures Skip(Remainder(c, rest)) == Symbol(c.op) + (Text(c.right) + rest)
  {
    Regroup(Text(c.left), Spaces(c.gap), Symbol(c.op), Text(c.right), rest);
    TextStarts(c.right, Prec(c.op) + 1, vars);
    hide Text, Symbol, OpAt, Fits;
    var tail := Text(c.right) + rest;
    OpFound(c.op, tail);
    GapDelimits(c.gap, Symbol(c.op) + tail);
  }

  lemma StopsLater(k: nat, rest: string)
    requires Stops(k, rest)
    ensures Stops(k + 1, rest)
  {
  }

  lemma {:induction false} NodeIsRead(c: Spelling, rest: string, vars: set<string>)
    requires c.Node? && Fits(c, Prec(c.op), vars) && Delimits(rest) && Stops(Prec(c.op) + 1, rest)
    ensures Level(Prec(c.op), Text(c) + rest, vars) == After(Prec(c.op), c, rest, vars)
    decreases c, 0
  {
    hide Level, Tail, Text, OpAt, Symbol, Stops, Delimits;
    var k := Prec(c.op);
    RemainderFacts(c, rest, vars);
    StopsLater(k + 1, rest);
    SpellingIsRead(k + 1, c.right, rest, vars);
    OperandIsRead(k, c.right, rest, vars);
    TailRound(k, Tree(c.left), c.op, Text(c.right) + rest, Tree(c.right), if k + 1 == PRIMARY then rest else Skip(rest), vars);
    SkipStops(rest);
    StopsLater(k + 1, Remainder(c, rest));
    if k == COMPARISON {
      SpellingIsRead(k + 1, c.left, Remainder(c, rest), vars);
      OperandIsRead(k, c.left, Remainder(c, rest), vars);
    } else {
      SpellingIsRead(k, c.left, Remainder(c, rest), vars);
    }
  }

  /** Every spelling of every tree is accepted and read as that tree, whatever its extra spaces and parentheses. */
  lemma SpellingParses(c: Spelling, trailing: nat, vars: set<string>)
    requires Fits(c, 0, vars)
    ensures Parse(Text(c) + Spaces(trailing), vars) == Some(Tree(c))
  {
    var rest := Spaces(trailing);
    assert rest == Spaces(trailing) + "";
    GapDelimits(trailing, "");
    SpellingIsRead(0, c, rest, vars);
    StoppedAfter(0, c, rest, vars);
  }

  // ---------- Everything accepted is a spelling ----------

  function AddGap(c: Spelling, n: nat): Spelling {
    match c
    case Lit(gap, text) => Lit(n + gap, text)
    case Name(gap, name) => Name(n + gap, name)
    case Group(gap, inner, closeGap) => Group(n + gap, inner, closeGap)
    case Node(left, gap, op, right) => Node(AddGap(left, n), gap, op, right)
  }

  lemma {:induction false} SpacesAdd(m: nat, n: nat)
    ensures Spaces(m + n) == Spaces(m) + Spaces(n)
  {
    if m > 0 { SpacesAdd(m - 1, n); }
  }

  lemma SpacesPrefix(n: nat, gap: nat, tail: string)
    ensures Spaces(n + gap) + tail == Spaces(n) + (Spaces(gap) + tail)
  {
    SpacesAdd(n, gap);
  }

  lemma {:induction false} AddGapFits(c: Spelling, n: nat, k: nat, vars: set<string>)
    requires Fits(c, k, vars)
    ensures Tree(AddGap(c, n)) == Tree(c) && Fits(AddGap(c, n), k, vars)
    decreases c
  {
    if c.Node? { AddGapFits(c.left, n, if Prec(c.op) == COMPARISON then 3 else Prec(c.op), vars); }
  }

  lemma {:induction false} AddGapText(c: Spelling, n: nat)
    ensures Text(AddGap(c, n)) == Spaces(n) + Text(c)
    decreases c
  {
    match c
    case Lit(gap, text) => SpacesPrefix(n, gap, text);
    case Name(gap, name) => SpacesPrefix(n, gap, name);
    case Group(gap, inner, closeGap) => SpacesPrefix(n, gap, "(" + Text(inner) + Spaces(closeGap) + ")");
    case Node(left, gap, op, right) =>
      AddGapText(left, n);
      Prefixed(Spaces(n), Text(left), Spaces(gap) + Symbol(op) + Text(right));
  }

  lemma Prefixed(a: string, b: string, c: string)
    ensures (a + b) + c == a + (b + c)
  {
  }

  lemma OpSplits(k: nat, s: string)
    requires OpAt(k, s).Some?
    ensures s == Symbol(OpAt(k, s).value) + s[|Symbol(OpAt(k, s).value)|..]
  {
  }

  // A spelling of a tighter level also fits a looser one.
  lemma Loosen(c: Spelling, k: nat, vars: set<string>)
    requires k < PRIMARY && Fits(c, k + 1, vars)
    ensures Fits(c, k, vars)
  {
  }

  // The text c spells, the gap after it, and what is left, for an accepted result.
  predicate Spelt(k: nat, s: string, p: Parsed, c: Spelling, gap: nat, vars: set<string>) {
    && p.Accepted? && Fits(c, k, vars) && Tree(c) == p.e
    && s == Text(c) + Spaces(gap) + p.rest
    && (k == PRIMARY ==> gap == 0)
  }

  // Moves the spaces before a spelling into it, and the spaces after it together.
  lemma Attach(s: string, n: nat, c: Spelling, gap: nat, rest: string, k: nat, vars: set<string>)
    returns (d: Spelling, g: nat)
    requires Fits(c, k, vars) && s == Spaces(n) + (Text(c) + Spaces(gap) + rest)
    ensures Fits(d, k, vars) && Tree(d) == Tree(c) && s == Text(d) + Spaces(g) + Skip(rest)
  {
    AddGapText(c, n);
    AddGapFits(c, n, k, vars);
    d := AddGap(c, n);
    assert s == Text(d) + Spaces(gap) + rest;
    g := GapJoins(s, Text(d), gap, rest);
  }

  lemma {:induction false} LevelSound(k: nat, s: string, vars: set<string>) returns (c: Spelling, gap: nat)
    requires k <= PRIMARY && Level(k, s, vars).Accepted?
    ensures Spelt(k, s, Level(k, s, vars), c, gap, vars)
    decreases |s|, PRIMARY - k, 1
  {
    var n := SkipSplits(s);
    if k < PRIMARY { LevelEquation(k, s, vars); LevelSkips(k + 1, s, vars); }
    hide Level, Tail, Text, Skip;
    if k == PRIMARY {
      gap := 0;
      c := PrimarySound(s, n, vars);
    } else {
      var p := Level(k + 1, Skip(s), vars);
      var c0, gap0 := LevelSound(k + 1, Skip(s), vars);
      var c1, gap1 := Attach(s, n, c0, gap0, p.rest, k + 1, vars);
      Loosen(c1, k, vars);
      c, gap := TailSound(k, c1, gap1, Skip(p.rest), s, vars);
    }
  }

  lemma LiteralSound(t: string)
    requires StartsNumber(t)
    ensures IsLiteral(t[..LiteralLength(t)])
  {
    if t[0] == '-' {
      NumRunPrefix(t[1..]);
      assert t[..LiteralLength(t)][1..] == t[1..][..NumRun(t[1..])];
    } else {
      NumRunPrefix(t);
    }
  }

  lemma GroupSound(s: string, n: nat, t: string, inner: Spelling, close: nat, rest: string)
    requires s == Spaces(n) + t && t != "" && t[0] == '(' && rest != "" && rest[0] == ')'
    requires t[1..] == Text(inner) + Spaces(close) + rest
    ensures s == Text(Group(n, inner, close)) + Spaces(0) + rest[1..]
  {
    assert t == "(" + t[1..] && rest == ")" + rest[1..];
  }

  lemma {:induction false} PrimarySound(s: string, n: nat, vars: set<string>) returns (c: Spelling)
    requires Level(PRIMARY, s, vars).Accepted? && s == Spaces(n) + Skip(s)
    ensures Spelt(PRIMARY, s, Level(PRIMARY, s, vars), c, 0, vars)
    decreases |s|, 0, 0
  {
    var t := Skip(s);
    hide Tail, Text, OpAt, Symbol, Skip, NumRun, NameRun;
    if t[0] == '(' {
      GroupEquation(s, vars);
      hide Level;
      var inner, close := LevelSound(0, t[1..], vars);
      c := Group(n, inner, close);
      GroupSound(s, n, t, inner, close, Level(0, t[1..], vars).rest);
    } else {
      TokenEquation(s, vars);
      hide Level;
      var size := if StartsNumber(t) then LiteralLength(t) else NameRun(t);
      if StartsNumber(t) { LiteralSound(t); } else { NameRunPrefix(t); }
      c := if StartsNumber(t) then Lit(n, t[..size]) else Name(n, t[..size]);
      TokenText(c, n, t[..size]);
      assert s == (Spaces(n) + t[..size]) + Spaces(0) + t[size..];
    }
  }

  lemma TokenText(c: Spelling, n: nat, token: string)
    requires c == Lit(n, token) || c == Name(n, token)
    ensures Text(c) == Spaces(n) + token
  {
  }

  lemma {:induction false} TailSound(k: nat, left: Spelling, gap0: nat, s: string, whole: string, vars: set<string>)
    returns (c: Spelling, gap: nat)
    requires k < PRIMARY && Fits(left, k, vars) && Tail(k, Tree(left), s, vars).Accepted?
    requires k == COMPARISON ==> Fits(left, k + 1, vars)
    requires whole == Text(left) + Spaces(gap0) + s && |s| < |whole|
    ensures Spelt(k, whole, Tail(k, Tree(left), s, vars), c, gap, vars)
    decreases |s|, PRIMARY - k, 0
  {
    TailEquation(k, Tree(left), s, vars);
    hide Tail, Level, Text, Symbol, OpAt, Skip, Spaces;
    if OpAt(k, s).None? { return left, gap0; }
    var op := OpAt(k, s).value;
    var after := s[|Symbol(op)|..];
    var p := Level(k + 1, after, vars);
    var right, gap1 := LevelSound(k + 1, after, vars);
    var node := Node(left, gap0, op, right);
    Extended(node, whole, s, after, gap1, p.rest);
    if k == COMPARISON { return node, gap1; }
    var gap2 := GapJoins(whole, Text(node), gap1, p.rest);
    c, gap := TailSound(k, node, gap2, Skip(p.rest), whole, vars);
  }

  lemma Extended(node: Spelling, whole: string, s: string, after: string, gap: nat, rest: string)
    requires node.Node? && OpAt(Prec(node.op), s) == Some(node.op) && after == s[|Symbol(node.op)|..]
    requires whole == Text(node.left) + Spaces(node.gap) + s && after == Text(node.right) + Spaces(gap) + rest
    ensures whole == Text(node) + Spaces(gap) + rest
  {
    OpSplits(Prec(node.op), s);
    hide OpAt, Symbol;
    NodeText(node, whole, s, after, gap, rest);
  }

  lemma NodeText(node: Spelling, whole: string, s: string, after: string, gap: nat, rest: string)
    requires node.Node? && whole == Text(node.left) + Spaces(node.gap) + s && s == Symbol(node.op) + after
    requires after == Text(node.right) + Spaces(gap) + rest
    ensures whole == Text(node) + Spaces(gap) + rest
  {
  }

  lemma GapJoins(whole: string, text: string, gap: nat, rest: string) returns (joined: nat)
    requires whole == text + Spaces(gap) + rest
    ensures whole == text + Spaces(joined) + Skip(rest)
  {
    var m := SkipSplits(rest);
    SpacesAdd(gap, m);
    joined := gap + m;
    assert whole == text + Spaces(gap) + (Spaces(m) + Skip(rest));
  }

  /** Conversely every accepted input is the spelling of the tree it is read as, up to trailing spaces. */
  lemma AcceptedIsSpelling(src: string, vars: set<string>) returns (c: Spelling, trailing: nat)
    requires Parse(src, vars).Some?
    ensures Fits(c, 0, vars) && Parse(src, vars) == Some(Tree(c)) && src == Text(c) + Spaces(trailing)
  {
    var gap;
    c, gap := LevelSound(0, src, vars);
    var rest := Level(0, src, vars).rest;
    var n := SkipSplits(rest);
    SpacesAdd(gap, n);
    trailing := gap + n;
    assert src == Text(c) + Spaces(gap) + (Spaces(n) + "");
  }

  /** The language is exactly the set of spellings, and no text spells two trees. */
  lemma AcceptedIffSpelling(src: string, vars: set<string>, e: Expr)
    ensures Parse(src, vars) == Some(e)
            <==> exists c, n :: Fits(c, 0, vars) && Tree(c) == e && src == Text(c) + Spaces(n)
  {
    if Parse(src, vars) == Some(e) {
      var c, n := AcceptedIsSpelling(src, vars);
    }
    forall c, n | Fits(c, 0, vars) && Tree(c) == e && src == Text(c) + Spaces(n) ensures Parse(src, vars) == Some(e) {
      SpellingParses(c, n, vars);
    }
  }

  // ---------- Printing with as few parentheses as possible ----------

  predicate Printable(e: Expr, vars: set<string>) {
    match e
    case Num(text) => IsLiteral(text)
    case Var(name) => IsName(name) && name in vars
    case Bin(_, left, right) => Printable(left, vars) && Printable(right, vars)
  }

  // Parenthesizes an operand only where precedence or associativity demands it.
  function Print(e: Expr, k: nat): Spelling {
    match e
    case Num(text) => Lit(0, text)
    case Var(name) => Name(0, name)
    case Bin(op, left, right) =>
      var node := Node(Print(left, if Prec(op) == COMPARISON then 3 else Prec(op)), 0, op, Print(right, Prec(op) + 1));
      if Prec(op) < k then Group(0, node, 0) else node
  }

  function Parens(c: Spelling): nat {
    match c
    case Lit(_, _) => 0
    case Name(_, _) => 0
    case Group(_, inner, _) => 1 + Parens(inner)
    case Node(left, _, _, right) => Parens(left) + Parens(right)
  }

  lemma {:induction false} PrintFits(e: Expr, k: nat, vars: set<string>)
    requires Printable(e, vars) && k <= PRIMARY
    ensures Fits(Print(e, k), k, vars) && Tree(Print(e, k)) == e
  {
    if e.Bin? {
      PrintFits(e.left, if Prec(e.op) == COMPARISON then 3 else Prec(e.op), vars);
      PrintFits(e.right, Prec(e.op) + 1, vars);
    }
  }

  /** No spelling of the same tree uses fewer parentheses. */
  lemma {:induction false} PrintIsMinimal(c: Spelling, k: nat, vars: set<string>)
    requires Fits(c, k, vars) && k <= PRIMARY
    ensures Parens(Print(Tree(c), k)) <= Parens(c)
    decreases c
  {
    match c
    case Lit(_, _) =>
    case Name(_, _) =>
    case Group(_, inner, _) => PrintIsMinimal(inner, 0, vars);
    case Node(left, _, op, right) =>
      PrintIsMinimal(left, if Prec(op) == COMPARISON then 3 else Prec(op), vars);
      PrintIsMinimal(right, Prec(op) + 1, vars);
  }

  /** Printing then reading gives the tree back. */
  lemma PrintParses(e: Expr, vars: set<string>)
    requires Printable(e, vars)
    ensures Parse(Text(Print(e, 0)), vars) == Some(e)
  {
    PrintFits(e, 0, vars);
    SpellingParses(Print(e, 0), 0, vars);
    assert Text(Print(e, 0)) + Spaces(0) == Text(Print(e, 0));
  }
}
