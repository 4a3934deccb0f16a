/**
 The language the parser is meant to accept, as syntax trees and the token
 sequence each tree is written as, and the theorem that the parser accepts
 every such token sequence without reporting an error: whatever the
 recursive-descent procedures look ahead at, a program written from a tree
 is read back in one pass with no error.

 Trees are abstract in identifiers and numbers: any identifier token and
 any number token may stand where the tree has a name or a number, and
 keywords may be written in any case.
 */
module Grammar {
  import opened Wrappers
  import opened Chars
  import opened Parser

  // ---------------------------------------------------------------------
  // Lexical items and token sequences

  /** What one token of a written program must be: a keyword, an exact symbol, an identifier or a number. */
  datatype Lex = LKw(word: string) | LSym(sym: string) | LId | LNum

  predicate LexOk(t: PToken, x: Lex) {
    match x
    case LKw(w) => KwTok(t, w)
    case LSym(s) => SymTok(t, s)
    case LId => t.typ == Ident
    case LNum => t.typ == Nombre
  }

  /** The tokens from `pos` on are written as `xs`, and some token follows them. */
  predicate Spans(ts: seq<PToken>, pos: nat, xs: seq<Lex>)
    decreases xs
  {
    pos + |xs| < |ts| && (xs == [] || (LexOk(ts[pos], xs[0]) && Spans(ts, pos + 1, xs[1..])))
  }

  lemma {:induction false} SpansSplit(ts: seq<PToken>, pos: nat, a: seq<Lex>, b: seq<Lex>)
    requires Spans(ts, pos, a + b)
    ensures Spans(ts, pos, a) && Spans(ts, pos + |a|, b)
    decreases a
  {
    if a == [] {
      assert a + b == b;
    } else {
      assert (a + b)[0] == a[0] && (a + b)[1..] == a[1..] + b;
      SpansSplit(ts, pos + 1, a[1..], b);
    }
  }

  lemma {:induction false} Spans3(ts: seq<PToken>, pos: nat, a: seq<Lex>, b: seq<Lex>, c: seq<Lex>)
    requires Spans(ts, pos, a + b + c)
    ensures Spans(ts, pos, a) && Spans(ts, pos + |a|, b) && Spans(ts, pos + |a| + |b|, c)
  {
    SpansSplit(ts, pos, a + b, c);
    SpansSplit(ts, pos, a, b);
  }

  lemma {:induction false} SpansAt(ts: seq<PToken>, pos: nat, xs: seq<Lex>, k: nat)
    requires Spans(ts, pos, xs) && k < |xs|
    ensures LexOk(ts[pos + k], xs[k])
    decreases k
  {
    if k > 0 {
      SpansAt(ts, pos + 1, xs[1..], k - 1);
    }
  }

  lemma {:induction false} SpansFirst(ts: seq<PToken>, pos: nat, xs: seq<Lex>)
    requires Spans(ts, pos, xs) && |xs| > 0
    ensures LexOk(ts[pos], xs[0]) && Spans(ts, pos + 1, xs[1..])
  {
  }

  /** A keyword token fits exactly one spelling. */
  lemma {:induction false} KeywordToken(t: PToken, w: string)
    requires KwTok(t, w)
    ensures forall v :: KwTok(t, v) <==> v == w
  {
    forall v
      ensures KwTok(t, v) <==> v == w
    {
      SpelledAsLower(t.lexeme, v);
      SpelledAsLower(t.lexeme, w);
    }
  }

  /** The symbols the grammar expects contain no upper-case letter, so an exact symbol also fits. */
  lemma {:induction false} SymbolFits(t: PToken, s: string)
    requires SymTok(t, s) && s in {";", ":", ":=", "=", ",", ")", "."}
    ensures Fits(t, Symbole, s)
  {
    SpelledAsLower(t.lexeme, s);
    assert Lower(s) == s;
  }

  /** An exact symbol the grammar expects, at the cursor, is read without error. */
  lemma {:induction false} SymbolExpected(ts: seq<PToken>, st: PState, s: string)
    requires st.pos < |ts| && SymTok(ts[st.pos], s) && s in {";", ":", ":=", "=", ",", ")", "."}
    ensures Clean(st, Expect(ts, st, Symbole, s), 1)
  {
    SymbolFits(ts[st.pos], s);
  }

  /** No operator of any level. */
  predicate NotOp(t: PToken) {
    !OpRelTok(t) && !OpAddTok(t) && !OpMultTok(t)
  }

  // ---------------------------------------------------------------------
  // Expressions

  datatype RelOp = Lt | Gt | Eq | Le | Ge | Ne
  datatype AddOp = Plus | Minus | Or
  datatype MulOp = Times | Div | Mod | And
  datatype Sign = Pos | Neg
  datatype Const = CNum | CName

  datatype Expr = Plain(s: Simple) | Compare(left: Simple, op: RelOp, right: Simple)
  datatype Simple = Simple(sign: Option<Sign>, first: Term, rest: AddChain)
  datatype AddChain = AddEnd | AddMore(op: AddOp, t: Term, rest: AddChain)
  datatype Term = Term(first: Factor, rest: MulChain)
  datatype MulChain = MulEnd | MulMore(op: MulOp, f: Factor, rest: MulChain)
  datatype Factor = Paren(e: Expr) | Num | Var

  function RelLex(op: RelOp): Lex {
    match op
    case Lt => LSym("<")
    case Gt => LSym(">")
    case Eq => LSym("=")
    case Le => LSym("<=")
    case Ge => LSym(">=")
    case Ne => LSym("<>")
  }

  function AddLex(op: AddOp): Lex {
    match op
    case Plus => LSym("+")
    case Minus => LSym("-")
    case Or => LKw("ou")
  }

  function MulLex(op: MulOp): Lex {
    match op
    case Times => LSym("*")
    case Div => LKw("div")
    case Mod => LKw("mod")
    case And => LKw("et")
  }

  function SignLex(s: Sign): Lex {
    match s
    case Pos => LSym("+")
    case Neg => LSym("-")
  }

  function ConstLex(c: Const): Lex {
    match c
    case CNum => LNum
    case CName => LId
  }

  function EmitExpr(e: Expr): seq<Lex> {
    match e
    case Plain(s) => EmitSimple(s)
    case Compare(l, op, r) => EmitSimple(l) + [RelLex(op)] + EmitSimple(r)
  }

  function EmitSign(sign: Option<Sign>): seq<Lex> {
    match sign
    case None => []
    case Some(s) => [SignLex(s)]
  }

  function EmitSimple(s: Simple): seq<Lex> {
    EmitSign(s.sign) + EmitTerm(s.first) + EmitAdd(s.rest)
  }

  function EmitAdd(c: AddChain): seq<Lex> {
    match c
    case AddEnd => []
    case AddMore(op, t, rest) => [AddLex(op)] + EmitTerm(t) + EmitAdd(rest)
  }

  function EmitTerm(t: Term): seq<Lex> {
    EmitFactor(t.first) + EmitMul(t.rest)
  }

  function EmitMul(c: MulChain): seq<Lex> {
    match c
    case MulEnd => []
    case MulMore(op, f, rest) => [MulLex(op)] + EmitFactor(f) + EmitMul(rest)
  }

  function EmitFactor(f: Factor): seq<Lex> {
    match f
    case Paren(e) => [LSym("(")] + EmitExpr(e) + [LSym(")")]
    case Num => [LNum]
    case Var => [LId]
  }

  /** A factor is never empty and starts with '(', a number or an identifier. */
  lemma {:induction false} FactorStart(ts: seq<PToken>, pos: nat, f: Factor)
    requires Spans(ts, pos, EmitFactor(f))
    ensures |EmitFactor(f)| > 0
    ensures SymTok(ts[pos], "(") || ts[pos].typ == Nombre || ts[pos].typ == Ident
  {
    SpansFirst(ts, pos, EmitFactor(f));
  }

  // The parser reads each written expression part exactly, without error.

  /** The parser state after reading `n` more tokens and reporting nothing. */
  predicate Clean(st: PState, r: PState, n: nat) {
    r.pos == st.pos + n && r.errors == st.errors
  }

  // Where each part of a written expression sits.

  lemma {:induction false} ParenLayout(ts: seq<PToken>, pos: nat, e: Expr)
    requires Spans(ts, pos, EmitFactor(Paren(e)))
    ensures SymTok(ts[pos], "(") && Spans(ts, pos + 1, EmitExpr(e))
    ensures SymTok(ts[pos + 1 + |EmitExpr(e)|], ")")
    ensures |EmitFactor(Paren(e))| == |EmitExpr(e)| + 2
  {
    SpansSplit(ts, pos, [LSym("(")] + EmitExpr(e), [LSym(")")]);
    SpansSplit(ts, pos, [LSym("(")], EmitExpr(e));
  }

  lemma {:induction false} MulLayout(ts: seq<PToken>, pos: nat, c: MulChain)
    requires c.MulMore? && Spans(ts, pos, EmitMul(c))
    ensures OpMultTok(ts[pos]) && Spans(ts, pos + 1, EmitFactor(c.f))
    ensures Spans(ts, pos + 1 + |EmitFactor(c.f)|, EmitMul(c.rest))
    ensures |EmitMul(c)| == 1 + |EmitFactor(c.f)| + |EmitMul(c.rest)|
  {
    SpansSplit(ts, pos, [MulLex(c.op)] + EmitFactor(c.f), EmitMul(c.rest));
    SpansSplit(ts, pos, [MulLex(c.op)], EmitFactor(c.f));
  }

  lemma {:induction false} TermLayout(ts: seq<PToken>, pos: nat, t: Term)
    requires Spans(ts, pos, EmitTerm(t))
    ensures Spans(ts, pos, EmitFactor(t.first))
    ensures Spans(ts, pos + |EmitFactor(t.first)|, EmitMul(t.rest))
    ensures SymTok(ts[pos], "(") || ts[pos].typ == Nombre || ts[pos].typ == Ident
  {
    SpansSplit(ts, pos, EmitFactor(t.first), EmitMul(t.rest));
    FactorStart(ts, pos, t.first);
  }

  /** An additive operator is no multiplicative one. */
  lemma {:induction false} AddOpNotMult(t: PToken, op: AddOp)
    requires LexOk(t, AddLex(op))
    ensures !OpMultTok(t) && OpAddTok(t)
  {
    if op == Or {
      KeywordToken(t, "ou");
    }
  }

  /** What follows a chain of additive operators and terms, seen from the token after one term. */
  lemma {:induction false} AddChainFollow(ts: seq<PToken>, pos: nat, c: AddChain)
    requires Spans(ts, pos, EmitAdd(c))
    requires !OpAddTok(ts[pos + |EmitAdd(c)|]) && !OpMultTok(ts[pos + |EmitAdd(c)|])
    ensures !OpMultTok(ts[pos])
    ensures c.AddEnd? <==> !OpAddTok(ts[pos])
  {
    if c.AddMore? {
      AddOpNotMult(ts[pos], c.op);
    }
  }

  lemma {:induction false} AddLayout(ts: seq<PToken>, pos: nat, c: AddChain)
    requires c.AddMore? && Spans(ts, pos, EmitAdd(c))
    ensures OpAddTok(ts[pos]) && Spans(ts, pos + 1, EmitTerm(c.t))
    ensures Spans(ts, pos + 1 + |EmitTerm(c.t)|, EmitAdd(c.rest))
    ensures |EmitAdd(c)| == 1 + |EmitTerm(c.t)| + |EmitAdd(c.rest)|
  {
    SpansSplit(ts, pos, [AddLex(c.op)] + EmitTerm(c.t), EmitAdd(c.rest));
    SpansSplit(ts, pos, [AddLex(c.op)], EmitTerm(c.t));
    AddOpNotMult(ts[pos], c.op);
  }

  lemma {:induction false} SimpleLayout(ts: seq<PToken>, pos: nat, s: Simple)
    requires Spans(ts, pos, EmitSimple(s))
    ensures s.sign.Some? <==> SymTok(ts[pos], "+") || SymTok(ts[pos], "-")
    ensures Spans(ts, pos + |EmitSign(s.sign)|, EmitTerm(s.first) + EmitAdd(s.rest))
    ensures |EmitSimple(s)| == |EmitSign(s.sign)| + |EmitTerm(s.first)| + |EmitAdd(s.rest)|
    ensures |EmitSign(s.sign)| == if s.sign.Some? then 1 else 0
  {
    var sg := EmitSign(s.sign);
    assert EmitSimple(s) == sg + (EmitTerm(s.first) + EmitAdd(s.rest));
    SpansSplit(ts, pos, sg, EmitTerm(s.first) + EmitAdd(s.rest));
    if s.sign.None? {
      SpansSplit(ts, pos, EmitTerm(s.first), EmitAdd(s.rest));
      TermLayout(ts, pos, s.first);
    }
  }

  lemma {:induction false} CompareLayout(ts: seq<PToken>, pos: nat, e: Expr)
    requires e.Compare? && Spans(ts, pos, EmitExpr(e))
    ensures Spans(ts, pos, EmitSimple(e.left))
    ensures OpRelTok(ts[pos + |EmitSimple(e.left)|]) && !OpAddTok(ts[pos + |EmitSimple(e.left)|])
    ensures !OpMultTok(ts[pos + |EmitSimple(e.left)|])
    ensures Spans(ts, pos + |EmitSimple(e.left)| + 1, EmitSimple(e.right))
    ensures |EmitExpr(e)| == |EmitSimple(e.left)| + 1 + |EmitSimple(e.right)|
  {
    SpansSplit(ts, pos, EmitSimple(e.left) + [RelLex(e.op)], EmitSimple(e.right));
    SpansSplit(ts, pos, EmitSimple(e.left), [RelLex(e.op)]);
  }

  // The parser reads each written expression part exactly, without error.

  lemma {:induction false} FactorParses(ts: seq<PToken>, st: PState, f: Factor)
    requires Valid(ts) && Spans(ts, st.pos, EmitFactor(f))
    ensures Clean(st, Facteur(ts, st), |EmitFactor(f)|)
    decreases f
  {
    match f
    case Paren(e) =>
      ParenLayout(ts, st.pos, e);
      var s1 := Advance(AddRule(st, RFacteurParen));
      ExprParses(ts, s1, e);
      var s2 := Expression(ts, s1);
      assert s2.pos == st.pos + 1 + |EmitExpr(e)| && s2.errors == st.errors;
      SymbolFits(ts[s2.pos], ")");
      assert Facteur(ts, st) == Expect(ts, s2, Symbole, ")");
    case Num =>
    case Var =>
  }

  lemma {:induction false} MulChainParses(ts: seq<PToken>, st: PState, c: MulChain)
    requires Valid(ts) && Spans(ts, st.pos, EmitMul(c))
    requires !OpMultTok(ts[st.pos + |EmitMul(c)|])
    ensures Clean(st, TermeLoop(ts, st), |EmitMul(c)|)
    decreases c
  {
    if c.MulMore? {
      MulLayout(ts, st.pos, c);
      var s1 := Operator(ts, st, ROperateurMult(Cur(ts, st.pos).lexeme));
      FactorParses(ts, s1, c.f);
      var s2 := Facteur(ts, s1);
      assert s2.pos == st.pos + 1 + |EmitFactor(c.f)| && s2.errors == st.errors;
      MulChainParses(ts, s2, c.rest);
      assert TermeLoop(ts, st) == TermeLoop(ts, s2);
    }
  }

  lemma {:induction false} TermParses(ts: seq<PToken>, st: PState, t: Term)
    requires Valid(ts) && Spans(ts, st.pos, EmitTerm(t))
    requires !OpMultTok(ts[st.pos + |EmitTerm(t)|])
    ensures Clean(st, Terme(ts, st), |EmitTerm(t)|)
    decreases t
  {
    TermLayout(ts, st.pos, t);
    var s1 := AddRule(st, RTerme);
    FactorParses(ts, s1, t.first);
    var s2 := Facteur(ts, s1);
    assert s2.pos == st.pos + |EmitFactor(t.first)| && s2.errors == st.errors;
    MulChainParses(ts, s2, t.rest);
  }

  lemma {:induction false} AddChainParses(ts: seq<PToken>, st: PState, c: AddChain)
    requires Valid(ts) && Spans(ts, st.pos, EmitAdd(c))
    requires !OpAddTok(ts[st.pos + |EmitAdd(c)|]) && !OpMultTok(ts[st.pos + |EmitAdd(c)|])
    ensures Clean(st, ExpressionSimpleLoop(ts, st), |EmitAdd(c)|)
    decreases c, 2
  {
    if c.AddMore? {
      AddMoreParses(ts, st, c);
    } else {
      assert !IsOpAdd(ts, st);
    }
  }

  /** A chain with at least one additive operator: the first step, then the rest of the chain. */
  lemma {:induction false} AddMoreParses(ts: seq<PToken>, st: PState, c: AddChain)
    requires c.AddMore? && Valid(ts) && Spans(ts, st.pos, EmitAdd(c))
    requires !OpAddTok(ts[st.pos + |EmitAdd(c)|]) && !OpMultTok(ts[st.pos + |EmitAdd(c)|])
    ensures Clean(st, ExpressionSimpleLoop(ts, st), |EmitAdd(c)|)
    decreases c, 1
  {
    var n1 := 1 + |EmitTerm(c.t)|;
    var s2 := Terme(ts, Operator(ts, st, ROperateurAddition(Cur(ts, st.pos).lexeme)));
    assert IsOpAdd(ts, st) && Clean(st, s2, n1) && |EmitAdd(c)| == n1 + |EmitAdd(c.rest)| by {
      AddLayout(ts, st.pos, c);
      AddChainFollow(ts, st.pos + n1, c.rest);
      AddStepParses(ts, st, c);
    }
    assert Clean(s2, ExpressionSimpleLoop(ts, s2), |EmitAdd(c.rest)|) by {
      AddLayout(ts, st.pos, c);
      AddChainFollow(ts, st.pos + n1, c.rest);
      AddChainParses(ts, s2, c.rest);
    }
    assert ExpressionSimpleLoop(ts, st) == ExpressionSimpleLoop(ts, s2);
  }

  /** One additive operator and the term after it. */
  lemma {:induction false} AddStepParses(ts: seq<PToken>, st: PState, c: AddChain)
    requires c.AddMore? && Valid(ts) && Spans(ts, st.pos + 1, EmitTerm(c.t)) && OpAddTok(ts[st.pos])
    requires !OpMultTok(ts[st.pos + 1 + |EmitTerm(c.t)|])
    ensures IsOpAdd(ts, st)
    ensures Clean(st, Terme(ts, Operator(ts, st, ROperateurAddition(Cur(ts, st.pos).lexeme))), 1 + |EmitTerm(c.t)|)
    decreases c, 0
  {
    TermParses(ts, Operator(ts, st, ROperateurAddition(Cur(ts, st.pos).lexeme)), c.t);
  }

  lemma {:induction false} SimpleParses(ts: seq<PToken>, st: PState, s: Simple)
    requires Valid(ts) && Spans(ts, st.pos, EmitSimple(s))
    requires !OpAddTok(ts[st.pos + |EmitSimple(s)|]) && !OpMultTok(ts[st.pos + |EmitSimple(s)|])
    ensures Clean(st, ExpressionSimple(ts, st), |EmitSimple(s)|)
    decreases s
  {
    SimpleLayout(ts, st.pos, s);
    var s2 := SignPart(ts, AddRule(st, RExpressionSimple));
    assert s2.pos == st.pos + |EmitSign(s.sign)| && s2.errors == st.errors;
    SimpleTailParses(ts, s2, s);
  }

  /** The terms of an expression after its sign. */
  lemma {:induction false} SimpleTailParses(ts: seq<PToken>, st: PState, s: Simple)
    requires Valid(ts) && Spans(ts, st.pos, EmitTerm(s.first) + EmitAdd(s.rest))
    requires var n := |EmitTerm(s.first)| + |EmitAdd(s.rest)|;
             !OpAddTok(ts[st.pos + n]) && !OpMultTok(ts[st.pos + n])
    ensures Clean(st, ExpressionSimpleLoop(ts, Terme(ts, st)), |EmitTerm(s.first)| + |EmitAdd(s.rest)|)
    decreases s, 0
  {
    var p := st.pos + |EmitTerm(s.first)|;
    var s3 := Terme(ts, st);
    assert Clean(st, s3, |EmitTerm(s.first)|) && Spans(ts, p, EmitAdd(s.rest)) by {
      SpansSplit(ts, st.pos, EmitTerm(s.first), EmitAdd(s.rest));
      AddChainFollow(ts, p, s.rest);
      TermParses(ts, st, s.first);
    }
    assert Clean(s3, ExpressionSimpleLoop(ts, s3), |EmitAdd(s.rest)|) by {
      AddChainParses(ts, s3, s.rest);
    }
  }

  lemma {:induction false} ExprParses(ts: seq<PToken>, st: PState, e: Expr)
    requires Valid(ts) && Spans(ts, st.pos, EmitExpr(e))
    requires NotOp(ts[st.pos + |EmitExpr(e)|])
    ensures Clean(st, Expression(ts, st), |EmitExpr(e)|)
    decreases e
  {
    var s0 := AddRule(st, RExpression);
    match e
    case Plain(s) =>
      SimpleParses(ts, s0, s);
    case Compare(l, op, r) =>
      CompareLayout(ts, st.pos, e);
      SimpleParses(ts, s0, l);
      var s1 := ExpressionSimple(ts, s0);
      assert s1.pos == st.pos + |EmitSimple(l)| && s1.errors == st.errors;
      var s2 := Operator(ts, s1, ROperateurRelationnel(Cur(ts, s1.pos).lexeme));
      SimpleParses(ts, s2, r);
      assert Expression(ts, st) == ExpressionSimple(ts, s2);
  }

  // ---------------------------------------------------------------------
  // Statements

  datatype Stmt =
    | Skip
    | Assign(e: Expr)
    | If(cond: Expr, thenS: Stmt, elseS: Option<Stmt>)
    | While(cond: Expr, body: Stmt)
    | Repeat(body: Stmt, until: Expr)
    | For(from: Const, to: Const, step: Option<Const>, body: Stmt)
    | Block(c: Compound)

  /** debut Instruction { ; Instruction } fin */
  datatype Compound = Compound(first: Stmt, rest: StmtChain)
  datatype StmtChain = StmtEnd | StmtMore(s: Stmt, rest: StmtChain)

  function EmitStmt(s: Stmt): seq<Lex> {
    match s
    case Skip => []
    case Assign(e) => [LId, LSym(":=")] + EmitExpr(e)
    case If(c, t, e) => [LKw("si")] + EmitExpr(c) + [LKw("alors")] + EmitStmt(t) + EmitElse(e)
    case While(c, b) => [LKw("tantque")] + EmitExpr(c) + [LKw("faire")] + EmitStmt(b)
    case Repeat(b, c) => [LKw("repeter")] + EmitStmt(b) + [LKw("jusqua")] + EmitExpr(c)
    case For(a, b, step, body) => EmitRange(a, b, step) + [LKw("faire")] + EmitStmt(body)
    case Block(c) => EmitCompound(c)
  }

  function EmitElse(e: Option<Stmt>): seq<Lex> {
    match e
    case None => []
    case Some(x) => [LKw("sinon")] + EmitStmt(x)
  }

  /** pour NomVariable allant de Constante a Constante [pas Constante] */
  function EmitRange(a: Const, b: Const, step: Option<Const>): seq<Lex> {
    [LKw("pour"), LId, LKw("allant")] + EmitBounds(a, b, step)
  }

  function EmitBounds(a: Const, b: Const, step: Option<Const>): seq<Lex> {
    [LKw("de"), ConstLex(a), LKw("a"), ConstLex(b)] + EmitStep(step)
  }

  function EmitStep(step: Option<Const>): seq<Lex> {
    match step
    case None => []
    case Some(c) => [LKw("pas"), ConstLex(c)]
  }

  function EmitCompound(c: Compound): seq<Lex> {
    [LKw("debut")] + EmitStmt(c.first) + EmitChain(c.rest) + [LKw("fin")]
  }

  function EmitChain(c: StmtChain): seq<Lex> {
    match c
    case StmtEnd => []
    case StmtMore(s, rest) => [LSym(";")] + EmitStmt(s) + EmitChain(rest)
  }

  /** The statement ends with a `si` that has no `sinon`, so a `sinon` written after it would be taken as its own. */
  predicate EndsWithOpenIf(s: Stmt) {
    match s
    case If(_, _, e) => e.None? || EndsWithOpenIf(e.value)
    case While(_, b) => EndsWithOpenIf(b)
    case For(_, _, _, b) => EndsWithOpenIf(b)
    case _ => false
  }

  /** No `sinon` belongs to a `si` whose `alors` branch ends with a `si` without `sinon` (no dangling else). */
  predicate WfStmt(s: Stmt) {
    match s
    case Skip => true
    case Assign(_) => true
    case If(_, t, e) => WfStmt(t) && (e.Some? ==> !EndsWithOpenIf(t) && WfStmt(e.value))
    case While(_, b) => WfStmt(b)
    case Repeat(b, _) => WfStmt(b)
    case For(_, _, _, b) => WfStmt(b)
    case Block(c) => WfCompound(c)
  }

  predicate WfCompound(c: Compound) {
    WfStmt(c.first) && WfChain(c.rest)
  }

  predicate WfChain(c: StmtChain) {
    match c
    case StmtEnd => true
    case StmtMore(s, rest) => WfStmt(s) && WfChain(rest)
  }

  /** What may follow a statement: no operator, nothing that starts a statement, and no `sinon` after an open `si`. */
  predicate StmtFollow(s: Stmt, t: PToken) {
    NotOp(t) && !StartsStatement(t) && (EndsWithOpenIf(s) ==> !KwTok(t, "sinon"))
  }

  /** A keyword other than the operator and statement keywords follows any statement but an open `si` when it is `sinon`. */
  lemma {:induction false} KeywordFollows(t: PToken, w: string, s: Stmt)
    requires KwTok(t, w) && w in {"alors", "faire", "sinon", "jusqua", "fin", "a", "pas", "allant", "de"}
    requires w == "sinon" ==> !EndsWithOpenIf(s)
    ensures StmtFollow(s, t)
  {
    KeywordToken(t, w);
  }

  lemma {:induction false} SymbolFollows(t: PToken, x: string, s: Stmt)
    requires SymTok(t, x) && x in {";", ")", ".", ":", ","}
    ensures StmtFollow(s, t)
  {
  }

  // Where each part of a written statement sits.

  lemma {:induction false} AssignLayout(ts: seq<PToken>, pos: nat, s: Stmt)
    requires s.Assign? && Spans(ts, pos, EmitStmt(s))
    ensures ts[pos].typ == Ident && SymTok(ts[pos + 1], ":=")
    ensures Spans(ts, pos + 2, EmitExpr(s.e))
    ensures |EmitStmt(s)| == 2 + |EmitExpr(s.e)|
  {
    SpansSplit(ts, pos, [LId, LSym(":=")], EmitExpr(s.e));
    SpansAt(ts, pos, [LId, LSym(":=")], 0);
    SpansAt(ts, pos, [LId, LSym(":=")], 1);
  }

  /** A keyword, an expression and a second keyword, followed by `rest`. */
  lemma {:induction false} GuardLayout(ts: seq<PToken>, pos: nat, kw1: string, e: Expr, kw2: string, rest: seq<Lex>)
    requires Spans(ts, pos, [LKw(kw1)] + EmitExpr(e) + [LKw(kw2)] + rest)
    ensures KwTok(ts[pos], kw1) && Spans(ts, pos + 1, EmitExpr(e))
    ensures KwTok(ts[pos + 1 + |EmitExpr(e)|], kw2)
    ensures Spans(ts, pos + |EmitExpr(e)| + 2, rest)
  {
    SpansSplit(ts, pos, [LKw(kw1)] + EmitExpr(e) + [LKw(kw2)], rest);
    Spans3(ts, pos, [LKw(kw1)], EmitExpr(e), [LKw(kw2)]);
  }

  lemma {:induction false} IfLayout(ts: seq<PToken>, pos: nat, s: Stmt)
    requires s.If? && Spans(ts, pos, EmitStmt(s))
    ensures KwTok(ts[pos], "si") && Spans(ts, pos + 1, EmitExpr(s.cond))
    ensures KwTok(ts[pos + 1 + |EmitExpr(s.cond)|], "alors")
    ensures Spans(ts, pos + |EmitExpr(s.cond)| + 2, EmitStmt(s.thenS))
    ensures Spans(ts, pos + |EmitExpr(s.cond)| + 2 + |EmitStmt(s.thenS)|, EmitElse(s.elseS))
    ensures |EmitStmt(s)| == |EmitExpr(s.cond)| + 2 + |EmitStmt(s.thenS)| + |EmitElse(s.elseS)|
  {
    var head := [LKw("si")] + EmitExpr(s.cond) + [LKw("alors")];
    assert Spans(ts, pos, head + EmitStmt(s.thenS)) && Spans(ts, pos + |head + EmitStmt(s.thenS)|, EmitElse(s.elseS)) by {
      SpansSplit(ts, pos, head + EmitStmt(s.thenS), EmitElse(s.elseS));
    }
    GuardLayout(ts, pos, "si", s.cond, "alors", EmitStmt(s.thenS));
  }

  lemma {:induction false} ElseLayout(ts: seq<PToken>, pos: nat, e: Option<Stmt>)
    requires Spans(ts, pos, EmitElse(e))
    ensures e.None? ==> |EmitElse(e)| == 0
    ensures e.Some? ==> && KwTok(ts[pos], "sinon")
                        && Spans(ts, pos + 1, EmitStmt(e.value))
                        && |EmitElse(e)| == 1 + |EmitStmt(e.value)|
  {
  }

  lemma {:induction false} WhileLayout(ts: seq<PToken>, pos: nat, s: Stmt)
    requires s.While? && Spans(ts, pos, EmitStmt(s))
    ensures KwTok(ts[pos], "tantque") && Spans(ts, pos + 1, EmitExpr(s.cond))
    ensures KwTok(ts[pos + 1 + |EmitExpr(s.cond)|], "faire")
    ensures Spans(ts, pos + |EmitExpr(s.cond)| + 2, EmitStmt(s.body))
    ensures |EmitStmt(s)| == |EmitExpr(s.cond)| + 2 + |EmitStmt(s.body)|
  {
    GuardLayout(ts, pos, "tantque", s.cond, "faire", EmitStmt(s.body));
  }

  lemma {:induction false} RepeatLayout(ts: seq<PToken>, pos: nat, s: Stmt)
    requires s.Repeat? && Spans(ts, pos, EmitStmt(s))
    ensures KwTok(ts[pos], "repeter")
    ensures Spans(ts, pos + 1, EmitStmt(s.body))
    ensures KwTok(ts[pos + 1 + |EmitStmt(s.body)|], "jusqua")
    ensures Spans(ts, pos + 2 + |EmitStmt(s.body)|, EmitExpr(s.until))
    ensures |EmitStmt(s)| == |EmitStmt(s.body)| + 2 + |EmitExpr(s.until)|
  {
    var head := [LKw("repeter")] + EmitStmt(s.body) + [LKw("jusqua")];
    SpansSplit(ts, pos, head, EmitExpr(s.until));
    Spans3(ts, pos, [LKw("repeter")], EmitStmt(s.body), [LKw("jusqua")]);
  }

  lemma {:induction false} ForLayout(ts: seq<PToken>, pos: nat, s: Stmt)
    requires s.For? && Spans(ts, pos, EmitStmt(s))
    ensures KwTok(ts[pos], "pour") && ts[pos + 1].typ == Ident && KwTok(ts[pos + 2], "allant")
    ensures Spans(ts, pos + 3, EmitBounds(s.from, s.to, s.step))
    ensures KwTok(ts[pos + 3 + |EmitBounds(s.from, s.to, s.step)|], "faire")
    ensures Spans(ts, pos + 4 + |EmitBounds(s.from, s.to, s.step)|, EmitStmt(s.body))
    ensures |EmitStmt(s)| == |EmitBounds(s.from, s.to, s.step)| + 4 + |EmitStmt(s.body)|
  {
    var range := EmitRange(s.from, s.to, s.step);
    SpansSplit(ts, pos, range + [LKw("faire")], EmitStmt(s.body));
    SpansSplit(ts, pos, range, [LKw("faire")]);
    var head := [LKw("pour"), LId, LKw("allant")];
    SpansSplit(ts, pos, head, EmitBounds(s.from, s.to, s.step));
    SpansAt(ts, pos, head, 0);
    SpansAt(ts, pos, head, 1);
    SpansAt(ts, pos, head, 2);
  }

  lemma {:induction false} BoundsLayout(ts: seq<PToken>, pos: nat, a: Const, b: Const, step: Option<Const>)
    requires Spans(ts, pos, EmitBounds(a, b, step))
    ensures KwTok(ts[pos], "de") && LexOk(ts[pos + 1], ConstLex(a))
    ensures KwTok(ts[pos + 2], "a") && LexOk(ts[pos + 3], ConstLex(b))
    ensures step.None? ==> |EmitBounds(a, b, step)| == 4
    ensures step.Some? ==> && |EmitBounds(a, b, step)| == 6
                           && KwTok(ts[pos + 4], "pas") && LexOk(ts[pos + 5], ConstLex(step.value))
  {
    var fixed := [LKw("de"), ConstLex(a), LKw("a"), ConstLex(b)];
    SpansSplit(ts, pos, fixed, EmitStep(step));
    SpansAt(ts, pos, fixed, 0);
    SpansAt(ts, pos, fixed, 1);
    SpansAt(ts, pos, fixed, 2);
    SpansAt(ts, pos, fixed, 3);
    if step.Some? {
      SpansAt(ts, pos + 4, EmitStep(step), 0);
      SpansAt(ts, pos + 4, EmitStep(step), 1);
    }
  }

  lemma {:induction false} CompoundLayout(ts: seq<PToken>, pos: nat, c: Compound)
    requires Spans(ts, pos, EmitCompound(c))
    ensures KwTok(ts[pos], "debut")
    ensures Spans(ts, pos + 1, EmitStmt(c.first))
    ensures Spans(ts, pos + 1 + |EmitStmt(c.first)|, EmitChain(c.rest))
    ensures KwTok(ts[pos + 1 + |EmitStmt(c.first)| + |EmitChain(c.rest)|], "fin")
    ensures |EmitCompound(c)| == |EmitStmt(c.first)| + |EmitChain(c.rest)| + 2
  {
    var body := [LKw("debut")] + EmitStmt(c.first) + EmitChain(c.rest);
    SpansSplit(ts, pos, body, [LKw("fin")]);
    SpansSplit(ts, pos, [LKw("debut")] + EmitStmt(c.first), EmitChain(c.rest));
    SpansSplit(ts, pos, [LKw("debut")], EmitStmt(c.first));
  }

  lemma {:induction false} ChainLayout(ts: seq<PToken>, pos: nat, c: StmtChain)
    requires c.StmtMore? && Spans(ts, pos, EmitChain(c))
    ensures SymTok(ts[pos], ";")
    ensures Spans(ts, pos + 1, EmitStmt(c.s))
    ensures Spans(ts, pos + 1 + |EmitStmt(c.s)|, EmitChain(c.rest))
    ensures |EmitChain(c)| == 1 + |EmitStmt(c.s)| + |EmitChain(c.rest)|
  {
    SpansSplit(ts, pos, [LSym(";")] + EmitStmt(c.s), EmitChain(c.rest));
    SpansSplit(ts, pos, [LSym(";")], EmitStmt(c.s));
  }

  /** What follows a statement of a `debut ... fin` block: a ';' or the `fin`. */
  lemma {:induction false} ChainFollow(ts: seq<PToken>, pos: nat, c: StmtChain, s: Stmt)
    requires Spans(ts, pos, EmitChain(c))
    requires KwTok(ts[pos + |EmitChain(c)|], "fin")
    ensures StmtFollow(s, ts[pos])
    ensures c.StmtMore? <==> SymTok(ts[pos], ";")
  {
    if c.StmtMore? {
      ChainLayout(ts, pos, c);
      SymbolFollows(ts[pos], ";", s);
    } else {
      KeywordFollows(ts[pos], "fin", s);
    }
  }

  /** The token a written statement starts with, which selects its branch of the dispatch. */
  lemma {:induction false} StmtHead(ts: seq<PToken>, pos: nat, s: Stmt)
    requires !s.Skip? && Spans(ts, pos, EmitStmt(s))
    ensures s.Assign? ==> ts[pos].typ == Ident
    ensures s.If? ==> KwTok(ts[pos], "si")
    ensures s.While? ==> KwTok(ts[pos], "tantque")
    ensures s.Repeat? ==> KwTok(ts[pos], "repeter")
    ensures s.For? ==> KwTok(ts[pos], "pour")
    ensures s.Block? ==> KwTok(ts[pos], "debut")
  {
    if s.Block? {
      CompoundLayout(ts, pos, s.c);
    } else {
      SpansAt(ts, pos, EmitStmt(s), 0);
    }
  }

  // The parser reads each written statement exactly, without error.

  lemma {:induction false} StmtParses(ts: seq<PToken>, st: PState, s: Stmt)
    requires Valid(ts) && WfStmt(s) && Spans(ts, st.pos, EmitStmt(s))
    requires StmtFollow(s, ts[st.pos + |EmitStmt(s)|])
    ensures Clean(st, Instruction(ts, st), |EmitStmt(s)|)
    decreases s, 5
  {
    if s.Skip? {
    } else if s.Assign? {
      AssignParses(ts, st, s);
    } else if s.If? {
      IfParses(ts, st, s);
    } else if s.While? {
      WhileParses(ts, st, s);
    } else if s.Repeat? {
      RepeatParses(ts, st, s);
    } else if s.For? {
      ForParses(ts, st, s);
    } else {
      BlockParses(ts, st, s);
    }
  }

  lemma {:induction false} AssignParses(ts: seq<PToken>, st: PState, s: Stmt)
    requires s.Assign? && Valid(ts) && Spans(ts, st.pos, EmitStmt(s))
    requires StmtFollow(s, ts[st.pos + |EmitStmt(s)|])
    ensures Clean(st, Instruction(ts, st), |EmitStmt(s)|)
  {
    AssignLayout(ts, st.pos, s);
    assert Instruction(ts, st) == InstructionAffectation(ts, AddRule(st, RInstrAffectation));
    AffectationParses(ts, AddRule(st, RInstrAffectation), s.e);
  }

  lemma {:induction false} AffectationParses(ts: seq<PToken>, st: PState, e: Expr)
    requires Valid(ts) && st.pos + 2 < |ts| && ts[st.pos].typ == Ident && SymTok(ts[st.pos + 1], ":=")
    requires Spans(ts, st.pos + 2, EmitExpr(e)) && NotOp(ts[st.pos + 2 + |EmitExpr(e)|])
    ensures Clean(st, InstructionAffectation(ts, st), 2 + |EmitExpr(e)|)
  {
    TargetParses(ts, st);
    var s2 := Expect(ts, NomVariable(ts, AddRule(st, RAffectation)), Symbole, ":=");
    ExprParses(ts, s2, e);
    assert InstructionAffectation(ts, st) == Expression(ts, s2);
  }

  /** The variable name and the `:=` of an assignment: two tokens, no error. */
  lemma {:induction false} TargetParses(ts: seq<PToken>, st: PState)
    requires Valid(ts) && st.pos + 1 < |ts| && ts[st.pos].typ == Ident && SymTok(ts[st.pos + 1], ":=")
    ensures Clean(st, Expect(ts, NomVariable(ts, AddRule(st, RAffectation)), Symbole, ":="), 2)
  {
    SymbolFits(ts[st.pos + 1], ":=");
  }

  /**
   A keyword, an expression and a second keyword, as at the head of `si`
   and `tantque`: read in full, with no error.
   */
  lemma {:induction false} GuardParses(ts: seq<PToken>, st: PState, kw1: string, e: Expr, kw2: string)
    requires Valid(ts) && kw2 in {"alors", "faire"}
    requires Spans(ts, st.pos + 1, EmitExpr(e)) && KwTok(ts[st.pos], kw1)
    requires KwTok(ts[st.pos + 1 + |EmitExpr(e)|], kw2)
    ensures var s1 := Expect(ts, st, Keyword, kw1);
            var s2 := Expect(ts, Expression(ts, s1), Keyword, kw2);
            Clean(st, s2, |EmitExpr(e)| + 2)
  {
    KeywordFollows(ts[st.pos + 1 + |EmitExpr(e)|], kw2, Skip);
    ExprParses(ts, Expect(ts, st, Keyword, kw1), e);
  }

  lemma {:induction false} IfParses(ts: seq<PToken>, st: PState, s: Stmt)
    requires s.If? && Valid(ts) && WfStmt(s) && Spans(ts, st.pos, EmitStmt(s))
    requires StmtFollow(s, ts[st.pos + |EmitStmt(s)|])
    ensures Clean(st, Instruction(ts, st), |EmitStmt(s)|)
    decreases s, 4
  {
    StmtHead(ts, st.pos, s);
    assert Instruction(ts, st) == InstructionSi(ts, AddRule(st, RInstrSi));
    SiParsesWritten(ts, AddRule(st, RInstrSi), s);
  }

  lemma {:induction false} SiParsesWritten(ts: seq<PToken>, st: PState, s: Stmt)
    requires s.If? && Valid(ts) && WfStmt(s) && Spans(ts, st.pos, EmitStmt(s))
    requires StmtFollow(s, ts[st.pos + |EmitStmt(s)|])
    ensures Clean(st, InstructionSi(ts, st), |EmitStmt(s)|)
    decreases s, 3
  {
    IfLayout(ts, st.pos, s);
    SiParses(ts, st, s);
  }

  /** `_instruction_si` on a written `si`, given where its parts sit. */
  lemma {:induction false} SiParses(ts: seq<PToken>, st: PState, s: Stmt)
    requires s.If? && Valid(ts) && WfStmt(s)
    requires Spans(ts, st.pos + 1, EmitExpr(s.cond)) && KwTok(ts[st.pos], "si")
    requires KwTok(ts[st.pos + 1 + |EmitExpr(s.cond)|], "alors")
    requires Spans(ts, st.pos + |EmitExpr(s.cond)| + 2, EmitStmt(s.thenS))
    requires Spans(ts, st.pos + |EmitExpr(s.cond)| + 2 + |EmitStmt(s.thenS)|, EmitElse(s.elseS))
    requires StmtFollow(s, ts[st.pos + |EmitExpr(s.cond)| + 2 + |EmitStmt(s.thenS)| + |EmitElse(s.elseS)|])
    ensures Clean(st, InstructionSi(ts, st), |EmitExpr(s.cond)| + 2 + |EmitStmt(s.thenS)| + |EmitElse(s.elseS)|)
    decreases s, 2
  {
    var s0 := AddRule(st, RSi);
    GuardParses(ts, s0, "si", s.cond, "alors");
    var s3 := Expect(ts, Expression(ts, Expect(ts, s0, Keyword, "si")), Keyword, "alors");
    assert s3.pos == st.pos + |EmitExpr(s.cond)| + 2 && s3.errors == st.errors;
    ThenElseParses(ts, s3, s);
  }

  /** The branches of a `si`, from its `alors` branch on. */
  lemma {:induction false} ThenElseParses(ts: seq<PToken>, st: PState, s: Stmt)
    requires s.If? && Valid(ts) && WfStmt(s)
    requires Spans(ts, st.pos, EmitStmt(s.thenS))
    requires Spans(ts, st.pos + |EmitStmt(s.thenS)|, EmitElse(s.elseS))
    requires StmtFollow(s, ts[st.pos + |EmitStmt(s.thenS)| + |EmitElse(s.elseS)|])
    ensures Clean(st, SinonPart(ts, Instruction(ts, st)), |EmitStmt(s.thenS)| + |EmitElse(s.elseS)|)
    decreases s, 1
  {
    var pe := st.pos + |EmitStmt(s.thenS)|;
    ElseLayout(ts, pe, s.elseS);
    if s.elseS.Some? {
      KeywordFollows(ts[pe], "sinon", s.thenS);
    }
    StmtParses(ts, st, s.thenS);
    var s1 := Instruction(ts, st);
    assert s1.pos == pe && s1.errors == st.errors;
    if s.elseS.Some? {
      StmtParses(ts, Advance(s1), s.elseS.value);
    }
  }

  lemma {:induction false} WhileParses(ts: seq<PToken>, st: PState, s: Stmt)
    requires s.While? && Valid(ts) && WfStmt(s) && Spans(ts, st.pos, EmitStmt(s))
    requires StmtFollow(s, ts[st.pos + |EmitStmt(s)|])
    ensures Clean(st, Instruction(ts, st), |EmitStmt(s)|)
    decreases s, 4
  {
    StmtHead(ts, st.pos, s);
    assert Instruction(ts, st) == InstructionTantque(ts, AddRule(st, RInstrTantque));
    TantqueParsesWritten(ts, AddRule(st, RInstrTantque), s);
  }

  lemma {:induction false} TantqueParsesWritten(ts: seq<PToken>, st: PState, s: Stmt)
    requires s.While? && Valid(ts) && WfStmt(s) && Spans(ts, st.pos, EmitStmt(s))
    requires StmtFollow(s, ts[st.pos + |EmitStmt(s)|])
    ensures Clean(st, InstructionTantque(ts, st), |EmitStmt(s)|)
    decreases s, 3
  {
    WhileLayout(ts, st.pos, s);
    TantqueParses(ts, st, s);
  }

  /** `_instruction_tantque` on a written `tantque`, given where its parts sit. */
  lemma {:induction false} TantqueParses(ts: seq<PToken>, st: PState, s: Stmt)
    requires s.While? && Valid(ts) && WfStmt(s)
    requires Spans(ts, st.pos + 1, EmitExpr(s.cond)) && KwTok(ts[st.pos], "tantque")
    requires KwTok(ts[st.pos + 1 + |EmitExpr(s.cond)|], "faire")
    requires Spans(ts, st.pos + |EmitExpr(s.cond)| + 2, EmitStmt(s.body))
    requires StmtFollow(s, ts[st.pos + |EmitExpr(s.cond)| + 2 + |EmitStmt(s.body)|])
    ensures Clean(st, InstructionTantque(ts, st), |EmitExpr(s.cond)| + 2 + |EmitStmt(s.body)|)
    decreases s, 2
  {
    var s0 := AddRule(st, RTantque);
    GuardParses(ts, s0, "tantque", s.cond, "faire");
    var s3 := Expect(ts, Expression(ts, Expect(ts, s0, Keyword, "tantque")), Keyword, "faire");
    assert s3.pos == st.pos + |EmitExpr(s.cond)| + 2 && s3.errors == st.errors;
    StmtParses(ts, s3, s.body);
  }

  lemma {:induction false} RepeatParses(ts: seq<PToken>, st: PState, s: Stmt)
    requires s.Repeat? && Valid(ts) && WfStmt(s) && Spans(ts, st.pos, EmitStmt(s))
    requires StmtFollow(s, ts[st.pos + |EmitStmt(s)|])
    ensures Clean(st, Instruction(ts, st), |EmitStmt(s)|)
    decreases s, 4
  {
    StmtHead(ts, st.pos, s);
    StatementDispatch(ts, st);
    RepeterParsesWritten(ts, AddRule(st, RInstrRepeter), s);
  }

  lemma {:induction false} RepeterParsesWritten(ts: seq<PToken>, st: PState, s: Stmt)
    requires s.Repeat? && Valid(ts) && WfStmt(s) && Spans(ts, st.pos, EmitStmt(s))
    requires StmtFollow(s, ts[st.pos + |EmitStmt(s)|])
    ensures Clean(st, InstructionRepeter(ts, st), |EmitStmt(s)|)
    decreases s, 3
  {
    RepeatLayout(ts, st.pos, s);
    RepeterParses(ts, st, s);
  }

  /** `_instruction_repeter` on a written `repeter`, given where its parts sit. */
  lemma {:induction false} RepeterParses(ts: seq<PToken>, st: PState, s: Stmt)
    requires s.Repeat? && Valid(ts) && WfStmt(s)
    requires Spans(ts, st.pos + 1, EmitStmt(s.body)) && KwTok(ts[st.pos], "repeter")
    requires KwTok(ts[st.pos + 1 + |EmitStmt(s.body)|], "jusqua")
    requires Spans(ts, st.pos + 2 + |EmitStmt(s.body)|, EmitExpr(s.until))
    requires StmtFollow(s, ts[st.pos + 2 + |EmitStmt(s.body)| + |EmitExpr(s.until)|])
    ensures Clean(st, InstructionRepeter(ts, st), 2 + |EmitStmt(s.body)| + |EmitExpr(s.until)|)
    decreases s, 2
  {
    var pb := st.pos + 1 + |EmitStmt(s.body)|;
    KeywordFollows(ts[pb], "jusqua", s.body);
    var s1 := Expect(ts, AddRule(st, RRepeter), Keyword, "repeter");
    assert s1.pos == st.pos + 1 && s1.errors == st.errors;
    StmtParses(ts, s1, s.body);
    var s2 := Instruction(ts, s1);
    assert s2.pos == pb && s2.errors == st.errors;
    var s3 := Expect(ts, s2, Keyword, "jusqua");
    assert s3.pos == pb + 1 && s3.errors == st.errors;
    ExprParses(ts, s3, s.until);
  }

  /** A constant is read by `_constante` in one token without error. */
  lemma {:induction false} ConstParses(ts: seq<PToken>, st: PState, c: Const)
    requires Valid(ts) && st.pos < |ts| && LexOk(ts[st.pos], ConstLex(c))
    ensures Clean(st, Constante(ts, st), 1)
  {
  }

  /** The bounds of a `pour`: de Constante a Constante [pas Constante], read up to the `faire`. */
  lemma {:induction false} BoundsParse(ts: seq<PToken>, st: PState, a: Const, b: Const, step: Option<Const>)
    requires Valid(ts) && Spans(ts, st.pos, EmitBounds(a, b, step))
    requires KwTok(ts[st.pos + |EmitBounds(a, b, step)|], "faire")
    ensures Clean(st, PourRange(ts, st), |EmitBounds(a, b, step)|)
  {
    BoundsLayout(ts, st.pos, a, b, step);
    var s1 := Expect(ts, st, Keyword, "de");
    ConstParses(ts, s1, a);
    var s2 := Constante(ts, s1);
    var s3 := Expect(ts, s2, Keyword, "a");
    ConstParses(ts, s3, b);
    var s4 := Constante(ts, s3);
    assert s4.pos == st.pos + 4 && s4.errors == st.errors;
    if step.Some? {
      ConstParses(ts, Advance(s4), step.value);
    } else {
      KeywordToken(ts[s4.pos], "faire");
    }
  }

  lemma {:induction false} ForParses(ts: seq<PToken>, st: PState, s: Stmt)
    requires s.For? && Valid(ts) && WfStmt(s) && Spans(ts, st.pos, EmitStmt(s))
    requires StmtFollow(s, ts[st.pos + |EmitStmt(s)|])
    ensures Clean(st, Instruction(ts, st), |EmitStmt(s)|)
    decreases s, 4
  {
    StmtHead(ts, st.pos, s);
    StatementDispatch(ts, st);
    PourParsesWritten(ts, AddRule(st, RInstrPour), s);
  }

  lemma {:induction false} PourParsesWritten(ts: seq<PToken>, st: PState, s: Stmt)
    requires s.For? && Valid(ts) && WfStmt(s) && Spans(ts, st.pos, EmitStmt(s))
    requires StmtFollow(s, ts[st.pos + |EmitStmt(s)|])
    ensures Clean(st, InstructionPour(ts, st), |EmitStmt(s)|)
    decreases s, 3
  {
    ForLayout(ts, st.pos, s);
    PourParses(ts, st, s);
  }

  /** `_instruction_pour` on a written `pour`, given where its parts sit. */
  lemma {:induction false} PourParses(ts: seq<PToken>, st: PState, s: Stmt)
    requires s.For? && Valid(ts) && WfStmt(s)
    requires Spans(ts, st.pos + 3, EmitBounds(s.from, s.to, s.step))
    requires KwTok(ts[st.pos], "pour") && ts[st.pos + 1].typ == Ident && KwTok(ts[st.pos + 2], "allant")
    requires KwTok(ts[st.pos + 3 + |EmitBounds(s.from, s.to, s.step)|], "faire")
    requires Spans(ts, st.pos + 4 + |EmitBounds(s.from, s.to, s.step)|, EmitStmt(s.body))
    requires StmtFollow(s, ts[st.pos + 4 + |EmitBounds(s.from, s.to, s.step)| + |EmitStmt(s.body)|])
    ensures Clean(st, InstructionPour(ts, st), 4 + |EmitBounds(s.from, s.to, s.step)| + |EmitStmt(s.body)|)
    decreases s, 2
  {
    PourHeadParses(ts, st, s.from, s.to, s.step);
    var s3 := Expect(ts, NomVariable(ts, Expect(ts, AddRule(st, RPour), Keyword, "pour")), Keyword, "allant");
    StmtParses(ts, Expect(ts, PourRange(ts, s3), Keyword, "faire"), s.body);
  }

  /** Everything of a `pour` before its body: read in full, with no error. */
  lemma {:induction false} PourHeadParses(ts: seq<PToken>, st: PState, a: Const, b: Const, step: Option<Const>)
    requires Valid(ts) && Spans(ts, st.pos + 3, EmitBounds(a, b, step))
    requires KwTok(ts[st.pos], "pour") && ts[st.pos + 1].typ == Ident && KwTok(ts[st.pos + 2], "allant")
    requires KwTok(ts[st.pos + 3 + |EmitBounds(a, b, step)|], "faire")
    ensures var s3 := Expect(ts, NomVariable(ts, Expect(ts, AddRule(st, RPour), Keyword, "pour")), Keyword, "allant");
            Clean(st, Expect(ts, PourRange(ts, s3), Keyword, "faire"), 4 + |EmitBounds(a, b, step)|)
  {
    var s1 := Expect(ts, AddRule(st, RPour), Keyword, "pour");
    var s2 := NomVariable(ts, s1);
    var s3 := Expect(ts, s2, Keyword, "allant");
    assert s3.pos == st.pos + 3 && s3.errors == st.errors;
    BoundsParse(ts, s3, a, b, step);
  }

  lemma {:induction false} BlockParses(ts: seq<PToken>, st: PState, s: Stmt)
    requires s.Block? && Valid(ts) && WfStmt(s) && Spans(ts, st.pos, EmitStmt(s))
    ensures Clean(st, Instruction(ts, st), |EmitStmt(s)|)
    decreases s, 4
  {
    StmtHead(ts, st.pos, s);
    StatementDispatch(ts, st);
    CompoundParses(ts, AddRule(st, RInstrBloc), s.c);
  }

  lemma {:induction false} CompoundParses(ts: seq<PToken>, st: PState, c: Compound)
    requires Valid(ts) && WfCompound(c) && Spans(ts, st.pos, EmitCompound(c))
    ensures Clean(st, InstrComp(ts, st), |EmitCompound(c)|)
    decreases c
  {
    CompoundLayout(ts, st.pos, c);
    var p1 := st.pos + 1 + |EmitStmt(c.first)|;
    ChainFollow(ts, p1, c.rest, c.first);
    var s1 := Expect(ts, AddRule(st, RInstrComp), Keyword, "debut");
    assert s1.pos == st.pos + 1 && s1.errors == st.errors;
    StmtParses(ts, s1, c.first);
    var s2 := Instruction(ts, s1);
    assert s2.pos == p1 && s2.errors == st.errors;
    ChainParses(ts, s2, c.rest);
    var s3 := InstrCompLoop(ts, s2);
    assert s3.pos == p1 + |EmitChain(c.rest)| && s3.errors == st.errors;
    assert InstrComp(ts, st) == Expect(ts, s3, Keyword, "fin");
  }

  lemma {:induction false} ChainParses(ts: seq<PToken>, st: PState, c: StmtChain)
    requires Valid(ts) && WfChain(c) && Spans(ts, st.pos, EmitChain(c))
    requires KwTok(ts[st.pos + |EmitChain(c)|], "fin")
    ensures Clean(st, InstrCompLoop(ts, st), |EmitChain(c)|)
    decreases c
  {
    if c.StmtMore? {
      ChainLayout(ts, st.pos, c);
      var p1 := st.pos + 1 + |EmitStmt(c.s)|;
      ChainFollow(ts, p1, c.rest, c.s);
      StmtParses(ts, Advance(st), c.s);
      var s1 := Instruction(ts, Advance(st));
      assert s1.pos == p1 && s1.errors == st.errors;
      ChainParses(ts, s1, c.rest);
      assert InstrCompLoop(ts, st) == InstrCompLoop(ts, s1);
    } else {
      ChainFollow(ts, st.pos, c, Skip);
    }
  }

  // ---------------------------------------------------------------------
  // Declarations and whole programs

  datatype VarType = TEntier | TReel

  /** One variable definition: a first name, `more` further names after commas, and the type. */
  datatype VarDef = VarDef(more: nat, typ: VarType)

  /**
   programme NomProgramme ; [constante definitions] [variable definitions]
   InstrComp . -- each definition part present exactly when it has a definition.
   */
  datatype Program = Program(consts: seq<Const>, vars: seq<VarDef>, main: Compound)

  function TypeLex(t: VarType): Lex {
    match t
    case TEntier => LKw("entier")
    case TReel => LKw("reel")
  }

  /** NomConstante = Constante ; */
  function EmitConstDef(c: Const): seq<Lex> {
    [LId, LSym("="), ConstLex(c), LSym(";")]
  }

  function EmitConstDefs(cs: seq<Const>): seq<Lex> {
    if cs == [] then [] else EmitConstDef(cs[0]) + EmitConstDefs(cs[1..])
  }

  function EmitConsts(cs: seq<Const>): seq<Lex> {
    if cs == [] then [] else [LKw("constante")] + EmitConstDefs(cs)
  }

  /** `n` times: , NomVariable */
  function EmitMoreNames(n: nat): (xs: seq<Lex>)
    ensures |xs| == 2 * n
  {
    if n == 0 then [] else [LSym(","), LId] + EmitMoreNames(n - 1)
  }

  /** NomVariable {, NomVariable} : Type ; */
  function EmitVarDef(v: VarDef): seq<Lex> {
    [LId] + EmitMoreNames(v.more) + [LSym(":"), TypeLex(v.typ), LSym(";")]
  }

  function EmitVarDefs(vs: seq<VarDef>): seq<Lex> {
    if vs == [] then [] else EmitVarDef(vs[0]) + EmitVarDefs(vs[1..])
  }

  function EmitVars(vs: seq<VarDef>): seq<Lex> {
    if vs == [] then [] else [LKw("variable")] + EmitVarDefs(vs)
  }

  function EmitProgram(p: Program): seq<Lex> {
    [LKw("programme"), LId, LSym(";")] + (EmitConsts(p.consts) + EmitVars(p.vars) + EmitCompound(p.main)) + [LSym(".")]
  }

  /** A constant definition is read in its four tokens without error. */
  lemma {:induction false} ConstDefParses(ts: seq<PToken>, st: PState, c: Const)
    requires Valid(ts) && Spans(ts, st.pos, EmitConstDef(c))
    ensures IsId(ts, st)
    ensures Clean(st, DefinitionConstante(ts, st), 4)
  {
    var xs := EmitConstDef(c);
    SpansAt(ts, st.pos, xs, 0);
    SpansAt(ts, st.pos, xs, 1);
    SpansAt(ts, st.pos, xs, 2);
    SpansAt(ts, st.pos, xs, 3);
    SymbolFits(ts[st.pos + 1], "=");
    SymbolFits(ts[st.pos + 3], ";");
    var s1 := NomConstante(ts, AddRule(st, RDefinitionConstante));
    var s2 := Expect(ts, s1, Symbole, "=");
    assert s2.pos == st.pos + 2 && s2.errors == st.errors;
    ConstParses(ts, s2, c);
  }

  /** The definitions after the first: read while an identifier comes next, so up to the first non-identifier. */
  lemma {:induction false} ConstDefsParse(ts: seq<PToken>, st: PState, cs: seq<Const>)
    requires Valid(ts) && Spans(ts, st.pos, EmitConstDefs(cs))
    requires ts[st.pos + |EmitConstDefs(cs)|].typ != Ident
    ensures Clean(st, DefinitionConstanteLoop(ts, st), |EmitConstDefs(cs)|)
    decreases cs
  {
    if cs != [] {
      SpansSplit(ts, st.pos, EmitConstDef(cs[0]), EmitConstDefs(cs[1..]));
      ConstDefParses(ts, st, cs[0]);
      var s1 := DefinitionConstante(ts, st);
      ConstDefsParse(ts, s1, cs[1..]);
      assert DefinitionConstanteLoop(ts, st) == DefinitionConstanteLoop(ts, s1);
    }
  }

  /** Where the parts of a written constant part sit. */
  lemma {:induction false} ConstsLayout(ts: seq<PToken>, pos: nat, cs: seq<Const>)
    requires cs != [] && Spans(ts, pos, EmitConsts(cs))
    ensures KwTok(ts[pos], "constante")
    ensures Spans(ts, pos + 1, EmitConstDef(cs[0])) && Spans(ts, pos + 5, EmitConstDefs(cs[1..]))
    ensures |EmitConsts(cs)| == 5 + |EmitConstDefs(cs[1..])|
  {
    SpansSplit(ts, pos, [LKw("constante")], EmitConstDefs(cs));
    SpansAt(ts, pos, [LKw("constante")], 0);
    SpansSplit(ts, pos + 1, EmitConstDef(cs[0]), EmitConstDefs(cs[1..]));
  }

  /** A constant part: `constante` and its definitions, read in full up to a token that is not an identifier. */
  lemma {:induction false} ConstPartParses(ts: seq<PToken>, st: PState, cs: seq<Const>)
    requires cs != [] && Valid(ts) && Spans(ts, st.pos, EmitConsts(cs))
    requires ts[st.pos + |EmitConsts(cs)|].typ != Ident
    ensures Clean(st, PartieDefinitionConstante(ts, st), |EmitConsts(cs)|)
  {
    ConstsLayout(ts, st.pos, cs);
    var s1 := Expect(ts, AddRule(st, RPartieConstante), Keyword, "constante");
    assert Clean(st, s1, 1);
    var s2 := DefinitionConstante(ts, s1);
    assert Clean(s1, s2, 4) by {
      ConstDefParses(ts, s1, cs[0]);
    }
    assert Clean(s2, DefinitionConstanteLoop(ts, s2), |EmitConstDefs(cs[1..])|) by {
      ConstDefsParse(ts, s2, cs[1..]);
    }
  }

  /** The further names of a definition: read while a comma comes next. */
  lemma {:induction false} MoreNamesParse(ts: seq<PToken>, st: PState, n: nat)
    requires Valid(ts) && Spans(ts, st.pos, EmitMoreNames(n))
    requires !SymTok(ts[st.pos + 2 * n], ",")
    ensures Clean(st, NomVariableLoop(ts, st), 2 * n)
    decreases n
  {
    if n > 0 {
      SpansSplit(ts, st.pos, [LSym(","), LId], EmitMoreNames(n - 1));
      SpansAt(ts, st.pos, [LSym(","), LId], 0);
      SpansAt(ts, st.pos, [LSym(","), LId], 1);
      var s1 := NomVariable(ts, Advance(st));
      assert s1.pos == st.pos + 2 && s1.errors == st.errors;
      MoreNamesParse(ts, s1, n - 1);
      assert NomVariableLoop(ts, st) == NomVariableLoop(ts, s1);
    }
  }

  /** A variable definition is read in full without error. */
  lemma {:induction false} VarDefParses(ts: seq<PToken>, st: PState, v: VarDef)
    requires Valid(ts) && Spans(ts, st.pos, EmitVarDef(v))
    ensures IsId(ts, st)
    ensures Clean(st, DefinitionVariable(ts, st), |EmitVarDef(v)|)
  {
    var tail: seq<Lex> := [LSym(":"), TypeLex(v.typ), LSym(";")];
    Spans3(ts, st.pos, [LId], EmitMoreNames(v.more), tail);
    SpansAt(ts, st.pos, [LId], 0);
    var p := st.pos + 1 + |EmitMoreNames(v.more)|;
    SpansAt(ts, p, tail, 0);
    SpansAt(ts, p, tail, 1);
    SpansAt(ts, p, tail, 2);
    MoreNamesParse(ts, NomVariable(ts, AddRule(st, RDefinitionVariable)), v.more);
    VarTailParses(ts, NomVariableLoop(ts, NomVariable(ts, AddRule(st, RDefinitionVariable))), v.typ);
  }

  /** `: Type ;` at the end of a variable definition. */
  lemma {:induction false} VarTailParses(ts: seq<PToken>, st: PState, t: VarType)
    requires Valid(ts) && Spans(ts, st.pos, [LSym(":"), TypeLex(t), LSym(";")])
    ensures Clean(st, Expect(ts, Type(ts, Expect(ts, st, Symbole, ":")), Symbole, ";"), 3)
  {
    var xs := [LSym(":"), TypeLex(t), LSym(";")];
    SpansAt(ts, st.pos, xs, 0);
    SpansAt(ts, st.pos, xs, 1);
    SpansAt(ts, st.pos, xs, 2);
    SymbolFits(ts[st.pos], ":");
    SymbolFits(ts[st.pos + 2], ";");
  }

  lemma {:induction false} VarDefsParse(ts: seq<PToken>, st: PState, vs: seq<VarDef>)
    requires Valid(ts) && Spans(ts, st.pos, EmitVarDefs(vs))
    requires ts[st.pos + |EmitVarDefs(vs)|].typ != Ident
    ensures Clean(st, DefinitionVariableLoop(ts, st), |EmitVarDefs(vs)|)
    decreases vs
  {
    if vs != [] {
      SpansSplit(ts, st.pos, EmitVarDef(vs[0]), EmitVarDefs(vs[1..]));
      VarDefParses(ts, st, vs[0]);
      var s1 := DefinitionVariable(ts, st);
      VarDefsParse(ts, s1, vs[1..]);
      assert DefinitionVariableLoop(ts, st) == DefinitionVariableLoop(ts, s1);
    }
  }

  /** Where the parts of a written variable part sit. */
  lemma {:induction false} VarsLayout(ts: seq<PToken>, pos: nat, vs: seq<VarDef>)
    requires vs != [] && Spans(ts, pos, EmitVars(vs))
    ensures KwTok(ts[pos], "variable")
    ensures Spans(ts, pos + 1, EmitVarDef(vs[0]))
    ensures Spans(ts, pos + 1 + |EmitVarDef(vs[0])|, EmitVarDefs(vs[1..]))
    ensures |EmitVars(vs)| == 1 + |EmitVarDef(vs[0])| + |EmitVarDefs(vs[1..])|
  {
    SpansSplit(ts, pos, [LKw("variable")], EmitVarDefs(vs));
    SpansAt(ts, pos, [LKw("variable")], 0);
    SpansSplit(ts, pos + 1, EmitVarDef(vs[0]), EmitVarDefs(vs[1..]));
  }

  /** A variable part: `variable` and its definitions, read in full up to a token that is not an identifier. */
  lemma {:induction false} VarPartParses(ts: seq<PToken>, st: PState, vs: seq<VarDef>)
    requires vs != [] && Valid(ts) && Spans(ts, st.pos, EmitVars(vs))
    requires ts[st.pos + |EmitVars(vs)|].typ != Ident
    ensures Clean(st, PartieDefinitionVariable(ts, st), |EmitVars(vs)|)
  {
    var n0 := |EmitVarDef(vs[0])|;
    var s1 := Expect(ts, AddRule(st, RPartieVariable), Keyword, "variable");
    var s2 := DefinitionVariable(ts, s1);
    assert Clean(st, s1, 1) && Clean(s1, s2, n0) by {
      VarsLayout(ts, st.pos, vs);
      KeywordToken(ts[st.pos], "variable");
      VarDefParses(ts, s1, vs[0]);
    }
    assert Clean(s2, DefinitionVariableLoop(ts, s2), |EmitVarDefs(vs[1..])|) && |EmitVars(vs)| == 1 + n0 + |EmitVarDefs(vs[1..])| by {
      VarsLayout(ts, st.pos, vs);
      VarDefsParse(ts, s2, vs[1..]);
    }
  }

  /** The constant part, present exactly when written: read in full when there, skipped when the next keyword follows. */
  lemma {:induction false} OptionalConstsParse(ts: seq<PToken>, st: PState, cs: seq<Const>)
    requires Valid(ts) && Spans(ts, st.pos, EmitConsts(cs))
    requires var t := ts[st.pos + |EmitConsts(cs)|]; KwTok(t, "variable") || KwTok(t, "debut")
    ensures var s1 := if IsKw(ts, st, "constante") then PartieDefinitionConstante(ts, st) else st;
            Clean(st, s1, |EmitConsts(cs)|)
  {
    var t := ts[st.pos + |EmitConsts(cs)|];
    if cs != [] {
      ConstsLayout(ts, st.pos, cs);
      ConstPartParses(ts, st, cs);
    } else if KwTok(t, "variable") {
      KeywordToken(t, "variable");
    } else {
      KeywordToken(t, "debut");
    }
  }

  /** The variable part, present exactly when written, before the `debut` of the main block. */
  lemma {:induction false} OptionalVarsParse(ts: seq<PToken>, st: PState, pos: nat, vs: seq<VarDef>)
    requires Valid(ts) && st.pos == pos
    requires Spans(ts, pos, EmitVars(vs)) && KwTok(ts[pos + |EmitVars(vs)|], "debut")
    ensures var s1 := if IsKw(ts, st, "variable") then PartieDefinitionVariable(ts, st) else st;
            Clean(st, s1, |EmitVars(vs)|)
  {
    if vs != [] {
      VarsLayout(ts, st.pos, vs);
      VarPartParses(ts, st, vs);
    } else {
      KeywordToken(ts[st.pos], "debut");
    }
  }

  /** What follows a constant part: the keyword of the variable part, or `debut` when there is none. */
  lemma {:induction false} VarsStart(ts: seq<PToken>, pos: nat, vs: seq<VarDef>)
    requires Spans(ts, pos, EmitVars(vs)) && KwTok(ts[pos + |EmitVars(vs)|], "debut")
    ensures KwTok(ts[pos], "variable") || KwTok(ts[pos], "debut")
  {
    if vs != [] {
      VarsLayout(ts, pos, vs);
    }
  }

  /** Where the optional parts of `_corps` sit, and what follows the constant part. */
  lemma {:induction false} DeclarationsLayout(ts: seq<PToken>, pos: nat, cs: seq<Const>, vs: seq<VarDef>)
    requires Spans(ts, pos, EmitConsts(cs) + EmitVars(vs))
    requires KwTok(ts[pos + |EmitConsts(cs)| + |EmitVars(vs)|], "debut")
    ensures Spans(ts, pos, EmitConsts(cs))
    ensures Spans(ts, pos + |EmitConsts(cs)|, EmitVars(vs))
    ensures KwTok(ts[pos + |EmitConsts(cs)| + |EmitVars(vs)|], "debut")
    ensures KwTok(ts[pos + |EmitConsts(cs)|], "variable") || KwTok(ts[pos + |EmitConsts(cs)|], "debut")
  {
    SpansSplit(ts, pos, EmitConsts(cs), EmitVars(vs));
    VarsStart(ts, pos + |EmitConsts(cs)|, vs);
  }

  /** `_corps` without the main block: the optional parts, read in full. */
  lemma {:induction false} DeclarationsParse(ts: seq<PToken>, st: PState, cs: seq<Const>, vs: seq<VarDef>)
    requires Valid(ts) && Spans(ts, st.pos, EmitConsts(cs) + EmitVars(vs))
    requires KwTok(ts[st.pos + |EmitConsts(cs)| + |EmitVars(vs)|], "debut")
    ensures Clean(st, Declarations(ts, st), |EmitConsts(cs)| + |EmitVars(vs)|)
  {
    DeclarationsLayout(ts, st.pos, cs, vs);
    OptionalConstsParse(ts, st, cs);
    var s1 := if IsKw(ts, st, "constante") then PartieDefinitionConstante(ts, st) else st;
    OptionalVarsParse(ts, s1, st.pos + |EmitConsts(cs)|, vs);
  }

  /** Where the parts of a written program sit. */
  lemma {:induction false} ProgramLayout(ts: seq<PToken>, pos: nat, p: Program)
    requires Spans(ts, pos, EmitProgram(p))
    ensures KwTok(ts[pos], "programme") && ts[pos + 1].typ == Ident && SymTok(ts[pos + 2], ";")
    ensures Spans(ts, pos + 3, EmitConsts(p.consts) + EmitVars(p.vars) + EmitCompound(p.main))
    ensures SymTok(ts[pos + 3 + |EmitConsts(p.consts)| + |EmitVars(p.vars)| + |EmitCompound(p.main)|], ".")
    ensures |EmitProgram(p)| == 4 + |EmitConsts(p.consts)| + |EmitVars(p.vars)| + |EmitCompound(p.main)|
  {
    var head: seq<Lex> := [LKw("programme"), LId, LSym(";")];
    var body := EmitConsts(p.consts) + EmitVars(p.vars) + EmitCompound(p.main);
    Spans3(ts, pos, head, body, [LSym(".")]);
    SpansAt(ts, pos, head, 0);
    SpansAt(ts, pos, head, 1);
    SpansAt(ts, pos, head, 2);
    SpansAt(ts, pos + 3 + |body|, [LSym(".")], 0);
  }

  /** `_corps`: the optional parts and the main block, read in full. */
  lemma {:induction false} CorpsParses(ts: seq<PToken>, st: PState, pos: nat, p: Program)
    requires Valid(ts) && WfCompound(p.main) && st.pos == pos
    requires Spans(ts, pos, EmitConsts(p.consts) + EmitVars(p.vars) + EmitCompound(p.main))
    ensures Clean(st, Corps(ts, st), |EmitConsts(p.consts)| + |EmitVars(p.vars)| + |EmitCompound(p.main)|)
  {
    var d := |EmitConsts(p.consts)| + |EmitVars(p.vars)|;
    SpansSplit(ts, st.pos, EmitConsts(p.consts) + EmitVars(p.vars), EmitCompound(p.main));
    CompoundLayout(ts, st.pos + d, p.main);
    var s0 := AddRule(st, RCorps);
    DeclarationsParse(ts, s0, p.consts, p.vars);
    CompoundParses(ts, Declarations(ts, s0), p.main);
  }

  /** The head of a written program, `programme` name `;`, read without error. */
  lemma {:induction false} ProgrammeHeadParses(ts: seq<PToken>, st: PState, p: Program)
    requires Valid(ts) && Spans(ts, st.pos, EmitProgram(p))
    ensures var s1 := Expect(ts, AddRule(st, RProgrammePascal), Keyword, "programme");
            Clean(st, Expect(ts, NomProgramme(ts, s1), Symbole, ";"), 3)
  {
    ProgramLayout(ts, st.pos, p);
    KeywordToken(ts[st.pos], "programme");
    SymbolFits(ts[st.pos + 2], ";");
  }

  /** `_programme_pascal` reads a written program in full without error. */
  lemma {:induction false} ProgrammeParses(ts: seq<PToken>, st: PState, p: Program)
    requires Valid(ts) && WfCompound(p.main) && Spans(ts, st.pos, EmitProgram(p))
    ensures Clean(st, ProgrammePascal(ts, st), |EmitProgram(p)|)
  {
    ProgramLayout(ts, st.pos, p);
    ProgrammeHeadParses(ts, st, p);
    var s1 := Expect(ts, AddRule(st, RProgrammePascal), Keyword, "programme");
    var s3 := Expect(ts, NomProgramme(ts, s1), Symbole, ";");
    CorpsParses(ts, s3, st.pos + 3, p);
    SymbolExpected(ts, Corps(ts, s3), ".");
  }

  /** A run that reads up to the end-of-input token without error is accepted. */
  lemma {:induction false} CleanRunAccepted(ts: seq<PToken>)
    requires Valid(ts)
    requires ProgrammePascal(ts, PState(0, [], [])).pos == |ts| - 1
    requires ProgrammePascal(ts, PState(0, [], [])).errors == []
    ensures Parse(ts).success && Parse(ts).errors == []
  {
  }

  /**
   The parser accepts every program of the grammar: a token list that
   writes out a program (with no `sinon` that could be read as belonging
   to an inner `si`) followed by the end-of-input token parses with no
   error.
   */
  lemma {:induction false} EmittedProgramParses(ts: seq<PToken>, p: Program)
    requires WfCompound(p.main)
    requires |ts| == |EmitProgram(p)| + 1 && Spans(ts, 0, EmitProgram(p)) && ts[|ts| - 1].typ == EndOfInput
    ensures Parse(ts).success && Parse(ts).errors == []
  {
    ProgrammeParses(ts, PState(0, [], []), p);
    CleanRunAccepted(ts);
  }
}
