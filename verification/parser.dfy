/**
 The recursive-descent parser of the validation tool. It reads the
 scanner's tokens collapsed to five classes, applies one procedure per
 non-terminal, records the sequence of grammar rules it applies and the
 syntax errors it finds, and recovers from a wrong token by skipping it.

 The parser's cursor is a position `pos` and the current token is the
 token at `pos`, or the last token once `pos` has run past the end; the
 token list always ends with the end-of-input token.
 */
module Parser {
  import opened Chars
  import opened Tokens

  // ---------------------------------------------------------------------
  // Tokens as the parser sees them

  /** The five token classes of the parser. */
  datatype PType = Keyword | Ident | Nombre | Symbole | EndOfInput

  datatype PToken = PToken(typ: PType, lexeme: string, line: int)

  /** The keyword spellings the parser recognises. */
  const ParserKeywords: set<string> := {
    "programme", "constante", "variable", "entier", "reel",
    "debut", "fin", "si", "alors", "sinon",
    "tantque", "faire", "repeter", "jusqua",
    "pour", "allant", "de", "a", "pas",
    "ou", "et", "div", "mod"
  }

  const RelationalOps: set<string> := {"<", ">", "=", "<=", ">=", "<>"}

  /**
   `_convert_token_type`: the scanner's type decides identifiers, numbers
   and the end of input (whose lexeme becomes "EOF"); any other token is a
   keyword when its lower-cased lexeme is a keyword spelling, and a symbol
   otherwise. The line is kept.
   */
  function Convert(scannerType: string, lexeme: string, line: int): (t: PToken)
    ensures t.line == line
    ensures t.typ == Ident <==> scannerType == "ID"
    ensures t.typ == Nombre <==> scannerType in {"NOMBRE_ENTIER", "NOMBRE_REEL", "NOMBRE"}
    ensures t.typ == EndOfInput <==> scannerType == "EOF"
    ensures t.typ == Keyword <==>
              scannerType !in {"ID", "NOMBRE_ENTIER", "NOMBRE_REEL", "NOMBRE", "EOF"} && Lower(lexeme) in ParserKeywords
    ensures t.lexeme == if scannerType == "EOF" && t.typ == EndOfInput then "EOF" else lexeme
  {
    if scannerType == "ID" then PToken(Ident, lexeme, line)
    else if scannerType in {"NOMBRE_ENTIER", "NOMBRE_REEL", "NOMBRE"} then PToken(Nombre, lexeme, line)
    else if scannerType == "EOF" then PToken(EndOfInput, "EOF", line)
    else if Lower(lexeme) in ParserKeywords then PToken(Keyword, lexeme, line)
    else PToken(Symbole, lexeme, line)
  }

  /** The parser's keyword spellings are exactly the automaton's keyword table. */
  lemma {:induction false} ParserKeywordsAreScannerKeywords()
    ensures ParserKeywords == Keywords.Keys
  {
  }

  /** The token list ends with the end-of-input token, as loading the tokens guarantees. */
  predicate Valid(ts: seq<PToken>) {
    |ts| > 0 && ts[|ts| - 1].typ == EndOfInput
  }

  function Last(ts: seq<PToken>): nat
    requires |ts| > 0
  {
    |ts| - 1
  }

  /** The current token at cursor `pos`: the cursor never moves the current token past the last one. */
  function Cur(ts: seq<PToken>, pos: nat): PToken
    requires |ts| > 0
  {
    if pos < |ts| then ts[pos] else ts[|ts| - 1]
  }

  /** The cursor is on (or past) the last token. */
  predicate AtEnd(ts: seq<PToken>, pos: nat) {
    pos + 1 >= |ts|
  }

  /** Tokens left, counting the current one; it stops falling once the cursor is on the last token. */
  function Rem(ts: seq<PToken>, pos: nat): nat
    requires |ts| > 0
  {
    if pos < |ts| then |ts| - pos else 1
  }

  // ---------------------------------------------------------------------
  // Rule trace and errors

  /** One entry of the rule trace; entries that print the current lexeme carry it. */
  datatype Rule =
    | RProgrammePascal | RCorps
    | RPartieConstante | RDefinitionConstante | RPartieVariable | RDefinitionVariable
    | RTypeEntier | RTypeReel
    | RNomProgramme | RNomConstante | RNomVariable
    | RConstante(lexeme: string)
    | RInstrComp
    | RInstrAffectation | RInstrSi | RInstrTantque | RInstrRepeter | RInstrBloc | RInstrPour | RInstrVide
    | RAffectation
    | RExpression | ROperateurRelationnel(lexeme: string)
    | RExpressionSimple | ROperateurSigne(lexeme: string) | ROperateurAddition(lexeme: string)
    | RTerme | ROperateurMult(lexeme: string)
    | RFacteurParen | RFacteurConstante | RFacteurConstanteOuVariable
    | RSi | RTantque | RRepeter | RPour

  /** What a syntax error reports; the message text itself is not modelled. */
  datatype SynProblem =
    | Expected(wanted: string, found: string)
    | TypeExpected
    | ProgramNameExpected | ConstantNameExpected | VariableNameExpected
    | ConstantExpected
    | FactorExpected(found: string)
    | TrailingTokens

  /** A syntax error entry: the line of the current token when it was found, and the problem. */
  datatype SynError = SynError(line: int, problem: SynProblem)

  datatype PState = PState(pos: nat, rules: seq<Rule>, errors: seq<SynError>)

  /** `r` continues `st`: the cursor has not moved back and the trace and errors were only appended to. */
  predicate Extends(st: PState, r: PState) {
    st.pos <= r.pos && st.rules <= r.rules && st.errors <= r.errors
  }

  /** The first rule `r` appended after `st` is `rule`. */
  predicate FirstRule(st: PState, r: PState, rule: Rule) {
    |st.rules| < |r.rules| && r.rules[|st.rules|] == rule
  }

  // ---------------------------------------------------------------------
  // Primitives

  /** `_advance`: move the cursor one token on. */
  function Advance(st: PState): (r: PState)
    ensures r.pos == st.pos + 1 && r.rules == st.rules && r.errors == st.errors
  {
    st.(pos := st.pos + 1)
  }

  /** `_rule`: append to the trace. */
  function AddRule(st: PState, rule: Rule): (r: PState)
    ensures r.pos == st.pos && r.rules == st.rules + [rule] && r.errors == st.errors
  {
    st.(rules := st.rules + [rule])
  }

  /** `_error`: append an error at the line of the current token. */
  function Error(ts: seq<PToken>, st: PState, p: SynProblem): (r: PState)
    requires |ts| > 0
    ensures r.pos == st.pos && r.rules == st.rules
    ensures r.errors == st.errors + [SynError(Cur(ts, st.pos).line, p)]
  {
    st.(errors := st.errors + [SynError(Cur(ts, st.pos).line, p)])
  }

  /**
   The token has the type and, ignoring case, the lexeme. Every spelling
   the parser asks for is already in lower case, so only the token's
   lexeme is lower-cased.
   */
  predicate Fits(t: PToken, tp: PType, lex: string) {
    t.typ == tp && SpelledAs(t.lexeme, lex)
  }

  /** `s` lower-cased is `w`, compared character by character. */
  predicate SpelledAs(s: string, w: string) {
    |s| == |w| && forall i :: 0 <= i < |s| ==> ToLower(s[i]) == w[i]
  }

  lemma {:induction false} SpelledAsLower(s: string, w: string)
    ensures SpelledAs(s, w) <==> Lower(s) == w
  {
    if s != [] && |s| == |w| {
      SpelledAsLower(s[1..], w[1..]);
      assert Lower(s) == [ToLower(s[0])] + Lower(s[1..]);
      if Lower(s) == w {
        assert w[1..] == Lower(s)[1..];
      }
    }
  }

  /** A token is spelled as at most one word. */
  lemma {:induction false} OneSpelling(t: PToken, v: string, w: string)
    requires SpelledAs(t.lexeme, v) && v != w
    ensures !SpelledAs(t.lexeme, w)
  {
    if |v| == |w| {
      var i :| 0 <= i < |v| && v[i] != w[i];
      assert ToLower(t.lexeme[i]) == v[i];
    }
  }

  /** `_match`: consume the current token when it fits; report whether it did. */
  function Match(ts: seq<PToken>, st: PState, tp: PType, lex: string): (r: (bool, PState))
    requires |ts| > 0
    ensures r.0 <==> Fits(Cur(ts, st.pos), tp, lex)
    ensures r.0 ==> r.1 == st.(pos := st.pos + 1)
    ensures !r.0 ==> r.1 == st
  {
    if Fits(Cur(ts, st.pos), tp, lex) then (true, Advance(st)) else (false, st)
  }

  /**
   `_match` lower-cases both lexemes. Every spelling the parser asks for is
   written in lower case, and for such a spelling `Fits` is that comparison.
   */
  lemma {:induction false} FitsIgnoresCase(t: PToken, tp: PType, lex: string)
    requires Lower(lex) == lex
    ensures Fits(t, tp, lex) <==> t.typ == tp && Lower(t.lexeme) == Lower(lex)
  {
    SpelledAsLower(t.lexeme, lex);
  }

  /** `_match_type`: consume the current token when it has the type. */
  function MatchType(ts: seq<PToken>, st: PState, tp: PType): (r: (bool, PState))
    requires |ts| > 0
    ensures r.0 <==> Cur(ts, st.pos).typ == tp
    ensures r.0 ==> r.1 == st.(pos := st.pos + 1)
    ensures !r.0 ==> r.1 == st
  {
    if Cur(ts, st.pos).typ == tp then (true, Advance(st)) else (false, st)
  }

  /**
   `_expect`: the cursor always moves one token on. When the token fits
   nothing is reported; otherwise exactly one error, at the line of the
   token skipped, naming what was wanted and what was found.
   */
  function Expect(ts: seq<PToken>, st: PState, tp: PType, lex: string): (r: PState)
    requires |ts| > 0
    ensures r.pos == st.pos + 1 && r.rules == st.rules
    ensures Fits(Cur(ts, st.pos), tp, lex) ==> r.errors == st.errors
    ensures !Fits(Cur(ts, st.pos), tp, lex) ==>
              r.errors == st.errors + [SynError(Cur(ts, st.pos).line, Expected(lex, Cur(ts, st.pos).lexeme))]
    ensures Extends(st, r)
  {
    var (ok, s) := Match(ts, st, tp, lex);
    if ok then s
    else Advance(Error(ts, s, Expected(lex, Cur(ts, s.pos).lexeme)))
  }

  // Token classes the predicates test.

  predicate KwTok(t: PToken, kw: string) {
    t.typ == Keyword && SpelledAs(t.lexeme, kw)
  }

  predicate SymTok(t: PToken, s: string) {
    t.typ == Symbole && t.lexeme == s
  }

  predicate OpRelTok(t: PToken) {
    t.typ == Symbole && t.lexeme in RelationalOps
  }

  predicate OpAddTok(t: PToken) {
    SymTok(t, "+") || SymTok(t, "-") || KwTok(t, "ou")
  }

  predicate OpMultTok(t: PToken) {
    SymTok(t, "*") || KwTok(t, "div") || KwTok(t, "mod") || KwTok(t, "et")
  }

  /** The tokens `_instruction` dispatches on: an identifier or one of five keywords. */
  predicate StartsStatement(t: PToken) {
    t.typ == Ident || KwTok(t, "si") || KwTok(t, "tantque") || KwTok(t, "repeter")
    || KwTok(t, "debut") || KwTok(t, "pour")
  }

  // Predicates on the current token; none of them moves the cursor.

  predicate IsKw(ts: seq<PToken>, st: PState, kw: string)
    requires |ts| > 0
  {
    KwTok(Cur(ts, st.pos), kw)
  }

  predicate IsSym(ts: seq<PToken>, st: PState, s: string)
    requires |ts| > 0
  {
    SymTok(Cur(ts, st.pos), s)
  }

  predicate IsId(ts: seq<PToken>, st: PState)
    requires |ts| > 0
  {
    Cur(ts, st.pos).typ == Ident
  }

  predicate IsNombre(ts: seq<PToken>, st: PState)
    requires |ts| > 0
  {
    Cur(ts, st.pos).typ == Nombre
  }

  predicate IsOpRel(ts: seq<PToken>, st: PState)
    requires |ts| > 0
  {
    OpRelTok(Cur(ts, st.pos))
  }

  predicate IsOpAdd(ts: seq<PToken>, st: PState)
    requires |ts| > 0
  {
    OpAddTok(Cur(ts, st.pos))
  }

  predicate IsOpMult(ts: seq<PToken>, st: PState)
    requires |ts| > 0
  {
    OpMultTok(Cur(ts, st.pos))
  }

  /**
   The tests on the current token as the source states them: a keyword is
   compared with both sides lower-cased, a symbol exactly, and an operator
   test is membership of the lexeme in its operator set. The four token
   classes the tests look at are exclusive.
   */
  lemma {:induction false} CurrentTokenTests(ts: seq<PToken>, st: PState, w: string)
    requires |ts| > 0
    ensures Lower(w) == w ==>
              (IsKw(ts, st, w) <==> Cur(ts, st.pos).typ == Keyword && Lower(Cur(ts, st.pos).lexeme) == Lower(w))
    ensures IsOpAdd(ts, st) <==>
              (Cur(ts, st.pos).typ == Symbole && Cur(ts, st.pos).lexeme in {"+", "-"})
              || (Cur(ts, st.pos).typ == Keyword && Lower(Cur(ts, st.pos).lexeme) == "ou")
    ensures IsOpMult(ts, st) <==>
              (Cur(ts, st.pos).typ == Symbole && Cur(ts, st.pos).lexeme == "*")
              || (Cur(ts, st.pos).typ == Keyword && Lower(Cur(ts, st.pos).lexeme) in {"div", "mod", "et"})
    ensures IsOpRel(ts, st) ==> IsSym(ts, st, Cur(ts, st.pos).lexeme) && |Cur(ts, st.pos).lexeme| <= 2
    ensures IsSym(ts, st, w) ==> !IsKw(ts, st, w) && !IsId(ts, st) && !IsNombre(ts, st)
    ensures IsId(ts, st) ==> !IsNombre(ts, st) && !IsOpAdd(ts, st) && !IsOpMult(ts, st)
  {
    var t := Cur(ts, st.pos);
    SpelledAsLower(t.lexeme, w);
    SpelledAsLower(t.lexeme, "ou");
    SpelledAsLower(t.lexeme, "div");
    SpelledAsLower(t.lexeme, "mod");
    SpelledAsLower(t.lexeme, "et");
  }

  // ---------------------------------------------------------------------
  // Declarations

  /** `_programme_pascal`: programme NomProgramme ; Corps . */
  function ProgrammePascal(ts: seq<PToken>, st: PState): (r: PState)
    requires Valid(ts)
    ensures Extends(st, r) && r.pos > st.pos
    ensures FirstRule(st, r, RProgrammePascal)
  {
    var s1 := Expect(ts, AddRule(st, RProgrammePascal), Keyword, "programme");
    var s2 := NomProgramme(ts, s1);
    var s3 := Expect(ts, s2, Symbole, ";");
    var s4 := Corps(ts, s3);
    Expect(ts, s4, Symbole, ".")
  }

  /** `_corps`: the optional constant and variable parts, then the compound statement. */
  function Corps(ts: seq<PToken>, st: PState): (r: PState)
    requires Valid(ts)
    ensures Extends(st, r) && r.pos > st.pos
  {
    InstrComp(ts, Declarations(ts, AddRule(st, RCorps)))
  }

  /** The optional parts of `_corps`, each entered only when its keyword is the current token. */
  function Declarations(ts: seq<PToken>, st: PState): (r: PState)
    requires Valid(ts)
    ensures Extends(st, r)
    ensures !IsKw(ts, st, "constante") && !IsKw(ts, st, "variable") ==> r == st
  {
    var s1 := if IsKw(ts, st, "constante") then PartieDefinitionConstante(ts, st) else st;
    if IsKw(ts, s1, "variable") then PartieDefinitionVariable(ts, s1) else s1
  }

  /** `_partie_definition_constante`: constante, then definitions while an identifier comes next. */
  function PartieDefinitionConstante(ts: seq<PToken>, st: PState): (r: PState)
    requires Valid(ts)
    ensures Extends(st, r) && r.pos > st.pos
  {
    var s1 := Expect(ts, AddRule(st, RPartieConstante), Keyword, "constante");
    DefinitionConstanteLoop(ts, DefinitionConstante(ts, s1))
  }

  /** The `while self._is_id()` loop of the constant part. */
  function DefinitionConstanteLoop(ts: seq<PToken>, st: PState): (r: PState)
    requires Valid(ts)
    ensures Extends(st, r)
    ensures !IsId(ts, r)
    decreases Rem(ts, st.pos)
  {
    if IsId(ts, st) then DefinitionConstanteLoop(ts, DefinitionConstante(ts, st)) else st
  }

  /** `_definition_constante`: NomConstante = Constante ; */
  function DefinitionConstante(ts: seq<PToken>, st: PState): (r: PState)
    requires Valid(ts)
    ensures Extends(st, r) && r.pos > st.pos
  {
    var s1 := NomConstante(ts, AddRule(st, RDefinitionConstante));
    var s2 := Expect(ts, s1, Symbole, "=");
    var s3 := Constante(ts, s2);
    Expect(ts, s3, Symbole, ";")
  }

  /** `_partie_definition_variable`: variable, then definitions while an identifier comes next. */
  function PartieDefinitionVariable(ts: seq<PToken>, st: PState): (r: PState)
    requires Valid(ts)
    ensures Extends(st, r) && r.pos > st.pos
  {
    var s1 := Expect(ts, AddRule(st, RPartieVariable), Keyword, "variable");
    DefinitionVariableLoop(ts, DefinitionVariable(ts, s1))
  }

  /** The `while self._is_id()` loop of the variable part. */
  function DefinitionVariableLoop(ts: seq<PToken>, st: PState): (r: PState)
    requires Valid(ts)
    ensures Extends(st, r)
    ensures !IsId(ts, r)
    decreases Rem(ts, st.pos)
  {
    if IsId(ts, st) then DefinitionVariableLoop(ts, DefinitionVariable(ts, st)) else st
  }

  /** `_definition_variable`: NomVariable {, NomVariable} : Type ; */
  function DefinitionVariable(ts: seq<PToken>, st: PState): (r: PState)
    requires Valid(ts)
    ensures Extends(st, r) && r.pos > st.pos
  {
    var s1 := NomVariable(ts, AddRule(st, RDefinitionVariable));
    var s2 := NomVariableLoop(ts, s1);
    var s3 := Expect(ts, s2, Symbole, ":");
    var s4 := Type(ts, s3);
    Expect(ts, s4, Symbole, ";")
  }

  /** The `while self._is_sym(",")` loop: skip the comma, read one more name. */
  function NomVariableLoop(ts: seq<PToken>, st: PState): (r: PState)
    requires Valid(ts)
    ensures Extends(st, r)
    ensures !IsSym(ts, r, ",")
    decreases Rem(ts, st.pos)
  {
    if IsSym(ts, st, ",") then NomVariableLoop(ts, NomVariable(ts, Advance(st))) else st
  }

  /**
   `_type`: entier or reel is recorded and consumed; anything else is
   reported at its line and skipped.
   */
  function Type(ts: seq<PToken>, st: PState): (r: PState)
    requires Valid(ts)
    ensures r.pos == st.pos + 1
    ensures IsKw(ts, st, "entier") ==> r == st.(pos := st.pos + 1, rules := st.rules + [RTypeEntier])
    ensures IsKw(ts, st, "reel") ==> r == st.(pos := st.pos + 1, rules := st.rules + [RTypeReel])
    ensures !IsKw(ts, st, "entier") && !IsKw(ts, st, "reel") ==>
              r.rules == st.rules && r.errors == st.errors + [SynError(Cur(ts, st.pos).line, TypeExpected)]
    ensures Extends(st, r)
  {
    if IsKw(ts, st, "entier") then Advance(AddRule(st, RTypeEntier))
    else if IsKw(ts, st, "reel") then Advance(AddRule(st, RTypeReel))
    else Advance(Error(ts, st, TypeExpected))
  }

  /**
   The three name procedures: an identifier is consumed; anything else is
   reported and, unlike `Expect`, left in place.
   */
  function Name(ts: seq<PToken>, st: PState, rule: Rule, missing: SynProblem): (r: PState)
    requires Valid(ts)
    ensures r.rules == st.rules + [rule]
    ensures IsId(ts, st) ==> r.pos == st.pos + 1 && r.errors == st.errors
    ensures !IsId(ts, st) ==> r.pos == st.pos && r.errors == st.errors + [SynError(Cur(ts, st.pos).line, missing)]
    ensures Extends(st, r)
  {
    var s1 := AddRule(st, rule);
    var (ok, s2) := MatchType(ts, s1, Ident);
    if ok then s2 else Error(ts, s2, missing)
  }

  /** `_nom_programme` */
  function NomProgramme(ts: seq<PToken>, st: PState): PState
    requires Valid(ts)
  {
    Name(ts, st, RNomProgramme, ProgramNameExpected)
  }

  /** `_nom_constante` */
  function NomConstante(ts: seq<PToken>, st: PState): PState
    requires Valid(ts)
  {
    Name(ts, st, RNomConstante, ConstantNameExpected)
  }

  /** `_nom_variable` */
  function NomVariable(ts: seq<PToken>, st: PState): PState
    requires Valid(ts)
  {
    Name(ts, st, RNomVariable, VariableNameExpected)
  }

  /**
   `_constante`: a number or an identifier is recorded with its lexeme and
   consumed; anything else is reported and skipped.
   */
  function Constante(ts: seq<PToken>, st: PState): (r: PState)
    requires Valid(ts)
    ensures r.pos == st.pos + 1
    ensures IsNombre(ts, st) || IsId(ts, st) ==>
              r == st.(pos := st.pos + 1, rules := st.rules + [RConstante(Cur(ts, st.pos).lexeme)])
    ensures !IsNombre(ts, st) && !IsId(ts, st) ==>
              r.rules == st.rules && r.errors == st.errors + [SynError(Cur(ts, st.pos).line, ConstantExpected)]
    ensures Extends(st, r)
  {
    if IsNombre(ts, st) then Advance(AddRule(st, RConstante(Cur(ts, st.pos).lexeme)))
    else if IsId(ts, st) then Advance(AddRule(st, RConstante(Cur(ts, st.pos).lexeme)))
    else Advance(Error(ts, st, ConstantExpected))
  }

  // ---------------------------------------------------------------------
  // Statements

  /** `_instr_comp`: debut Instruction { ; Instruction } fin */
  function InstrComp(ts: seq<PToken>, st: PState): (r: PState)
    requires Valid(ts)
    ensures Extends(st, r) && r.pos > st.pos
    decreases Rem(ts, st.pos), if AtEnd(ts, st.pos) then 2 else 0
  {
    var s1 := Expect(ts, AddRule(st, RInstrComp), Keyword, "debut");
    var s2 := Instruction(ts, s1);
    var s3 := InstrCompLoop(ts, s2);
    Expect(ts, s3, Keyword, "fin")
  }

  /** The `while self._is_sym(";")` loop: skip the ';', parse one more statement. */
  function InstrCompLoop(ts: seq<PToken>, st: PState): (r: PState)
    requires Valid(ts)
    ensures Extends(st, r)
    ensures !IsSym(ts, r, ";")
    decreases Rem(ts, st.pos), 0
  {
    if IsSym(ts, st, ";") then InstrCompLoop(ts, Instruction(ts, Advance(st))) else st
  }

  /**
   `_instruction`: the current token chooses the statement; a token that
   starts none of them gives the empty statement, which consumes nothing.
   */
  function Instruction(ts: seq<PToken>, st: PState): (r: PState)
    requires Valid(ts)
    ensures Extends(st, r)
    ensures !StartsStatement(Cur(ts, st.pos)) ==> r == AddRule(st, RInstrVide)
    decreases Rem(ts, st.pos), if AtEnd(ts, st.pos) then 1 else 2
  {
    if IsId(ts, st) then InstructionAffectation(ts, AddRule(st, RInstrAffectation))
    else if IsKw(ts, st, "si") then InstructionSi(ts, AddRule(st, RInstrSi))
    else if IsKw(ts, st, "tantque") then InstructionTantque(ts, AddRule(st, RInstrTantque))
    else StructuredInstruction(ts, st)
  }

  /** The rest of the `_instruction` dispatch: repeter, debut, pour, or the empty statement. */
  function StructuredInstruction(ts: seq<PToken>, st: PState): (r: PState)
    requires Valid(ts)
    ensures Extends(st, r)
    decreases Rem(ts, st.pos), if AtEnd(ts, st.pos) then 0 else 1
  {
    if IsKw(ts, st, "repeter") then InstructionRepeter(ts, AddRule(st, RInstrRepeter))
    else if IsKw(ts, st, "debut") then InstrComp(ts, AddRule(st, RInstrBloc))
    else if IsKw(ts, st, "pour") then InstructionPour(ts, AddRule(st, RInstrPour))
    else AddRule(st, RInstrVide)
  }

  /** `_instruction_affectation`: NomVariable := Expression */
  function InstructionAffectation(ts: seq<PToken>, st: PState): (r: PState)
    requires Valid(ts)
    ensures Extends(st, r) && r.pos > st.pos
  {
    var s1 := NomVariable(ts, AddRule(st, RAffectation));
    var s2 := Expect(ts, s1, Symbole, ":=");
    Expression(ts, s2)
  }

  /** `_instruction_si`: si Expression alors Instruction [sinon Instruction] */
  function InstructionSi(ts: seq<PToken>, st: PState): (r: PState)
    requires Valid(ts)
    ensures Extends(st, r) && r.pos > st.pos
    decreases Rem(ts, st.pos), if AtEnd(ts, st.pos) then 2 else 0
  {
    var s1 := Expect(ts, AddRule(st, RSi), Keyword, "si");
    var s2 := Expression(ts, s1);
    var s3 := Expect(ts, s2, Keyword, "alors");
    SinonPart(ts, Instruction(ts, s3))
  }

  /** The optional `sinon Instruction` of `_instruction_si`. */
  function SinonPart(ts: seq<PToken>, st: PState): (r: PState)
    requires Valid(ts)
    ensures Extends(st, r)
    ensures !IsKw(ts, st, "sinon") ==> r == st
    decreases Rem(ts, st.pos), 0
  {
    if IsKw(ts, st, "sinon") then Instruction(ts, Advance(st)) else st
  }

  /** `_instruction_tantque`: tantque Expression faire Instruction */
  function InstructionTantque(ts: seq<PToken>, st: PState): (r: PState)
    requires Valid(ts)
    ensures Extends(st, r) && r.pos > st.pos
    decreases Rem(ts, st.pos), if AtEnd(ts, st.pos) then 2 else 0
  {
    var s1 := Expect(ts, AddRule(st, RTantque), Keyword, "tantque");
    var s2 := Expression(ts, s1);
    var s3 := Expect(ts, s2, Keyword, "faire");
    Instruction(ts, s3)
  }

  /** `_instruction_repeter`: repeter Instruction jusqua Expression */
  function InstructionRepeter(ts: seq<PToken>, st: PState): (r: PState)
    requires Valid(ts)
    ensures Extends(st, r) && r.pos > st.pos
    decreases Rem(ts, st.pos), if AtEnd(ts, st.pos) then 2 else 0
  {
    var s1 := Expect(ts, AddRule(st, RRepeter), Keyword, "repeter");
    var s2 := Instruction(ts, s1);
    var s3 := Expect(ts, s2, Keyword, "jusqua");
    Expression(ts, s3)
  }

  /** `_instruction_pour`: pour NomVariable allant de Constante a Constante [pas Constante] faire Instruction */
  function InstructionPour(ts: seq<PToken>, st: PState): (r: PState)
    requires Valid(ts)
    ensures Extends(st, r) && r.pos > st.pos
    decreases Rem(ts, st.pos), if AtEnd(ts, st.pos) then 2 else 0
  {
    var s1 := Expect(ts, AddRule(st, RPour), Keyword, "pour");
    var s2 := NomVariable(ts, s1);
    var s3 := Expect(ts, s2, Keyword, "allant");
    var s4 := PourRange(ts, s3);
    var s5 := Expect(ts, s4, Keyword, "faire");
    Instruction(ts, s5)
  }

  /** The bounds of `_instruction_pour`: de Constante a Constante [pas Constante] */
  function PourRange(ts: seq<PToken>, st: PState): (r: PState)
    requires Valid(ts)
    ensures Extends(st, r) && r.pos >= st.pos + 4
  {
    var s1 := Expect(ts, st, Keyword, "de");
    var s2 := Constante(ts, s1);
    var s3 := Expect(ts, s2, Keyword, "a");
    var s4 := Constante(ts, s3);
    if IsKw(ts, s4, "pas") then Constante(ts, Advance(s4)) else s4
  }

  // ---------------------------------------------------------------------
  // Expressions

  /** `_expression`: ExpressionSimple [OperateurRelationnel ExpressionSimple] */
  function Expression(ts: seq<PToken>, st: PState): (r: PState)
    requires Valid(ts)
    ensures Extends(st, r) && r.pos > st.pos
    decreases Rem(ts, st.pos), 3
  {
    var s1 := ExpressionSimple(ts, AddRule(st, RExpression));
    if IsOpRel(ts, s1) then ExpressionSimple(ts, Operator(ts, s1, ROperateurRelationnel(Cur(ts, s1.pos).lexeme)))
    else s1
  }

  /** The operator procedures: record the operator's lexeme and consume it. */
  function Operator(ts: seq<PToken>, st: PState, rule: Rule): (r: PState)
    requires Valid(ts)
    ensures r == st.(pos := st.pos + 1, rules := st.rules + [rule])
    ensures Extends(st, r)
  {
    Advance(AddRule(st, rule))
  }

  /** `_expression_simple`: [OperateurSigne] Terme {OperateurAddition Terme} */
  function ExpressionSimple(ts: seq<PToken>, st: PState): (r: PState)
    requires Valid(ts)
    ensures Extends(st, r) && r.pos > st.pos
    decreases Rem(ts, st.pos), 2
  {
    ExpressionSimpleLoop(ts, Terme(ts, SignPart(ts, AddRule(st, RExpressionSimple))))
  }

  /** The optional leading `+` or `-` of `_expression_simple`. */
  function SignPart(ts: seq<PToken>, st: PState): (r: PState)
    requires Valid(ts)
    ensures Extends(st, r)
  {
    if IsSym(ts, st, "+") || IsSym(ts, st, "-") then Operator(ts, st, ROperateurSigne(Cur(ts, st.pos).lexeme))
    else st
  }

  /** The `while self._is_op_add()` loop. */
  function ExpressionSimpleLoop(ts: seq<PToken>, st: PState): (r: PState)
    requires Valid(ts)
    ensures Extends(st, r)
    ensures !IsOpAdd(ts, r)
    decreases Rem(ts, st.pos), 0
  {
    if IsOpAdd(ts, st) then
      ExpressionSimpleLoop(ts, Terme(ts, Operator(ts, st, ROperateurAddition(Cur(ts, st.pos).lexeme))))
    else st
  }

  /** `_terme`: Facteur {OperateurMult Facteur} */
  function Terme(ts: seq<PToken>, st: PState): (r: PState)
    requires Valid(ts)
    ensures Extends(st, r) && r.pos > st.pos
    decreases Rem(ts, st.pos), 1
  {
    TermeLoop(ts, Facteur(ts, AddRule(st, RTerme)))
  }

  /** The `while self._is_op_mult()` loop. */
  function TermeLoop(ts: seq<PToken>, st: PState): (r: PState)
    requires Valid(ts)
    ensures Extends(st, r)
    ensures !IsOpMult(ts, r)
    decreases Rem(ts, st.pos), 0
  {
    if IsOpMult(ts, st) then
      TermeLoop(ts, Facteur(ts, Operator(ts, st, ROperateurMult(Cur(ts, st.pos).lexeme))))
    else st
  }

  /**
   `_facteur`: a parenthesised expression, or a number or identifier read
   as a constant; anything else is reported and skipped.
   */
  function Facteur(ts: seq<PToken>, st: PState): (r: PState)
    requires Valid(ts)
    ensures Extends(st, r) && r.pos > st.pos
    ensures !IsSym(ts, st, "(") && !IsNombre(ts, st) && !IsId(ts, st) ==>
              r == st.(pos := st.pos + 1,
                       errors := st.errors + [SynError(Cur(ts, st.pos).line, FactorExpected(Cur(ts, st.pos).lexeme))])
    decreases Rem(ts, st.pos), 0
  {
    if IsSym(ts, st, "(") then
      Expect(ts, Expression(ts, Advance(AddRule(st, RFacteurParen))), Symbole, ")")
    else if IsNombre(ts, st) then Constante(ts, AddRule(st, RFacteurConstante))
    else if IsId(ts, st) then Constante(ts, AddRule(st, RFacteurConstanteOuVariable))
    else Advance(Error(ts, st, FactorExpected(Cur(ts, st.pos).lexeme)))
  }

  // ---------------------------------------------------------------------
  // Entry point

  datatype ParseResult = ParseResult(success: bool, rules: seq<Rule>, errors: seq<SynError>)

  /**
   `parse`: nothing to do without tokens; otherwise parse a program from
   the first token with an empty trace, report a token left before the end
   of input, and succeed exactly when no error was found.
   */
  function Parse(ts: seq<PToken>): (r: ParseResult)
    requires ts == [] || Valid(ts)
    ensures ts == [] ==> !r.success
    ensures ts != [] ==> (r.success <==> r.errors == [])
    ensures ts != [] ==> |r.rules| > 0 && r.rules[0] == RProgrammePascal
  {
    if ts == [] then ParseResult(false, [], [])
    else
      var s := ProgrammePascal(ts, PState(0, [], []));
      var s' := if Cur(ts, s.pos).typ != EndOfInput then Error(ts, s, TrailingTokens) else s;
      ParseResult(s'.errors == [], s'.rules, s'.errors)
  }

  /**
   A program that stops before the end-of-input token fails, with the
   trailing-token error as its last error.
   */
  lemma {:induction false} TrailingTokensReported(ts: seq<PToken>)
    requires Valid(ts)
    requires Cur(ts, ProgrammePascal(ts, PState(0, [], [])).pos).typ != EndOfInput
    ensures !Parse(ts).success
    ensures Parse(ts).errors[|Parse(ts).errors| - 1].problem == TrailingTokens
  {
  }

  // ---------------------------------------------------------------------
  // Facts about the primitives

  /** The cursor as the source keeps it: a position and a separately stored current token. */
  datatype PyCursor = PyCursor(pos: nat, current: PToken)

  /** `_advance` on the stored cursor: the current token is replaced only while the position is inside the list. */
  function PyAdvance(ts: seq<PToken>, c: PyCursor): PyCursor {
    var p := c.pos + 1;
    PyCursor(p, if p < |ts| then ts[p] else c.current)
  }

  function PyAdvanceN(ts: seq<PToken>, c: PyCursor, n: nat): PyCursor
    decreases n
  {
    if n == 0 then c else PyAdvanceN(ts, PyAdvance(ts, c), n - 1)
  }

  /**
   However often `_advance` runs from the start of `parse`, the stored
   current token is the token at the position, or the last token once the
   position has run past the end, which is what `Cur` computes.
   */
  lemma {:induction false} StoredCursorIsCur(ts: seq<PToken>, c: PyCursor, n: nat)
    requires |ts| > 0 && c.current == Cur(ts, c.pos)
    ensures PyAdvanceN(ts, c, n).pos == c.pos + n
    ensures PyAdvanceN(ts, c, n).current == Cur(ts, c.pos + n)
    decreases n
  {
    if n > 0 {
      StoredCursorIsCur(ts, PyAdvance(ts, c), n - 1);
    }
  }

  /** The cursor `parse` starts with is the first token. */
  lemma {:induction false} StartCursor(ts: seq<PToken>)
    requires |ts| > 0
    ensures PyCursor(0, ts[0]).current == Cur(ts, 0)
  {
  }

  /**
   The multiplicative operators are '*', div, mod and et; '/' is not one,
   nor an additive or relational operator, so a term ends before a '/'.
   */
  lemma {:induction false} MultiplicativeOperators(ts: seq<PToken>, st: PState)
    requires Valid(ts)
    ensures IsOpMult(ts, st) <==>
              SymTok(Cur(ts, st.pos), "*") || (Cur(ts, st.pos).typ == Keyword && Lower(Cur(ts, st.pos).lexeme) in {"div", "mod", "et"})
    ensures IsSym(ts, st, "/") ==> !IsOpMult(ts, st) && !IsOpAdd(ts, st) && !IsOpRel(ts, st)
    ensures IsSym(ts, st, "/") ==> TermeLoop(ts, st) == st
  {
    var t := Cur(ts, st.pos);
    SpelledAsLower(t.lexeme, "div");
    SpelledAsLower(t.lexeme, "mod");
    SpelledAsLower(t.lexeme, "et");
  }

  /**
   A token that starts no statement gives the empty statement: it is
   recorded in the trace and nothing is consumed or reported.
   */
  lemma {:induction false} EmptyStatement(ts: seq<PToken>, st: PState)
    requires Valid(ts) && !StartsStatement(Cur(ts, st.pos))
    ensures Instruction(ts, st) == st.(rules := st.rules + [RInstrVide])
  {
  }

  /** Each statement keyword leads `_instruction` to its statement, recorded first. */
  lemma {:induction false} StatementDispatch(ts: seq<PToken>, st: PState)
    requires Valid(ts)
    ensures IsId(ts, st) ==> Instruction(ts, st) == InstructionAffectation(ts, AddRule(st, RInstrAffectation))
    ensures IsKw(ts, st, "si") ==> Instruction(ts, st) == InstructionSi(ts, AddRule(st, RInstrSi))
    ensures IsKw(ts, st, "tantque") ==> Instruction(ts, st) == InstructionTantque(ts, AddRule(st, RInstrTantque))
    ensures IsKw(ts, st, "repeter") ==> Instruction(ts, st) == InstructionRepeter(ts, AddRule(st, RInstrRepeter))
    ensures IsKw(ts, st, "debut") ==> Instruction(ts, st) == InstrComp(ts, AddRule(st, RInstrBloc))
    ensures IsKw(ts, st, "pour") ==> Instruction(ts, st) == InstructionPour(ts, AddRule(st, RInstrPour))
  {
    if IsKw(ts, st, "repeter") {
      OneSpelling(Cur(ts, st.pos), "repeter", "tantque");
    }
  }
}
