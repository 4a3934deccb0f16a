/**
 The command-line scanner: the same loop as the back-end scanner, without
 the symbol table, producing tokens whose type is the kind's name and
 error entries tagged as lexical errors. Its automaton is a copy of the
 back end's, so `Automaton.Match` serves both.
 */
module CliScanner {
  import opened Wrappers
  import opened Chars
  import opened Tokens
  import opened Automaton
  import opened Position
  import Scanner

  /** A token as the command-line scanner writes it: type name, lexeme, line, column. */
  datatype CliToken = CliToken(typ: string, lexeme: string, line: nat, col: nat)

  /** The tag every entry of the command-line scanner's error list starts with. */
  const LexicalTag: string := "[ERREUR_LEXICALE]"

  /** An error entry: its tag, the line and column it is reported at, and what is wrong. */
  datatype LexError = LexError(tag: string, line: nat, col: nat, problem: Scanner.Problem)

  datatype CliState = CliState(cur: Cursor, tokens: seq<CliToken>, errors: seq<LexError>)

  /** `_handle_error`: tag the report with the lexical tag and the position given. */
  function HandleError(st: CliState, line: nat, col: nat, p: Scanner.Problem): (r: CliState)
    ensures r.errors == st.errors + [LexError(LexicalTag, line, col, p)]
    ensures r.cur == st.cur && r.tokens == st.tokens
  {
    st.(errors := st.errors + [LexError(LexicalTag, line, col, p)])
  }

  /** One iteration of the command-line `tokenize` loop. */
  function Step(src: string, st: CliState): (r: CliState)
    requires st.cur.pos < |src|
    ensures st.cur.pos < r.cur.pos <= |src|
  {
    var (skipTo, skipped) := SkipWhitespace(src, st.cur);
    if skipped then st.(cur := skipTo)
    else
      match Match(src, st.cur.pos)
      case Some(l) => Emit(src, st, l)
      case None => Recover(src, st)
  }

  /** Append the matched token, written with its kind's name, and move past its lexeme. */
  function Emit(src: string, st: CliState, l: Lexed): (r: CliState)
    requires st.cur.pos < |src| && Match(src, st.cur.pos) == Some(l)
    ensures r.tokens == st.tokens + [CliToken(KindName(l.kind), l.lexeme, st.cur.line, st.cur.col)]
    ensures r.errors == st.errors
    ensures r.cur.pos == st.cur.pos + |l.lexeme|
  {
    st.(tokens := st.tokens + [CliToken(KindName(l.kind), l.lexeme, st.cur.line, st.cur.col)],
        cur := Advance(src, st.cur, l.length))
  }

  /** Report the letter/digit run or the offending character through `_handle_error`, and skip it. */
  function Recover(src: string, st: CliState): (r: CliState)
    requires st.cur.pos < |src|
    ensures r.tokens == st.tokens
    ensures st.cur.pos < r.cur.pos <= |src|
    ensures IsLetter(src[st.cur.pos]) ==>
              && r.cur.pos == AlnumEnd(src, st.cur.pos + 1)
              && r.errors == st.errors + [LexError(LexicalTag, st.cur.line, st.cur.col,
                                                   Scanner.InvalidIdentifier(src[st.cur.pos..r.cur.pos]))]
    ensures !IsLetter(src[st.cur.pos]) ==>
              && r.cur.pos == st.cur.pos + 1
              && r.errors == st.errors + [LexError(LexicalTag, st.cur.line, st.cur.col,
                                                   Scanner.IllegalCharacter(src[st.cur.pos]))]
  {
    var c := st.cur;
    if IsLetter(src[c.pos]) then
      var i := AlnumEnd(src, c.pos + 1);
      HandleError(st, c.line, c.col, Scanner.InvalidIdentifier(src[c.pos..i])).(cur := Advance(src, c, i - c.pos))
    else
      HandleError(st, c.line, c.col, Scanner.IllegalCharacter(src[c.pos])).(cur := Advance(src, c, 1))
  }

  /** The loop from the current position to the end of the text. */
  function Run(src: string, st: CliState): (r: CliState)
    requires st.cur.pos <= |src|
    ensures r.cur.pos == |src|
    ensures st.tokens <= r.tokens && st.errors <= r.errors
    decreases |src| - st.cur.pos
  {
    if st.cur.pos < |src| then Run(src, Step(src, st)) else st
  }

  /** `tokenize`: run the loop, then append the EOF token at the final line and column. */
  function Tokenize(src: string): (r: CliState)
    ensures r.cur.pos == |src|
    ensures |r.tokens| >= 1
    ensures r.tokens[|r.tokens| - 1] == CliToken("EOF", "", LineAt(src, |src|), ColAt(src, |src|))
  {
    var st := Run(src, CliState(Start(), [], []));
    assert Consistent(src, st.cur) by { RunConsistent(src, CliState(Start(), [], [])); }
    Finish(st)
  }

  /** Append the EOF token at the current line and column. */
  function Finish(st: CliState): (r: CliState)
    ensures r.tokens == st.tokens + [CliToken("EOF", "", st.cur.line, st.cur.col)]
    ensures r.cur == st.cur && r.errors == st.errors
  {
    st.(tokens := st.tokens + [CliToken("EOF", "", st.cur.line, st.cur.col)])
  }

  lemma {:induction false} RunConsistent(src: string, st: CliState)
    requires st.cur.pos <= |src| && Consistent(src, st.cur)
    ensures Consistent(src, Run(src, st).cur)
    decreases |src| - st.cur.pos
  {
    if st.cur.pos < |src| {
      RunConsistent(src, Step(src, st));
    }
  }

  // ---------------------------------------------------------------------
  // Agreement with the back-end scanner

  /** How the command-line scanner writes a back-end token. */
  function Render(t: Token): CliToken {
    CliToken(KindName(t.kind), t.lexeme, t.line, t.col)
  }

  /** How the command-line scanner tags a back-end error entry. */
  function Tag(d: Scanner.Diag): LexError {
    LexError(LexicalTag, d.line, d.col, d.problem)
  }

  /** The two scanner states are at the same place and have produced the same output. */
  predicate Agrees(c: CliState, b: Scanner.ScanState) {
    && c.cur == b.cur
    && |c.tokens| == |b.tokens| && (forall i :: 0 <= i < |c.tokens| ==> c.tokens[i] == Render(b.tokens[i]))
    && |c.errors| == |b.errors| && (forall i :: 0 <= i < |c.errors| ==> c.errors[i] == Tag(b.errors[i]))
  }

  /** Appending a token to both outputs keeps them in agreement. */
  lemma {:induction false} RenderedAppend(cs: seq<CliToken>, bs: seq<Token>, t: Token)
    requires |cs| == |bs| && forall i :: 0 <= i < |cs| ==> cs[i] == Render(bs[i])
    ensures forall i :: 0 <= i < |cs| + 1 ==> (cs + [Render(t)])[i] == Render((bs + [t])[i])
  {
  }

  /** Appending an error to both error lists keeps them in agreement. */
  lemma {:induction false} TaggedAppend(es: seq<LexError>, ds: seq<Scanner.Diag>, d: Scanner.Diag)
    requires |es| == |ds| && forall i :: 0 <= i < |es| ==> es[i] == Tag(ds[i])
    ensures forall i :: 0 <= i < |es| + 1 ==> (es + [Tag(d)])[i] == Tag((ds + [d])[i])
  {
  }

  lemma {:induction false} EmitAgrees(src: string, c: CliState, b: Scanner.ScanState, l: Lexed)
    requires c.cur.pos < |src| && Match(src, c.cur.pos) == Some(l) && Agrees(c, b)
    ensures Agrees(Emit(src, c, l), Scanner.Emit(src, b, l))
  {
    RenderedAppend(c.tokens, b.tokens, Token(l.kind, l.lexeme, c.cur.line, c.cur.col));
  }

  lemma {:induction false} RecoverAgrees(src: string, c: CliState, b: Scanner.ScanState)
    requires c.cur.pos < |src| && Agrees(c, b)
    ensures Agrees(Recover(src, c), Scanner.Recover(src, b))
  {
    var k := c.cur;
    if IsLetter(src[k.pos]) {
      var i := AlnumEnd(src, k.pos + 1);
      TaggedAppend(c.errors, b.errors, Scanner.Diag(k.line, k.col, Scanner.InvalidIdentifier(src[k.pos..i])));
    } else {
      TaggedAppend(c.errors, b.errors, Scanner.Diag(k.line, k.col, Scanner.IllegalCharacter(src[k.pos])));
    }
  }

  lemma {:induction false} StepAgrees(src: string, c: CliState, b: Scanner.ScanState)
    requires c.cur.pos < |src| && Agrees(c, b)
    ensures Agrees(Step(src, c), Scanner.ScanOne(src, b))
  {
    var (skipTo, skipped) := SkipWhitespace(src, c.cur);
    if !skipped {
      match Match(src, c.cur.pos)
      case Some(l) => EmitAgrees(src, c, b, l);
      case None => RecoverAgrees(src, c, b);
    }
  }

  lemma {:induction false} RunAgrees(src: string, c: CliState, b: Scanner.ScanState)
    requires c.cur.pos <= |src| && Agrees(c, b)
    ensures Agrees(Run(src, c), Scanner.ScanFrom(src, b))
    decreases |src| - c.cur.pos
  {
    if c.cur.pos < |src| {
      StepAgrees(src, c, b);
      RunAgrees(src, Step(src, c), Scanner.ScanOne(src, b));
    }
  }

  /**
   The command-line scanner produces the back-end scanner's tokens, written
   with their kind names, and its errors, each tagged as lexical and kept at
   the same line and column.
   */
  lemma {:induction false} TokenizeAgrees(src: string)
    ensures var c := Tokenize(src);
            var b := Scanner.Tokenize(src);
            && |c.tokens| == |b.tokens|
            && (forall i :: 0 <= i < |c.tokens| ==> c.tokens[i] == Render(b.tokens[i]))
            && |c.errors| == |b.errors|
            && (forall i :: 0 <= i < |c.errors| ==> c.errors[i] == Tag(b.errors[i]))
  {
    var c0 := Run(src, CliState(Start(), [], []));
    var b0 := Scanner.ScanFrom(src, Scanner.Init());
    RunAgrees(src, CliState(Start(), [], []), Scanner.Init());
    var t := Token(Eof, "", b0.cur.line, b0.cur.col);
    assert c0.cur == b0.cur;
    assert Tokenize(src) == Finish(c0);
    KindNameClasses(Eof);
    assert Render(t) == CliToken("EOF", "", c0.cur.line, c0.cur.col);
    assert Scanner.Tokenize(src).tokens == b0.tokens + [t];
    assert Tokenize(src).errors == c0.errors && Scanner.Tokenize(src).errors == b0.errors;
    RenderedAppend(c0.tokens, b0.tokens, t);
  }

  /**
   Every error entry is tagged as lexical and sits at the line and column of
   a source position where no token starts and no white space is.
   */
  lemma {:induction false} ErrorsTaggedAtOffendingCharacter(src: string)
    ensures forall i :: 0 <= i < |Tokenize(src).errors| ==>
              && Tokenize(src).errors[i].tag == LexicalTag
              && exists p: nat :: Scanner.LexicalErrorAt(src, p, Scanner.Diag(Tokenize(src).errors[i].line,
                                                                            Tokenize(src).errors[i].col,
                                                                            Tokenize(src).errors[i].problem))
  {
    TokenizeAgrees(src);
    Scanner.TokenizeSound(src);
    var b := Scanner.Tokenize(src);
    forall i | 0 <= i < |Tokenize(src).errors|
      ensures Tokenize(src).errors[i].tag == LexicalTag
      ensures exists p: nat :: Scanner.LexicalErrorAt(src, p, Scanner.Diag(Tokenize(src).errors[i].line,
                                                                         Tokenize(src).errors[i].col,
                                                                         Tokenize(src).errors[i].problem))
    {
      assert Scanner.LexicalErrorInSource(src, b.errors[i]);
    }
  }

  /** Exactly one EOF token, the last one. */
  lemma {:induction false} OneEofToken(src: string)
    ensures forall i :: 0 <= i < |Tokenize(src).tokens| - 1 ==> Tokenize(src).tokens[i].typ != "EOF"
  {
    TokenizeAgrees(src);
    Scanner.TokenizeSound(src);
    var b := Scanner.Tokenize(src);
    forall i | 0 <= i < |Tokenize(src).tokens| - 1
      ensures Tokenize(src).tokens[i].typ != "EOF"
    {
      KindNameClasses(b.tokens[i].kind);
    }
  }
}
