/**
 The scanner of the service back end: drives the automaton over the whole
 text, skipping white space, keeping line and column, recovering from
 lexical errors, recording identifiers in the symbol table, and ending the
 token list with one end-of-input token.
 */
module Scanner {
  import opened Wrappers
  import opened Chars
  import opened Tokens
  import opened Automaton
  import opened Position
  import opened SymbolTable

  /** What an error entry reports; the message text itself is not modelled. */
  datatype Problem =
    // lexical
    | InvalidIdentifier(run: string)
    | IllegalCharacter(ch: char)
    // program structure
    | MissingProgramme
    | ProgramNameExpected
    | SemicolonExpected
    | MissingDebut
    | MissingFin
    | MissingFinalPoint
    // paired keywords
    | AlorsWithoutSi
    | JusquaWithoutRepeter
    | SiWithoutAlors
    | RepeterWithoutJusqua

  /** An error entry: line, column and what is wrong. */
  datatype Diag = Diag(line: nat, col: nat, problem: Problem)

  datatype ScanState = ScanState(cur: Cursor, tokens: seq<Token>, symtab: Table, errors: seq<Diag>)

  function Init(): ScanState {
    ScanState(Start(), [], map[], [])
  }

  /** `_add_token`: append the token and record it in the symbol table. */
  function AddToken(st: ScanState, t: Token): (r: ScanState)
    ensures r.tokens == st.tokens + [t]
    ensures r.cur == st.cur && r.errors == st.errors
    ensures Describes(st.symtab, st.tokens) ==> Describes(r.symtab, r.tokens)
  {
    RecordKeepsDescription(st.symtab, st.tokens, t);
    st.(tokens := st.tokens + [t], symtab := Record(st.symtab, t))
  }

  /** `t` is exactly what the automaton matches at `p`, recorded at the line and column of `p`. */
  predicate TokenStartsAt(src: string, p: nat, t: Token) {
    && p < |src|
    && Match(src, p) == Some(Lexed(t.kind, t.lexeme, |t.lexeme|))
    && LineAt(src, p) == t.line && ColAt(src, p) == t.col
  }

  ghost predicate TokenInSource(src: string, t: Token) {
    exists p: nat :: TokenStartsAt(src, p, t)
  }

  /**
   `d` reports a lexical error at `p`: no token starts there, and `d` names
   the letter/digit run starting there (when it starts with a letter) or
   the offending character.
   */
  predicate LexicalErrorAt(src: string, p: nat, d: Diag) {
    && p < |src|
    && LineAt(src, p) == d.line && ColAt(src, p) == d.col
    && Match(src, p).None? && !IsSpace(src[p])
    && match d.problem
       case InvalidIdentifier(w) => IsLetter(src[p]) && w == src[p..AlnumEnd(src, p + 1)]
       case IllegalCharacter(ch) => !IsLetter(src[p]) && ch == src[p]
       case _ => false
  }

  ghost predicate LexicalErrorInSource(src: string, d: Diag) {
    exists p: nat :: LexicalErrorAt(src, p, d)
  }

  /**
   What the scanner keeps true while it runs: the cursor's line and column
   are those of its position, no end-of-input token has been emitted yet,
   every token is an automaton match at its recorded position, and every
   error is a lexical error at its recorded position.
   */
  ghost predicate Sound(src: string, st: ScanState) {
    && Consistent(src, st.cur)
    && (forall i :: 0 <= i < |st.tokens| ==> st.tokens[i].kind != Eof)
    && (forall i :: 0 <= i < |st.tokens| ==> TokenInSource(src, st.tokens[i]))
    && (forall i :: 0 <= i < |st.errors| ==> LexicalErrorInSource(src, st.errors[i]))
  }

  /**
   One iteration of the `tokenize` loop at a position inside the text:
   skip white space if there is some; otherwise append the matched token,
   or record one error and skip the whole letter/digit run (when the text
   there starts with a letter) or the single offending character.
   */
  function ScanOne(src: string, st: ScanState): (r: ScanState)
    requires st.cur.pos < |src|
    ensures st.cur.pos < r.cur.pos <= |src|
    ensures st.tokens <= r.tokens && |r.tokens| <= |st.tokens| + 1
    ensures st.errors <= r.errors && |r.errors| <= |st.errors| + 1
    ensures Describes(st.symtab, st.tokens) ==> Describes(r.symtab, r.tokens)
  {
    var (skipTo, skipped) := SkipWhitespace(src, st.cur);
    if skipped then st.(cur := skipTo)
    else
      match Match(src, st.cur.pos)
      case Some(l) => Emit(src, st, l)
      case None => Recover(src, st)
  }

  /** Append the token the automaton matched at the cursor and move past its lexeme. */
  function Emit(src: string, st: ScanState, l: Lexed): (r: ScanState)
    requires st.cur.pos < |src| && Match(src, st.cur.pos) == Some(l)
    ensures r.tokens == st.tokens + [Token(l.kind, l.lexeme, st.cur.line, st.cur.col)]
    ensures r.errors == st.errors
    ensures r.cur.pos == st.cur.pos + |l.lexeme|
    ensures Consistent(src, st.cur) ==> Consistent(src, r.cur)
    ensures Describes(st.symtab, st.tokens) ==> Describes(r.symtab, r.tokens)
  {
    var s1 := AddToken(st, Token(l.kind, l.lexeme, st.cur.line, st.cur.col));
    s1.(cur := Advance(src, st.cur, l.length))
  }

  /**
   Recovery when no token starts at the cursor: report the letter/digit run
   there (when it starts with a letter) or the single offending character,
   at the cursor's line and column, and skip it.
   */
  function Recover(src: string, st: ScanState): (r: ScanState)
    requires st.cur.pos < |src|
    ensures r.tokens == st.tokens && r.symtab == st.symtab
    ensures st.cur.pos < r.cur.pos <= |src|
    ensures IsLetter(src[st.cur.pos]) ==>
              && r.cur.pos == AlnumEnd(src, st.cur.pos + 1)
              && r.errors == st.errors + [Diag(st.cur.line, st.cur.col, InvalidIdentifier(src[st.cur.pos..r.cur.pos]))]
    ensures !IsLetter(src[st.cur.pos]) ==>
              && r.cur.pos == st.cur.pos + 1
              && r.errors == st.errors + [Diag(st.cur.line, st.cur.col, IllegalCharacter(src[st.cur.pos]))]
    ensures Consistent(src, st.cur) ==> Consistent(src, r.cur)
  {
    var c := st.cur;
    if IsLetter(src[c.pos]) then
      var i := AlnumEnd(src, c.pos + 1);
      st.(cur := Advance(src, c, i - c.pos),
          errors := st.errors + [Diag(c.line, c.col, InvalidIdentifier(src[c.pos..i]))])
    else
      st.(cur := Advance(src, c, 1),
          errors := st.errors + [Diag(c.line, c.col, IllegalCharacter(src[c.pos]))])
  }

  /** The `tokenize` loop from the current position to the end of the text. */
  function ScanFrom(src: string, st: ScanState): (r: ScanState)
    requires st.cur.pos <= |src|
    ensures r.cur.pos == |src|
    ensures st.tokens <= r.tokens && st.errors <= r.errors
    ensures Describes(st.symtab, st.tokens) ==> Describes(r.symtab, r.tokens)
    decreases |src| - st.cur.pos
  {
    if st.cur.pos < |src| then ScanFrom(src, ScanOne(src, st)) else st
  }

  /** `tokenize`: scan the whole text, then append the end-of-input token at the final line and column. */
  function Tokenize(src: string): (r: ScanState)
    ensures r.cur.pos == |src|
    ensures |r.tokens| >= 1
    ensures r.tokens[|r.tokens| - 1] == Token(Eof, "", LineAt(src, |src|), ColAt(src, |src|))
  {
    ScanFromSound(src, Init());
    var st := ScanFrom(src, Init());
    AddToken(st, Token(Eof, "", st.cur.line, st.cur.col))
  }

  /** The symbol table describes the identifiers of the final token list, the end-of-input token included. */
  lemma {:induction false} TokenizeDescribes(src: string)
    ensures Describes(Tokenize(src).symtab, Tokenize(src).tokens)
  {
    EmptyDescribesNoTokens();
    var st := ScanFrom(src, Init());
    assert Tokenize(src) == AddToken(st, Token(Eof, "", st.cur.line, st.cur.col));
  }

  /** The end-of-input token sits at the line and column just past the text. */
  lemma {:induction false} EndTokenPosition(src: string)
    ensures var ts := Tokenize(src).tokens;
            ts != [] && ts[|ts| - 1].line == LineAt(src, |src|) && ts[|ts| - 1].col == ColAt(src, |src|)
  {
  }

  /**
   Only the last token is the end-of-input token; every other token is what
   the automaton matches at its recorded line and column, and every error
   is a lexical error at its recorded line and column.
   */
  lemma {:induction false} TokenizeSound(src: string)
    ensures var r := Tokenize(src);
            && (forall i :: 0 <= i < |r.tokens| - 1 ==> r.tokens[i].kind != Eof)
            && (forall i :: 0 <= i < |r.tokens| - 1 ==> TokenInSource(src, r.tokens[i]))
            && (forall i :: 0 <= i < |r.errors| ==> LexicalErrorInSource(src, r.errors[i]))
  {
    ScanFromSound(src, Init());
    var st := ScanFrom(src, Init());
    var r := Tokenize(src);
    assert r == AddToken(st, Token(Eof, "", st.cur.line, st.cur.col));
    assert forall i :: 0 <= i < |r.tokens| - 1 ==> r.tokens[i] == st.tokens[i];
  }

  /** A step that only moves the cursor keeps the scanner sound. */
  lemma {:induction false} SoundMoved(src: string, st: ScanState, r: ScanState)
    requires Sound(src, st) && Consistent(src, r.cur)
    requires r.tokens == st.tokens && r.errors == st.errors
    ensures Sound(src, r)
  {
  }

  /** A step that appends a token matched in the text keeps the scanner sound. */
  lemma {:induction false} SoundTokenAdded(src: string, st: ScanState, r: ScanState, p: nat, t: Token)
    requires Sound(src, st) && Consistent(src, r.cur)
    requires r.tokens == st.tokens + [t] && r.errors == st.errors
    requires t.kind != Eof && TokenStartsAt(src, p, t)
    ensures Sound(src, r)
  {
    assert forall i :: 0 <= i < |st.tokens| ==> r.tokens[i] == st.tokens[i];
  }

  /** A step that appends a lexical error found in the text keeps the scanner sound. */
  lemma {:induction false} SoundErrorAdded(src: string, st: ScanState, r: ScanState, p: nat, d: Diag)
    requires Sound(src, st) && Consistent(src, r.cur)
    requires r.tokens == st.tokens && r.errors == st.errors + [d]
    requires LexicalErrorAt(src, p, d)
    ensures Sound(src, r)
  {
    assert forall i :: 0 <= i < |st.errors| ==> r.errors[i] == st.errors[i];
  }

  lemma {:induction false} EmitSound(src: string, st: ScanState, l: Lexed)
    requires st.cur.pos < |src| && Match(src, st.cur.pos) == Some(l) && Sound(src, st)
    ensures Sound(src, Emit(src, st, l))
  {
    var c := st.cur;
    SoundTokenAdded(src, st, Emit(src, st, l), c.pos, Token(l.kind, l.lexeme, c.line, c.col));
  }

  lemma {:induction false} RecoverSound(src: string, st: ScanState)
    requires st.cur.pos < |src| && !IsSpace(src[st.cur.pos]) && Match(src, st.cur.pos).None? && Sound(src, st)
    ensures Sound(src, Recover(src, st))
  {
    var r := Recover(src, st);
    SoundErrorAdded(src, st, r, st.cur.pos, r.errors[|r.errors| - 1]);
  }

  lemma {:induction false} ScanOneSound(src: string, st: ScanState)
    requires st.cur.pos < |src| && Sound(src, st)
    ensures Sound(src, ScanOne(src, st))
  {
    var (skipTo, skipped) := SkipWhitespace(src, st.cur);
    if skipped {
      SoundMoved(src, st, ScanOne(src, st));
    } else {
      match Match(src, st.cur.pos)
      case Some(l) => EmitSound(src, st, l);
      case None => RecoverSound(src, st);
    }
  }

  lemma {:induction false} ScanFromSound(src: string, st: ScanState)
    requires st.cur.pos <= |src| && Sound(src, st)
    ensures Sound(src, ScanFrom(src, st))
    decreases |src| - st.cur.pos
  {
    if st.cur.pos < |src| {
      ScanOneSound(src, st);
      ScanFromSound(src, ScanOne(src, st));
    }
  }

  // ---------------------------------------------------------------------
  // The three kinds of loop iteration

  /** White space is skipped as a whole run; nothing is emitted or reported. */
  lemma {:induction false} WhitespaceStep(src: string, st: ScanState)
    requires st.cur.pos < |src| && IsSpace(src[st.cur.pos])
    ensures var r := ScanOne(src, st);
            && r.tokens == st.tokens && r.errors == st.errors && r.symtab == st.symtab
            && (forall k :: st.cur.pos <= k < r.cur.pos ==> IsSpace(src[k]))
            && (r.cur.pos == |src| || !IsSpace(src[r.cur.pos]))
  {
  }

  /**
   A matched token is recorded at the line and column of its first
   character; after it the cursor is on the same line, |lexeme| columns
   further, and no error is reported.
   */
  lemma {:induction false} MatchedTokenStep(src: string, st: ScanState)
    requires st.cur.pos < |src| && !IsSpace(src[st.cur.pos]) && Consistent(src, st.cur)
    requires Match(src, st.cur.pos).Some?
    ensures var l := Match(src, st.cur.pos).value;
            var r := ScanOne(src, st);
            && r.tokens == st.tokens + [Token(l.kind, l.lexeme, LineAt(src, st.cur.pos), ColAt(src, st.cur.pos))]
            && r.errors == st.errors
            && r.cur.pos == st.cur.pos + |l.lexeme|
            && r.cur.line == st.cur.line
            && r.cur.col == st.cur.col + |l.lexeme|
  {
    var l := Match(src, st.cur.pos).value;
    AdvanceWithinLine(src, st.cur, l.length);
  }

  /**
   Recovery when no token starts at the cursor: exactly one error at the
   cursor's line and column and no token. A letter-led run is skipped as a
   whole, so the next iteration starts after it; any other character is
   skipped alone.
   */
  lemma {:induction false} RecoveryStep(src: string, st: ScanState)
    requires st.cur.pos < |src| && !IsSpace(src[st.cur.pos]) && Consistent(src, st.cur)
    requires Match(src, st.cur.pos).None?
    ensures var r := ScanOne(src, st);
            var p := st.cur.pos;
            && r.tokens == st.tokens && r.symtab == st.symtab
            && |r.errors| == |st.errors| + 1
            && r.errors[|st.errors|].line == LineAt(src, p)
            && r.errors[|st.errors|].col == ColAt(src, p)
            && (IsLetter(src[p]) ==>
                  && (forall k :: p <= k < r.cur.pos ==> IsAlnum(src[k]))
                  && (r.cur.pos == |src| || !IsAlnum(src[r.cur.pos]))
                  && r.errors[|st.errors|].problem == InvalidIdentifier(src[p..r.cur.pos]))
            && (!IsLetter(src[p]) ==>
                  && r.cur.pos == p + 1
                  && r.errors[|st.errors|].problem == IllegalCharacter(src[p]))
  {
    if IsLetter(src[st.cur.pos]) {
      RecoveryLetter(src, st);
      LetterRun(src, st.cur.pos);
    } else {
      RecoveryOther(src, st);
    }
  }

  /** The letter/digit run skipped at a letter is maximal and starts at that letter. */
  lemma {:induction false} LetterRun(src: string, p: nat)
    requires p < |src| && IsLetter(src[p])
    ensures var j := AlnumEnd(src, p + 1);
            && (forall k :: p <= k < j ==> IsAlnum(src[k]))
            && (j == |src| || !IsAlnum(src[j]))
  {
    var j := AlnumEnd(src, p + 1);
    forall k | p <= k < j
      ensures IsAlnum(src[k])
    {
      if k == p {
        assert IsLetter(src[k]);
      }
    }
  }

  /** Recovery at a letter: the whole letter/digit run is reported and skipped. */
  lemma {:induction false} RecoveryLetter(src: string, st: ScanState)
    requires st.cur.pos < |src| && !IsSpace(src[st.cur.pos]) && Consistent(src, st.cur)
    requires Match(src, st.cur.pos).None? && IsLetter(src[st.cur.pos])
    ensures var r := ScanOne(src, st);
            var p := st.cur.pos;
            && r.tokens == st.tokens && r.symtab == st.symtab
            && p < r.cur.pos == AlnumEnd(src, p + 1)
            && r.errors == st.errors + [Diag(LineAt(src, p), ColAt(src, p), InvalidIdentifier(src[p..r.cur.pos]))]
  {
  }

  /** Recovery at any other character: that character alone is reported and skipped. */
  lemma {:induction false} RecoveryOther(src: string, st: ScanState)
    requires st.cur.pos < |src| && !IsSpace(src[st.cur.pos]) && Consistent(src, st.cur)
    requires Match(src, st.cur.pos).None? && !IsLetter(src[st.cur.pos])
    ensures var r := ScanOne(src, st);
            var p := st.cur.pos;
            && r.tokens == st.tokens && r.symtab == st.symtab
            && r.cur.pos == p + 1
            && r.errors == st.errors + [Diag(LineAt(src, p), ColAt(src, p), IllegalCharacter(src[p]))]
  {
  }
}
