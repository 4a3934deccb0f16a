/**
 A declarative description of the tokens of the language, independent of
 the way `Automaton.Match` scans for them, and the theorems that the
 automaton accepts exactly these tokens (sound and complete), together
 with the individual tokenisation rules the scanner relies on.
 */
module LexSpec {
  import opened Wrappers
  import opened Chars
  import opened Tokens
  import opened Automaton

  /** `src[pos..pos+n]` is a letter-led run of letters and digits that cannot be extended. */
  predicate WordAt(src: string, pos: nat, n: nat) {
    && 1 <= n && pos + n <= |src|
    && IsLetter(src[pos])
    && AllAlnum(src[pos..pos + n])
    && (pos + n == |src| || !IsAlnum(src[pos + n]))
  }

  /** A valid identifier: a letter, a digit, then any letters and digits. */
  predicate IdentifierShape(w: string) {
    |w| >= 2 && IsLetter(w[0]) && IsDigit(w[1]) && AllAlnum(w)
  }

  /** A '.' at `i` followed by a digit: the fraction of a real number. */
  predicate FractionAt(src: string, i: nat) {
    i + 1 < |src| && src[i] == '.' && IsDigit(src[i + 1])
  }

  predicate DigitsEndAt(src: string, i: nat) {
    i == |src| || (i < |src| && !IsDigit(src[i]))
  }

  /** `src[pos..pos+n]` is a maximal digit run not followed by a fraction. */
  predicate IntegerAt(src: string, pos: nat, n: nat) {
    && 1 <= n && pos + n <= |src|
    && AllDigits(src[pos..pos + n])
    && DigitsEndAt(src, pos + n)
    && !FractionAt(src, pos + n)
  }

  /** `w` is digits, '.', digits, with the '.' at index `d`. */
  predicate RealSplit(w: string, d: nat) {
    && 1 <= d && d + 1 < |w|
    && AllDigits(w[..d]) && w[d] == '.' && AllDigits(w[d + 1..])
  }

  /** `src[pos..pos+n]` is a real literal whose fractional digits cannot be extended. */
  predicate RealAt(src: string, pos: nat, n: nat) {
    && pos + n <= |src|
    && (exists d: nat {:trigger RealSplit(src[pos..pos + n], d)} | d < n :: RealSplit(src[pos..pos + n], d))
    && DigitsEndAt(src, pos + n)
  }

  predicate TwoCharOperatorAt(src: string, pos: nat) {
    pos + 1 < |src| && src[pos..pos + 2] in MultiOperators
  }

  predicate WordToken(src: string, pos: nat, l: Lexed) {
    && WordAt(src, pos, l.length)
    && (if Lower(l.lexeme) in Keywords then l.kind == Keywords[Lower(l.lexeme)]
        else l.kind == Id && IdentifierShape(l.lexeme))
  }

  predicate NumberToken(src: string, pos: nat, l: Lexed) {
    || (l.kind == NombreEntier && IntegerAt(src, pos, l.length))
    || (l.kind == NombreReel && RealAt(src, pos, l.length))
  }

  /** Operators and punctuation; a two-character operator always wins over its first character. */
  predicate SymbolToken(src: string, pos: nat, l: Lexed) {
    || (l.length == 2 && l.lexeme in MultiOperators && l.kind == MultiOperators[l.lexeme])
    || (&& l.length == 1 && |l.lexeme| == 1 && !TwoCharOperatorAt(src, pos)
        && ((l.lexeme[0] in Punctuation && l.kind == Punctuation[l.lexeme[0]])
            || (l.lexeme[0] in SingleOperators && l.kind == SingleOperators[l.lexeme[0]])))
  }

  /** `l` is a valid token of the language starting at `pos`. */
  predicate Accepts(src: string, pos: nat, l: Lexed) {
    && 1 <= l.length && pos + l.length <= |src|
    && l.lexeme == src[pos..pos + l.length]
    && (WordToken(src, pos, l) || NumberToken(src, pos, l) || SymbolToken(src, pos, l))
  }

  /** No token of the language starts at `pos`. */
  predicate NoTokenAt(src: string, pos: nat) {
    || pos >= |src|
    || (&& IsLetter(src[pos])
        && var w := src[pos..AlnumEnd(src, pos + 1)];
           Lower(w) !in Keywords && !IdentifierShape(w))
    || (&& !IsAlnum(src[pos]) && !TwoCharOperatorAt(src, pos)
        && src[pos] !in Punctuation && src[pos] !in SingleOperators)
  }

  // ---------------------------------------------------------------------
  // Uniqueness of maximal runs

  lemma {:induction false} AlnumEndUnique(src: string, i: nat, j: nat)
    requires i <= j <= |src|
    requires forall k :: i <= k < j ==> IsAlnum(src[k])
    requires j == |src| || !IsAlnum(src[j])
    ensures AlnumEnd(src, i) == j
  {
  }

  lemma {:induction false} DigitEndUnique(src: string, i: nat, j: nat)
    requires i <= j <= |src|
    requires forall k :: i <= k < j ==> IsDigit(src[k])
    requires j == |src| || !IsDigit(src[j])
    ensures DigitEnd(src, i) == j
  {
  }

  lemma {:induction false} DigitsOfSlice(src: string, a: nat, b: nat)
    requires a <= b <= |src|
    ensures AllDigits(src[a..b]) <==> forall k :: a <= k < b ==> IsDigit(src[k])
  {
    assert forall k :: a <= k < b ==> src[a..b][k - a] == src[k];
  }

  lemma {:induction false} SymbolTablesDisjointFromAlnum(c: char)
    ensures c in Punctuation ==> !IsAlnum(c) && c !in SingleOperators
    ensures c in SingleOperators ==> !IsAlnum(c)
  {
  }

  lemma {:induction false} MultiOperatorStart(w: string)
    requires w in MultiOperators
    ensures |w| == 2 && !IsAlnum(w[0])
  {
  }

  // ---------------------------------------------------------------------
  // Soundness and completeness of the automaton

  lemma {:induction false} MatchWordSound(src: string, pos: nat)
    requires pos < |src| && IsLetter(src[pos])
    ensures MatchWord(src, pos).Some? ==> Accepts(src, pos, MatchWord(src, pos).value)
    ensures MatchWord(src, pos).None? ==> NoTokenAt(src, pos)
  {
    var i := AlnumEnd(src, pos + 1);
    var raw := src[pos..i];
    var low := Lower(raw);
    assert AllAlnum(raw);
    assert WordAt(src, pos, i - pos);
    if low in Keywords {
      assert WordToken(src, pos, Lexed(Keywords[low], raw, i - pos));
    } else if |raw| >= 2 && IsDigit(raw[1]) {
      assert IdentifierShape(raw);
      assert WordToken(src, pos, Lexed(Id, raw, i - pos));
    }
  }

  lemma {:induction false} MatchNumberSound(src: string, pos: nat)
    requires pos < |src| && IsDigit(src[pos])
    ensures Accepts(src, pos, MatchNumber(src, pos))
  {
    var i := DigitEnd(src, pos);
    DigitsOfSlice(src, pos, i);
    if i < |src| && src[i] == '.' && i + 1 < |src| && IsDigit(src[i + 1]) {
      var j := DigitEnd(src, i + 1);
      DigitsOfSlice(src, i + 1, j);
      var w := src[pos..j];
      assert w[..i - pos] == src[pos..i];
      assert w[i - pos + 1..] == src[i + 1..j];
      assert RealSplit(w, i - pos);
      assert RealAt(src, pos, j - pos);
    } else {
      assert IntegerAt(src, pos, i - pos);
    }
  }

  lemma {:induction false} MatchSymbolSound(src: string, pos: nat)
    requires pos < |src| && !IsAlnum(src[pos])
    ensures MatchSymbol(src, pos).Some? ==> Accepts(src, pos, MatchSymbol(src, pos).value)
    ensures MatchSymbol(src, pos).None? ==> NoTokenAt(src, pos)
  {
  }

  /** Every match of the automaton is a valid token; no match means no token starts here. */
  lemma {:induction false} MatchSound(src: string, pos: nat)
    ensures Match(src, pos).Some? ==> Accepts(src, pos, Match(src, pos).value)
    ensures Match(src, pos).None? ==> NoTokenAt(src, pos)
  {
    if pos < |src| {
      if IsLetter(src[pos]) {
        MatchWordSound(src, pos);
      } else if IsDigit(src[pos]) {
        MatchNumberSound(src, pos);
      } else {
        MatchSymbolSound(src, pos);
      }
    }
  }

  lemma {:induction false} WordComplete(src: string, pos: nat, l: Lexed)
    requires Accepts(src, pos, l) && WordToken(src, pos, l)
    ensures Match(src, pos) == Some(l)
  {
    AlnumEndUnique(src, pos + 1, pos + l.length);
  }

  lemma {:induction false} IntegerComplete(src: string, pos: nat, l: Lexed)
    requires pos + l.length <= |src| && l.lexeme == src[pos..pos + l.length]
    requires l.kind == NombreEntier && IntegerAt(src, pos, l.length)
    ensures MatchNumber(src, pos) == l
  {
    DigitsOfSlice(src, pos, pos + l.length);
    DigitEndUnique(src, pos, pos + l.length);
  }

  lemma {:induction false} RealComplete(src: string, pos: nat, l: Lexed)
    requires pos + l.length <= |src| && l.lexeme == src[pos..pos + l.length]
    requires l.kind == NombreReel && RealAt(src, pos, l.length)
    ensures IsDigit(src[pos])
    ensures MatchNumber(src, pos) == l
  {
    var n := l.length;
    var d: nat :| d < n && RealSplit(src[pos..pos + n], d);
    RealRuns(src, pos, n, d);
  }

  /** The two digit runs of a real literal, as the automaton finds them. */
  lemma {:induction false} RealRuns(src: string, pos: nat, n: nat, d: nat)
    requires pos + n <= |src| && d < n && RealSplit(src[pos..pos + n], d) && DigitsEndAt(src, pos + n)
    ensures IsDigit(src[pos])
    ensures DigitEnd(src, pos) == pos + d && FractionAt(src, pos + d)
    ensures DigitEnd(src, pos + d + 1) == pos + n
  {
    var w := src[pos..pos + n];
    assert w[..d] == src[pos..pos + d];
    assert w[d + 1..] == src[pos + d + 1..pos + n];
    DigitsOfSlice(src, pos, pos + d);
    DigitsOfSlice(src, pos + d + 1, pos + n);
    assert src[pos + d] == w[d];
    DigitEndUnique(src, pos, pos + d);
    DigitEndUnique(src, pos + d + 1, pos + n);
  }

  lemma {:induction false} NumberComplete(src: string, pos: nat, l: Lexed)
    requires Accepts(src, pos, l) && NumberToken(src, pos, l)
    ensures Match(src, pos) == Some(l)
  {
    if l.kind == NombreEntier {
      IntegerComplete(src, pos, l);
    } else {
      RealComplete(src, pos, l);
    }
  }

  lemma {:induction false} SymbolComplete(src: string, pos: nat, l: Lexed)
    requires pos + l.length <= |src| && l.lexeme == src[pos..pos + l.length] && SymbolToken(src, pos, l)
    ensures Match(src, pos) == Some(l)
  {
    if l.length == 2 && l.lexeme in MultiOperators && l.kind == MultiOperators[l.lexeme] {
      MultiOperatorStart(l.lexeme);
    } else {
      assert src[pos] == l.lexeme[0];
      SymbolTablesDisjointFromAlnum(src[pos]);
      assert l.lexeme == [src[pos]];
    }
    assert Match(src, pos) == MatchSymbol(src, pos);
  }

  /** Every valid token is what the automaton returns, so the valid token at a position is unique. */
  lemma {:induction false} MatchComplete(src: string, pos: nat, l: Lexed)
    requires Accepts(src, pos, l)
    ensures Match(src, pos) == Some(l)
  {
    if WordToken(src, pos, l) {
      WordComplete(src, pos, l);
    } else if NumberToken(src, pos, l) {
      NumberComplete(src, pos, l);
    } else {
      SymbolComplete(src, pos, l);
    }
  }

  /** The automaton finds no token exactly where the language has none. */
  lemma {:induction false} MatchNoneIff(src: string, pos: nat)
    ensures Match(src, pos) == None <==> NoTokenAt(src, pos)
  {
    MatchSound(src, pos);
    if NoTokenAt(src, pos) && pos < |src| && IsLetter(src[pos]) {
      assert MatchWord(src, pos) == None;
    }
  }

  // ---------------------------------------------------------------------
  // The individual tokenisation rules

  /** Keywords are recognised whatever their case, and keep the source's spelling. */
  lemma {:induction false} KeywordAnyCase(src: string, pos: nat, n: nat)
    requires WordAt(src, pos, n)
    requires Lower(src[pos..pos + n]) in Keywords
    ensures Match(src, pos) == Some(Lexed(Keywords[Lower(src[pos..pos + n])], src[pos..pos + n], n))
  {
    MatchComplete(src, pos, Lexed(Keywords[Lower(src[pos..pos + n])], src[pos..pos + n], n));
  }

  /** A non-keyword word is an identifier exactly when its second character is a digit; otherwise nothing matches. */
  lemma {:induction false} IdentifierRule(src: string, pos: nat, n: nat)
    requires WordAt(src, pos, n)
    requires Lower(src[pos..pos + n]) !in Keywords
    ensures IdentifierShape(src[pos..pos + n]) ==> Match(src, pos) == Some(Lexed(Id, src[pos..pos + n], n))
    ensures !IdentifierShape(src[pos..pos + n]) ==> Match(src, pos) == None
  {
    AlnumEndUnique(src, pos + 1, pos + n);
    if IdentifierShape(src[pos..pos + n]) {
      MatchComplete(src, pos, Lexed(Id, src[pos..pos + n], n));
    }
  }

  /** A digit-led token is a real exactly when its digit run is followed by '.' and a digit. */
  lemma {:induction false} NumberRule(src: string, pos: nat)
    requires pos < |src| && IsDigit(src[pos])
    ensures Match(src, pos).Some?
    ensures Match(src, pos).value.kind == NombreReel <==> FractionAt(src, DigitEnd(src, pos))
    ensures Match(src, pos).value.kind == NombreEntier <==> !FractionAt(src, DigitEnd(src, pos))
    ensures !FractionAt(src, DigitEnd(src, pos)) ==> Match(src, pos).value.length == DigitEnd(src, pos) - pos
  {
    assert Match(src, pos) == Some(MatchNumber(src, pos));
  }

  /** `:=`, `<=`, `>=` and `<>` are never split into two tokens. */
  lemma {:induction false} TwoCharOperatorWins(src: string, pos: nat)
    requires TwoCharOperatorAt(src, pos)
    ensures Match(src, pos) == Some(Lexed(MultiOperators[src[pos..pos + 2]], src[pos..pos + 2], 2))
  {
    var w := src[pos..pos + 2];
    MatchComplete(src, pos, Lexed(MultiOperators[w], w, 2));
  }

  /** A letter-led match always covers the whole letter/digit run. */
  lemma {:induction false} WordIsMaximal(src: string, pos: nat)
    requires pos < |src| && IsLetter(src[pos]) && Match(src, pos).Some?
    ensures var n := Match(src, pos).value.length;
            pos + n == |src| || !IsAlnum(src[pos + n])
  {
    assert Match(src, pos) == MatchWord(src, pos);
    assert Match(src, pos).value.length == AlnumEnd(src, pos + 1) - pos;
  }

  // ---------------------------------------------------------------------
  // Worked instances

  lemma {:induction false} SiInAnyCase(w: string)
    requires w in ["SI", "si", "Si"]
    ensures Match(w, 0) == Some(Lexed(Si, w, 2))
  {
    assert |w| == 2 && w[0..2] == w;
    assert Lower(w)[0] == 's' && Lower(w)[1] == 'i';
    assert Lower(w) == "si";
    assert WordAt(w, 0, 2);
    KeywordAnyCase(w, 0, 2);
  }

  /** A letter followed by a digit is an identifier. */
  lemma {:induction false} IdentifierExample()
    ensures Match("a1", 0) == Some(Lexed(Id, "a1", 2))
  {
    var a1 := "a1";
    assert a1[0..2] == a1;
    assert Lower(a1)[0] == 'a' && Lower(a1)[1] == '1';
    assert Lower(a1) == "a1";
    assert WordAt(a1, 0, 2);
    IdentifierRule(a1, 0, 2);
  }

  /** Two letters that spell no keyword are not a token. */
  lemma {:induction false} NonIdentifierExample()
    ensures Match("ab", 0) == None
  {
    var ab := "ab";
    assert ab[0..2] == ab;
    assert Lower(ab)[0] == 'a' && Lower(ab)[1] == 'b';
    assert Lower(ab) == "ab";
    assert WordAt(ab, 0, 2);
    IdentifierRule(ab, 0, 2);
  }

  lemma {:induction false} IntegerBeforeDot()
    ensures Match("12.", 0) == Some(Lexed(NombreEntier, "12", 2))
  {
    var src := "12.";
    DigitEndUnique(src, 0, 2);
    assert !FractionAt(src, 2);
    assert src[0..2] == "12";
    assert MatchNumber(src, 0) == Lexed(NombreEntier, "12", 2);
  }

  lemma {:induction false} RealWithFraction()
    ensures Match("12.34", 0) == Some(Lexed(NombreReel, "12.34", 5))
  {
    var src := "12.34";
    DigitEndUnique(src, 0, 2);
    assert FractionAt(src, 2);
    DigitEndUnique(src, 3, 5);
    assert src[0..5] == src;
    assert MatchNumber(src, 0) == Lexed(NombreReel, "12.34", 5);
  }

  lemma {:induction false} AssignmentNotSplit()
    ensures Match(":=", 0) == Some(Lexed(Affectation, ":=", 2))
  {
    var src := ":=";
    assert src[0..2] == src;
    TwoCharOperatorWins(src, 0);
  }
}
