/**
 The hand-off from the command-line scanner to the parser: the parser
 reads the scanner's tokens as (type, lexeme, line) entries, converts
 each to its own token classes and makes sure the list ends with an
 end-of-input token. The file in between is not modelled; the entries are
 taken as the scanner produced them.
 */
module Pipeline {
  import opened Wrappers
  import opened Chars
  import opened Tokens
  import opened Automaton
  import LexSpec
  import CliScanner
  import Scanner
  import Parser

  /** One entry of the token list the parser loads: type name, lexeme, line. */
  datatype Entry = Entry(typ: string, lexeme: string, line: int)

  /** The parser's end-of-input sentinel, added when the list does not already end with one. */
  const Sentinel: Parser.PToken := Parser.PToken(Parser.EndOfInput, "EOF", 0)

  function ConvertAll(es: seq<Entry>): (ts: seq<Parser.PToken>)
    ensures |ts| == |es|
    ensures forall i :: 0 <= i < |es| ==> ts[i] == Parser.Convert(es[i].typ, es[i].lexeme, es[i].line)
  {
    seq(|es|, i requires 0 <= i < |es| => Parser.Convert(es[i].typ, es[i].lexeme, es[i].line))
  }

  /**
   `load_tokens` after reading: convert every entry, then append the
   sentinel unless the converted list already ends with an end-of-input
   token. Whatever the entries, the result is a list the parser accepts.
   */
  function LoadTokens(es: seq<Entry>): (ts: seq<Parser.PToken>)
    ensures Parser.Valid(ts)
    ensures |es| <= |ts|
    ensures ts[..|es|] == ConvertAll(es)
    ensures |ts| == |es| <==> es != [] && es[|es| - 1].typ == "EOF"
    ensures |ts| != |es| ==> ts == ConvertAll(es) + [Sentinel]
  {
    var cs := ConvertAll(es);
    if cs == [] || cs[|cs| - 1].typ != Parser.EndOfInput then
      assert (cs + [Sentinel])[..|es|] == cs;
      cs + [Sentinel]
    else cs
  }

  /** What the command-line scanner hands over: its type name, lexeme and line. */
  function Entries(cs: seq<CliScanner.CliToken>): (es: seq<Entry>)
    ensures |es| == |cs|
    ensures forall i :: 0 <= i < |cs| ==> es[i] == Entry(cs[i].typ, cs[i].lexeme, cs[i].line as int)
  {
    seq(|cs|, i requires 0 <= i < |cs| => Entry(cs[i].typ, cs[i].lexeme, cs[i].line as int))
  }

  /** Scan the text, then parse the tokens the scanner produced. */
  function Analyse(src: string): (r: Parser.ParseResult)
    ensures r.rules != [] && r.rules[0] == Parser.RProgrammePascal
    ensures r.success <==> r.errors == []
  {
    Parser.Parse(LoadTokens(Entries(CliScanner.Tokenize(src).tokens)))
  }

  /**
   The scanner's token list already ends with its EOF token, so the parser
   adds no sentinel: it reads exactly one token per scanned token, and the
   last one is its end-of-input token.
   */
  lemma {:induction false} ScannedTokensNeedNoSentinel(src: string)
    ensures var cs := CliScanner.Tokenize(src).tokens;
            var ts := LoadTokens(Entries(cs));
            && ts == ConvertAll(Entries(cs))
            && ts[|ts| - 1] == Parser.PToken(Parser.EndOfInput, "EOF", cs[|cs| - 1].line as int)
  {
  }

  // ---------------------------------------------------------------------
  // Token classes across the hand-off

  /** The parser class each scanner kind should land in. */
  function ClassOf(k: Kind): Parser.PType {
    match k
    case Id => Parser.Ident
    case NombreEntier | NombreReel => Parser.Nombre
    case Eof => Parser.EndOfInput
    case Programme | Constante | Variable | Entier | Reel | Debut | Fin
       | Si | Alors | Sinon | Tantque | Faire | Repeter | Jusqua
       | Pour | Allant | De | A | Pas | Ou | Et | DivKeyword | ModKeyword => Parser.Keyword
    case _ => Parser.Symbole
  }

  /** The spelling a keyword kind is written with, for the kinds that have one. */
  function KeywordSpelling(k: Kind): Option<string> {
    match k
    case Programme => Some("programme")
    case Constante => Some("constante")
    case Variable => Some("variable")
    case Entier => Some("entier")
    case Reel => Some("reel")
    case Debut => Some("debut")
    case Fin => Some("fin")
    case Si => Some("si")
    case Alors => Some("alors")
    case Sinon => Some("sinon")
    case Tantque => Some("tantque")
    case Faire => Some("faire")
    case Repeter => Some("repeter")
    case Jusqua => Some("jusqua")
    case Pour => Some("pour")
    case Allant => Some("allant")
    case De => Some("de")
    case A => Some("a")
    case Pas => Some("pas")
    case Ou => Some("ou")
    case Et => Some("et")
    case DivKeyword => Some("div")
    case ModKeyword => Some("mod")
    case _ => None
  }

  /** The keyword table maps each spelling to a keyword kind spelled that way, and each begins with a letter. */
  lemma {:induction false} KeywordTable(w: string)
    requires w in Keywords
    ensures ClassOf(Keywords[w]) == Parser.Keyword
    ensures KeywordSpelling(Keywords[w]) == Some(w)
    ensures |w| > 0 && IsLetter(w[0])
  {
  }

  /** Every kind of the symbol tables is a symbol kind. */
  lemma {:induction false} SymbolTables(l: Lexed)
    ensures l.lexeme in MultiOperators ==> ClassOf(MultiOperators[l.lexeme]) == Parser.Symbole
    ensures |l.lexeme| == 1 && l.lexeme[0] in Punctuation ==> ClassOf(Punctuation[l.lexeme[0]]) == Parser.Symbole
    ensures |l.lexeme| == 1 && l.lexeme[0] in SingleOperators ==> ClassOf(SingleOperators[l.lexeme[0]]) == Parser.Symbole
  {
  }

  /** The type names of the keyword and symbol kinds are none of the names the conversion treats specially. */
  lemma {:induction false} PlainKindName(k: Kind)
    requires ClassOf(k) == Parser.Keyword || ClassOf(k) == Parser.Symbole
    ensures KindName(k) !in {"ID", "NOMBRE_ENTIER", "NOMBRE_REEL", "NOMBRE", "EOF"}
  {
    KindNameClasses(k);
  }

  /** A word converts to a keyword when its kind came from the keyword table, and to an identifier otherwise. */
  lemma {:induction false} WordClass(l: Lexed, line: int)
    requires if Lower(l.lexeme) in Keywords then l.kind == Keywords[Lower(l.lexeme)] else l.kind == Id
    ensures var t := Parser.Convert(KindName(l.kind), l.lexeme, line);
            t.typ == ClassOf(l.kind) && t.lexeme == l.lexeme && t.line == line
  {
    var lw := Lower(l.lexeme);
    if lw in Keywords {
      Parser.ParserKeywordsAreScannerKeywords();
      KeywordTable(lw);
      PlainKindName(l.kind);
    }
  }

  /** An operator or punctuation token converts to a symbol. */
  lemma {:induction false} SymbolClass(l: Lexed, line: int)
    requires || (l.lexeme in MultiOperators && l.kind == MultiOperators[l.lexeme])
             || (&& |l.lexeme| == 1
                 && ((l.lexeme[0] in Punctuation && l.kind == Punctuation[l.lexeme[0]])
                     || (l.lexeme[0] in SingleOperators && l.kind == SingleOperators[l.lexeme[0]])))
    ensures var t := Parser.Convert(KindName(l.kind), l.lexeme, line);
            t.typ == ClassOf(l.kind) && t.lexeme == l.lexeme && t.line == line
  {
    SymbolTables(l);
    PlainKindName(l.kind);
    if l.lexeme in MultiOperators {
      LexSpec.MultiOperatorStart(l.lexeme);
    } else {
      LexSpec.SymbolTablesDisjointFromAlnum(l.lexeme[0]);
    }
    var lw := Lower(l.lexeme);
    if lw in Keywords {
      KeywordTable(lw);
      assert false;
    }
    Parser.ParserKeywordsAreScannerKeywords();
  }

  /**
   A token the automaton matches keeps its lexeme and line across the
   hand-off and lands in the class of its kind: keywords (in any case) as
   keywords, identifiers as identifiers, numbers as numbers, and operators
   and punctuation as symbols.
   */
  lemma {:induction false} ConvertedClass(src: string, p: nat, l: Lexed, line: int)
    requires Match(src, p) == Some(l)
    ensures var t := Parser.Convert(KindName(l.kind), l.lexeme, line);
            t.typ == ClassOf(l.kind) && t.lexeme == l.lexeme && t.line == line
  {
    LexSpec.MatchSound(src, p);
    if LexSpec.WordToken(src, p, l) {
      WordClass(l, line);
    } else if LexSpec.NumberToken(src, p, l) {
    } else {
      SymbolClass(l, line);
    }
  }

  /** A matched token of a keyword kind is a word whose lower-case spelling is in the keyword table. */
  lemma {:induction false} KeywordKindFromWord(src: string, p: nat, l: Lexed)
    requires Match(src, p) == Some(l) && ClassOf(l.kind) == Parser.Keyword
    ensures Lower(l.lexeme) in Keywords && l.kind == Keywords[Lower(l.lexeme)]
  {
    LexSpec.MatchSound(src, p);
    if LexSpec.WordToken(src, p, l) {
    } else if LexSpec.NumberToken(src, p, l) {
      assert false;
    } else {
      SymbolTables(l);
      assert false;
    }
  }

  lemma {:induction false} SpelledKindsAreKeywords(k: Kind)
    ensures KeywordSpelling(k).Some? <==> ClassOf(k) == Parser.Keyword
  {
  }

  /**
   The parser's keyword test on a converted token holds exactly for the
   tokens the automaton gave that keyword's kind: a keyword is recognised
   the same way on both sides of the hand-off.
   */
  lemma {:induction false} KeywordRecognisedByKind(src: string, p: nat, l: Lexed, line: int, w: string)
    requires Match(src, p) == Some(l)
    ensures Parser.KwTok(Parser.Convert(KindName(l.kind), l.lexeme, line), w) <==>
              KeywordSpelling(l.kind) == Some(w)
  {
    ConvertedClass(src, p, l, line);
    Parser.SpelledAsLower(l.lexeme, w);
    SpelledKindsAreKeywords(l.kind);
    if ClassOf(l.kind) == Parser.Keyword {
      KeywordKindFromWord(src, p, l);
      KeywordTable(Lower(l.lexeme));
    }
  }

  /**
   A rendered token list that ends with the end-of-input token is loaded one
   converted token per scanned token.
   */
  lemma {:induction false} LoadedRendered(cs: seq<CliScanner.CliToken>, b: seq<Token>, i: nat)
    requires |cs| == |b| && forall j :: 0 <= j < |cs| ==> cs[j] == CliScanner.Render(b[j])
    requires i < |b| && b[|b| - 1].kind == Eof
    ensures var ts := LoadTokens(Entries(cs));
            |ts| == |b| && ts[i] == Parser.Convert(KindName(b[i].kind), b[i].lexeme, b[i].line as int)
  {
    var es := Entries(cs);
    assert cs[|cs| - 1] == CliScanner.Render(b[|b| - 1]);
    assert es[|es| - 1].typ == "EOF";
    assert cs[i] == CliScanner.Render(b[i]);
    assert LoadTokens(es)[..|es|][i] == ConvertAll(es)[i];
  }

  /** A token the back-end scanner matched in the text keeps its class, lexeme and line once converted under its kind's name. */
  lemma {:induction false} MatchedTokenClass(src: string, t: Token)
    requires Scanner.TokenInSource(src, t)
    ensures var u := Parser.Convert(KindName(t.kind), t.lexeme, t.line as int);
            u.typ == ClassOf(t.kind) && u.lexeme == t.lexeme && u.line == t.line as int
  {
    var p: nat :| Scanner.TokenStartsAt(src, p, t);
    ConvertedClass(src, p, Lexed(t.kind, t.lexeme, |t.lexeme|), t.line as int);
  }

  /** A token of the back-end list, converted under its kind's name: matched tokens keep their lexeme, the final one reads "EOF". */
  lemma {:induction false} ConvertedScannedToken(src: string, b: seq<Token>, i: nat)
    requires i < |b| && b[|b| - 1].kind == Eof && (i < |b| - 1 ==> Scanner.TokenInSource(src, b[i]))
    ensures var u := Parser.Convert(KindName(b[i].kind), b[i].lexeme, b[i].line as int);
            && u.typ == ClassOf(b[i].kind) && u.lexeme == (if i == |b| - 1 then "EOF" else b[i].lexeme)
            && u.line == b[i].line as int
  {
    if i < |b| - 1 {
      MatchedTokenClass(src, b[i]);
    } else {
      assert KindName(Eof) == "EOF";
    }
  }

  /** One scanned token across the hand-off. */
  lemma {:induction false} ScannedTokenClass(src: string, i: nat)
    requires i < |Scanner.Tokenize(src).tokens|
    ensures var b := Scanner.Tokenize(src).tokens;
            var ts := LoadTokens(Entries(CliScanner.Tokenize(src).tokens));
            && i < |ts|
            && ts[i].typ == ClassOf(b[i].kind) && ts[i].lexeme == (if i == |b| - 1 then "EOF" else b[i].lexeme)
            && ts[i].line == b[i].line as int
  {
    var b := Scanner.Tokenize(src).tokens;
    CliScanner.TokenizeAgrees(src);
    LoadedRendered(CliScanner.Tokenize(src).tokens, b, i);
    Scanner.TokenizeSound(src);
    ConvertedScannedToken(src, b, i);
  }

  /**
   Every token the command-line scanner produces reaches the parser with
   its lexeme and line and in the class of its kind; the last one is the
   end-of-input token.
   */
  lemma {:induction false} ScannedTokenClasses(src: string)
    ensures var b := Scanner.Tokenize(src).tokens;
            var ts := LoadTokens(Entries(CliScanner.Tokenize(src).tokens));
            && |ts| == |b|
            && forall i :: 0 <= i < |b| ==>
                 ts[i].typ == ClassOf(b[i].kind) && ts[i].lexeme == (if i == |b| - 1 then "EOF" else b[i].lexeme)
                 && ts[i].line == b[i].line as int
  {
    CliScanner.TokenizeAgrees(src);
    forall i | 0 <= i < |Scanner.Tokenize(src).tokens|
      ensures var b := Scanner.Tokenize(src).tokens;
              var ts := LoadTokens(Entries(CliScanner.Tokenize(src).tokens));
              ts[i].typ == ClassOf(b[i].kind) && ts[i].lexeme == (if i == |b| - 1 then "EOF" else b[i].lexeme)
              && ts[i].line == b[i].line as int
    {
      ScannedTokenClass(src, i);
    }
  }
}
