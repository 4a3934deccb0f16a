/**
 Token kinds and the four fixed lookup tables of the lexical automaton
 (keywords, punctuation, one-character and two-character operators), and
 the scanner's token record.
 */
module Tokens {

  datatype Kind =
    // keywords
    | Programme | Constante | Variable | Entier | Reel | Debut | Fin
    | Si | Alors | Sinon | Tantque | Faire | Repeter | Jusqua
    | Pour | Allant | De | A | Pas | Ou | Et | DivKeyword | ModKeyword
    // identifiers and numbers
    | Id | NombreEntier | NombreReel
    // punctuation
    | PointVirgule | Virgule | DeuxPoints | Point | ParentOuv | ParentFerm
    // operators
    | Plus | Moins | Fois | Division | Inf | Sup | Egal
    | Affectation | InfEgal | SupEgal | Diff
    // end of input
    | Eof

  /** A scanned token: kind, exact source text, 1-based line and column. */
  datatype Token = Token(kind: Kind, lexeme: string, line: nat, col: nat)

  const Keywords: map<string, Kind> := map[
    "programme" := Programme, "constante" := Constante, "variable" := Variable,
    "entier" := Entier, "reel" := Reel, "debut" := Debut, "fin" := Fin,
    "si" := Si, "alors" := Alors, "sinon" := Sinon, "tantque" := Tantque,
    "faire" := Faire, "repeter" := Repeter, "jusqua" := Jusqua, "pour" := Pour,
    "allant" := Allant, "de" := De, "a" := A, "pas" := Pas, "ou" := Ou,
    "et" := Et, "div" := DivKeyword, "mod" := ModKeyword
  ]

  const Punctuation: map<char, Kind> := map[
    ';' := PointVirgule, ',' := Virgule, ':' := DeuxPoints,
    '.' := Point, '(' := ParentOuv, ')' := ParentFerm
  ]

  const SingleOperators: map<char, Kind> := map[
    '+' := Plus, '-' := Moins, '*' := Fois, '/' := Division,
    '<' := Inf, '>' := Sup, '=' := Egal
  ]

  const MultiOperators: map<string, Kind> := map[
    ":=" := Affectation, "<=" := InfEgal, ">=" := SupEgal, "<>" := Diff
  ]

  predicate IsKeywordKind(k: Kind) {
    k in Keywords.Values
  }

  /** The type name the scanner writes for each kind (the `type` field). */
  function KindName(k: Kind): string {
    match k
    case Programme => "PROGRAMME"
    case Constante => "CONSTANTE"
    case Variable => "VARIABLE"
    case Entier => "ENTIER"
    case Reel => "REEL"
    case Debut => "DEBUT"
    case Fin => "FIN"
    case Si => "SI"
    case Alors => "ALORS"
    case Sinon => "SINON"
    case Tantque => "TANTQUE"
    case Faire => "FAIRE"
    case Repeter => "REPETER"
    case Jusqua => "JUSQUA"
    case Pour => "POUR"
    case Allant => "ALLANT"
    case De => "DE"
    case A => "A"
    case Pas => "PAS"
    case Ou => "OU"
    case Et => "ET"
    case DivKeyword => "DIV_KEYWORD"
    case ModKeyword => "MOD_KEYWORD"
    case Id => "ID"
    case NombreEntier => "NOMBRE_ENTIER"
    case NombreReel => "NOMBRE_REEL"
    case PointVirgule => "POINT_VIRGULE"
    case Virgule => "VIRGULE"
    case DeuxPoints => "DEUX_POINTS"
    case Point => "POINT"
    case ParentOuv => "PARENT_OUV"
    case ParentFerm => "PARENT_FERM"
    case Plus => "PLUS"
    case Moins => "MOINS"
    case Fois => "FOIS"
    case Division => "DIVISION"
    case Inf => "INF"
    case Sup => "SUP"
    case Egal => "EGAL"
    case Affectation => "AFFECTATION"
    case InfEgal => "INFEGAL"
    case SupEgal => "SUPEGAL"
    case Diff => "DIFF"
    case Eof => "EOF"
  }

  /**
   The type names the parser tests for are written for exactly the kinds
   they stand for.
   */
  lemma {:induction false} KindNameClasses(k: Kind)
    ensures KindName(k) == "EOF" <==> k == Eof
    ensures KindName(k) == "ID" <==> k == Id
    ensures KindName(k) in {"NOMBRE_ENTIER", "NOMBRE_REEL", "NOMBRE"} <==> k == NombreEntier || k == NombreReel
  {
    // one kind at a time, so that each name is compared as a literal
    match k
    case Programme => case Constante => case Variable => case Entier => case Reel => case Debut => case Fin =>
    case Si => case Alors => case Sinon => case Tantque => case Faire => case Repeter => case Jusqua =>
    case Pour => case Allant => case De => case A => case Pas => case Ou => case Et => case DivKeyword => case ModKeyword =>
    case Id => case NombreEntier => case NombreReel =>
    case PointVirgule => case Virgule => case DeuxPoints => case Point => case ParentOuv => case ParentFerm =>
    case Plus => case Moins => case Fois => case Division => case Inf => case Sup => case Egal =>
    case Affectation => case InfEgal => case SupEgal => case Diff =>
    case Eof =>
  }
}
