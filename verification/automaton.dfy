/**
 The lexical automaton: a pure function from a source text and a position
 to the token that starts there, if any. It never moves a cursor of its
 own; the scanner advances by the returned length.
 */
module Automaton {
  import opened Wrappers
  import opened Chars
  import opened Tokens

  /** A match: the token kind, its exact source text and its length. */
  datatype Lexed = Lexed(kind: Kind, lexeme: string, length: nat)

  /** End of the maximal run of letters and digits starting at `i`. */
  function AlnumEnd(src: string, i: nat): (j: nat)
    requires i <= |src|
    ensures i <= j <= |src|
    ensures forall k :: i <= k < j ==> IsAlnum(src[k])
    ensures j == |src| || !IsAlnum(src[j])
    decreases |src| - i
  {
    if i < |src| && IsAlnum(src[i]) then AlnumEnd(src, i + 1) else i
  }

  /** End of the maximal run of digits starting at `i`. */
  function DigitEnd(src: string, i: nat): (j: nat)
    requires i <= |src|
    ensures i <= j <= |src|
    ensures forall k :: i <= k < j ==> IsDigit(src[k])
    ensures j == |src| || !IsDigit(src[j])
    decreases |src| - i
  {
    if i < |src| && IsDigit(src[i]) then DigitEnd(src, i + 1) else i
  }

  /** The shared guarantee of every match: an exact, non-empty, newline-free source slice. */
  predicate IsSlice(src: string, pos: nat, l: Lexed) {
    && 1 <= l.length
    && pos + l.length <= |src|
    && l.lexeme == src[pos..pos + l.length]
    && l.kind != Eof
    && NoNewline(l.lexeme)
  }

  /** Letter-led rule: keyword (case-insensitive) or letter-digit identifier. */
  function MatchWord(src: string, pos: nat): (r: Option<Lexed>)
    requires pos < |src| && IsLetter(src[pos])
    ensures r.Some? ==> IsSlice(src, pos, r.value)
  {
    var i := AlnumEnd(src, pos + 1);
    var raw := src[pos..i];
    var low := Lower(raw);
    if low in Keywords then Some(Lexed(Keywords[low], raw, i - pos))
    else if |raw| >= 2 && IsDigit(raw[1]) then Some(Lexed(Id, raw, i - pos))
    else None
  }

  /** Digit-led rule: a real when '.' and a digit follow the digit run, else an integer. */
  function MatchNumber(src: string, pos: nat): (r: Lexed)
    requires pos < |src| && IsDigit(src[pos])
    ensures IsSlice(src, pos, r)
  {
    var i := DigitEnd(src, pos);
    if i < |src| && src[i] == '.' && i + 1 < |src| && IsDigit(src[i + 1]) then
      var j := DigitEnd(src, i + 1);
      Lexed(NombreReel, src[pos..j], j - pos)
    else
      Lexed(NombreEntier, src[pos..i], i - pos)
  }

  /** Operator and punctuation rules, two-character operators first. */
  function MatchSymbol(src: string, pos: nat): (r: Option<Lexed>)
    requires pos < |src|
    ensures r.Some? ==> IsSlice(src, pos, r.value)
  {
    var ch := src[pos];
    if pos + 1 < |src| && src[pos..pos + 2] in MultiOperators then
      Some(Lexed(MultiOperators[src[pos..pos + 2]], src[pos..pos + 2], 2))
    else if ch in Punctuation then
      Some(Lexed(Punctuation[ch], [ch], 1))
    else if ch in SingleOperators then
      Some(Lexed(SingleOperators[ch], [ch], 1))
    else
      None
  }

  /**
   The token starting at `pos`. Rules, in order: a letter-led run of
   letters and digits is a keyword (looked up in lower case, original text
   kept) or, when its second character is a digit, an identifier; a digit
   run is an integer, or a real when a '.' and a digit follow; then a
   two-character operator; then punctuation; then a one-character operator.
   */
  function Match(src: string, pos: nat): (r: Option<Lexed>)
    ensures pos >= |src| ==> r == None
    ensures r.Some? ==> IsSlice(src, pos, r.value)
  {
    if pos >= |src| then None
    else if IsLetter(src[pos]) then MatchWord(src, pos)
    else if IsDigit(src[pos]) then Some(MatchNumber(src, pos))
    else MatchSymbol(src, pos)
  }
}
