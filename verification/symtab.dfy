/**
 The identifier symbol table built while scanning: for every identifier
 lexeme (case-sensitive), the line and column of its first occurrence and
 the number of its occurrences.
 */
module SymbolTable {
  import opened Tokens

  datatype SymbolInfo = SymbolInfo(firstLine: nat, firstCol: nat, occurrences: nat)

  type Table = map<string, SymbolInfo>

  predicate IsIdOf(t: Token, k: string) {
    t.kind == Id && t.lexeme == k
  }

  /** Number of identifier tokens spelled `k`. */
  function IdCount(ts: seq<Token>, k: string): nat {
    if ts == [] then 0 else (if IsIdOf(ts[0], k) then 1 else 0) + IdCount(ts[1..], k)
  }

  /** Index of the first identifier token spelled `k`. */
  function FirstId(ts: seq<Token>, k: string): (i: nat)
    requires IdCount(ts, k) > 0
    ensures i < |ts| && IsIdOf(ts[i], k)
    ensures forall j :: 0 <= j < i ==> !IsIdOf(ts[j], k)
  {
    if IsIdOf(ts[0], k) then 0 else 1 + FirstId(ts[1..], k)
  }

  /**
   `tab` is the symbol table of the tokens `ts`: it has an entry exactly for
   the identifier lexemes of `ts`, counting their occurrences and holding
   the position of the first one.
   */
  ghost predicate Describes(tab: Table, ts: seq<Token>) {
    && (forall k :: k in tab <==> IdCount(ts, k) > 0)
    && (forall k | k in tab ::
          && tab[k].occurrences == IdCount(ts, k)
          && tab[k].firstLine == ts[FirstId(ts, k)].line
          && tab[k].firstCol == ts[FirstId(ts, k)].col)
  }

  /** `_record_symbol`: create the entry on the first sighting of an identifier, count the others. */
  function Record(tab: Table, t: Token): (r: Table)
    ensures r.Keys == if t.kind == Id then tab.Keys + {t.lexeme} else tab.Keys
    ensures forall k | k in tab :: r[k].firstLine == tab[k].firstLine && r[k].firstCol == tab[k].firstCol
    ensures forall k | k in tab && !IsIdOf(t, k) :: r[k] == tab[k]
    ensures t.kind == Id && t.lexeme in tab ==> r[t.lexeme].occurrences == tab[t.lexeme].occurrences + 1
    ensures t.kind == Id && t.lexeme !in tab ==> r[t.lexeme] == SymbolInfo(t.line, t.col, 1)
  {
    if t.kind == Id then
      if t.lexeme !in tab then tab[t.lexeme := SymbolInfo(t.line, t.col, 1)]
      else tab[t.lexeme := tab[t.lexeme].(occurrences := tab[t.lexeme].occurrences + 1)]
    else tab
  }

  lemma {:induction false} IdCountAppend(ts: seq<Token>, t: Token, k: string)
    ensures IdCount(ts + [t], k) == IdCount(ts, k) + (if IsIdOf(t, k) then 1 else 0)
  {
    if ts != [] {
      assert (ts + [t])[1..] == ts[1..] + [t];
      IdCountAppend(ts[1..], t, k);
    }
  }

  lemma {:induction false} FirstIdAppend(ts: seq<Token>, t: Token, k: string)
    requires IdCount(ts + [t], k) > 0
    ensures IdCount(ts, k) > 0 ==> FirstId(ts + [t], k) == FirstId(ts, k)
    ensures IdCount(ts, k) == 0 ==> FirstId(ts + [t], k) == |ts|
  {
    IdCountAppend(ts, t, k);
    if ts != [] {
      assert (ts + [t])[1..] == ts[1..] + [t];
      assert (ts + [t])[0] == ts[0];
      if !IsIdOf(ts[0], k) {
        IdCountAppend(ts[1..], t, k);
        FirstIdAppend(ts[1..], t, k);
      }
    }
  }

  lemma {:induction false} EmptyDescribesNoTokens()
    ensures Describes(map[], [])
  {
  }

  /** Recording a token keeps the table describing the extended token list. */
  lemma {:induction false} RecordKeepsDescription(tab: Table, ts: seq<Token>, t: Token)
    ensures Describes(tab, ts) ==> Describes(Record(tab, t), ts + [t])
  {
    if Describes(tab, ts) {
      var r := Record(tab, t);
      forall k
        ensures k in r <==> IdCount(ts + [t], k) > 0
      {
        IdCountAppend(ts, t, k);
      }
      forall k | k in r
        ensures r[k].occurrences == IdCount(ts + [t], k)
        ensures r[k].firstLine == (ts + [t])[FirstId(ts + [t], k)].line
        ensures r[k].firstCol == (ts + [t])[FirstId(ts + [t], k)].col
      {
        IdCountAppend(ts, t, k);
        FirstIdAppend(ts, t, k);
      }
    }
  }
}
