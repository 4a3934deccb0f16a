/**
 Line and column bookkeeping of the scanner. A cursor is a position in the
 source with the 1-based line and column of the character there; a
 newline starts the next line at column 1, every other character moves one
 column to the right. Both scanner variants use the same two primitives,
 `_advance` and `_skip_whitespace`.
 */
module Position {
  import opened Chars

  datatype Cursor = Cursor(pos: nat, line: nat, col: nat)

  function Min(a: nat, b: nat): nat {
    if a <= b then a else b
  }

  /** 1-based line of position `p`. */
  function LineAt(src: string, p: nat): nat
    requires p <= |src|
  {
    if p == 0 then 1 else LineAt(src, p - 1) + (if src[p - 1] == '\n' then 1 else 0)
  }

  /** 1-based column of position `p`. */
  function ColAt(src: string, p: nat): nat
    requires p <= |src|
  {
    if p == 0 then 1 else if src[p - 1] == '\n' then 1 else ColAt(src, p - 1) + 1
  }

  /** The cursor's line and column are those of its position. */
  predicate Consistent(src: string, c: Cursor) {
    c.pos <= |src| && c.line == LineAt(src, c.pos) && c.col == ColAt(src, c.pos)
  }

  function Start(): Cursor {
    Cursor(0, 1, 1)
  }

  /** The line of a position is one more than the newlines before it. */
  lemma {:induction false} LineCountsNewlines(src: string, p: nat)
    requires p <= |src|
    ensures LineAt(src, p) == 1 + multiset(src[..p])['\n']
  {
    if p > 0 {
      LineCountsNewlines(src, p - 1);
      assert src[..p] == src[..p - 1] + [src[p - 1]];
    }
  }

  /**
   The column of a position counts the characters since the last newline
   before it (or since the start of the text, when there is none).
   */
  lemma {:induction false} ColCountsFromLastNewline(src: string, p: nat, q: nat)
    requires q <= p <= |src|
    requires q == 0 || src[q - 1] == '\n'
    requires NoNewline(src[q..p])
    ensures ColAt(src, p) == p - q + 1
  {
    if p > q {
      assert src[q..p][p - 1 - q] == src[p - 1];
      assert src[q..p - 1] == src[q..p][..p - 1 - q];
      ColCountsFromLastNewline(src, p - 1, q);
    }
  }

  /** One iteration of `_advance`: consume one character. */
  function StepChar(src: string, c: Cursor): (r: Cursor)
    requires c.pos < |src|
    ensures r.pos == c.pos + 1
    ensures Consistent(src, c) ==> Consistent(src, r)
  {
    if src[c.pos] == '\n' then Cursor(c.pos + 1, c.line + 1, 1)
    else Cursor(c.pos + 1, c.line, c.col + 1)
  }

  /** `_advance(n)`: consume up to `n` characters, stopping at the end of the text. */
  function Advance(src: string, c: Cursor, n: nat): (r: Cursor)
    requires c.pos <= |src|
    ensures r.pos == Min(c.pos + n, |src|)
    ensures Consistent(src, c) ==> Consistent(src, r)
    decreases n
  {
    if n == 0 || c.pos >= |src| then c else Advance(src, StepChar(src, c), n - 1)
  }

  /** Advancing over text without a newline stays on the line and moves the column by the count. */
  lemma {:induction false} AdvanceWithinLine(src: string, c: Cursor, n: nat)
    requires c.pos + n <= |src|
    requires NoNewline(src[c.pos..c.pos + n])
    ensures Advance(src, c, n).line == c.line
    ensures Advance(src, c, n).col == c.col + n
    decreases n
  {
    if n > 0 {
      assert src[c.pos..c.pos + n][0] == src[c.pos];
      assert src[c.pos + 1..c.pos + n] == src[c.pos..c.pos + n][1..];
      AdvanceWithinLine(src, StepChar(src, c), n - 1);
    }
  }

  /**
   `_skip_whitespace`: consume the maximal run of white space; the flag
   says whether anything was consumed.
   */
  function SkipWhitespace(src: string, c: Cursor): (r: (Cursor, bool))
    requires c.pos <= |src|
    ensures c.pos <= r.0.pos <= |src|
    ensures r.1 <==> c.pos < |src| && IsSpace(src[c.pos])
    ensures r.1 <==> r.0.pos > c.pos
    ensures forall k :: c.pos <= k < r.0.pos ==> IsSpace(src[k])
    ensures r.0.pos == |src| || !IsSpace(src[r.0.pos])
    ensures Consistent(src, c) ==> Consistent(src, r.0)
    decreases |src| - c.pos
  {
    if c.pos < |src| && IsSpace(src[c.pos]) then
      (SkipWhitespace(src, Advance(src, c, 1)).0, true)
    else
      (c, false)
  }
}
