/**
 The structural checks the back end runs over a completed token list
 before reporting: program header, body delimiters, final '.', and the
 balance of the paired keywords si/alors and repeter/jusqua, each checked
 with its own stack. `ScanSource` is the whole back-end analysis.
 */
module Structure {
  import opened Tokens
  import opened Scanner
  import opened SymbolTable
  import opened Position

  // ---------------------------------------------------------------------
  // Paired keywords

  /**
   The two stacks hold the indices of the opening tokens not yet closed;
   `errors` holds the closing-without-opening reports so far.
   */
  datatype PairState = PairState(si: seq<nat>, repeter: seq<nat>, errors: seq<Diag>)

  /** One token of the paired-keyword scan; `i` is the token's index. */
  function PairStep(ps: PairState, t: Token, i: nat): PairState {
    match t.kind
    case Si => ps.(si := ps.si + [i])
    case Alors =>
      if ps.si == [] then ps.(errors := ps.errors + [Diag(t.line, t.col, AlorsWithoutSi)])
      else ps.(si := ps.si[..|ps.si| - 1])
    case Repeter => ps.(repeter := ps.repeter + [i])
    case Jusqua =>
      if ps.repeter == [] then ps.(errors := ps.errors + [Diag(t.line, t.col, JusquaWithoutRepeter)])
      else ps.(repeter := ps.repeter[..|ps.repeter| - 1])
    case _ => ps
  }

  /** The scan state after the first `n` tokens. */
  function PairScan(ts: seq<Token>, n: nat): PairState
    requires n <= |ts|
  {
    if n == 0 then PairState([], [], []) else PairStep(PairScan(ts, n - 1), ts[n - 1], n - 1)
  }

  /** One report per opening token left on a stack, in stack order. */
  function Unclosed(ts: seq<Token>, stack: seq<nat>, p: Problem): (r: seq<Diag>)
    requires forall j :: 0 <= j < |stack| ==> stack[j] < |ts|
    ensures |r| == |stack|
    ensures forall j :: 0 <= j < |stack| ==> r[j] == Diag(ts[stack[j]].line, ts[stack[j]].col, p)
  {
    if stack == [] then [] else [Diag(ts[stack[0]].line, ts[stack[0]].col, p)] + Unclosed(ts, stack[1..], p)
  }

  /** The stack holds indices, below `n`, of tokens of kind `k`, oldest first. */
  predicate StackOf(ts: seq<Token>, stack: seq<nat>, k: Kind, n: nat) {
    && (forall j :: 0 <= j < |stack| ==> stack[j] < n && stack[j] < |ts| && ts[stack[j]].kind == k)
    && (forall a, b :: 0 <= a < b < |stack| ==> stack[a] < stack[b])
  }

  /**
   Openers minus closers among the tokens after index `i` and before index
   `m`: how many openers are still nested inside the opener at `i`.
   */
  function Depth(ts: seq<Token>, i: nat, m: nat, open: Kind, close: Kind): int
    requires i < m <= |ts|
  {
    (CountKind(ts, m, open) - CountKind(ts, i + 1, open)) - (CountKind(ts, m, close) - CountKind(ts, i + 1, close))
  }

  /**
   The opener at index `i` is still open after the first `n` tokens: no
   stretch of tokens following it, up to `n`, closes more than it opens,
   so no closer has reached it.
   */
  predicate OpenAt(ts: seq<Token>, i: nat, n: nat, open: Kind, close: Kind)
    requires n <= |ts|
  {
    && i < n
    && ts[i].kind == open
    && forall m :: i < m <= n ==> Depth(ts, i, m, open, close) >= 0
  }

  /** The indices of the openers still open after the first `n` tokens. */
  function OpenSet(ts: seq<Token>, n: nat, open: Kind, close: Kind): set<nat>
    requires n <= |ts|
  {
    set i: nat | i < n && OpenAt(ts, i, n, open, close)
  }

  /** The members of `s` below `k`, in increasing order. */
  function Ascending(s: set<nat>, k: nat): seq<nat> {
    if k == 0 then [] else Ascending(s, k - 1) + (if k - 1 in s then [k - 1] else [])
  }

  /** The openers still open after the first `n` tokens, in token order. */
  function Opened(ts: seq<Token>, n: nat, open: Kind, close: Kind): seq<nat>
    requires n <= |ts|
  {
    Ascending(OpenSet(ts, n, open, close), n)
  }

  /**
   What the scan keeps about one stack after `n` tokens: it holds exactly
   the openers still open, oldest first, and the entry `j` from the bottom
   has `|stack| - 1 - j` openers nested inside it.
   */
  predicate StackInvariant(ts: seq<Token>, stack: seq<nat>, n: nat, open: Kind, close: Kind)
    requires n <= |ts|
  {
    && StackOf(ts, stack, open, n)
    && (forall j :: 0 <= j < |stack| ==> Depth(ts, stack[j], n, open, close) == |stack| - 1 - j)
    && (forall i :: 0 <= i < n ==> (OpenAt(ts, i, n, open, close) <==> i in stack))
  }

  /** How the `n`-th token changes the depth inside an earlier opener. */
  lemma {:induction false} DepthStep(ts: seq<Token>, i: nat, n: nat, open: Kind, close: Kind)
    requires i < n < |ts| && open != close
    ensures Depth(ts, i, n + 1, open, close) ==
              Depth(ts, i, n, open, close) + (if ts[n].kind == open then 1 else if ts[n].kind == close then -1 else 0)
  {
  }

  /** An earlier opener stays open exactly when the `n`-th token does not close it. */
  lemma {:induction false} OpenAtStep(ts: seq<Token>, i: nat, n: nat, open: Kind, close: Kind)
    requires i < n < |ts|
    ensures OpenAt(ts, i, n + 1, open, close) <==>
              OpenAt(ts, i, n, open, close) && Depth(ts, i, n + 1, open, close) >= 0
    ensures OpenAt(ts, i, n, open, close) ==> Depth(ts, i, n, open, close) >= 0
  {
    if OpenAt(ts, i, n, open, close) && Depth(ts, i, n + 1, open, close) >= 0 {
      OpenAtLonger(ts, i, n, open, close);
    }
    if OpenAt(ts, i, n + 1, open, close) {
      OpenAtShorter(ts, i, n, open, close);
    }
  }

  lemma {:induction false} OpenAtLonger(ts: seq<Token>, i: nat, n: nat, open: Kind, close: Kind)
    requires i < n < |ts| && OpenAt(ts, i, n, open, close) && Depth(ts, i, n + 1, open, close) >= 0
    ensures OpenAt(ts, i, n + 1, open, close)
  {
    forall m | i < m <= n + 1
      ensures Depth(ts, i, m, open, close) >= 0
    {
      if m <= n {
        assert i < m <= n;
      }
    }
  }

  lemma {:induction false} OpenAtShorter(ts: seq<Token>, i: nat, n: nat, open: Kind, close: Kind)
    requires i < n < |ts| && OpenAt(ts, i, n + 1, open, close)
    ensures OpenAt(ts, i, n, open, close) && Depth(ts, i, n + 1, open, close) >= 0
  {
    forall m | i < m <= n
      ensures Depth(ts, i, m, open, close) >= 0
    {
      assert i < m <= n + 1;
    }
    assert i < n + 1 <= n + 1;
  }

  /** The `n`-th token, once read, is open exactly when it is an opener. */
  lemma {:induction false} OpenAtFresh(ts: seq<Token>, n: nat, open: Kind, close: Kind)
    requires n < |ts|
    ensures OpenAt(ts, n, n + 1, open, close) <==> ts[n].kind == open
  {
    if ts[n].kind == open {
      forall m | n < m <= n + 1
        ensures Depth(ts, n, m, open, close) >= 0
      {
        assert m == n + 1;
      }
      assert OpenAt(ts, n, n + 1, open, close);
    }
  }

  /** Pushing the index of an opener keeps the stack equal to the openers still open. */
  lemma {:induction false} StackPush(ts: seq<Token>, stack: seq<nat>, n: nat, open: Kind, close: Kind)
    requires n < |ts| && open != close && ts[n].kind == open
    requires StackInvariant(ts, stack, n, open, close)
    ensures StackInvariant(ts, stack + [n], n + 1, open, close)
  {
    var next := stack + [n];
    forall j | 0 <= j < |next|
      ensures Depth(ts, next[j], n + 1, open, close) == |next| - 1 - j
    {
      if j < |stack| {
        DepthStep(ts, stack[j], n, open, close);
      }
    }
    forall i | 0 <= i < n + 1
      ensures OpenAt(ts, i, n + 1, open, close) <==> i in next
    {
      if i < n {
        DepthStep(ts, i, n, open, close);
        OpenAtStep(ts, i, n, open, close);
        assert i in next <==> i in stack;
      } else {
        OpenAtFresh(ts, n, open, close);
        assert next[|stack|] == n;
      }
    }
  }

  /** Popping the newest opener on a closer keeps the stack equal to the openers still open. */
  lemma {:induction false} StackPop(ts: seq<Token>, stack: seq<nat>, n: nat, open: Kind, close: Kind)
    requires n < |ts| && open != close && ts[n].kind == close && stack != []
    requires StackInvariant(ts, stack, n, open, close)
    ensures StackInvariant(ts, stack[..|stack| - 1], n + 1, open, close)
  {
    var last := |stack| - 1;
    var next := stack[..last];
    forall j | 0 <= j < |next|
      ensures Depth(ts, next[j], n + 1, open, close) == |next| - 1 - j
    {
      DepthStep(ts, stack[j], n, open, close);
    }
    forall i | 0 <= i < n + 1
      ensures OpenAt(ts, i, n + 1, open, close) <==> i in next
    {
      if i == n {
        OpenAtFresh(ts, n, open, close);
      } else {
        DepthStep(ts, i, n, open, close);
        OpenAtStep(ts, i, n, open, close);
        if i in stack {
          var j :| 0 <= j < |stack| && stack[j] == i;
          if i in next {
            var j' :| 0 <= j' < |next| && next[j'] == i;
            assert stack[j'] == i;
          }
        }
      }
    }
  }

  /** A token that neither opens nor pops leaves the stack equal to the openers still open. */
  lemma {:induction false} StackKeep(ts: seq<Token>, stack: seq<nat>, n: nat, open: Kind, close: Kind)
    requires n < |ts| && open != close && ts[n].kind != open
    requires ts[n].kind == close ==> stack == []
    requires StackInvariant(ts, stack, n, open, close)
    ensures StackInvariant(ts, stack, n + 1, open, close)
  {
    forall j | 0 <= j < |stack|
      ensures Depth(ts, stack[j], n + 1, open, close) == |stack| - 1 - j
    {
      DepthStep(ts, stack[j], n, open, close);
    }
    forall i | 0 <= i < n + 1
      ensures OpenAt(ts, i, n + 1, open, close) <==> i in stack
    {
      if i == n {
        OpenAtFresh(ts, n, open, close);
      } else {
        DepthStep(ts, i, n, open, close);
        OpenAtStep(ts, i, n, open, close);
      }
    }
  }

  /** One step of the scan keeps the si stack equal to the si tokens still open. */
  lemma {:induction false} SiStackStep(ts: seq<Token>, ps: PairState, next: PairState, n: nat)
    requires n < |ts| && StackInvariant(ts, ps.si, n, Si, Alors) && next == PairStep(ps, ts[n], n)
    ensures StackInvariant(ts, next.si, n + 1, Si, Alors)
  {
    PairStepStacks(ps, ts[n], n);
    if ts[n].kind == Si {
      StackPush(ts, ps.si, n, Si, Alors);
    } else if ts[n].kind == Alors && ps.si != [] {
      StackPop(ts, ps.si, n, Si, Alors);
    } else {
      StackKeep(ts, ps.si, n, Si, Alors);
    }
  }

  /** One step of the scan keeps the repeter stack equal to the repeter tokens still open. */
  lemma {:induction false} RepeterStackStep(ts: seq<Token>, ps: PairState, next: PairState, n: nat)
    requires n < |ts| && StackInvariant(ts, ps.repeter, n, Repeter, Jusqua) && next == PairStep(ps, ts[n], n)
    ensures StackInvariant(ts, next.repeter, n + 1, Repeter, Jusqua)
  {
    PairStepStacks(ps, ts[n], n);
    if ts[n].kind == Repeter {
      StackPush(ts, ps.repeter, n, Repeter, Jusqua);
    } else if ts[n].kind == Jusqua && ps.repeter != [] {
      StackPop(ts, ps.repeter, n, Repeter, Jusqua);
    } else {
      StackKeep(ts, ps.repeter, n, Repeter, Jusqua);
    }
  }

  /** An increasing list of indices below `k` holding exactly the members of `s` below `k` is `Ascending`. */
  lemma {:induction false} AscendingUnique(stack: seq<nat>, s: set<nat>, k: nat)
    requires forall a, b :: 0 <= a < b < |stack| ==> stack[a] < stack[b]
    requires forall j :: 0 <= j < |stack| ==> stack[j] < k
    requires forall i :: 0 <= i < k ==> (i in s <==> i in stack)
    ensures stack == Ascending(s, k)
  {
    if k == 0 {
    } else if k - 1 in s {
      var last := |stack| - 1;
      var j :| 0 <= j < |stack| && stack[j] == k - 1;
      assert j == last;
      var rest := stack[..last];
      forall i | 0 <= i < k - 1
        ensures i in s <==> i in rest
      {
        if i in stack {
          var j' :| 0 <= j' < |stack| && stack[j'] == i;
          assert j' != last;
          assert rest[j'] == i;
        }
      }
      forall j' | 0 <= j' < |rest|
        ensures rest[j'] < k - 1
      {
        assert stack[j'] < stack[last];
      }
      AscendingUnique(rest, s, k - 1);
      assert stack == rest + [k - 1];
    } else {
      forall j | 0 <= j < |stack|
        ensures stack[j] < k - 1
      {
        assert stack[j] != k - 1;
      }
      AscendingUnique(stack, s, k - 1);
    }
  }

  /** An increasing list of indices holding exactly the openers still open is the list of them. */
  lemma {:induction false} OpenedUnique(ts: seq<Token>, stack: seq<nat>, n: nat, open: Kind, close: Kind)
    requires n <= |ts|
    requires forall a, b :: 0 <= a < b < |stack| ==> stack[a] < stack[b]
    requires forall j :: 0 <= j < |stack| ==> stack[j] < n
    requires forall i :: 0 <= i < n ==> (OpenAt(ts, i, n, open, close) <==> i in stack)
    ensures stack == Opened(ts, n, open, close)
  {
    var s := OpenSet(ts, n, open, close);
    forall i | 0 <= i < n
      ensures i in s <==> i in stack
    {
      InOpenSet(ts, n, open, close, i);
    }
    AscendingUnique(stack, s, n);
  }

  lemma {:induction false} InOpenSet(ts: seq<Token>, n: nat, open: Kind, close: Kind, i: nat)
    requires n <= |ts|
    ensures i in OpenSet(ts, n, open, close) <==> OpenAt(ts, i, n, open, close)
  {
  }

  lemma {:induction false} SiStackKept(ts: seq<Token>, n: nat)
    requires n <= |ts|
    ensures StackInvariant(ts, PairScan(ts, n).si, n, Si, Alors)
  {
    if n > 0 {
      var ps := PairScan(ts, n - 1);
      SiStackKept(ts, n - 1);
      SiStackStep(ts, ps, PairStep(ps, ts[n - 1], n - 1), n - 1);
    }
  }

  lemma {:induction false} RepeterStackKept(ts: seq<Token>, n: nat)
    requires n <= |ts|
    ensures StackInvariant(ts, PairScan(ts, n).repeter, n, Repeter, Jusqua)
  {
    if n > 0 {
      var ps := PairScan(ts, n - 1);
      RepeterStackKept(ts, n - 1);
      RepeterStackStep(ts, ps, PairStep(ps, ts[n - 1], n - 1), n - 1);
    }
  }

  /** After any prefix, the si stack holds exactly the si tokens not yet closed, oldest first. */
  lemma {:induction false} SiStackOf(ts: seq<Token>, n: nat)
    requires n <= |ts|
    ensures StackOf(ts, PairScan(ts, n).si, Si, n)
    ensures PairScan(ts, n).si == Opened(ts, n, Si, Alors)
  {
    SiStackKept(ts, n);
    OpenedUnique(ts, PairScan(ts, n).si, n, Si, Alors);
  }

  /** After any prefix, the repeter stack holds exactly the repeter tokens not yet closed, oldest first. */
  lemma {:induction false} RepeterStackOf(ts: seq<Token>, n: nat)
    requires n <= |ts|
    ensures StackOf(ts, PairScan(ts, n).repeter, Repeter, n)
    ensures PairScan(ts, n).repeter == Opened(ts, n, Repeter, Jusqua)
  {
    RepeterStackKept(ts, n);
    OpenedUnique(ts, PairScan(ts, n).repeter, n, Repeter, Jusqua);
  }

  /** Each stack holds, oldest first, exactly the openers of its kind not yet closed. */
  lemma {:induction false} PairScanStacks(ts: seq<Token>, n: nat)
    requires n <= |ts|
    ensures StackOf(ts, PairScan(ts, n).si, Si, n)
    ensures StackOf(ts, PairScan(ts, n).repeter, Repeter, n)
    ensures PairScan(ts, n).si == Opened(ts, n, Si, Alors)
    ensures PairScan(ts, n).repeter == Opened(ts, n, Repeter, Jusqua)
  {
    SiStackOf(ts, n);
    RepeterStackOf(ts, n);
  }

  /**
   `_validate_paired_keywords`: closing-without-opening reports in token
   order, then the si tokens left open, then the repeter tokens left open,
   each group earliest first.
   */
  function ValidatePairedKeywords(ts: seq<Token>): (r: seq<Diag>)
    ensures forall d | d in r :: IsPairProblem(d.problem)
  {
    var ps := PairScan(ts, |ts|);
    PairScanStacks(ts, |ts|);
    PairScanErrorKinds(ts, |ts|);
    ps.errors + Unclosed(ts, ps.si, SiWithoutAlors) + Unclosed(ts, ps.repeter, RepeterWithoutJusqua)
  }

  /** Number of tokens of kind `k` among the first `n`. */
  function CountKind(ts: seq<Token>, n: nat, k: Kind): nat
    requires n <= |ts|
  {
    if n == 0 then 0 else CountKind(ts, n - 1, k) + (if ts[n - 1].kind == k then 1 else 0)
  }

  /**
   Openers and closers of one pair are balanced: no prefix closes more than
   it opens, and the whole list closes as many as it opens.
   */
  predicate Balanced(ts: seq<Token>, open: Kind, close: Kind) {
    && NeverOverclosed(ts, |ts|, open, close)
    && CountKind(ts, |ts|, open) == CountKind(ts, |ts|, close)
  }

  predicate NoProblem(errs: seq<Diag>, p: Problem) {
    forall i :: 0 <= i < |errs| ==> errs[i].problem != p
  }

  /** No prefix of the first `n` tokens has more closers than openers. */
  predicate NeverOverclosed(ts: seq<Token>, n: nat, open: Kind, close: Kind)
    requires n <= |ts|
  {
    forall m :: 0 <= m <= n ==> ClosesAtMostOpens(ts, m, open, close)
  }

  /** The first `m` tokens close no more than they open. */
  predicate ClosesAtMostOpens(ts: seq<Token>, m: nat, open: Kind, close: Kind)
    requires m <= |ts|
  {
    CountKind(ts, m, close) <= CountKind(ts, m, open)
  }

  predicate IsPairProblem(p: Problem) {
    p == AlorsWithoutSi || p == JusquaWithoutRepeter || p == SiWithoutAlors || p == RepeterWithoutJusqua
  }

  lemma {:induction false} NoProblemAppend(a: seq<Diag>, b: seq<Diag>, p: Problem)
    ensures NoProblem(a + b, p) <==> NoProblem(a, p) && NoProblem(b, p)
  {
    if NoProblem(a, p) && NoProblem(b, p) {
      forall i | 0 <= i < |a + b| ensures (a + b)[i].problem != p {
        if i >= |a| {
          assert (a + b)[i] == b[i - |a|];
        }
      }
    }
    if NoProblem(a + b, p) {
      forall i | 0 <= i < |a| ensures a[i].problem != p {
        assert (a + b)[i] == a[i];
      }
      forall i | 0 <= i < |b| ensures b[i].problem != p {
        assert (a + b)[|a| + i] == b[i];
      }
    }
  }

  /** What one step of the scan appends to the reports. */
  lemma {:induction false} PairStepErrors(ps: PairState, t: Token, i: nat)
    ensures PairStep(ps, t, i).errors ==
              ps.errors
              + (if t.kind == Alors && ps.si == [] then [Diag(t.line, t.col, AlorsWithoutSi)] else [])
              + (if t.kind == Jusqua && ps.repeter == [] then [Diag(t.line, t.col, JusquaWithoutRepeter)] else [])
  {
  }

  /** What one step of the scan does to the two stacks. */
  lemma {:induction false} PairStepStacks(ps: PairState, t: Token, i: nat)
    ensures PairStep(ps, t, i).si ==
              if t.kind == Si then ps.si + [i]
              else if t.kind == Alors && ps.si != [] then ps.si[..|ps.si| - 1]
              else ps.si
    ensures PairStep(ps, t, i).repeter ==
              if t.kind == Repeter then ps.repeter + [i]
              else if t.kind == Jusqua && ps.repeter != [] then ps.repeter[..|ps.repeter| - 1]
              else ps.repeter
  {
  }

  /** The closing-without-opening reports are the only reports made during the scan. */
  lemma {:induction false} PairScanErrorKinds(ts: seq<Token>, n: nat)
    requires n <= |ts|
    ensures forall i :: 0 <= i < |PairScan(ts, n).errors| ==>
              PairScan(ts, n).errors[i].problem in {AlorsWithoutSi, JusquaWithoutRepeter}
  {
    if n > 0 {
      PairScanErrorKinds(ts, n - 1);
      PairStepErrors(PairScan(ts, n - 1), ts[n - 1], n - 1);
    }
  }

  /** One step of the scan, as seen by the si stack and the alors-without-si reports. */
  lemma {:induction false} SiStep(ps: PairState, t: Token, i: nat)
    ensures NoProblem(PairStep(ps, t, i).errors, AlorsWithoutSi) <==>
              NoProblem(ps.errors, AlorsWithoutSi) && !(t.kind == Alors && ps.si == [])
    ensures |PairStep(ps, t, i).si| ==
              |ps.si| + (if t.kind == Si then 1 else 0) - (if t.kind == Alors && ps.si != [] then 1 else 0)
  {
    PairStepErrors(ps, t, i);
    var unmatched := if t.kind == Alors && ps.si == [] then [Diag(t.line, t.col, AlorsWithoutSi)] else [];
    var other := if t.kind == Jusqua && ps.repeter == [] then [Diag(t.line, t.col, JusquaWithoutRepeter)] else [];
    NoProblemAppend(ps.errors + unmatched, other, AlorsWithoutSi);
    NoProblemAppend(ps.errors, unmatched, AlorsWithoutSi);
    if t.kind == Alors && ps.si == [] {
      assert unmatched[0].problem == AlorsWithoutSi;
    }
  }

  /** One step of the scan, as seen by the repeter stack and the jusqua-without-repeter reports. */
  lemma {:induction false} RepeterStep(ps: PairState, t: Token, i: nat)
    ensures NoProblem(PairStep(ps, t, i).errors, JusquaWithoutRepeter) <==>
              NoProblem(ps.errors, JusquaWithoutRepeter) && !(t.kind == Jusqua && ps.repeter == [])
    ensures |PairStep(ps, t, i).repeter| ==
              |ps.repeter| + (if t.kind == Repeter then 1 else 0) - (if t.kind == Jusqua && ps.repeter != [] then 1 else 0)
  {
    PairStepErrors(ps, t, i);
    var other := if t.kind == Alors && ps.si == [] then [Diag(t.line, t.col, AlorsWithoutSi)] else [];
    var unmatched := if t.kind == Jusqua && ps.repeter == [] then [Diag(t.line, t.col, JusquaWithoutRepeter)] else [];
    NoProblemAppend(ps.errors + other, unmatched, JusquaWithoutRepeter);
    NoProblemAppend(ps.errors, other, JusquaWithoutRepeter);
    if t.kind == Jusqua && ps.repeter == [] {
      assert unmatched[0].problem == JusquaWithoutRepeter;
    }
  }

  /** A prefix of `n` tokens never overcloses exactly when the shorter one does not and the `n`-th does not either. */
  lemma {:induction false} NeverOverclosedStep(ts: seq<Token>, n: nat, open: Kind, close: Kind)
    requires 0 < n <= |ts|
    ensures NeverOverclosed(ts, n, open, close) <==>
              NeverOverclosed(ts, n - 1, open, close) && CountKind(ts, n, close) <= CountKind(ts, n, open)
  {
    if NeverOverclosed(ts, n, open, close) {
      NeverOverclosedShorter(ts, n, open, close);
    }
    if NeverOverclosed(ts, n - 1, open, close) && CountKind(ts, n, close) <= CountKind(ts, n, open) {
      NeverOverclosedLonger(ts, n, open, close);
    }
  }

  lemma {:induction false} NeverOverclosedShorter(ts: seq<Token>, n: nat, open: Kind, close: Kind)
    requires 0 < n <= |ts| && NeverOverclosed(ts, n, open, close)
    ensures NeverOverclosed(ts, n - 1, open, close) && CountKind(ts, n, close) <= CountKind(ts, n, open)
  {
    forall m | 0 <= m <= n - 1
      ensures ClosesAtMostOpens(ts, m, open, close)
    {
      assert 0 <= m <= n;
    }
    assert ClosesAtMostOpens(ts, n, open, close);
  }

  lemma {:induction false} NeverOverclosedLonger(ts: seq<Token>, n: nat, open: Kind, close: Kind)
    requires 0 < n <= |ts| && NeverOverclosed(ts, n - 1, open, close)
    requires CountKind(ts, n, close) <= CountKind(ts, n, open)
    ensures NeverOverclosed(ts, n, open, close)
  {
    assert ClosesAtMostOpens(ts, n, open, close);
    forall m | 0 <= m <= n
      ensures ClosesAtMostOpens(ts, m, open, close)
    {
      if m < n {
        assert 0 <= m <= n - 1;
      }
    }
  }

  /**
   The si stack and the alors-without-si reports against the counts: while
   no alors has been unmatched the stack depth is opens minus closes, and
   an unmatched alors is reported exactly when some prefix closes more
   than it opens.
   */
  lemma {:induction false} SiScanCounts(ts: seq<Token>, n: nat)
    requires n <= |ts|
    ensures NoProblem(PairScan(ts, n).errors, AlorsWithoutSi) ==>
              |PairScan(ts, n).si| + CountKind(ts, n, Alors) == CountKind(ts, n, Si)
    ensures NoProblem(PairScan(ts, n).errors, AlorsWithoutSi) <==> NeverOverclosed(ts, n, Si, Alors)
  {
    if n > 0 {
      SiScanCounts(ts, n - 1);
      SiStep(PairScan(ts, n - 1), ts[n - 1], n - 1);
      NeverOverclosedStep(ts, n, Si, Alors);
    }
  }

  /** The same for the repeter stack and the jusqua-without-repeter reports. */
  lemma {:induction false} RepeterScanCounts(ts: seq<Token>, n: nat)
    requires n <= |ts|
    ensures NoProblem(PairScan(ts, n).errors, JusquaWithoutRepeter) ==>
              |PairScan(ts, n).repeter| + CountKind(ts, n, Jusqua) == CountKind(ts, n, Repeter)
    ensures NoProblem(PairScan(ts, n).errors, JusquaWithoutRepeter) <==> NeverOverclosed(ts, n, Repeter, Jusqua)
  {
    if n > 0 {
      RepeterScanCounts(ts, n - 1);
      RepeterStep(PairScan(ts, n - 1), ts[n - 1], n - 1);
      NeverOverclosedStep(ts, n, Repeter, Jusqua);
    }
  }

  /** The paired-keyword check reports nothing exactly when both pairs are balanced. */
  lemma {:induction false} PairedKeywordsCleanIffBalanced(ts: seq<Token>)
    ensures ValidatePairedKeywords(ts) == [] <==>
              Balanced(ts, Si, Alors) && Balanced(ts, Repeter, Jusqua)
  {
    SiScanCounts(ts, |ts|);
    RepeterScanCounts(ts, |ts|);
    PairScanErrorKinds(ts, |ts|);
    var ps := PairScan(ts, |ts|);
    if ps.errors != [] {
      assert ps.errors[0].problem in {AlorsWithoutSi, JusquaWithoutRepeter};
      assert !NoProblem(ps.errors, AlorsWithoutSi) || !NoProblem(ps.errors, JusquaWithoutRepeter);
    }
  }

  /**
   Opening tokens left unclosed are reported at their own positions in the
   order they were opened (earliest first), si before repeter.
   */
  lemma {:induction false} UnclosedReportedInOpeningOrder(ts: seq<Token>)
    ensures var ps := PairScan(ts, |ts|);
            && StackOf(ts, ps.si, Si, |ts|)
            && StackOf(ts, ps.repeter, Repeter, |ts|)
            && ps.si == Opened(ts, |ts|, Si, Alors)
            && ps.repeter == Opened(ts, |ts|, Repeter, Jusqua)
            && ValidatePairedKeywords(ts)[|ps.errors|..|ps.errors| + |ps.si|]
               == Unclosed(ts, ps.si, SiWithoutAlors)
            && ValidatePairedKeywords(ts)[|ps.errors| + |ps.si|..]
               == Unclosed(ts, ps.repeter, RepeterWithoutJusqua)
  {
    PairScanStacks(ts, |ts|);
  }

  // ---------------------------------------------------------------------
  // Program structure

  predicate HasKind(ts: seq<Token>, k: Kind) {
    exists i :: 0 <= i < |ts| && ts[i].kind == k
  }

  function At(t: Token, p: Problem): Diag {
    Diag(t.line, t.col, p)
  }

  /** A single report when the check failed, none otherwise. */
  function Report(failed: bool, d: Diag): (r: seq<Diag>)
    ensures |r| <= 1
    ensures forall e | e in r :: e == d
    ensures d in r <==> failed
  {
    if failed then [d] else []
  }

  /** The header is `programme`, then (when there are three tokens) a name and ';'. */
  predicate HeaderOk(ts: seq<Token>)
    requires ts != []
  {
    && ts[0].kind == Programme
    && (|ts| >= 3 ==> ts[1].kind == Id && ts[2].kind == PointVirgule)
  }

  /** The token before the last, when there is one, is '.'. */
  predicate TerminatorOk(ts: seq<Token>) {
    |ts| >= 2 ==> ts[|ts| - 2].kind == Point
  }

  /** The header checks: `programme`, then the program name and ';' when there are three tokens. */
  function HeaderErrors(ts: seq<Token>): (r: seq<Diag>)
    requires ts != []
    ensures At(ts[0], MissingProgramme) in r <==> ts[0].kind != Programme
    ensures |ts| >= 3 ==> (At(ts[1], ProgramNameExpected) in r <==> ts[1].kind != Id)
    ensures |ts| >= 3 ==> (At(ts[2], SemicolonExpected) in r <==> ts[2].kind != PointVirgule)
    ensures |ts| < 3 ==> forall d | d in r :: d.problem == MissingProgramme
    ensures forall d | d in r :: d.problem in {MissingProgramme, ProgramNameExpected, SemicolonExpected}
    ensures r == [] <==> HeaderOk(ts)
    ensures forall i, j | 0 <= i < j < |r| :: r[i] != r[j]
    ensures forall d | d in r ::
              d == At(ts[0], MissingProgramme)
              || (|ts| >= 3 && (d == At(ts[1], ProgramNameExpected) || d == At(ts[2], SemicolonExpected)))
  {
    Report(ts[0].kind != Programme, At(ts[0], MissingProgramme))
    + (if |ts| >= 3 then Report(ts[1].kind != Id, At(ts[1], ProgramNameExpected)) else [])
    + (if |ts| >= 3 then Report(ts[2].kind != PointVirgule, At(ts[2], SemicolonExpected)) else [])
  }

  /** The body delimiters: a missing `debut` or `fin` anywhere is reported at the last token. */
  function DelimiterErrors(ts: seq<Token>): (r: seq<Diag>)
    requires ts != []
    ensures At(ts[|ts| - 1], MissingDebut) in r <==> !HasKind(ts, Debut)
    ensures At(ts[|ts| - 1], MissingFin) in r <==> !HasKind(ts, Fin)
    ensures forall d | d in r :: d.problem in {MissingDebut, MissingFin}
    ensures r == [] <==> HasKind(ts, Debut) && HasKind(ts, Fin)
    ensures forall i, j | 0 <= i < j < |r| :: r[i] != r[j]
    ensures forall d | d in r :: d == At(ts[|ts| - 1], MissingDebut) || d == At(ts[|ts| - 1], MissingFin)
  {
    Report(!HasKind(ts, Debut), At(ts[|ts| - 1], MissingDebut))
    + Report(!HasKind(ts, Fin), At(ts[|ts| - 1], MissingFin))
  }

  /** The terminator: the token before the last must be '.'. */
  function TerminatorErrors(ts: seq<Token>): (r: seq<Diag>)
    ensures |ts| >= 2 ==> (At(ts[|ts| - 2], MissingFinalPoint) in r <==> ts[|ts| - 2].kind != Point)
    ensures forall d | d in r :: d.problem == MissingFinalPoint
    ensures r == [] <==> TerminatorOk(ts)
    ensures |r| <= 1
    ensures forall d | d in r :: |ts| >= 2 && d == At(ts[|ts| - 2], MissingFinalPoint)
  {
    if |ts| >= 2 then Report(ts[|ts| - 2].kind != Point, At(ts[|ts| - 2], MissingFinalPoint)) else []
  }

  /**
   `_validate_program_structure`: nothing for an empty list; otherwise each
   failed check is reported once at the token it concerns (a missing debut
   or fin at the last token), followed by the paired-keyword reports.
   */
  function ValidateProgramStructure(ts: seq<Token>): (r: seq<Diag>)
    ensures ts == [] ==> r == []
    ensures ts != [] ==> r == HeaderErrors(ts) + DelimiterErrors(ts) + TerminatorErrors(ts) + ValidatePairedKeywords(ts)
  {
    if ts == [] then []
    else HeaderErrors(ts) + DelimiterErrors(ts) + TerminatorErrors(ts) + ValidatePairedKeywords(ts)
  }

  /** A structural report is in the whole list exactly when one of the four parts has it. */
  lemma {:induction false} InStructure(ts: seq<Token>, x: Diag)
    requires ts != []
    ensures x in ValidateProgramStructure(ts) <==>
              x in HeaderErrors(ts) || x in DelimiterErrors(ts) || x in TerminatorErrors(ts)
              || x in ValidatePairedKeywords(ts)
  {
  }

  /** The paired-keyword check makes only paired-keyword reports. */
  lemma {:induction false} NotPairReport(ts: seq<Token>, x: Diag)
    requires !IsPairProblem(x.problem)
    ensures x !in ValidatePairedKeywords(ts)
  {
  }

  /** A report about the header is in the whole list exactly when the header checks make it. */
  lemma {:induction false} InHeader(ts: seq<Token>, x: Diag)
    requires ts != [] && x.problem in {MissingProgramme, ProgramNameExpected, SemicolonExpected}
    ensures x in ValidateProgramStructure(ts) <==> x in HeaderErrors(ts)
  {
    InStructure(ts, x);
    NotPairReport(ts, x);
  }

  /** A missing-'.' report is in the whole list exactly when the terminator check makes it. */
  lemma {:induction false} InTerminator(ts: seq<Token>, x: Diag)
    requires ts != [] && x.problem == MissingFinalPoint
    ensures x in ValidateProgramStructure(ts) <==> x in TerminatorErrors(ts)
  {
    InStructure(ts, x);
    NotPairReport(ts, x);
  }

  /** A report about the body delimiters is in the whole list exactly when the delimiter check makes it. */
  lemma {:induction false} InDelimiters(ts: seq<Token>, x: Diag)
    requires ts != [] && x.problem in {MissingDebut, MissingFin}
    ensures x in ValidateProgramStructure(ts) <==> x in DelimiterErrors(ts)
  {
    InStructure(ts, x);
    NotPairReport(ts, x);
  }

  /** A missing `programme` is reported exactly when the first token is not `programme`. */
  lemma {:induction false} ProgrammeReported(ts: seq<Token>)
    requires ts != []
    ensures At(ts[0], MissingProgramme) in ValidateProgramStructure(ts) <==> ts[0].kind != Programme
  {
    InHeader(ts, At(ts[0], MissingProgramme));
  }

  /** With three tokens or more, the program name is checked at the second token. */
  lemma {:induction false} NameReported(ts: seq<Token>)
    requires |ts| >= 3
    ensures At(ts[1], ProgramNameExpected) in ValidateProgramStructure(ts) <==> ts[1].kind != Id
  {
    InHeader(ts, At(ts[1], ProgramNameExpected));
  }

  /** With three tokens or more, the ';' after the name is checked at the third token. */
  lemma {:induction false} SemicolonReported(ts: seq<Token>)
    requires |ts| >= 3
    ensures At(ts[2], SemicolonExpected) in ValidateProgramStructure(ts) <==> ts[2].kind != PointVirgule
  {
    InHeader(ts, At(ts[2], SemicolonExpected));
  }

  /** With fewer than three tokens the program name and ';' are not checked. */
  lemma {:induction false} ShortHeaderUnchecked(ts: seq<Token>)
    requires 0 < |ts| < 3
    ensures forall d | d in ValidateProgramStructure(ts) ::
              d.problem != ProgramNameExpected && d.problem != SemicolonExpected
  {
    forall d | d in ValidateProgramStructure(ts)
      ensures d.problem != ProgramNameExpected && d.problem != SemicolonExpected
    {
      if d.problem in {ProgramNameExpected, SemicolonExpected} {
        InHeader(ts, d);
      }
    }
  }

  /** A missing `debut` or `fin` is reported exactly when there is none, at the last token. */
  lemma {:induction false} DelimitersReported(ts: seq<Token>)
    requires ts != []
    ensures var r := ValidateProgramStructure(ts);
            && (At(ts[|ts| - 1], MissingDebut) in r <==> !HasKind(ts, Debut))
            && (At(ts[|ts| - 1], MissingFin) in r <==> !HasKind(ts, Fin))
  {
    InDelimiters(ts, At(ts[|ts| - 1], MissingDebut));
    InDelimiters(ts, At(ts[|ts| - 1], MissingFin));
  }

  /** A missing final '.' is reported exactly when the token before the last is not '.'. */
  lemma {:induction false} TerminatorReported(ts: seq<Token>)
    requires |ts| >= 2
    ensures At(ts[|ts| - 2], MissingFinalPoint) in ValidateProgramStructure(ts) <==> ts[|ts| - 2].kind != Point
  {
    InTerminator(ts, At(ts[|ts| - 2], MissingFinalPoint));
  }

  /** The structure check of a non-empty token list passes exactly when every condition holds. */
  lemma {:induction false} StructureCleanIff(ts: seq<Token>)
    requires ts != []
    ensures ValidateProgramStructure(ts) == [] <==>
              && HeaderOk(ts)
              && HasKind(ts, Debut) && HasKind(ts, Fin)
              && TerminatorOk(ts)
              && Balanced(ts, Si, Alors) && Balanced(ts, Repeter, Jusqua)
  {
    PairedKeywordsCleanIffBalanced(ts);
  }

  // ---------------------------------------------------------------------
  // The back-end analysis

  datatype ScanResult = ScanResult(tokens: seq<Token>, symtab: Table, errors: seq<Diag>, success: bool)

  /** Tokenize, then validate the structure; success means no error of either kind. */
  function ScanSource(src: string): (r: ScanResult)
    ensures r.success <==> r.errors == []
    ensures |r.tokens| >= 1
    ensures r.tokens[|r.tokens| - 1].kind == Eof
  {
    var st := Tokenize(src);
    var errors := st.errors + ValidateProgramStructure(st.tokens);
    ScanResult(st.tokens, st.symtab, errors, |errors| == 0)
  }

  /** The analysis hands on the scanner's symbol table, which describes the identifiers of its token list. */
  lemma {:induction false} ScanSourceSymbolTable(src: string)
    ensures Describes(ScanSource(src).symtab, ScanSource(src).tokens)
  {
    TokenizeDescribes(src);
  }

  /**
   The analysis succeeds exactly when scanning reports no lexical error and
   the token list, including its end-of-input token, passes every
   structural check.
   */
  lemma {:induction false} ScanSourceSuccessIff(src: string)
    ensures var ts := Tokenize(src).tokens;
            ScanSource(src).success <==>
              && Tokenize(src).errors == []
              && HeaderOk(ts)
              && HasKind(ts, Debut) && HasKind(ts, Fin)
              && TerminatorOk(ts)
              && Balanced(ts, Si, Alors) && Balanced(ts, Repeter, Jusqua)
  {
    StructureCleanIff(Tokenize(src).tokens);
  }

  /** A missing delimiter is reported at the last token, whatever errors precede the structural reports. */
  lemma {:induction false} DelimitersAmong(errs: seq<Diag>, ts: seq<Token>)
    requires ts != []
    ensures !HasKind(ts, Debut) ==> At(ts[|ts| - 1], MissingDebut) in errs + ValidateProgramStructure(ts)
    ensures !HasKind(ts, Fin) ==> At(ts[|ts| - 1], MissingFin) in errs + ValidateProgramStructure(ts)
  {
    DelimitersReported(ts);
  }

  /**
   A missing `debut` or `fin` is reported by the analysis at the
   end-of-input token, which `Tokenize` places at the line and column just
   past the text.
   */
  lemma {:induction false} MissingDelimiterAtEnd(src: string)
    ensures var ts := Tokenize(src).tokens;
            var errs := ScanSource(src).errors;
            && ts[|ts| - 1].kind == Eof
            && (!HasKind(ts, Debut) ==> At(ts[|ts| - 1], MissingDebut) in errs)
            && (!HasKind(ts, Fin) ==> At(ts[|ts| - 1], MissingFin) in errs)
  {
    DelimitersAmong(Tokenize(src).errors, Tokenize(src).tokens);
    assert ScanSource(src).errors == Tokenize(src).errors + ValidateProgramStructure(Tokenize(src).tokens);
  }
}
