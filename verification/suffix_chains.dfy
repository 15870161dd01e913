/**
 * The `:` suffix chain after an operand, characterised as a run of steps:
 * what the suffix loop returns, and the only ways it can fail.
 */
module SuffixChains {
  import opened Common
  import opened Syntax
  import opened Parser

  /**
   * `r` is `acc` followed by the `:` suffixes read from `pos` up to `next`, one
   * step at a time: `:NAME` wraps `Property(acc, NAME)`, `:(expr)` wraps
   * `Indexer(acc, expr)` once the `)` after `expr` is read, and a `:` followed by
   * neither is read and adds nothing. A run may stop at any token.
   */
  predicate SuffixRun(toks: seq<Token>, pos: nat, acc: Expr, r: Expr, next: nat)
    requires Terminated(toks) && pos < |toks|
    decreases |toks| - pos, 1
  {
    if next == pos && r == acc then true
    else if toks[pos].kind != Colon || pos + 1 >= |toks| then false
    else if toks[pos + 1].kind == Identifier then
      pos + 2 < |toks| && SuffixRun(toks, pos + 2, Property(acc, toks[pos + 1], 0), r, next)
    else if toks[pos + 1].kind != LeftParen then SuffixRun(toks, pos + 1, acc, r, next)
    else pos + 2 < |toks| && IndexRun(toks, Expression(toks, pos + 2), acc, r, next)
  }

  /**
   * The rest of a `SuffixRun` after a `:(`, given what the index expression
   * parsed to: the index, its `)`, then a run from after the `)`.
   */
  predicate IndexRun(toks: seq<Token>, x: Result<Expr>, acc: Expr, r: Expr, next: nat)
    requires Terminated(toks) && (x.Ok? ==> x.next < |toks|)
    decreases if x.Ok? then |toks| - x.next else 0, 0
  {
    && x.Ok? && toks[x.next].kind == RightParen && x.next + 1 < |toks|
    && SuffixRun(toks, x.next + 1, Indexer(acc, x.value, 0), r, next)
  }

  /**
   * At `pos` a `:(` opens an index that fails: either its expression fails, and
   * `err` is that error, or no `)` follows the expression, and `err` complains
   * about the token found there.
   */
  predicate IndexFailure(toks: seq<Token>, pos: nat, err: Result<Expr>)
    requires Terminated(toks) && pos < |toks|
  {
    && toks[pos].kind == Colon && pos + 2 < |toks| && toks[pos + 1].kind == LeftParen
    && UnclosedIndex(toks, Expression(toks, pos + 2), err)
  }

  /** `err` is the failure of an index that parsed to `x`: `x`'s own error, or a complaint about a missing `)`. */
  predicate UnclosedIndex(toks: seq<Token>, x: Result<Expr>, err: Result<Expr>)
    requires Terminated(toks) && (x.Ok? ==> x.next < |toks|)
  {
    if x.Err? then err == Err(x.line, x.complaint)
    else
      && toks[x.next].kind != RightParen
      && err == Err(toks[x.next].line, Unexpected(toks[x.next].lexeme, RightParen))
  }

  /** A `:(` followed by an `IndexRun` is a run from the `:`, and a run that takes a `:(` step is one. */
  lemma RunOfIndexRun(toks: seq<Token>, pos: nat, acc: Expr, r: Expr, next: nat)
    requires Terminated(toks) && pos + 2 < |toks|
    requires toks[pos].kind == Colon && toks[pos + 1].kind == LeftParen
    ensures IndexRun(toks, Expression(toks, pos + 2), acc, r, next) ==> SuffixRun(toks, pos, acc, r, next)
    ensures SuffixRun(toks, pos, acc, r, next) && !(next == pos && r == acc)
      ==> IndexRun(toks, Expression(toks, pos + 2), acc, r, next)
  {
  }

  /** Closing an index that parsed to `x` and then running on is exactly an `IndexRun` over `x`. */
  lemma CloseThenRun(toks: seq<Token>, x: Result<Expr>, acc: Expr, r: Expr, next: nat)
    requires Terminated(toks) && (x.Ok? ==> x.next < |toks|)
    ensures var c := CloseIndex(toks, acc, x);
      IndexRun(toks, x, acc, r, next) <==> c.Ok? && SuffixRun(toks, c.next, c.value, r, next)
  {
  }

  /** Closing an index that parsed to `x` fails with `err` exactly as `UnclosedIndex` says. */
  lemma CloseFailure(toks: seq<Token>, x: Result<Expr>, acc: Expr, err: Result<Expr>)
    requires Terminated(toks) && (x.Ok? ==> x.next < |toks|) && err.Err?
    ensures CloseIndex(toks, acc, x) == err <==> UnclosedIndex(toks, x, err)
  {
  }

  /** A run whose first step is the one `Suffix` reads at `pos` is a run from `pos`. */
  lemma RunStep(toks: seq<Token>, pos: nat, acc: Expr, v: Expr, m: nat, r: Expr, next: nat)
    requires Terminated(toks) && pos < |toks| && toks[pos].kind == Colon
    requires Suffix(toks, acc, pos) == Ok(v, m) && SuffixRun(toks, m, v, r, next)
    ensures SuffixRun(toks, pos, acc, r, next)
  {
    if toks[pos + 1].kind == LeftParen {
      var x := Expression(toks, pos + 2);
      assert Suffix(toks, acc, pos) == CloseIndex(toks, acc, x);
      CloseThenRun(toks, x, acc, r, next);
      RunOfIndexRun(toks, pos, acc, r, next);
    }
  }

  /** Conversely, a run that does not stop at `pos` takes the step `Suffix` reads there first. */
  lemma RunUnfold(toks: seq<Token>, pos: nat, acc: Expr, r: Expr, next: nat)
    requires Terminated(toks) && pos < |toks|
    requires SuffixRun(toks, pos, acc, r, next) && !(next == pos && r == acc)
    ensures toks[pos].kind == Colon
    ensures var s := Suffix(toks, acc, pos); s.Ok? && SuffixRun(toks, s.next, s.value, r, next)
  {
    if toks[pos + 1].kind == LeftParen {
      RunOfIndexRun(toks, pos, acc, r, next);
      var x := Expression(toks, pos + 2);
      assert Suffix(toks, acc, pos) == CloseIndex(toks, acc, x);
      CloseThenRun(toks, x, acc, r, next);
    }
  }

  /** A single suffix fails exactly at an index that fails, with the same error. */
  lemma SuffixFailure(toks: seq<Token>, pos: nat, acc: Expr, err: Result<Expr>)
    requires Terminated(toks) && pos < |toks| && toks[pos].kind == Colon && err.Err?
    ensures Suffix(toks, acc, pos) == err <==> IndexFailure(toks, pos, err)
  {
    if toks[pos + 1].kind == LeftParen {
      var x := Expression(toks, pos + 2);
      assert Suffix(toks, acc, pos) == CloseIndex(toks, acc, x);
      CloseFailure(toks, x, acc, err);
    }
  }

  /** What the suffix loop returns is a `SuffixRun` from the operand it was given. */
  lemma {:induction false} PostfixIsRun(toks: seq<Token>, e: Expr, pos: nat)
    requires Terminated(toks) && pos < |toks|
    ensures var r := Postfix(toks, e, pos);
      r.Ok? ==> SuffixRun(toks, pos, e, r.value, r.next)
    decreases |toks| - pos
  {
    if toks[pos].kind == Colon {
      var s := Suffix(toks, e, pos);
      if s.Ok? {
        PostfixIsRun(toks, s.value, s.next);
        var r := Postfix(toks, s.value, s.next);
        if r.Ok? {
          RunStep(toks, pos, e, s.value, s.next, r.value, r.next);
        }
      }
    }
  }

  /** Conversely, a `SuffixRun` that stops at a token other than `:` is what the suffix loop returns. */
  lemma {:induction false} RunIsPostfix(toks: seq<Token>, pos: nat, acc: Expr, r: Expr, next: nat)
    requires Terminated(toks) && pos < |toks|
    requires SuffixRun(toks, pos, acc, r, next) && next < |toks| && toks[next].kind != Colon
    ensures Postfix(toks, acc, pos) == Ok(r, next)
    decreases |toks| - pos
  {
    if !(next == pos && r == acc) {
      RunUnfold(toks, pos, acc, r, next);
      var s := Suffix(toks, acc, pos);
      RunIsPostfix(toks, s.next, s.value, r, next);
    }
  }

  /** When the suffix loop fails, it has read a `SuffixRun` up to an index that fails. */
  lemma {:induction false} PostfixFailsAtIndex(toks: seq<Token>, e: Expr, pos: nat)
    requires Terminated(toks) && pos < |toks|
    ensures var r := Postfix(toks, e, pos);
      r.Err? ==> exists a: Expr, q: nat :: q < |toks| && SuffixRun(toks, pos, e, a, q) && IndexFailure(toks, q, r)
    decreases |toks| - pos
  {
    var r := Postfix(toks, e, pos);
    if r.Err? {
      var s := Suffix(toks, e, pos);
      if s.Err? {
        SuffixFailure(toks, pos, e, r);
        assert SuffixRun(toks, pos, e, e, pos);
      } else {
        PostfixFailsAtIndex(toks, s.value, s.next);
        var a: Expr, q: nat :| q < |toks| && SuffixRun(toks, s.next, s.value, a, q) && IndexFailure(toks, q, r);
        RunStep(toks, pos, e, s.value, s.next, a, q);
      }
    }
  }

  /** Conversely, a `SuffixRun` up to an index that fails makes the suffix loop report that failure. */
  lemma {:induction false} IndexFailureIsPostfix(toks: seq<Token>, pos: nat, acc: Expr, a: Expr, q: nat, err: Result<Expr>)
    requires Terminated(toks) && pos < |toks|
    requires q < |toks| && SuffixRun(toks, pos, acc, a, q) && IndexFailure(toks, q, err)
    ensures Postfix(toks, acc, pos) == err
    decreases |toks| - pos
  {
    if q == pos && a == acc {
      SuffixFailure(toks, pos, acc, err);
    } else {
      RunUnfold(toks, pos, acc, a, q);
      var s := Suffix(toks, acc, pos);
      IndexFailureIsPostfix(toks, s.next, s.value, a, q, err);
    }
  }

  /**
   * The suffixes after an operand parse to `r` exactly when `r` is a
   * `SuffixRun` from the operand that stops at the first token that is not `:`.
   */
  lemma PostfixInOrder(toks: seq<Token>, e: Expr, pos: nat, r: Expr, next: nat)
    requires Terminated(toks) && pos < |toks|
    ensures Postfix(toks, e, pos) == Ok(r, next)
      <==> SuffixRun(toks, pos, e, r, next) && next < |toks| && toks[next].kind != Colon
  {
    PostfixIsRun(toks, e, pos);
    if SuffixRun(toks, pos, e, r, next) && next < |toks| && toks[next].kind != Colon {
      RunIsPostfix(toks, pos, e, r, next);
    }
  }

  /**
   * The suffixes after an operand fail with `err` exactly when a `SuffixRun`
   * reaches a `:(` whose expression fails or lacks its `)`; no other suffix fails.
   */
  lemma PostfixFailsInOrder(toks: seq<Token>, e: Expr, pos: nat, err: Result<Expr>)
    requires Terminated(toks) && pos < |toks| && err.Err?
    ensures Postfix(toks, e, pos) == err
      <==> exists a: Expr, q: nat :: q < |toks| && SuffixRun(toks, pos, e, a, q) && IndexFailure(toks, q, err)
  {
    PostfixFailsAtIndex(toks, e, pos);
    if exists a: Expr, q: nat :: q < |toks| && SuffixRun(toks, pos, e, a, q) && IndexFailure(toks, q, err) {
      var a: Expr, q: nat :| q < |toks| && SuffixRun(toks, pos, e, a, q) && IndexFailure(toks, q, err);
      IndexFailureIsPostfix(toks, pos, e, a, q, err);
    }
  }
}
