/** `Cy_Repr`: the textual representation of an expression, as a string.

    The runtime asks each node's vtable for its label and its successors;
    here an expression is the finite term those answers unfold to. */
module Repr {

  /** An expression: the label its vtable reports and its successors. */
  datatype Term = Term(name: string, succs: seq<Term>)

  /** `Cy_Repr(root, stream, isOuter)`: the label, then each successor
      after a space. A term with successors is wrapped in parentheses unless
      it is the outermost one. */
  function Repr(t: Term, isOuter: bool): string
    decreases t, |t.succs| + 1
  {
    var paren := !isOuter && |t.succs| > 0;
    (if paren then "(" else "") + t.name + ReprSuccs(t, 0) + (if paren then ")" else "")
  }

  /** The successors `t.succs[i..]`, each after a space and parenthesised
      as an inner term. */
  function ReprSuccs(t: Term, i: nat): string
    requires i <= |t.succs|
    decreases t, |t.succs| - i
  {
    if i == |t.succs| then ""
    else " " + Repr(t.succs[i], false) + ReprSuccs(t, i + 1)
  }

  /** An inner term is its outer representation, parenthesised exactly
      when it has successors; a term without successors is its label. */
  lemma ReprInner(t: Term)
    ensures Repr(t, false) == if |t.succs| > 0 then "(" + Repr(t, true) + ")" else Repr(t, true)
    ensures |t.succs| == 0 ==> Repr(t, true) == t.name && Repr(t, false) == t.name
  {
  }

  // ---- Parentheses balance ----

  /** No label of the term contains a parenthesis. */
  predicate PlainLabels(t: Term)
    decreases t
  {
    && '(' !in t.name && ')' !in t.name
    && forall i :: 0 <= i < |t.succs| ==> PlainLabels(t.succs[i])
  }

  /** How often `c` occurs in `s`. */
  function Count(c: char, s: string): nat {
    if s == [] then 0 else (if s[0] == c then 1 else 0) + Count(c, s[1..])
  }

  lemma {:induction false} CountConcat(c: char, a: string, b: string)
    ensures Count(c, a + b) == Count(c, a) + Count(c, b)
  {
    if a != [] {
      assert (a + b)[0] == a[0] && (a + b)[1..] == a[1..] + b;
      CountConcat(c, a[1..], b);
    } else {
      assert a + b == b;
    }
  }

  lemma {:induction false} CountAbsent(c: char, s: string)
    requires c !in s
    ensures Count(c, s) == 0
  {
    if s != [] {
      CountAbsent(c, s[1..]);
    }
  }

  /** The number of parenthesised subterms: those with successors, except
      the root when it is the outermost term. */
  function Wrapped(t: Term, isOuter: bool): nat
    decreases t, |t.succs| + 1
  {
    (if !isOuter && |t.succs| > 0 then 1 else 0) + WrappedSuccs(t, 0)
  }

  function WrappedSuccs(t: Term, i: nat): nat
    requires i <= |t.succs|
    decreases t, |t.succs| - i
  {
    if i == |t.succs| then 0 else Wrapped(t.succs[i], false) + WrappedSuccs(t, i + 1)
  }

  /** When no label contains a parenthesis, the representation has one
      opening and one closing parenthesis per wrapped subterm, so they are
      equal in number. */
  lemma {:induction false} ReprParens(t: Term, isOuter: bool, c: char)
    requires PlainLabels(t) && (c == '(' || c == ')')
    ensures Count(c, Repr(t, isOuter)) == Wrapped(t, isOuter)
    decreases t, |t.succs| + 1
  {
    var paren := !isOuter && |t.succs| > 0;
    var open := if paren then "(" else "";
    var close := if paren then ")" else "";
    CountAbsent(c, t.name);
    ReprSuccsParens(t, 0, c);
    CountConcat(c, open + t.name + ReprSuccs(t, 0), close);
    CountConcat(c, open + t.name, ReprSuccs(t, 0));
    CountConcat(c, open, t.name);
    assert Count(c, open) + Count(c, close) == if paren then 1 else 0;
  }

  lemma {:induction false} ReprSuccsParens(t: Term, i: nat, c: char)
    requires PlainLabels(t) && i <= |t.succs| && (c == '(' || c == ')')
    ensures Count(c, ReprSuccs(t, i)) == WrappedSuccs(t, i)
    decreases t, |t.succs| - i
  {
    if i < |t.succs| {
      ReprParens(t.succs[i], false, c);
      ReprSuccsParens(t, i + 1, c);
      CountConcat(c, " " + Repr(t.succs[i], false), ReprSuccs(t, i + 1));
      CountConcat(c, " ", Repr(t.succs[i], false));
    }
  }

  /** The opening and closing parentheses balance. */
  lemma ReprBalanced(t: Term, isOuter: bool)
    requires PlainLabels(t)
    ensures Count('(', Repr(t, isOuter)) == Count(')', Repr(t, isOuter))
  {
    ReprParens(t, isOuter, '(');
    ReprParens(t, isOuter, ')');
  }
}
