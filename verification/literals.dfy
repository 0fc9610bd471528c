/**
 * Decoding a message body into a literal (`parse_literal` and its inner
 * `recursion`), spade_bdi/bdi.py.  Python's `literal_eval` is a parameter: a
 * partial parser from text to a term, `None` where it raises.
 */
module Literals {
  import opened Wrappers
  import opened Text
  import opened Terms
  import opened Errors

  /** Functor and arguments, as `parse_literal` returns them. */
  datatype Parsed = Parsed(functor: string, args: seq<Term>)

  /**
   * `recursion`: a list becomes a tuple of its converted elements, in order;
   * anything else, a tuple and its contents included, is returned as it is.
   */
  function Recursion(v: Term): (r: Term)
    ensures !r.List?
    ensures !v.List? ==> r == v
    ensures v.List? ==>
              r.Tuple? && |r.items| == |v.items| &&
              forall i :: 0 <= i < |v.items| ==> r.items[i] == Recursion(v.items[i])
    decreases v
  {
    match v
    case List(xs) => Tuple(seq(|xs|, i requires 0 <= i < |xs| => Recursion(xs[i])))
    case _ => v
  }

  /** A value built from numbers, strings and lists only. */
  predicate ListNested(v: Term)
    decreases v
  {
    match v
    case Int(_) => true
    case Str(_) => true
    case List(xs) => forall i :: 0 <= i < |xs| ==> ListNested(xs[i])
    case _ => false
  }

  /** A value built from numbers, strings and tuples only. */
  predicate TupleNested(v: Term)
    decreases v
  {
    match v
    case Int(_) => true
    case Str(_) => true
    case Tuple(xs) => forall i :: 0 <= i < |xs| ==> TupleNested(xs[i])
    case _ => false
  }

  /** The reverse conversion: every tuple becomes a list. */
  function Listify(v: Term): Term
    decreases v
  {
    match v
    case Tuple(xs) => List(seq(|xs|, i requires 0 <= i < |xs| => Listify(xs[i])))
    case _ => v
  }

  /** On lists of lists, `recursion` converts every level and loses nothing. */
  lemma {:induction false} RecursionRoundTrip(v: Term)
    requires ListNested(v)
    ensures TupleNested(Recursion(v))
    ensures Listify(Recursion(v)) == v
    decreases v
  {
    match v
    case List(xs) =>
      forall i | 0 <= i < |xs|
        ensures TupleNested(Recursion(xs[i])) && Listify(Recursion(xs[i])) == xs[i]
      {
        RecursionRoundTrip(xs[i]);
      }
      var r := Recursion(v);
      assert Listify(r).items == xs;
    case Int(_) =>
    case Str(_) =>
  }

  /** And every tuple-of-tuples value is what `recursion` makes of its list form. */
  lemma {:induction false} ListifyRoundTrip(w: Term)
    requires TupleNested(w)
    ensures ListNested(Listify(w))
    ensures Recursion(Listify(w)) == w
    decreases w
  {
    match w
    case Tuple(xs) =>
      forall i | 0 <= i < |xs|
        ensures ListNested(Listify(xs[i])) && Recursion(Listify(xs[i])) == xs[i]
      {
        ListifyRoundTrip(xs[i]);
      }
      var l := Listify(w);
      assert Recursion(l).items == xs;
    case Int(_) =>
    case Str(_) =>
  }

  /** `re.search("^_X_*", text)` succeeds: the text starts with `_X`. */
  predicate IsVarMarker(text: string)
  {
    |text| >= 2 && text[0] == '_' && text[1] == 'X'
  }

  /**
   * `parse_literal(msg)`: the functor is the text before the first `(`; without a
   * `(` there are no arguments; otherwise the single argument is a fresh variable
   * when the argument text starts with `_X`, else the converted `literal_eval` of it.
   */
  function ParseLiteral(msg: string, literalEval: string -> Option<Term>): (r: Result<Parsed, Error>)
    ensures r.Success? ==>
              '(' !in r.value.functor && StartsWith(msg, r.value.functor) &&
              (|r.value.functor| < |msg| ==> msg[|r.value.functor|] == '(')
    ensures '(' !in msg ==> r == Success(Parsed(msg, []))
    ensures '(' in msg && r.Success? ==> |r.value.args| == 1 && !r.value.args[0].List?
    ensures '(' in msg && IsVarMarker(Inner(msg)) ==> r.Success? && r.value.args == [Var]
    ensures r.Failure? <==>
      '(' in msg && !IsVarMarker(Inner(msg)) && literalEval(Inner(msg)).None?
    ensures r.Failure? ==> r.error == LiteralEvalFailed(Inner(msg))
    ensures '(' in msg && !IsVarMarker(Inner(msg)) && literalEval(Inner(msg)).Some? ==>
              r == Success(Parsed(Before(msg, '('), [Recursion(literalEval(Inner(msg)).value)]))
  {
    var functor := Before(msg, '(');
    if '(' !in msg then
      Success(Parsed(functor, []))
    else
      var text := Inner(msg);
      if IsVarMarker(text) then
        Success(Parsed(functor, [Var]))
      else
        match literalEval(text)
        case None => Failure(LiteralEvalFailed(text))
        case Some(v) => Success(Parsed(functor, [Recursion(v)]))
  }

  /**
   * A body whose argument text `literal_eval` reads as numbers, strings and
   * nested lists decodes to one argument made of tuples, from which the
   * evaluated value can be recovered.
   */
  lemma ParseLiteralKeepsValue(msg: string, literalEval: string -> Option<Term>)
    requires '(' in msg && !IsVarMarker(Inner(msg))
    requires literalEval(Inner(msg)).Some? && ListNested(literalEval(Inner(msg)).value)
    ensures var r := ParseLiteral(msg, literalEval);
      r.Success? && |r.value.args| == 1 && TupleNested(r.value.args[0]) &&
      Listify(r.value.args[0]) == literalEval(Inner(msg)).value
  {
    RecursionRoundTrip(literalEval(Inner(msg)).value);
  }
}
