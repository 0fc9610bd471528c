/**
 * The data the mediation layer exchanges with the reasoning engine: terms,
 * mental updates, belief groups and plans.  Terms are values: nothing in the
 * layer changes a term once built.
 */
module Terms {
  import opened Text

  /** An annotation such as `source(percept)` or `source(alice@host)`. */
  datatype Annot = Annot(functor: string, arg: string)

  /**
   * Any object that can stand as an argument of a literal: a literal with its
   * arguments and annotations (an atom is a literal without arguments), a
   * number, a string, a Python list (only before it is turned into a tuple),
   * a tuple, or an unbound variable.
   */
  datatype Term =
    | Literal(functor: string, args: seq<Term>, annots: seq<Annot>)
    | Int(i: int)
    | Str(s: string)
    | List(items: seq<Term>)
    | Tuple(items: seq<Term>)
    | Var

  datatype Trigger = Addition | Removal

  datatype GoalType = Belief | Achievement | Test | TellHow | AskHow

  /** One queued change to the agent's mental state; the fresh intention that goes with it carries nothing. */
  datatype Update = Update(trigger: Trigger, goalType: GoalType, term: Term)

  /** A literal group: functor and arity. */
  datatype Signature = Signature(functor: string, arity: nat)

  /** The facts the engine holds for one signature, in its iteration order. */
  datatype Group = Group(sig: Signature, facts: seq<Term>)

  /** A plan definition, as far as the plan query looks at it: its trigger, goal type and head. */
  datatype Plan = Plan(trigger: Trigger, goalType: GoalType, functor: string, args: seq<Term>)

  /** The key the plan query groups plans by. */
  datatype PlanKey = PlanKey(trigger: Trigger, goalType: GoalType, functor: string, arity: nat)

  const SOURCE := "source"

  /** The annotation every belief set through the belief API carries. */
  const PERCEPT_TAG := Annot(SOURCE, "percept")

  /** An atom: a literal without arguments. */
  predicate IsAtom(t: Term)
  {
    t.Literal? && t.args == []
  }

  /** The signature of a literal. */
  function SignatureOf(t: Term): (s: Signature)
    requires t.Literal?
    ensures s.functor == t.functor && s.arity == |t.args|
  {
    Signature(t.functor, |t.args|)
  }

  /**
   * The engine's unification test, reduced to what the belief API needs: the same
   * functor and arity, and at each position equal arguments or an unbound variable
   * on either side.  Annotations take no part.
   */
  predicate Unifies(a: Term, b: Term)
  {
    a.Literal? && b.Literal? && a.functor == b.functor && |a.args| == |b.args| &&
    forall i :: 0 <= i < |a.args| ==> a.args[i] == b.args[i] || a.args[i].Var? || b.args[i].Var?
  }

  /** `term.with_annotation(a)`: the annotation set gains `a`. */
  function WithAnnotation(t: Term, a: Annot): (r: Term)
    requires t.Literal?
    ensures r.Literal? && r.functor == t.functor && r.args == t.args
    ensures a in r.annots && forall b :: b in t.annots ==> b in r.annots
    ensures forall b :: b in r.annots ==> b == a || b in t.annots
  {
    if a in t.annots then t else t.(annots := t.annots + [a])
  }

  function DigitChar(d: nat): char
    requires d < 10
  {
    "0123456789"[d]
  }

  function ShowNat(n: nat): string
  {
    if n < 10 then [DigitChar(n)] else ShowNat(n / 10) + [DigitChar(n % 10)]
  }

  /**
   * The text the engine gives a term (`str(term)`): `f(a,b)[source(x)]` for a
   * literal, list brackets for lists and tuples, double quotes around strings.
   */
  function Show(t: Term): string
    decreases t
  {
    match t
    case Literal(f, args, annots) =>
      f + (if args == [] then "" else "(" + Join(seq(|args|, i requires 0 <= i < |args| => Show(args[i])), ',') + ")")
        + (if annots == [] then "" else "[" + AnnotsText(annots) + "]")
    case Int(i) => if i < 0 then "-" + ShowNat(-i) else ShowNat(i)
    case Str(s) => "\"" + s + "\""
    case List(xs) => "[" + Join(seq(|xs|, i requires 0 <= i < |xs| => Show(xs[i])), ',') + "]"
    case Tuple(xs) => "[" + Join(seq(|xs|, i requires 0 <= i < |xs| => Show(xs[i])), ',') + "]"
    case Var => "_"
  }

  function ShowAnnot(a: Annot): string
  {
    a.functor + "(" + a.arg + ")"
  }

  /** The annotations of a literal as shown between its brackets. */
  function AnnotsText(annots: seq<Annot>): string
  {
    Join(seq(|annots|, i requires 0 <= i < |annots| => ShowAnnot(annots[i])), ',')
  }

  /** `str(x)`: a string is its own text, anything else is shown. */
  function StrOf(t: Term): string
  {
    if t.Str? then t.s else Show(t)
  }
}
