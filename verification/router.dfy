/**
 * The performative router of the mediation tick (`run` in spade_bdi/bdi.py):
 * the illocutionary force picks a trigger and goal type, and the body becomes
 * the term of one mental update annotated with its sender.
 */
module Router {
  import opened Wrappers
  import opened Text
  import opened Terms
  import opened Errors
  import opened Literals

  /** An inbound message that matched the `performative: BDI` template. */
  datatype InMsg = InMsg(sender: string, body: string, metadata: map<string, string>)

  const ILF_TYPE := "ilf_type"

  /** The forces whose body travels as raw plan text. */
  const PLAIN_FORCES := {"tellHow", "askHow", "untellHow"}

  /** The forces that remove rather than add. */
  const REMOVING_FORCES := {"untell", "unachieve", "untellHow"}

  const KNOWN_FORCES := {"tell", "untell", "achieve", "unachieve", "tellHow", "untellHow", "askHow"}

  /** The fixed table from illocutionary force to (trigger, goal type); `None` for an unknown force. */
  function Route(force: string): (r: Option<(Trigger, GoalType)>)
    ensures r.Some? <==> force in KNOWN_FORCES
    ensures r.Some? ==> (r.value.0 == Removal <==> force in REMOVING_FORCES)
    ensures r.Some? ==> (r.value.1 == Belief <==> force in {"tell", "untell"})
    ensures r.Some? ==> (r.value.1 == Achievement <==> force in {"achieve", "unachieve"})
    ensures r.Some? ==> (r.value.1 == TellHow <==> force in {"tellHow", "untellHow"})
    ensures r.Some? ==> (r.value.1 == AskHow <==> force == "askHow")
    ensures r.Some? ==> r.value.1 != Test
  {
    if force == "tell" then Some((Addition, Belief))
    else if force == "untell" then Some((Removal, Belief))
    else if force == "achieve" then Some((Addition, Achievement))
    else if force == "unachieve" then Some((Removal, Achievement))
    else if force == "tellHow" then Some((Addition, TellHow))
    else if force == "untellHow" then Some((Removal, TellHow))
    else if force == "askHow" then Some((Addition, AskHow))
    else None
  }

  /** The three branches of the payload chain: plain text, the `askHow` override, a parsed literal. */
  datatype PayloadBranch = PlainTextBranch | AskHowOverrideBranch | ParsedBranch

  /**
   * The branch a force takes.  The `askHow` override branch comes after a test
   * that already catches `askHow`, so no force reaches it.
   */
  function Branch(force: string): (b: PayloadBranch)
    ensures b == PlainTextBranch <==> force in PLAIN_FORCES
    ensures b != AskHowOverrideBranch
  {
    if force in PLAIN_FORCES then PlainTextBranch
    else if force == "askHow" then AskHowOverrideBranch
    else ParsedBranch
  }

  /** The literal a plan-text body travels in. */
  function PlainText(body: string): Term
  {
    Literal("plain_text", [Str(body)], [])
  }

  /**
   * Routing one inbound message into one mental update: a missing `ilf_type`
   * or an unknown force fails, plan forces wrap the body unchanged, the other
   * forces decode it, and the term is annotated with `source(sender)`.
   */
  function RouteMessage(msg: InMsg, literalEval: string -> Option<Term>): (r: Result<Update, Error>)
    ensures ILF_TYPE !in msg.metadata ==> r == Failure(MissingKey(ILF_TYPE))
    ensures ILF_TYPE in msg.metadata && Route(msg.metadata[ILF_TYPE]).None? ==>
              r == Failure(UnknownForce(msg.metadata[ILF_TYPE]))
    ensures r.Success? ==>
              Route(msg.metadata[ILF_TYPE]) == Some((r.value.trigger, r.value.goalType)) &&
              r.value.term.Literal? && r.value.term.annots == [Annot(SOURCE, msg.sender)]
    ensures ILF_TYPE in msg.metadata && msg.metadata[ILF_TYPE] in PLAIN_FORCES ==>
              r.Success? && r.value.term == Literal("plain_text", [Str(msg.body)], [Annot(SOURCE, msg.sender)])
    ensures ILF_TYPE in msg.metadata && msg.metadata[ILF_TYPE] in KNOWN_FORCES - PLAIN_FORCES ==>
              var p := ParseLiteral(msg.body, literalEval);
              (r.Success? <==> p.Success?) &&
              (r.Success? ==> r.value.term.functor == p.value.functor && r.value.term.args == p.value.args) &&
              (r.Failure? ==> r.error == p.error)
  {
    if ILF_TYPE !in msg.metadata then Failure(MissingKey(ILF_TYPE))
    else
      var force := msg.metadata[ILF_TYPE];
      match Route(force)
      case None => Failure(UnknownForce(force))
      case Some((trigger, goalType)) =>
        var payload :=
          if Branch(force) == PlainTextBranch then Success(PlainText(msg.body))
          else match ParseLiteral(msg.body, literalEval)
            case Failure(e) => Failure(e)
            case Success(p) => Success(Literal(p.functor, p.args, []));
        match payload
        case Failure(e) => Failure(e)
        case Success(t) => Success(Update(trigger, goalType, WithAnnotation(t, Annot(SOURCE, msg.sender))))
  }
}
