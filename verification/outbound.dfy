/**
 * The outbound action bridge: the `.send` action of spade_bdi/bdi.py that the
 * reasoning engine invokes with receivers, a performative and a content term.
 */
module Outbound {
  import opened Wrappers
  import opened Terms
  import opened Errors

  /**
   * A message body.  Rendering a term with `asl_str` belongs to the engine, so
   * the body records the term it renders, or the plan key the query responder sends.
   */
  datatype Body = AslStr(t: Term) | KeyText(k: PlanKey)

  /** An outbound message with metadata `performative: BDI` and the given `ilf_type`. */
  datatype OutMsg = OutMsg(to: string, ilfType: string, body: Body)

  /** A term with no unbound variable anywhere in it. */
  predicate Ground(t: Term)
    decreases t
  {
    match t
    case Var => false
    case Literal(_, args, _) => forall i :: 0 <= i < |args| ==> Ground(args[i])
    case List(xs) => forall i :: 0 <= i < |xs| ==> Ground(xs[i])
    case Tuple(xs) => forall i :: 0 <= i < |xs| ==> Ground(xs[i])
    case _ => true
  }

  /** The receivers `_send` loops over: a lone string or literal is one receiver. */
  function ReceiverList(receivers: Term): seq<Term>
  {
    if receivers.Str? || receivers.Literal? then [receivers]
    else if receivers.List? || receivers.Tuple? then receivers.items
    else []
  }

  /**
   * The messages one `.send` emits: grounding either of the first two arguments
   * can fail; a performative that is not an atom makes the action return before
   * its `yield`, which fails the calling intention with nothing sent; otherwise one
   * message per receiver, in order, tagged with the performative's functor.
   */
  function Fanout(receivers: Term, ilf: Term, content: Term): (r: Result<seq<OutMsg>, Error>)
    ensures !Ground(receivers) || !Ground(ilf) <==> r == Failure(NotGrounded)
    ensures Ground(receivers) && Ground(ilf) && !IsAtom(ilf) ==> r == Failure(NotAnAtom)
    ensures r.Success? ==> IsAtom(ilf)
    ensures Ground(receivers) && Ground(ilf) && IsAtom(ilf) && receivers.Int? ==> r == Failure(NotAContainer)
    ensures Ground(receivers) && Ground(ilf) && IsAtom(ilf) && (receivers.Str? || receivers.Literal?) ==>
              r == Success([OutMsg(StrOf(receivers), ilf.functor, AslStr(content))])
    ensures Ground(receivers) && Ground(ilf) && IsAtom(ilf) && (receivers.List? || receivers.Tuple?) ==>
              r.Success? && |r.value| == |receivers.items| &&
              forall i :: 0 <= i < |r.value| ==> r.value[i] == OutMsg(StrOf(receivers.items[i]), ilf.functor, AslStr(content))
  {
    if !Ground(receivers) || !Ground(ilf) then Failure(NotGrounded)
    else if !IsAtom(ilf) then Failure(NotAnAtom)
    else if receivers.Int? then Failure(NotAContainer)
    else
      var rs := ReceiverList(receivers);
      var msgs := seq(|rs|, i requires 0 <= i < |rs| => OutMsg(StrOf(rs[i]), ilf.functor, AslStr(content)));
      assert |rs| == 1 ==> msgs == [msgs[0]];
      Success(msgs)
  }

  /** The tellHow messages the plan query responder sends, one per plan key. */
  function TellHows(requester: string, keys: seq<PlanKey>): (msgs: seq<OutMsg>)
    ensures |msgs| == |keys|
    ensures forall i :: 0 <= i < |keys| ==> msgs[i] == OutMsg(requester, "tellHow", KeyText(keys[i]))
  {
    seq(|keys|, i requires 0 <= i < |keys| => OutMsg(requester, "tellHow", KeyText(keys[i])))
  }
}
