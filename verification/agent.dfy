/**
 * `BDIAgent` and its `BDIBehaviour` from spade_bdi/bdi.py, as one object: the
 * enable flag, the plan file, the intention buffer (a deque), the reasoning
 * engine it drives, and the two ends of the message transport.
 */
module Agent {
  import opened Wrappers
  import opened Terms
  import opened Errors
  import opened Beliefs
  import opened Router
  import opened PlanQuery
  import opened Outbound

  /**
   * The reasoning engine built from a plan file, as this layer sees it: its
   * belief groups and plans in iteration order, and a record of every `call`
   * it was given and how many times it was asked to `step`.
   */
  datatype Engine = Engine(name: string, beliefs: seq<Group>, plans: seq<seq<Plan>>, calls: seq<Update>, steps: nat)

  /**
   * The buffer a tick drains after routing: the old buffer plus the routed
   * update, or `None` when routing the polled message fails.
   */
  function AfterRouting(inbox: seq<InMsg>, buffer: seq<Update>, literalEval: string -> Option<Term>): Result<seq<Update>, Error>
  {
    if inbox == [] then Success(buffer)
    else match RouteMessage(inbox[0], literalEval)
      case Failure(e) => Failure(e)
      case Success(u) => Success(buffer + [u])
  }

  class BdiAgent {
    const jid: string
    var aslFile: Option<string>
    var enabled: bool
    var buffer: seq<Update>
    var engine: Option<Engine>
    /** Messages matching the `performative: BDI` template, not yet received. */
    var inbox: seq<InMsg>
    /** Messages handed to the transport, in order. */
    var outbox: seq<OutMsg>

    /** The fields `__init__` sets before loading the plan file. */
    constructor (jid: string, asl: string)
      ensures this.jid == jid && aslFile == Some(asl) && !enabled
      ensures buffer == [] && engine == None && inbox == [] && outbox == []
    {
      this.jid := jid;
      aslFile := Some(asl);
      enabled := false;
      buffer := [];
      engine := None;
      inbox := [];
      outbox := [];
    }

    method PauseBdi()
      modifies this`enabled
      ensures !enabled
    {
      enabled := false;
    }

    method ResumeBdi()
      modifies this`enabled
      ensures enabled
    {
      enabled := true;
    }

    /**
     * `_load_asl`: pause, then build an engine from the plan file.  `files`
     * maps each existing path to the engine its text builds, or to `None`
     * when the engine rejects it.  A missing file is logged, forgets the
     * path and leaves the agent paused; no path at all, or a rejected file,
     * raises and leaves it paused.
     */
    method LoadAsl(files: map<string, Option<Engine>>) returns (r: Outcome<Error>)
      modifies this`enabled, this`aslFile, this`engine
      ensures enabled <==> old(aslFile).Some? && old(aslFile).value in files && files[old(aslFile).value].Some?
      ensures enabled ==> engine == Some(files[old(aslFile).value].value.(name := jid)) && aslFile == old(aslFile)
      ensures !enabled ==> engine == old(engine)
      ensures old(aslFile).None? ==> r == Fail(AslFileUnset) && aslFile.None?
      ensures old(aslFile).Some? && old(aslFile).value !in files ==> r == Pass && aslFile.None?
      ensures old(aslFile).Some? && old(aslFile).value in files && files[old(aslFile).value].None? ==>
                r == Fail(BuildFailed(old(aslFile).value)) && aslFile == old(aslFile)
      ensures enabled ==> r == Pass
    {
      PauseBdi();
      if aslFile.None? {
        return Fail(AslFileUnset);
      }
      var path := aslFile.value;
      if path !in files {
        aslFile := None;
        PauseBdi();
        return Pass;
      }
      match files[path]
      case None =>
        return Fail(BuildFailed(path));
      case Some(built) =>
        engine := Some(built.(name := jid));
        ResumeBdi();
        return Pass;
    }

    /** `set_asl`: point at another plan file and load it. */
    method SetAsl(path: string, files: map<string, Option<Engine>>) returns (r: Outcome<Error>)
      modifies this`enabled, this`aslFile, this`engine
      ensures enabled <==> path in files && files[path].Some?
      ensures enabled ==> engine == Some(files[path].value.(name := jid)) && aslFile == Some(path)
      ensures !enabled ==> engine == old(engine)
      ensures path !in files ==> r == Pass && aslFile.None?
      ensures path in files && files[path].None? ==> r == Fail(BuildFailed(path)) && aslFile == Some(path)
      ensures enabled ==> r == Pass
    {
      aslFile := Some(path);
      r := LoadAsl(files);
    }

    /**
     * `set_belief`: queue the removal of every fact of the term's group that
     * does not unify with it, then its addition if none did.  The engine's
     * beliefs are only read.
     */
    method SetBelief(name: string, args: seq<Term>) returns (r: Outcome<Error>)
      modifies this`buffer
      ensures engine.None? ==> r == Fail(NoEngine) && buffer == old(buffer)
      ensures engine.Some? ==>
                var t := PerceptTerm(name, args);
                r == Pass && buffer == old(buffer) + SetBeliefUpdates(t, GroupFacts(engine.value.beliefs, SignatureOf(t)))
    {
      if engine.None? {
        return Fail(NoEngine);
      }
      var term := PerceptTerm(name, args);
      var facts := GroupFacts(engine.value.beliefs, SignatureOf(term));
      var found := false;
      for i := 0 to |facts|
        invariant found <==> SomeUnifies(term, facts[..i])
        invariant buffer == old(buffer) + Removals(term, facts[..i])
      {
        assert facts[..i + 1][..i] == facts[..i];
        assert facts[..i + 1] == facts[..i] + [facts[i]];
        if Unifies(term, facts[i]) {
          found := true;
        } else {
          buffer := buffer + [Update(Removal, Belief, facts[i])];
        }
      }
      assert facts[..|facts|] == facts;
      if !found {
        buffer := buffer + [Update(Addition, Belief, term)];
      }
      return Pass;
    }

    /** `remove_belief`: queue exactly one removal of the term, with no search. */
    method RemoveBelief(name: string, args: seq<Term>)
      modifies this`buffer
      ensures buffer == old(buffer) + [Update(Removal, Belief, PerceptTerm(name, args))]
    {
      buffer := buffer + [Update(Removal, Belief, PerceptTerm(name, args))];
    }

    /** `get_belief`: the loop over the engine's groups, returning at the first functor match. */
    method GetBelief(key: string, source: bool) returns (r: Result<Option<string>, Error>)
      ensures engine.None? ==> r == Failure(NoEngine)
      ensures engine.Some? ==> r == Lookup(engine.value.beliefs, key, source)
    {
      if engine.None? {
        return Failure(NoEngine);
      }
      var groups := engine.value.beliefs;
      for i := 0 to |groups|
        invariant Lookup(groups, key, source) == Lookup(groups[i..], key, source)
      {
        assert groups[i..][1..] == groups[i + 1..];
        if groups[i].sig.functor == key {
          if groups[i].facts == [] {
            return Failure(BeliefNotInitiated(key));
          }
          return Success(Some(RemoveSource(Show(groups[i].facts[0]), source)));
        }
      }
      return Success(None);
    }

    /**
     * `get_belief_value`: the comma-separated arguments of the belief's text;
     * `None` when there is no belief or its text is empty.
     */
    method GetBeliefValue(key: string) returns (r: Result<Option<seq<string>>, Error>)
      ensures engine.None? ==> r == Failure(NoEngine)
      ensures engine.Some? ==>
                var b := Lookup(engine.value.beliefs, key, false);
                (b.Failure? ==> r == Failure(b.error)) &&
                (b.Success? && (b.value.None? || b.value.value == "") ==> r == Success(None)) &&
                (b.Success? && b.value.Some? && b.value.value != "" ==>
                   match BeliefValue(b.value.value)
                   case Failure(e) => r == Failure(e)
                   case Success(parts) => r == Success(Some(parts)))
    {
      var belief := GetBelief(key, false);
      if belief.Failure? {
        return Failure(belief.error);
      }
      if belief.value.None? || belief.value.value == "" {
        return Success(None);
      }
      match BeliefValue(belief.value.value)
      case Failure(e) =>
        return Failure(e);
      case Success(parts) =>
        return Success(Some(parts));
    }

    /** `get_beliefs`: the stripped text of the first fact of every non-empty group, in order. */
    method GetBeliefs(source: bool) returns (r: Result<seq<string>, Error>)
      ensures engine.None? ==> r == Failure(NoEngine)
      ensures engine.Some? ==>
                var firsts := FirstFacts(engine.value.beliefs);
                r.Success? && |r.value| == |firsts| &&
                forall i :: 0 <= i < |firsts| ==> r.value[i] == RemoveSource(Show(firsts[i]), source)
    {
      if engine.None? {
        return Failure(NoEngine);
      }
      var groups := engine.value.beliefs;
      var texts: seq<string> := [];
      for i := 0 to |groups|
        invariant |texts| == |FirstFacts(groups[..i])|
        invariant forall k :: 0 <= k < |texts| ==> texts[k] == RemoveSource(Show(FirstFacts(groups[..i])[k]), source)
      {
        assert groups[..i + 1][..i] == groups[..i];
        if groups[i].facts != [] {
          texts := texts + [RemoveSource(Show(groups[i].facts[0]), source)];
        }
      }
      assert groups[..|groups|] == groups;
      return Success(texts);
    }

    /**
     * One tick of the mediation cycle.  Paused, it only idles.  Enabled, it
     * receives at most one message and routes it into the buffer; then every
     * buffered update, in order, is given to the engine's `call` and popped
     * from the front, and the engine takes one `step`.  A routing failure is
     * raised after the message was taken and before anything is queued,
     * called or stepped.
     */
    method Tick(literalEval: string -> Option<Term>) returns (r: Outcome<Error>)
      modifies this`inbox, this`buffer, this`engine
      ensures !old(enabled) ==> r == Pass && inbox == old(inbox) && buffer == old(buffer) && engine == old(engine)
      ensures old(enabled) ==> inbox == if old(inbox) == [] then [] else old(inbox)[1..]
      ensures old(enabled) ==>
                match AfterRouting(old(inbox), old(buffer), literalEval)
                case Failure(e) => r == Fail(e) && buffer == old(buffer) && engine == old(engine)
                case Success(pending) =>
                  if old(engine).None? then r == Fail(NoEngine) && buffer == pending && engine == None
                  else r == Pass && buffer == [] &&
                       engine == Some(old(engine).value.(calls := old(engine).value.calls + pending,
                                                        steps := old(engine).value.steps + 1))
    {
      if !enabled {
        return Pass;
      }
      ghost var routed := AfterRouting(inbox, buffer, literalEval);
      if inbox != [] {
        var msg := inbox[0];
        inbox := inbox[1..];
        match RouteMessage(msg, literalEval)
        case Failure(e) =>
          return Fail(e);
        case Success(u) =>
          buffer := buffer + [u];
      }
      assert routed == Success(buffer);
      if engine.None? {
        return Fail(NoEngine);
      }
      DrainAndStep();
      return Pass;
    }

    /**
     * The second half of an enabled tick: every update in a snapshot of the
     * buffer is given to `call` in order and popped from the front; nothing
     * can be appended meanwhile, so the buffer ends empty.  Then one `step`.
     */
    method DrainAndStep()
      requires engine.Some?
      modifies this`buffer, this`engine
      ensures buffer == []
      ensures engine == Some(old(engine).value.(calls := old(engine).value.calls + old(buffer),
                                                steps := old(engine).value.steps + 1))
    {
      var snapshot := buffer;
      ghost var before := engine.value;
      assert before.calls + snapshot[..0] == before.calls;
      for i := 0 to |snapshot|
        invariant buffer == snapshot[i..]
        invariant engine == Some(before.(calls := before.calls + snapshot[..i]))
      {
        assert snapshot[..i + 1] == snapshot[..i] + [snapshot[i]];
        assert before.calls + snapshot[..i + 1] == (before.calls + snapshot[..i]) + [buffer[0]];
        engine := Some(engine.value.(calls := engine.value.calls + [buffer[0]]));
        buffer := buffer[1..];
      }
      assert snapshot[..|snapshot|] == snapshot;
      engine := Some(engine.value.(steps := engine.value.steps + 1));
    }

    /** The transport delivering a message that matches the `performative: BDI` template. */
    method Deliver(msg: InMsg)
      modifies this`inbox
      ensures inbox == old(inbox) + [msg]
    {
      inbox := inbox + [msg];
    }

    /** The `.send` action: one message handed to the transport per receiver. */
    method Send(receivers: Term, ilf: Term, content: Term) returns (r: Outcome<Error>)
      modifies this`outbox
      ensures Fanout(receivers, ilf, content).Failure? ==>
                r == Fail(Fanout(receivers, ilf, content).error) && outbox == old(outbox)
      ensures Fanout(receivers, ilf, content).Success? ==>
                r == Pass && outbox == old(outbox) + Fanout(receivers, ilf, content).value
    {
      if !Ground(receivers) || !Ground(ilf) {
        return Fail(NotGrounded);
      }
      if !IsAtom(ilf) {
        return Fail(NotAnAtom);
      }
      if receivers.Int? {
        return Fail(NotAContainer);
      }
      var each := ReceiverList(receivers);
      var sent := outbox;
      for i := 0 to |each|
        invariant outbox == sent + seq(i, k requires 0 <= k < i => OutMsg(StrOf(each[k]), ilf.functor, AslStr(content)))
      {
        outbox := outbox + [OutMsg(StrOf(each[i]), ilf.functor, AslStr(content))];
      }
      return Pass;
    }

    /**
     * The plan query responder: find the requester, group the engine's plans
     * the query mentions, and send one tellHow per group key back to the requester.
     */
    method AskHow(term: Term) returns (r: Outcome<Error>)
      requires term.Literal? && engine.Some?
      modifies this`outbox
      ensures LastSource(term.annots).None? ==> r == Fail(MissingSource) && outbox == old(outbox)
      ensures LastSource(term.annots).Some? ==>
                match PlanQueryKeys(engine.value.plans, term)
                case Failure(e) => r == Fail(e) && outbox == old(outbox)
                case Success(keys) => r == Pass && outbox == old(outbox) + TellHows(LastSource(term.annots).value, keys)
    {
      var sender := FindSender(term);
      if sender.None? {
        return Fail(MissingSource);
      }
      var keys := GroupPlans(engine.value.plans, term);
      if keys.Failure? {
        return Fail(keys.error);
      }
      var sent := outbox;
      for i := 0 to |keys.value|
        invariant outbox == sent + TellHows(sender.value, keys.value[..i])
      {
        assert keys.value[..i + 1] == keys.value[..i] + [keys.value[i]];
        outbox := outbox + [OutMsg(sender.value, "tellHow", KeyText(keys.value[i]))];
      }
      assert keys.value[..|keys.value|] == keys.value;
      return Pass;
    }
  }
}
