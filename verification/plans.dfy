/**
 * The plan-query responder `_ask_how` of spade_bdi/bdi.py: who asked, and
 * which plan groups (trigger, goal type, functor, arity) it is told about.
 */
module PlanQuery {
  import opened Wrappers
  import opened Text
  import opened Terms
  import opened Errors

  /** The argument of the last `source` annotation in the term's annotation order, if any. */
  function LastSource(annots: seq<Annot>): Option<string>
  {
    if annots == [] then None
    else if annots[|annots| - 1].functor == SOURCE then Some(annots[|annots| - 1].arg)
    else LastSource(annots[..|annots| - 1])
  }

  /** No source annotation means no requester; otherwise the requester is named by the last one. */
  lemma {:induction false} LastSourceExact(annots: seq<Annot>)
    ensures LastSource(annots).None? <==> forall i :: 0 <= i < |annots| ==> annots[i].functor != SOURCE
    ensures LastSource(annots).Some? ==>
              exists i :: 0 <= i < |annots| && annots[i] == Annot(SOURCE, LastSource(annots).value) &&
                forall j :: i < j < |annots| ==> annots[j].functor != SOURCE
    decreases |annots|
  {
    if annots != [] && annots[|annots| - 1].functor != SOURCE {
      LastSourceExact(annots[..|annots| - 1]);
    }
  }

  /** The loop of `_ask_how` over the query's annotations, keeping the last `source` it meets. */
  method FindSender(term: Term) returns (sender: Option<string>)
    requires term.Literal?
    ensures sender == LastSource(term.annots)
  {
    sender := None;
    for i := 0 to |term.annots|
      invariant sender == LastSource(term.annots[..i])
    {
      assert term.annots[..i + 1][..i] == term.annots[..i];
      if term.annots[i].functor == SOURCE {
        sender := Some(term.annots[i].arg);
      }
    }
    assert term.annots[..|term.annots|] == term.annots;
  }

  /** A value Python's `in` can look into. */
  predicate IsContainer(c: Term)
  {
    c.Str? || c.List? || c.Tuple?
  }

  /** `functor in c`: a substring test on a string, a membership test on a list or tuple. */
  function Mentions(c: Term, functor: string): bool
    requires IsContainer(c)
  {
    if c.Str? then Occurs(functor, c.s) else Str(functor) in c.items
  }

  function KeyOf(p: Plan): (k: PlanKey)
    ensures k.trigger == p.trigger && k.goalType == p.goalType && k.functor == p.functor && k.arity == |p.args|
  {
    PlanKey(p.trigger, p.goalType, p.functor, |p.args|)
  }

  /** The plans of every signature, one list after the other. */
  function Flat(plans: seq<seq<Plan>>): seq<Plan>
  {
    if plans == [] then [] else Flat(plans[..|plans| - 1]) + plans[|plans| - 1]
  }

  /** The keys of the plans whose functor the query mentions, in plan order, repeats included. */
  function MatchingKeys(ps: seq<Plan>, c: Term): seq<PlanKey>
    requires IsContainer(c)
  {
    if ps == [] then []
    else
      var last := ps[|ps| - 1];
      MatchingKeys(ps[..|ps| - 1], c) + (if Mentions(c, last.functor) then [KeyOf(last)] else [])
  }

  /** A sequence with later repeats dropped: the keys of an insertion-ordered dict. */
  function Dedup<T(==)>(s: seq<T>): seq<T>
  {
    if s == [] then []
    else
      var d := Dedup(s[..|s| - 1]);
      var last := s[|s| - 1];
      if last in s[..|s| - 1] then d else d + [last]
  }

  /** Dedup keeps each element exactly once and nothing else. */
  lemma {:induction false} DedupExact<T>(s: seq<T>)
    ensures forall x :: x in Dedup(s) <==> x in s
    ensures forall i, j :: 0 <= i < j < |Dedup(s)| ==> Dedup(s)[i] != Dedup(s)[j]
    decreases |s|
  {
    if s != [] {
      var init := s[..|s| - 1];
      DedupExact(init);
      assert s == init + [s[|s| - 1]];
    }
  }

  /** Each key the query yields appears once, and a key appears iff some plan it mentions has it. */
  lemma PlanKeysExact(plans: seq<seq<Plan>>, term: Term)
    requires term.Literal? && PlanQueryKeys(plans, term).Success?
    ensures var keys := PlanQueryKeys(plans, term).value;
      (forall i, j :: 0 <= i < j < |keys| ==> keys[i] != keys[j]) &&
      forall k :: k in keys <==>
        exists p :: p in Flat(plans) && term.args != [] && IsContainer(term.args[0]) &&
          Mentions(term.args[0], p.functor) && KeyOf(p) == k
  {
    if Flat(plans) != [] {
      DedupExact(MatchingKeys(Flat(plans), term.args[0]));
      MatchingKeysExact(Flat(plans), term.args[0]);
    }
  }

  lemma {:induction false} MatchingKeysExact(ps: seq<Plan>, c: Term)
    requires IsContainer(c)
    ensures forall k :: k in MatchingKeys(ps, c) <==> exists p :: p in ps && Mentions(c, p.functor) && KeyOf(p) == k
    decreases |ps|
  {
    if ps != [] {
      var init := ps[..|ps| - 1];
      MatchingKeysExact(init, c);
      assert ps == init + [ps[|ps| - 1]];
    }
  }

  /**
   * The keys `_ask_how` tells about: the distinct keys of the plans whose
   * functor the query's first argument mentions, in first-seen order.  The
   * first argument is looked at once per plan, so a query without arguments
   * or with a non-container argument fails only when there is a plan at all.
   */
  function PlanQueryKeys(plans: seq<seq<Plan>>, term: Term): Result<seq<PlanKey>, Error>
    requires term.Literal?
  {
    if Flat(plans) == [] then Success([])
    else if term.args == [] then Failure(NoArgument)
    else if !IsContainer(term.args[0]) then Failure(NotAContainer)
    else Success(Dedup(MatchingKeys(Flat(plans), term.args[0])))
  }

  /** The grouping loop of `_ask_how`, over every plan of every signature. */
  method GroupPlans(plans: seq<seq<Plan>>, term: Term) returns (r: Result<seq<PlanKey>, Error>)
    requires term.Literal?
    ensures r == PlanQueryKeys(plans, term)
  {
    var keys: seq<PlanKey> := [];
    ghost var done: seq<Plan> := [];
    ghost var seen: seq<PlanKey> := [];
    ghost var ok := term.args != [] && IsContainer(term.args[0]);
    for i := 0 to |plans|
      invariant done == Flat(plans[..i])
      invariant !ok ==> done == [] && keys == []
      invariant ok ==> seen == MatchingKeys(done, term.args[0]) && keys == Dedup(seen)
    {
      FlatSnoc(plans, i);
      ghost var before := done;
      for j := 0 to |plans[i]|
        invariant done == before + plans[i][..j]
        invariant !ok ==> done == [] && keys == []
        invariant ok ==> seen == MatchingKeys(done, term.args[0]) && keys == Dedup(seen)
      {
        var plan := plans[i][j];
        if term.args == [] {
          FlatNonEmpty(plans, i, j);
          return Failure(NoArgument);
        }
        if !IsContainer(term.args[0]) {
          FlatNonEmpty(plans, i, j);
          return Failure(NotAContainer);
        }
        MatchingKeysSnoc(done, plan, term.args[0]);
        keys, seen := Collect(keys, seen, plan, term.args[0]);
        assert plans[i][..j + 1] == plans[i][..j] + [plan];
        done := done + [plan];
      }
      assert plans[i][..|plans[i]|] == plans[i];
    }
    assert plans[..|plans|] == plans;
    return Success(keys);
  }

  /** `plans_wanted[key].append(plan)` as far as the dict's keys go: a mentioned plan's key is added once. */
  method Collect(keys: seq<PlanKey>, ghost seen: seq<PlanKey>, plan: Plan, c: Term)
    returns (keys': seq<PlanKey>, ghost seen': seq<PlanKey>)
    requires IsContainer(c) && keys == Dedup(seen)
    ensures seen' == seen + (if Mentions(c, plan.functor) then [KeyOf(plan)] else [])
    ensures keys' == Dedup(seen')
  {
    keys', seen' := keys, seen;
    if Mentions(c, plan.functor) {
      var k := KeyOf(plan);
      DedupSnoc(seen, k);
      if k !in keys {
        keys' := keys + [k];
      }
      seen' := seen + [k];
    }
  }

  lemma FlatSnoc(plans: seq<seq<Plan>>, i: nat)
    requires i < |plans|
    ensures Flat(plans[..i + 1]) == Flat(plans[..i]) + plans[i]
  {
    assert plans[..i + 1][..i] == plans[..i];
  }

  lemma MatchingKeysSnoc(ps: seq<Plan>, p: Plan, c: Term)
    requires IsContainer(c)
    ensures MatchingKeys(ps + [p], c) == MatchingKeys(ps, c) + (if Mentions(c, p.functor) then [KeyOf(p)] else [])
  {
    assert (ps + [p])[..|ps|] == ps;
  }

  lemma DedupSnoc<T>(s: seq<T>, x: T)
    ensures x in Dedup(s) <==> x in s
    ensures Dedup(s + [x]) == if x in s then Dedup(s) else Dedup(s) + [x]
  {
    assert (s + [x])[..|s|] == s;
    DedupExact(s);
  }

  /** A plan at position (i, j) makes the flattened plans non-empty. */
  lemma FlatNonEmpty(plans: seq<seq<Plan>>, i: nat, j: nat)
    requires i < |plans| && j < |plans[i]|
    ensures Flat(plans) != []
  {
    FlatHas(plans, i, j);
  }

  lemma {:induction false} FlatHas(plans: seq<seq<Plan>>, i: nat, j: nat)
    requires i < |plans| && j < |plans[i]|
    ensures plans[i][j] in Flat(plans)
    decreases |plans|
  {
    if i < |plans| - 1 {
      FlatHas(plans[..|plans| - 1], i, j);
    }
  }
}
