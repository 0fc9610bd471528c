/**
 * The pure side of the belief facade in spade_bdi/bdi.py: stripping the source
 * annotation from a belief's text, splitting a belief's arguments, the updates
 * `set_belief` queues, and which facts `get_beliefs` reports.
 */
module Beliefs {
  import opened Wrappers
  import opened Text
  import opened Terms
  import opened Errors

  const SOURCE_MARK := ")[source"

  /**
   * `_remove_source`: unless the caller asks for the source, a text holding
   * `)[source` is cut before its first `[` and loses every double quote.
   */
  function RemoveSource(belief: string, source: bool): (r: string)
    ensures source || !Occurs(SOURCE_MARK, belief) ==> r == belief
    ensures !source && Occurs(SOURCE_MARK, belief) ==>
              r == RemoveChar(Before(belief, '['), '"') &&
              '[' !in r && '"' !in r && |r| <= |belief| &&
              forall ch :: ch in r ==> ch in belief
  {
    if Occurs(SOURCE_MARK, belief) && !source then RemoveChar(Before(belief, '['), '"') else belief
  }

  /** Stripping twice is stripping once. */
  lemma RemoveSourceIdempotent(belief: string, source: bool)
    ensures RemoveSource(RemoveSource(belief, source), source) == RemoveSource(belief, source)
  {
    var once := RemoveSource(belief, source);
    if !source && Occurs(SOURCE_MARK, belief) {
      assert SOURCE_MARK[1] == '[';
      NotOccurs(SOURCE_MARK, once, '[');
    }
  }

  /** The text of a literal without its annotations. */
  function Bare(t: Term): string
    requires t.Literal?
  {
    Show(t.(annots := []))
  }

  /**
   * For a literal with arguments whose first annotation is a source, stripping
   * its text keeps its bare text up to the first `[` with every `"` removed; when
   * the bare text holds neither, that is exactly the bare text.
   */
  lemma RemoveSourceOfShown(t: Term)
    requires t.Literal? && t.args != [] && t.annots != [] && t.annots[0].functor == SOURCE
    ensures RemoveSource(Show(t), false) == RemoveChar(Before(Bare(t), '['), '"')
    ensures '[' !in Bare(t) && '"' !in Bare(t) ==> RemoveSource(Show(t), false) == Bare(t)
  {
    var bare := Bare(t);
    var rest := "[" + AnnotsText(t.annots) + "]";
    ShownParts(t);
    AnnotsStartWithSource(t.annots);
    RemoveSourceAt(bare, rest);
  }

  /** A literal with arguments and annotations shows as its bare text, ending in `)`, then the bracketed annotations. */
  lemma ShownParts(t: Term)
    requires t.Literal? && t.args != [] && t.annots != []
    ensures Show(t) == Bare(t) + ("[" + AnnotsText(t.annots) + "]")
    ensures Bare(t) != [] && Bare(t)[|Bare(t)| - 1] == ')'
  {
    var shownArgs := seq(|t.args|, i requires 0 <= i < |t.args| => Show(t.args[i]));
    var bare := t.functor + "(" + Join(shownArgs, ',') + ")";
    assert Bare(t) == bare;
  }

  /** Annotations whose first is a source show as text starting with `[source`. */
  lemma AnnotsStartWithSource(annots: seq<Annot>)
    requires annots != [] && annots[0].functor == SOURCE
    ensures StartsWith("[" + AnnotsText(annots) + "]", "[" + SOURCE)
  {
    var shown := seq(|annots|, i requires 0 <= i < |annots| => ShowAnnot(annots[i]));
    var tail := AnnotsText(annots);
    var first := shown[0];
    assert first == SOURCE + ("(" + annots[0].arg + ")");
    JoinHead(shown, ',');
    assert tail[..|first|] == first;
    assert tail[..|SOURCE|] == first[..|SOURCE|] == SOURCE;
    var rest := "[" + tail + "]";
    assert rest[..|SOURCE| + 1] == "[" + SOURCE;
  }

  /** A text made of a part ending in `)`, then `[source...`, strips to that part cut at its first `[`, without quotes. */
  lemma RemoveSourceAt(bare: string, rest: string)
    requires bare != [] && bare[|bare| - 1] == ')'
    requires StartsWith(rest, "[" + SOURCE)
    ensures RemoveSource(bare + rest, false) == RemoveChar(Before(bare, '['), '"')
  {
    var s := bare + rest;
    var w := s[|bare| - 1..];
    assert w == [')'] + rest;
    assert w[..|SOURCE_MARK|] == SOURCE_MARK;
    OccursAt(SOURCE_MARK, s, |bare| - 1);
    assert rest[0] == '[';
    BeforeAppend(bare, rest, '[');
  }

  /**
   * A belief whose first argument is a list or a tuple (both shown with `[`) is
   * cut at that `[`: with a source annotation it strips to its functor and `(`,
   * e.g. `pos([1,2])` to `pos(`.
   */
  lemma ListArgumentCut(t: Term)
    requires t.Literal? && t.args != [] && (t.args[0].List? || t.args[0].Tuple?)
    requires t.annots != [] && t.annots[0].functor == SOURCE
    requires '[' !in t.functor && '"' !in t.functor
    ensures RemoveSource(Show(t), false) == t.functor + "("
  {
    RemoveSourceOfShown(t);
    var head := t.functor + "(";
    var rest := BareAfterParen(t);
    BeforeAppend(head, rest, '[');
    assert '[' !in head && '"' !in head;
  }

  /** The bare text of a literal whose first argument is a list or a tuple is its functor, `(`, then text starting with `[`. */
  lemma BareAfterParen(t: Term) returns (rest: string)
    requires t.Literal? && t.args != [] && (t.args[0].List? || t.args[0].Tuple?)
    ensures Bare(t) == t.functor + "(" + rest && rest != [] && rest[0] == '['
  {
    var shownArgs := seq(|t.args|, i requires 0 <= i < |t.args| => Show(t.args[i]));
    rest := Join(shownArgs, ',') + ")";
    assert Bare(t) == t.functor + "(" + rest;
    JoinHead(shownArgs, ',');
    assert shownArgs[0][0] == '[';
  }

  /** `pos([1,2])[source(percept)]` strips to `pos(`. */
  lemma ListBeliefCut()
    ensures RemoveSource(Show(Literal("pos", [List([Int(1), Int(2)])], [PERCEPT_TAG])), false) == "pos("
  {
    assert '[' !in "pos" && '"' !in "pos";
    ListArgumentCut(Literal("pos", [List([Int(1), Int(2)])], [PERCEPT_TAG]));
  }

  /** An atom belief with the percept source shows as `x[source(percept)]`. */
  lemma AtomShown()
    ensures Show(Literal("x", [], [PERCEPT_TAG])) == "x[source(percept)]"
  {
    var tag := AnnotsText([PERCEPT_TAG]);
    PerceptTagText();
    assert Show(Literal("x", [], [PERCEPT_TAG])) == "x" + ("[" + tag + "]");
    assert "x" + ("[" + "source(percept)" + "]") == "x[source(percept)]";
  }

  lemma PerceptTagText()
    ensures AnnotsText([PERCEPT_TAG]) == "source(percept)"
  {
    var annots := [PERCEPT_TAG];
    var shown := seq(|annots|, i requires 0 <= i < |annots| => ShowAnnot(annots[i]));
    assert ShowAnnot(PERCEPT_TAG) == "source(percept)";
    assert shown == [ShowAnnot(PERCEPT_TAG)];
  }

  /** `x[source(percept)]` holds no `)[source`: its only `)` is followed by `]`. */
  lemma AtomNoMark()
    ensures !Occurs(SOURCE_MARK, "x[source(percept)]")
  {
    var s := "x[source(percept)]";
    forall k | 0 <= k <= |s|
      ensures !StartsWith(s[k..], SOURCE_MARK)
    {
      if k + |SOURCE_MARK| <= |s| {
        assert s[k..][0] == s[k] != SOURCE_MARK[0];
      }
    }
    if Occurs(SOURCE_MARK, s) {
      OccursWitness(SOURCE_MARK, s);
      assert false;
    }
  }

  /** The argument text of `x[source(percept)]` is `percept`. */
  lemma AtomInner()
    ensures Inner("x[source(percept)]") == "percept"
  {
    AtomTextParts();
    InnerOf("x[source", "percept", ")]");
  }

  lemma AtomTextParts()
    ensures "x[source" + "(" + "percept" + ")]" == "x[source(percept)]"
    ensures '(' !in "x[source"
    ensures '(' !in "percept" && ')' !in "percept" && ',' !in "percept"
  {
  }

  /**
   * An atom belief is not stripped, and `get_belief_value` then reads its
   * source as its value: `("percept",)`.
   */
  lemma AtomBeliefKept()
    ensures Show(Literal("x", [], [PERCEPT_TAG])) == "x[source(percept)]"
    ensures RemoveSource("x[source(percept)]", false) == "x[source(percept)]"
    ensures BeliefValue("x[source(percept)]") == Success(["percept"])
  {
    AtomShown();
    AtomNoMark();
    AtomInner();
    AtomTextParts();
    SplitNone("percept", ',');
  }

  /**
   * `get_belief_value`'s parsing of a belief's text: the text between the first
   * `(` and the next `(` or `)`, split at commas; an `IndexError` without a `(`.
   */
  function BeliefValue(belief: string): (r: Result<seq<string>, Error>)
    ensures r.Failure? <==> '(' !in belief
    ensures r.Failure? ==> r.error == NoOpenParen
    ensures r.Success? ==>
              |r.value| >= 1 && Join(r.value, ',') == Inner(belief) &&
              forall p :: p in r.value ==> ',' !in p
  {
    if '(' !in belief then Failure(NoOpenParen)
    else
      var parts := Split(Inner(belief), ',');
      JoinSplit(Inner(belief), ',');
      SplitPieces(Inner(belief), ',');
      Success(parts)
  }

  /** The belief `set_belief(name, *args)` asserts: string arguments become atoms, the source is `percept`. */
  function PerceptTerm(name: string, args: seq<Term>): (t: Term)
    ensures t.Literal? && t.functor == name && |t.args| == |args| && t.annots == [PERCEPT_TAG]
    ensures forall i :: 0 <= i < |args| ==>
              if args[i].Str? then t.args[i] == Literal(args[i].s, [], []) else t.args[i] == args[i]
  {
    Literal(name, seq(|args|, i requires 0 <= i < |args| => if args[i].Str? then Literal(args[i].s, [], []) else args[i]), [PERCEPT_TAG])
  }

  /** `beliefs[sig]` on the engine's belief map: the facts of that signature, none when it is absent. */
  function GroupFacts(groups: seq<Group>, sig: Signature): seq<Term>
  {
    if groups == [] then []
    else if groups[0].sig == sig then groups[0].facts
    else GroupFacts(groups[1..], sig)
  }

  /** The removal records `set_belief` queues: one per fact that does not unify with `t`, in order. */
  function Removals(t: Term, facts: seq<Term>): seq<Update>
  {
    if facts == [] then []
    else
      var last := facts[|facts| - 1];
      Removals(t, facts[..|facts| - 1]) + (if Unifies(t, last) then [] else [Update(Removal, Belief, last)])
  }

  predicate SomeUnifies(t: Term, facts: seq<Term>)
  {
    exists f :: f in facts && Unifies(t, f)
  }

  /** All the records `set_belief` queues for `t` given the facts of its group. */
  function SetBeliefUpdates(t: Term, facts: seq<Term>): seq<Update>
  {
    Removals(t, facts) + (if SomeUnifies(t, facts) then [] else [Update(Addition, Belief, t)])
  }

  /**
   * The records are removals of exactly the non-unifying facts, in their order,
   * followed by one addition of `t` exactly when no fact unifies.
   */
  lemma {:induction false} SetBeliefRecords(t: Term, facts: seq<Term>)
    ensures var us := SetBeliefUpdates(t, facts);
      var n := |Removals(t, facts)|;
      n <= |facts| &&
      (forall k :: 0 <= k < n ==>
         us[k].trigger == Removal && us[k].goalType == Belief && us[k].term in facts && !Unifies(t, us[k].term)) &&
      (forall f :: f in facts && !Unifies(t, f) ==> Update(Removal, Belief, f) in us[..n]) &&
      (forall f :: multiset(us[..n])[Update(Removal, Belief, f)] == if Unifies(t, f) then 0 else multiset(facts)[f]) &&
      (forall k :: 0 <= k <= |facts| ==> Removals(t, facts[..k]) <= us[..n]) &&
      (|us| == n + 1 <==> !SomeUnifies(t, facts)) &&
      (|us| == n + 1 ==> us[n] == Update(Addition, Belief, t)) &&
      |us| <= n + 1
  {
    RemovalsExact(t, facts);
    RemovalsCount(t, facts);
    forall k | 0 <= k <= |facts|
      ensures Removals(t, facts[..k]) <= Removals(t, facts)
    {
      RemovalsPrefix(t, facts, k);
    }
    var us := SetBeliefUpdates(t, facts);
    assert us[..|Removals(t, facts)|] == Removals(t, facts);
  }

  /** Exactly one removal per copy of each non-unifying fact, and none for a unifying one. */
  lemma {:induction false} RemovalsCount(t: Term, facts: seq<Term>)
    ensures forall f :: multiset(Removals(t, facts))[Update(Removal, Belief, f)] ==
                          if Unifies(t, f) then 0 else multiset(facts)[f]
    decreases |facts|
  {
    if facts != [] {
      var init := facts[..|facts| - 1];
      var last := facts[|facts| - 1];
      RemovalsCount(t, init);
      assert facts == init + [last];
      assert multiset(facts) == multiset(init) + multiset{last};
      var tail := if Unifies(t, last) then [] else [Update(Removal, Belief, last)];
      assert Removals(t, facts) == Removals(t, init) + tail;
      assert multiset(Removals(t, facts)) == multiset(Removals(t, init)) + multiset(tail);
    }
  }

  /** The removals for a prefix of the facts come first: records keep the facts' order. */
  lemma {:induction false} RemovalsPrefix(t: Term, facts: seq<Term>, k: nat)
    requires k <= |facts|
    ensures Removals(t, facts[..k]) <= Removals(t, facts)
    decreases |facts| - k
  {
    if k < |facts| {
      var init := facts[..|facts| - 1];
      assert facts[..k] == init[..k];
      RemovalsPrefix(t, init, k);
    } else {
      assert facts[..k] == facts;
    }
  }

  lemma {:induction false} RemovalsExact(t: Term, facts: seq<Term>)
    ensures |Removals(t, facts)| <= |facts|
    ensures forall u :: u in Removals(t, facts) ==>
              u.trigger == Removal && u.goalType == Belief && u.term in facts && !Unifies(t, u.term)
    ensures forall f :: f in facts && !Unifies(t, f) ==> Update(Removal, Belief, f) in Removals(t, facts)
    decreases |facts|
  {
    if facts != [] {
      var init := facts[..|facts| - 1];
      RemovalsExact(t, init);
      assert facts == init + [facts[|facts| - 1]];
    }
  }

  /**
   * What the engine does with belief records for one group, taken literally: an
   * addition adds a fact not yet present, a removal drops every copy of the fact.
   */
  function ApplyOne(facts: seq<Term>, u: Update): seq<Term>
  {
    if u.trigger == Addition then (if u.term in facts then facts else facts + [u.term])
    else Without(facts, u.term)
  }

  function Without(facts: seq<Term>, x: Term): (r: seq<Term>)
    ensures forall y :: y in r <==> y in facts && y != x
  {
    if facts == [] then []
    else if facts[0] == x then Without(facts[1..], x)
    else [facts[0]] + Without(facts[1..], x)
  }

  function Applied(facts: seq<Term>, us: seq<Update>): seq<Term>
  {
    if us == [] then facts else ApplyOne(Applied(facts, us[..|us| - 1]), us[|us| - 1])
  }

  /**
   * "Single current value": once the records `set_belief` queued for `t` are
   * applied to its group, the group is non-empty and every fact in it unifies
   * with `t`; when no fact unified before, the group is exactly `[t]`.
   */
  lemma SetBeliefSingleValue(t: Term, facts: seq<Term>)
    requires t.Literal?
    ensures var after := Applied(facts, SetBeliefUpdates(t, facts));
      after != [] && (forall x :: x in after ==> Unifies(t, x)) &&
      (!SomeUnifies(t, facts) ==> after == [t])
  {
    var rs := Removals(t, facts);
    RemovalsKeepUnifying(t, facts, |facts|);
    assert facts[..|facts|] == facts;
    var mid := Applied(facts, rs);
    assert Unifies(t, t);
    if SomeUnifies(t, facts) {
      assert SetBeliefUpdates(t, facts) == rs;
      var f :| f in facts && Unifies(t, f);
      assert f in mid;
    } else {
      var us := SetBeliefUpdates(t, facts);
      assert us[..|us| - 1] == rs;
      assert forall x :: x !in mid;
      HeadIn(mid);
      assert Applied(facts, us) == [t];
    }
  }

  /**
   * The rule holds per drain only: two `set_belief` calls before the buffer is
   * drained both compute their records from the same group. Starting from an
   * empty group, two distinct values then both end up in it.
   */
  lemma {:induction false} StaleGroupKeepsBoth(t1: Term, t2: Term)
    requires t1.Literal? && t2.Literal? && t1 != t2
    ensures Applied([], SetBeliefUpdates(t1, []) + SetBeliefUpdates(t2, [])) == [t1, t2]
  {
    var us := SetBeliefUpdates(t1, []) + SetBeliefUpdates(t2, []);
    assert us == [Update(Addition, Belief, t1), Update(Addition, Belief, t2)];
    assert us[..1] == [Update(Addition, Belief, t1)];
    assert Applied([], us[..1]) == [t1];
  }

  /** `set_belief("k", 1)` then `set_belief("k", 2)` in one tick leaves `k(1)` and `k(2)`, which do not unify. */
  lemma TwoCallsBeforeDrain()
    ensures var t1 := PerceptTerm("k", [Int(1)]);
      var t2 := PerceptTerm("k", [Int(2)]);
      Applied([], SetBeliefUpdates(t1, []) + SetBeliefUpdates(t2, [])) == [t1, t2] && !Unifies(t2, t1)
  {
    var t1 := PerceptTerm("k", [Int(1)]);
    var t2 := PerceptTerm("k", [Int(2)]);
    assert t1.args[0] == Int(1) && t2.args[0] == Int(2);
    StaleGroupKeepsBoth(t1, t2);
  }

  lemma HeadIn(s: seq<Term>)
    ensures s == [] || s[0] in s
  {
  }

  /**
   * After the removals for the first `i` facts: what remains comes from `facts`,
   * every remaining one of the first `i` unifies, and every unifying fact remains.
   */
  lemma {:induction false} RemovalsKeepUnifying(t: Term, facts: seq<Term>, i: nat)
    requires i <= |facts|
    ensures forall x :: x in Applied(facts, Removals(t, facts[..i])) ==> x in facts
    ensures forall x :: x in Applied(facts, Removals(t, facts[..i])) && x in facts[..i] ==> Unifies(t, x)
    ensures forall x :: x in facts && Unifies(t, x) ==> x in Applied(facts, Removals(t, facts[..i]))
    decreases i
  {
    if i > 0 {
      RemovalsKeepUnifying(t, facts, i - 1);
      var p := facts[..i];
      var last := facts[i - 1];
      assert p[..|p| - 1] == facts[..i - 1];
      assert p[|p| - 1] == last;
      var rs := Removals(t, facts[..i - 1]);
      var s0 := Applied(facts, rs);
      assert forall x :: x in p <==> x in facts[..i - 1] || x == last;
      if !Unifies(t, last) {
        var u := Update(Removal, Belief, last);
        assert Removals(t, p) == rs + [u];
        assert (rs + [u])[..|rs|] == rs;
        assert Applied(facts, rs + [u]) == Without(s0, last);
      } else {
        assert Removals(t, p) == rs;
      }
    }
  }

  /**
   * What `get_belief(key, source)` answers: nothing when no group has functor
   * `key`; `BeliefNotInitiated` when the first such group is empty; else the
   * stripped text of that group's first fact.
   */
  function Lookup(groups: seq<Group>, key: string, source: bool): Result<Option<string>, Error>
  {
    if groups == [] then Success(None)
    else if groups[0].sig.functor == key then
      if groups[0].facts == [] then Failure(BeliefNotInitiated(key))
      else Success(Some(RemoveSource(Show(groups[0].facts[0]), source)))
    else Lookup(groups[1..], key, source)
  }

  /**
   * Only the first group with the functor decides, whatever later groups of
   * another arity hold, and an absent functor is not an error.
   */
  lemma {:induction false} LookupExact(groups: seq<Group>, key: string, source: bool)
    ensures (forall i :: 0 <= i < |groups| ==> groups[i].sig.functor != key) ==> Lookup(groups, key, source) == Success(None)
    ensures forall i ::
              (0 <= i < |groups| && groups[i].sig.functor == key &&
               (forall j :: 0 <= j < i ==> groups[j].sig.functor != key)) ==>
              Lookup(groups, key, source) ==
                if groups[i].facts == [] then Failure(BeliefNotInitiated(key))
                else Success(Some(RemoveSource(Show(groups[i].facts[0]), source)))
  {
    if forall i :: 0 <= i < |groups| ==> groups[i].sig.functor != key {
      LookupAbsent(groups, key, source);
    }
    forall i | 0 <= i < |groups| && groups[i].sig.functor == key &&
               (forall j :: 0 <= j < i ==> groups[j].sig.functor != key)
      ensures Lookup(groups, key, source) ==
                if groups[i].facts == [] then Failure(BeliefNotInitiated(key))
                else Success(Some(RemoveSource(Show(groups[i].facts[0]), source)))
    {
      LookupAt(groups, key, source, i);
    }
  }

  lemma {:induction false} LookupAbsent(groups: seq<Group>, key: string, source: bool)
    requires forall i :: 0 <= i < |groups| ==> groups[i].sig.functor != key
    ensures Lookup(groups, key, source) == Success(None)
    decreases |groups|
  {
    if groups != [] {
      assert forall i :: 0 <= i < |groups| - 1 ==> groups[1..][i] == groups[i + 1];
      LookupAbsent(groups[1..], key, source);
    }
  }

  lemma {:induction false} LookupAt(groups: seq<Group>, key: string, source: bool, i: nat)
    requires i < |groups| && groups[i].sig.functor == key
    requires forall j :: 0 <= j < i ==> groups[j].sig.functor != key
    ensures Lookup(groups, key, source) ==
              if groups[i].facts == [] then Failure(BeliefNotInitiated(key))
              else Success(Some(RemoveSource(Show(groups[i].facts[0]), source)))
    decreases i
  {
    if i > 0 {
      assert groups[1..][i - 1] == groups[i];
      assert forall j :: 0 <= j < i - 1 ==> groups[1..][j] == groups[j + 1];
      LookupAt(groups[1..], key, source, i - 1);
    }
  }

  /** The first fact of every group that holds one, in the engine's order: what `get_beliefs` reports. */
  function FirstFacts(groups: seq<Group>): seq<Term>
  {
    if groups == [] then []
    else
      var last := groups[|groups| - 1];
      FirstFacts(groups[..|groups| - 1]) + (if last.facts == [] then [] else [last.facts[0]])
  }

  function NonEmptyCount(groups: seq<Group>): nat
  {
    if groups == [] then 0
    else NonEmptyCount(groups[1..]) + (if groups[0].facts == [] then 0 else 1)
  }

  /** One entry per non-empty group, and nothing but first facts of non-empty groups. */
  lemma {:induction false} FirstFactsExact(groups: seq<Group>)
    ensures |FirstFacts(groups)| == NonEmptyCount(groups)
    ensures forall x :: x in FirstFacts(groups) <==>
              exists i :: 0 <= i < |groups| && groups[i].facts != [] && groups[i].facts[0] == x
    decreases |groups|
  {
    if groups != [] {
      var init := groups[..|groups| - 1];
      var last := groups[|groups| - 1];
      FirstFactsExact(init);
      NonEmptyCountSnoc(init, last);
      assert groups == init + [last];
      var firsts := FirstFacts(groups);
      assert firsts == FirstFacts(init) + (if last.facts == [] then [] else [last.facts[0]]);
      forall x | x in firsts
        ensures exists i :: 0 <= i < |groups| && groups[i].facts != [] && groups[i].facts[0] == x
      {
        if x in FirstFacts(init) {
          var i :| 0 <= i < |init| && init[i].facts != [] && init[i].facts[0] == x;
          assert groups[i] == init[i];
        } else {
          assert groups[|groups| - 1].facts != [] && groups[|groups| - 1].facts[0] == x;
        }
      }
      forall x | exists i :: 0 <= i < |groups| && groups[i].facts != [] && groups[i].facts[0] == x
        ensures x in firsts
      {
        var i :| 0 <= i < |groups| && groups[i].facts != [] && groups[i].facts[0] == x;
        if i < |init| {
          assert init[i] == groups[i];
        }
      }
    }
  }

  lemma {:induction false} NonEmptyCountSnoc(groups: seq<Group>, g: Group)
    ensures NonEmptyCount(groups + [g]) == NonEmptyCount(groups) + (if g.facts == [] then 0 else 1)
    decreases |groups|
  {
    if groups != [] {
      assert (groups + [g])[1..] == groups[1..] + [g];
      NonEmptyCountSnoc(groups[1..], g);
    }
  }
}
