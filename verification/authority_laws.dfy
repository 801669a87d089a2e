/** What folding team layers over an org layer guarantees, for any number of layers and entries. */
module AuthorityLaws {
  import opened Authority
  import opened Options

  // ---------------------------------------------------------------------------------------------
  // The comparisons mean what the rule's order says
  // ---------------------------------------------------------------------------------------------

  lemma {:induction false} IndexFinds(values: seq<string>, s: string)
    ensures Index(values, s) <= |values|
    ensures s in values <==> Index(values, s) < |values|
    ensures s in values ==> values[Index(values, s)] == s
    decreases |values|
  {
    if values != [] && values[0] != s {
      IndexFinds(values[1..], s);
      assert s in values <==> s in values[1..];
    }
  }

  lemma IndexOrder(values: seq<string>, a: string, b: string)
    requires Unique(values) && a in values && b in values
    ensures Index(values, a) <= Index(values, b) <==> Precedes(values, a, b)
  {
    hide Index;
    IndexFinds(values, a);
    IndexFinds(values, b);
    if Precedes(values, a, b) {
      var i, j :| 0 <= i <= j < |values| && values[i] == a && values[j] == b;
      assert i == Index(values, a) && j == Index(values, b);
    }
  }

  /** Some entry of the list is itself a list or an object. */
  predicate Nests(items: seq<Atom>) {
    exists i | 0 <= i < |items| :: items[i].Nested?
  }

  /** The comparison raises exactly for a list with an entry that cannot be put in a set; otherwise it holds exactly
      when the attempt is at least as tight as the current value, or inside the bounds of an adjustable rule. */
  lemma WithinIff(r: Rule, attempted: Value, current: Value)
    requires ValidRule(r) && !r.delegation.Locked?
    ensures var w := WithinEnvelope(r, attempted, current);
            && (w.None?
                <==> (r.kind.MustInclude? || r.kind.MayChooseFrom?) && attempted.List? && Nests(attempted.items))
            && (w.Some? ==> (w.value <==> if r.delegation.TightenOnly? then AtLeastAsTight(r.kind, attempted, current)
                                          else InEnvelope(r.kind, attempted)))
  {
    hide Index, SetOf, Precedes, Covers, Unique;
    if attempted.List? {
      assert Hashable(attempted.items) <==> !Nests(attempted.items);
      if r.kind.MustInclude? || r.kind.MayChooseFrom? {
        CoversIff(attempted.items, r.kind.entries);
        CoversIff(r.kind.entries, attempted.items);
      }
      if current.List? {
        CoversIff(attempted.items, current.items);
        CoversIff(current.items, attempted.items);
      }
    }
    if r.kind.OrderedEnum? {
      var values, loosest := r.kind.values, r.kind.loosest;
      PrecedesNeedsBoth(values);
      if attempted.Str? && attempted.s in values {
        IndexOrder(values, attempted.s, loosest);
        if current.Str? && current.s in values {
          IndexOrder(values, attempted.s, current.s);
        }
      }
    }
  }

  lemma PrecedesNeedsBoth(values: seq<string>)
    ensures forall a, b :: Precedes(values, a, b) ==> a in values && b in values
  {
  }

  lemma TightReflexive(r: Rule)
    requires ValidRule(r)
    ensures AtLeastAsTight(r.kind, r.value, r.value)
  {
    if r.kind.OrderedEnum? {
      var i :| 0 <= i < |r.kind.values| && r.kind.values[i] == r.value.s;
      assert Precedes(r.kind.values, r.value.s, r.value.s);
    } else if r.value.List? {
      CoversIff(r.value.items, r.value.items);
    }
  }

  lemma TightTransitive(k: Kind, u: Value, v: Value, w: Value)
    requires k.OrderedEnum? ==> Unique(k.values)
    requires AtLeastAsTight(k, u, v) && AtLeastAsTight(k, v, w)
    ensures AtLeastAsTight(k, u, w)
  {
    hide Covers, SetOf;
    if u.List? {
      CoversIff(u.items, v.items);
      CoversIff(v.items, w.items);
      CoversIff(u.items, w.items);
      CoversIff(v.items, u.items);
      CoversIff(w.items, v.items);
      CoversIff(w.items, u.items);
    }
  }

  /** What becomes of an entry, against the values folded so far: the first of the four objections that applies, and
      otherwise it is accepted, exactly when it is at least as tight as the value so far, or inside the bounds of an
      adjustable rule. */
  lemma JudgedIff(org: OrgLayer, values: map<string, Value>, a: Attempt)
    requires ValidOrg(org) && values.Keys == org.rules.Keys
    ensures var j := Judge(org, values, a);
            && (j == Refused(UnknownRule) <==> a.id !in org.rules)
            && (j == Refused(NeverListed) <==> a.id in org.rules && a.id in org.never)
            && (j == Refused(IsLocked) <==>
                  a.id in org.rules && a.id !in org.never && org.rules[a.id].delegation == Locked)
            && (a.id in org.rules && a.id !in org.never && org.rules[a.id].delegation != Locked ==>
                  var r := org.rules[a.id];
                  var raises := (r.kind.MustInclude? || r.kind.MayChooseFrom?) && a.value.List? && Nests(a.value.items);
                  var fits := if r.delegation == TightenOnly then AtLeastAsTight(r.kind, a.value, values[a.id])
                              else InEnvelope(r.kind, a.value);
                  && (j == Raises <==> raises)
                  && (j == Accepted <==> !raises && fits)
                  && (j == Refused(OutsideEnvelope) <==> !raises && !fits))
  {
    hide WithinEnvelope, AtLeastAsTight, InEnvelope, ValidRule, Nests;
    if a.id in org.rules && a.id !in org.never && org.rules[a.id].delegation != Locked {
      assert ValidRule(org.rules[a.id]);
      WithinIff(org.rules[a.id], a.value, values[a.id]);
    }
  }

  // ---------------------------------------------------------------------------------------------
  // Where a folded value can end
  // ---------------------------------------------------------------------------------------------

  predicate Untouchable(org: OrgLayer, id: string) {
    id in org.rules && (id in org.never || org.rules[id].delegation.Locked?)
  }

  /** The promise for one rule: what its value may be after any number of team layers. */
  predicate Allowed(org: OrgLayer, id: string, v: Value)
    requires id in org.rules
  {
    var r := org.rules[id];
    if Untouchable(org, id) then v == r.value
    else if r.delegation.TightenOnly? then AtLeastAsTight(r.kind, v, r.value)
    else v == r.value || InEnvelope(r.kind, v)
  }

  /** Locked and never-listed rules keep the org value, tighten-only rules end at least as tight as it, adjustable
      rules end inside their envelope or at it; and no team layer adds or removes a rule. */
  lemma {:induction false} FoldOnlyTightens(org: OrgLayer, attempts: seq<Attempt>)
    requires ValidOrg(org) && ApplyAll(org, attempts).Resolved?
    ensures var values := ApplyAll(org, attempts).values;
            values.Keys == org.rules.Keys && forall id | id in org.rules :: Allowed(org, id, values[id])
    decreases |attempts|
  {
    hide WithinEnvelope, AtLeastAsTight, InEnvelope, ValidRule;
    if attempts == [] {
      forall id | id in org.rules ensures Allowed(org, id, Seed(org)[id]) {
        assert ValidRule(org.rules[id]);
        TightReflexive(org.rules[id]);
      }
    } else {
      var a := attempts[|attempts| - 1];
      var before := ApplyAll(org, attempts[..|attempts| - 1]);
      FoldOnlyTightens(org, attempts[..|attempts| - 1]);
      if Judge(org, before.values, a).Accepted? {
        AcceptedIsAllowed(org, a, before.values[a.id]);
      }
    }
  }

  lemma AcceptedIsAllowed(org: OrgLayer, a: Attempt, current: Value)
    requires ValidOrg(org) && a.id in org.rules && Allowed(org, a.id, current) && !Untouchable(org, a.id)
    requires WithinEnvelope(org.rules[a.id], a.value, current) == Some(true)
    ensures Allowed(org, a.id, a.value)
  {
    hide WithinEnvelope, AtLeastAsTight, InEnvelope;
    var r := org.rules[a.id];
    assert ValidRule(r);
    WithinIff(r, a.value, current);
    if r.delegation.TightenOnly? {
      TightTransitive(r.kind, a.value, current, r.value);
    }
  }

  /** A valid org value lies inside its own envelope, except that the position of an enum value is not compared with
      the loosest one allowed. */
  lemma OrgValueInEnvelopeIff(r: Rule)
    requires ValidRule(r)
    ensures InEnvelope(r.kind, r.value)
            <==> (r.kind.OrderedEnum? ==> Index(r.kind.values, r.value.s) <= Index(r.kind.values, r.kind.loosest))
  {
    hide Index, Precedes, Covers, SetOf;
    if r.kind.OrderedEnum? {
      IndexOrder(r.kind.values, r.value.s, r.kind.loosest);
    } else if r.value.List? {
      CoversIff(r.value.items, if r.kind.MustInclude? || r.kind.MayChooseFrom? then r.kind.entries else []);
      CoversIff(if r.kind.MustInclude? || r.kind.MayChooseFrom? then r.kind.entries else [], r.value.items);
    }
  }

  predicate TightenOnlyNumber(org: OrgLayer, id: string) {
    id in org.rules && id !in org.never && org.rules[id].delegation.TightenOnly? && org.rules[id].kind.Numeric?
  }

  /** A number beyond the bound on the tight side. */
  predicate PassesBound(k: Kind, v: Value) {
    k.Numeric? && v.Num? && if k.lowerIsTighter then v.r < k.min else v.r > k.max
  }

  /** A tighten-only number is not held to `min` and `max`: after any layers it is out of its bounds exactly when some
      entry offered it a number beyond the bound on its tight side. */
  lemma {:induction false} TightenOnlyInBoundsIff(org: OrgLayer, attempts: seq<Attempt>, id: string)
    requires ValidOrg(org) && ApplyAll(org, attempts).Resolved? && TightenOnlyNumber(org, id)
    ensures var k, values := org.rules[id].kind, ApplyAll(org, attempts).values;
            && id in values && values[id].Num? && AtLeastAsTight(k, values[id], org.rules[id].value)
            && (PassesBound(k, values[id]) <==> exists i | 0 <= i < |attempts| ::
                  attempts[i].id == id && PassesBound(k, attempts[i].value))
            && (k.min <= values[id].r <= k.max <==> !PassesBound(k, values[id]))
    decreases |attempts|
  {
    assert ValidRule(org.rules[id]);
    if attempts != [] {
      var n := |attempts| - 1;
      TightenOnlyInBoundsIff(org, attempts[..n], id);
      assert forall i | 0 <= i < n :: attempts[i] == attempts[..n][i];
    }
  }

  /** And it does pass: one entry is enough to bring such a rule to any number that is at least as tight as the org's,
      however far outside the bounds. */
  lemma TightenOnlyReachesAny(org: OrgLayer, id: string, v: real)
    requires ValidOrg(org) && TightenOnlyNumber(org, id)
    requires AtLeastAsTight(org.rules[id].kind, Num(v), org.rules[id].value)
    ensures ApplyAll(org, [Attempt(0, id, Num(v))]) == Resolved(Seed(org)[id := Num(v)], [])
  {
    var a := Attempt(0, id, Num(v));
    assert ValidRule(org.rules[id]);
    ApplyStep(org, [], a);
    NothingApplied(org);
    assert [] + [a] == [a];
    WithinIff(org.rules[id], Num(v), org.rules[id].value);
  }

  // ---------------------------------------------------------------------------------------------
  // Refusals
  // ---------------------------------------------------------------------------------------------

  /** An entry whose comparison raises, whatever was folded before it. */
  predicate Unhashable(org: OrgLayer, a: Attempt) {
    && a.id in org.rules && a.id !in org.never && !org.rules[a.id].delegation.Locked?
    && (org.rules[a.id].kind.MustInclude? || org.rules[a.id].kind.MayChooseFrom?)
    && a.value.List? && Nests(a.value.items)
  }

  lemma {:induction false} KeysStay(org: OrgLayer, attempts: seq<Attempt>)
    ensures ApplyAll(org, attempts).Resolved? ==> ApplyAll(org, attempts).values.Keys == org.rules.Keys
    decreases |attempts|
  {
    hide WithinEnvelope;
    if attempts != [] {
      KeysStay(org, attempts[..|attempts| - 1]);
    }
  }

  /** The fold raises exactly when some entry offers a list with an entry that cannot be put in a set to a set rule
      that is delegated; an entry like that is not recorded as a violation. */
  lemma {:induction false} FoldRaisesIff(org: OrgLayer, attempts: seq<Attempt>)
    requires ValidOrg(org)
    ensures ApplyAll(org, attempts).Raised? <==> exists i | 0 <= i < |attempts| :: Unhashable(org, attempts[i])
    decreases |attempts|
  {
    hide WithinEnvelope, ValidRule, Hashable;
    if attempts != [] {
      var n := |attempts| - 1;
      var a := attempts[n];
      var before := ApplyAll(org, attempts[..n]);
      FoldRaisesIff(org, attempts[..n]);
      KeysStay(org, attempts[..n]);
      assert forall i | 0 <= i < n :: attempts[i] == attempts[..n][i];
      if before.Resolved? && a.id in org.rules && a.id !in org.never && !org.rules[a.id].delegation.Locked? {
        assert ValidRule(org.rules[a.id]);
        WithinIff(org.rules[a.id], a.value, before.values[a.id]);
      }
    }
  }

  /** The entries that were accepted, in order. */
  function AcceptedOf(org: OrgLayer, attempts: seq<Attempt>): seq<Attempt>
    decreases |attempts|
  {
    if attempts == [] then []
    else
      var front, a := attempts[..|attempts| - 1], attempts[|attempts| - 1];
      var before := ApplyAll(org, front);
      AcceptedOf(org, front) + if before.Resolved? && Judge(org, before.values, a).Accepted? then [a] else []
  }

  function AttemptsOf(violations: seq<Violation>): seq<Attempt> {
    seq(|violations|, i requires 0 <= i < |violations| => violations[i].attempt)
  }

  /** `part` is what is left of `whole` when some of its elements are left out. */
  predicate Subsequence<T(==)>(part: seq<T>, whole: seq<T>)
    decreases |whole|
  {
    if part == [] then true
    else if whole == [] then false
    else if part[|part| - 1] == whole[|whole| - 1] then Subsequence(part[..|part| - 1], whole[..|whole| - 1])
    else Subsequence(part, whole[..|whole| - 1])
  }

  lemma AcceptedStep(org: OrgLayer, attempts: seq<Attempt>)
    requires attempts != [] && ApplyAll(org, attempts).Resolved?
    ensures var front, a := attempts[..|attempts| - 1], attempts[|attempts| - 1];
            && ApplyAll(org, front).Resolved?
            && var before, after := ApplyAll(org, front), ApplyAll(org, attempts);
            match Judge(org, before.values, a)
            case Accepted =>
              && AcceptedOf(org, attempts) == AcceptedOf(org, front) + [a]
              && after == Resolved(before.values[a.id := a.value], before.violations)
            case Refused(reason) =>
              && AcceptedOf(org, attempts) == AcceptedOf(org, front)
              && after == Resolved(before.values, before.violations + [Violation(a, reason)])
            case Raises => false
  {
    hide Judge, WithinEnvelope;
  }

  function RefusedOf(org: OrgLayer, attempts: seq<Attempt>): seq<Attempt> {
    var r := ApplyAll(org, attempts);
    if r.Raised? then [] else AttemptsOf(r.violations)
  }

  lemma JudgedStep(org: OrgLayer, front: seq<Attempt>, a: Attempt)
    requires ApplyAll(org, front + [a]).Resolved?
    ensures ApplyAll(org, front).Resolved?
    ensures || (&& AcceptedOf(org, front + [a]) == AcceptedOf(org, front) + [a]
                && RefusedOf(org, front + [a]) == RefusedOf(org, front))
            || (&& AcceptedOf(org, front + [a]) == AcceptedOf(org, front)
                && RefusedOf(org, front + [a]) == RefusedOf(org, front) + [a])
  {
    hide Judge, WithinEnvelope, ApplyAll, AcceptedOf;
    assert (front + [a])[..|front|] == front;
    AcceptedStep(org, front + [a]);
  }

  lemma {:induction false} EachJudgedOnce(org: OrgLayer, attempts: seq<Attempt>)
    requires ApplyAll(org, attempts).Resolved?
    ensures multiset(attempts) == multiset(AcceptedOf(org, attempts)) + multiset(RefusedOf(org, attempts))
    decreases |attempts|
  {
    hide ApplyAll, AcceptedOf, RefusedOf;
    if attempts == [] {
      NothingJudged(org);
    } else {
      var front, a := attempts[..|attempts| - 1], attempts[|attempts| - 1];
      assert attempts == front + [a];
      JudgedStep(org, front, a);
      EachJudgedOnce(org, front);
    }
  }

  lemma {:induction false} OrderIsKept(org: OrgLayer, attempts: seq<Attempt>)
    requires ApplyAll(org, attempts).Resolved?
    ensures Subsequence(RefusedOf(org, attempts), attempts) && Subsequence(AcceptedOf(org, attempts), attempts)
    decreases |attempts|
  {
    hide ApplyAll, AcceptedOf, RefusedOf, Subsequence;
    if attempts == [] {
      NothingJudged(org);
    } else {
      var front, a := attempts[..|attempts| - 1], attempts[|attempts| - 1];
      assert attempts == front + [a];
      JudgedStep(org, front, a);
      OrderIsKept(org, front);
      SubsequenceStep(RefusedOf(org, front), front, a);
      SubsequenceStep(AcceptedOf(org, front), front, a);
    }
  }

  /** Every entry is accepted or recorded as a violation, and that once; both keep the order of the entries. */
  lemma RefusedExactly(org: OrgLayer, attempts: seq<Attempt>)
    requires ApplyAll(org, attempts).Resolved?
    ensures multiset(attempts) == multiset(AcceptedOf(org, attempts)) + multiset(RefusedOf(org, attempts))
    ensures Subsequence(RefusedOf(org, attempts), attempts) && Subsequence(AcceptedOf(org, attempts), attempts)
  {
    hide ApplyAll, AcceptedOf, RefusedOf, Subsequence;
    EachJudgedOnce(org, attempts);
    OrderIsKept(org, attempts);
  }

  lemma NothingJudged(org: OrgLayer)
    ensures AcceptedOf(org, []) == [] && RefusedOf(org, []) == [] && Subsequence<Attempt>([], [])
  {
  }

  lemma {:induction false} SubsequenceStep<T>(part: seq<T>, whole: seq<T>, x: T)
    requires Subsequence(part, whole)
    ensures Subsequence(part + [x], whole + [x]) && Subsequence(part, whole + [x])
    decreases |whole|, 1
  {
    assert (part + [x])[..|part|] == part && (whole + [x])[..|whole|] == whole;
    if part != [] && part[|part| - 1] == x {
      DropLast(part, whole);
    }
  }

  lemma {:induction false} DropLast<T>(part: seq<T>, whole: seq<T>)
    requires Subsequence(part, whole) && part != []
    ensures Subsequence(part[..|part| - 1], whole)
    decreases |whole|, 0
  {
    var front, x := whole[..|whole| - 1], whole[|whole| - 1];
    assert front + [x] == whole;
    if part[|part| - 1] == x {
      SubsequenceStep(part[..|part| - 1], front, x);
    } else {
      DropLast(part, front);
      SubsequenceStep(part[..|part| - 1], front, x);
    }
  }

  /** Deleting the refused entries changes nothing: the rest folds to the same values, with no violation. */
  lemma {:induction false} RefusedDoNotMatter(org: OrgLayer, attempts: seq<Attempt>)
    requires ApplyAll(org, attempts).Resolved?
    ensures ApplyAll(org, AcceptedOf(org, attempts)) == Resolved(ApplyAll(org, attempts).values, [])
    decreases |attempts|
  {
    hide Judge, WithinEnvelope, ApplyAll, AcceptedOf;
    if attempts == [] {
      NothingApplied(org);
      NothingJudged(org);
    } else {
      var front, a := attempts[..|attempts| - 1], attempts[|attempts| - 1];
      AcceptedStep(org, attempts);
      RefusedDoNotMatter(org, front);
      ApplyStep(org, AcceptedOf(org, front), a);
    }
  }

  // ---------------------------------------------------------------------------------------------
  // The tier of a decision class
  // ---------------------------------------------------------------------------------------------

  const HUMAN := "human"
  const AUTO_NOTIFY := "auto+notify"
  const AUTO := "auto"

  /** Fails closed: everything that is not one of the three tiers is a human decision. */
  function TierFor(r: Option<map<string, Value>>, decisionClass: string): (tier: string)
    ensures tier == HUMAN || tier == AUTO_NOTIFY || tier == AUTO
    ensures tier != HUMAN ==>
              r.Some? && decisionClass + ".tier" in r.value && r.value[decisionClass + ".tier"] == Str(tier)
  {
    if r.None? || decisionClass + ".tier" !in r.value then HUMAN
    else
      var v := r.value[decisionClass + ".tier"];
      if v.Str? && v.s in [HUMAN, AUTO_NOTIFY, AUTO] then v.s else HUMAN
  }

  /** A decision is the machine's exactly when a matrix was resolved and says so for its class in one of the two
      words. */
  lemma TierIff(r: Option<map<string, Value>>, decisionClass: string)
    ensures TierFor(r, decisionClass) == HUMAN
            <==> || r.None? || decisionClass + ".tier" !in r.value
                 || r.value[decisionClass + ".tier"] !in {Str("auto+notify"), Str("auto")}
  {
  }

  /** No team layer grants autonomy: for a delegated tier rule in the order human, auto+notify, auto that may only be
      tightened, the folded tier is never looser than the org's. */
  lemma TeamsGrantNothing(org: OrgLayer, attempts: seq<Attempt>, decisionClass: string)
    requires ValidOrg(org) && ApplyAll(org, attempts).Resolved? && decisionClass + ".tier" in org.rules
    requires var r := org.rules[decisionClass + ".tier"];
             r.kind.OrderedEnum? && r.kind.values == [HUMAN, AUTO_NOTIFY, AUTO] && !r.delegation.Adjustable?
    ensures Precedes([HUMAN, AUTO_NOTIFY, AUTO], TierFor(Some(ApplyAll(org, attempts).values), decisionClass),
                     TierFor(Some(Seed(org)), decisionClass))
  {
    hide ApplyAll;
    var id := decisionClass + ".tier";
    var r := org.rules[id];
    FoldOnlyTightens(org, attempts);
    assert ValidRule(r) && Allowed(org, id, ApplyAll(org, attempts).values[id]);
    TightReflexive(r);
    PrecedesNeedsBoth(r.kind.values);
  }
}
