/** The layered authority matrix: team layers are folded over the org layer, and may only tighten. */
module Authority {
  import opened Options

  /** A list entry; an entry that is itself a list or an object cannot be put in a set. */
  datatype Atom = Text(s: string) | Number(r: real) | Truth(b: bool) | Null | Nested(json: string)

  datatype Value = Str(s: string) | Num(r: real) | Bool(b: bool) | List(items: seq<Atom>) | Other(json: string)

  datatype Kind =
    | OrderedEnum(values: seq<string>, loosest: string)
    | Numeric(lowerIsTighter: bool, min: real, max: real)
    | MustInclude(entries: seq<Atom>)
    | MayChooseFrom(entries: seq<Atom>)
    | FlagRule(tighter: bool)

  datatype Delegation = Locked | TightenOnly | Adjustable

  datatype Rule = Rule(kind: Kind, delegation: Delegation, value: Value)

  datatype OrgLayer = OrgLayer(rules: map<string, Rule>, never: seq<string>)

  /** An entry of a team layer. */
  datatype Attempt = Attempt(layer: nat, id: string, value: Value)

  datatype Reason = UnknownRule | NeverListed | IsLocked | OutsideEnvelope

  datatype Violation = Violation(attempt: Attempt, reason: Reason)

  datatype Resolved = Resolved(values: map<string, Value>, violations: seq<Violation>) | Raised

  // ---------------------------------------------------------------------------------------------
  // The orders of the four kinds
  // ---------------------------------------------------------------------------------------------

  /** Python's set equality does not tell a flag from the number it equals. */
  function Key(a: Atom): Atom {
    if a.Truth? then Number(if a.b then 1.0 else 0.0) else a
  }

  function SetOf(items: seq<Atom>): set<Atom> {
    set i | 0 <= i < |items| :: Key(items[i])
  }

  predicate Hashable(items: seq<Atom>) {
    forall i | 0 <= i < |items| :: !items[i].Nested?
  }

  /** Two entries are equal to Python: a flag is the number one or zero. */
  predicate Same(a: Atom, b: Atom) {
    || a == b
    || (a.Truth? && b.Number? && b.r == (if a.b then 1.0 else 0.0))
    || (b.Truth? && a.Number? && a.r == (if b.b then 1.0 else 0.0))
  }

  /** Every entry of `part` is in the list, in whatever place. */
  predicate Covers(items: seq<Atom>, part: seq<Atom>) {
    forall j | 0 <= j < |part| :: exists i | 0 <= i < |items| :: Same(items[i], part[j])
  }

  lemma KeyIff(a: Atom, b: Atom)
    ensures Key(a) == Key(b) <==> Same(a, b)
  {
  }

  lemma CoversIff(items: seq<Atom>, part: seq<Atom>)
    ensures SetOf(items) >= SetOf(part) <==> Covers(items, part)
  {
    hide Key, Same;
    forall i, j | 0 <= i < |items| && 0 <= j < |part|
      ensures Key(items[i]) == Key(part[j]) <==> Same(items[i], part[j])
    {
      KeyIff(items[i], part[j]);
    }
    assert forall j | 0 <= j < |part| :: Key(part[j]) in SetOf(part);
  }

  predicate Precedes(values: seq<string>, a: string, b: string) {
    exists i, j | 0 <= i <= j < |values| :: values[i] == a && values[j] == b
  }

  /** `v` is at least as tight as `w`, in the order of the rule itself. */
  predicate AtLeastAsTight(k: Kind, v: Value, w: Value) {
    match k
    case OrderedEnum(values, _) => v.Str? && w.Str? && Precedes(values, v.s, w.s)
    case Numeric(lower, _, _) => v.Num? && w.Num? && (if lower then v.r <= w.r else v.r >= w.r)
    case MustInclude(_) => v.List? && w.List? && Covers(v.items, w.items)
    case MayChooseFrom(_) => v.List? && w.List? && Covers(w.items, v.items)
    case FlagRule(tighter) => v.Bool? && w.Bool? && (v == w || v.b == tighter)
  }

  predicate InEnvelope(k: Kind, v: Value) {
    match k
    case OrderedEnum(values, loosest) => v.Str? && Precedes(values, v.s, loosest)
    case Numeric(_, min, max) => v.Num? && min <= v.r <= max
    case MustInclude(entries) => v.List? && Covers(v.items, entries)
    case MayChooseFrom(entries) => v.List? && Covers(entries, v.items)
    case FlagRule(_) => v.Bool?
  }

  predicate Unique(values: seq<string>) {
    forall i, j | 0 <= i < j < |values| :: values[i] != values[j]
  }

  /** What loading an org layer checks of a rule. */
  predicate ValidRule(r: Rule) {
    match r.kind
    case OrderedEnum(values, loosest) => Unique(values) && loosest in values && r.value.Str? && r.value.s in values
    case Numeric(_, min, max) => min <= max && r.value.Num? && min <= r.value.r <= max
    case MustInclude(entries) =>
      Hashable(entries) && r.value.List? && Hashable(r.value.items) && SetOf(r.value.items) >= SetOf(entries)
    case MayChooseFrom(entries) =>
      Hashable(entries) && r.value.List? && Hashable(r.value.items) && SetOf(r.value.items) <= SetOf(entries)
    case FlagRule(_) => r.value.Bool?
  }

  predicate ValidOrg(org: OrgLayer) {
    forall id | id in org.rules :: ValidRule(org.rules[id])
  }

  // ---------------------------------------------------------------------------------------------
  // Judging one entry
  // ---------------------------------------------------------------------------------------------

  /** The first position of `s`, or the length of the list. */
  function Index(values: seq<string>, s: string): nat {
    if values == [] then 0 else if values[0] == s then 0 else 1 + Index(values[1..], s)
  }

  /** Whether an attempt is inside the envelope; `None` when comparing it raises. */
  function WithinEnvelope(r: Rule, attempted: Value, current: Value): Option<bool> {
    match r.kind
    case OrderedEnum(values, loosest) =>
      if !attempted.Str? || attempted.s !in values then Some(false)
      else if r.delegation.TightenOnly? then
        Some(current.Str? && current.s in values && Index(values, attempted.s) <= Index(values, current.s))
      else Some(Index(values, attempted.s) <= Index(values, loosest))
    case Numeric(lower, min, max) =>
      if !attempted.Num? then Some(false)
      else if r.delegation.TightenOnly? then
        Some(current.Num? && if lower then attempted.r <= current.r else attempted.r >= current.r)
      else Some(min <= attempted.r <= max)
    case MustInclude(entries) =>
      if !attempted.List? then Some(false)
      else if !Hashable(attempted.items) then None
      else if r.delegation.Adjustable? then Some(SetOf(attempted.items) >= SetOf(entries))
      else Some(current.List? && SetOf(attempted.items) >= SetOf(current.items))
    case MayChooseFrom(entries) =>
      if !attempted.List? then Some(false)
      else if !Hashable(attempted.items) then None
      else if r.delegation.Adjustable? then Some(SetOf(attempted.items) <= SetOf(entries))
      else Some(current.List? && SetOf(attempted.items) <= SetOf(current.items))
    case FlagRule(tighter) =>
      if !attempted.Bool? then Some(false)
      else if r.delegation.TightenOnly? then Some(current.Bool? && (attempted == current || attempted.b == tighter))
      else Some(true)
  }

  datatype Judgement = Accepted | Refused(reason: Reason) | Raises

  function Judge(org: OrgLayer, values: map<string, Value>, a: Attempt): Judgement {
    if a.id !in org.rules || a.id !in values then Refused(UnknownRule)
    else if a.id in org.never then Refused(NeverListed)
    else if org.rules[a.id].delegation.Locked? then Refused(IsLocked)
    else
      match WithinEnvelope(org.rules[a.id], a.value, values[a.id])
      case None => Raises
      case Some(inside) => if inside then Accepted else Refused(OutsideEnvelope)
  }

  function Seed(org: OrgLayer): map<string, Value> {
    map id | id in org.rules :: org.rules[id].value
  }

  function Apply(org: OrgLayer, r: Resolved, a: Attempt): Resolved {
    if r.Raised? then Raised
    else
      match Judge(org, r.values, a)
      case Accepted => r.(values := r.values[a.id := a.value])
      case Refused(reason) => r.(violations := r.violations + [Violation(a, reason)])
      case Raises => Raised
  }

  function ApplyAll(org: OrgLayer, attempts: seq<Attempt>): Resolved
    decreases |attempts|
  {
    if attempts == [] then Resolved(Seed(org), [])
    else Apply(org, ApplyAll(org, attempts[..|attempts| - 1]), attempts[|attempts| - 1])
  }

  /** The entries of the team layers, in the order in which they are judged. */
  function Entries(layers: seq<seq<Attempt>>): seq<Attempt>
    decreases |layers|
  {
    if layers == [] then [] else Entries(layers[..|layers| - 1]) + layers[|layers| - 1]
  }

  lemma NothingApplied(org: OrgLayer)
    ensures ApplyAll(org, []) == Resolved(Seed(org), []) && Entries([]) == []
  {
  }

  lemma ApplyStep(org: OrgLayer, attempts: seq<Attempt>, a: Attempt)
    ensures ApplyAll(org, attempts + [a]) == Apply(org, ApplyAll(org, attempts), a)
  {
    assert (attempts + [a])[..|attempts|] == attempts;
  }

  lemma EntriesStep(layers: seq<seq<Attempt>>, l: nat)
    requires l < |layers|
    ensures Entries(layers[..l + 1]) == Entries(layers[..l]) + layers[l]
  {
    assert layers[..l + 1][..l] == layers[..l];
  }

  /** Applies every entry of every team layer in order, and never a refused one. */
  method Fold(org: OrgLayer, layers: seq<seq<Attempt>>) returns (r: Resolved)
    ensures r == ApplyAll(org, Entries(layers))
  {
    hide Judge, WithinEnvelope, ApplyAll, Entries, Seed;
    var values := Seed(org);
    var violations: seq<Violation> := [];
    NothingApplied(org);
    for l := 0 to |layers|
      invariant Resolved(values, violations) == ApplyAll(org, Entries(layers[..l]))
    {
      ghost var done := Entries(layers[..l]);
      EntriesStep(layers, l);
      assert done + layers[l][..0] == done;
      for k := 0 to |layers[l]|
        invariant Resolved(values, violations) == ApplyAll(org, done + layers[l][..k])
      {
        var a := layers[l][k];
        ApplyStep(org, done + layers[l][..k], a);
        assert done + layers[l][..k + 1] == done + layers[l][..k] + [a];
        match Judge(org, values, a)
        case Accepted => values := values[a.id := a.value];
        case Refused(reason) => violations := violations + [Violation(a, reason)];
        case Raises =>
          RaisesToTheEnd(org, layers, l, k + 1);
          return Raised;
      }
      assert layers[l][..|layers[l]|] == layers[l];
    }
    assert layers[..|layers|] == layers;
    return Resolved(values, violations);
  }

  lemma {:induction false} RaisedStays(org: OrgLayer, attempts: seq<Attempt>, n: nat)
    requires n <= |attempts| && ApplyAll(org, attempts[..n]).Raised?
    ensures ApplyAll(org, attempts).Raised?
    decreases |attempts| - n
  {
    if n == |attempts| {
      assert attempts[..n] == attempts;
    } else {
      assert attempts[..n + 1][..n] == attempts[..n];
      RaisedStays(org, attempts, n + 1);
    }
  }

  lemma {:induction false} EntriesPrefix(layers: seq<seq<Attempt>>, l: nat)
    requires l < |layers|
    ensures Entries(layers[..l]) + layers[l] <= Entries(layers)
    decreases |layers|
  {
    var n := |layers| - 1;
    if l < n {
      EntriesPrefix(layers[..n], l);
      assert layers[..n][..l] == layers[..l];
    }
  }

  lemma RaisesToTheEnd(org: OrgLayer, layers: seq<seq<Attempt>>, l: nat, k: nat)
    requires l < |layers| && k <= |layers[l]| && ApplyAll(org, Entries(layers[..l]) + layers[l][..k]).Raised?
    ensures ApplyAll(org, Entries(layers)).Raised?
  {
    hide ApplyAll, Entries;
    EntriesPrefix(layers, l);
    var head := Entries(layers[..l]) + layers[l][..k];
    assert Entries(layers)[..|head|] == head;
    RaisedStays(org, Entries(layers), |head|);
  }
}
