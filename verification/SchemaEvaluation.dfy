/** The metered schema evaluator: one budget is threaded through every nested evaluation, comparison and
    serialization, and a run that does not exhaust it returns what the unmetered meaning says. */
module SchemaEvaluation {
  import opened TaskStates
  import opened JsonValues
  import opened JsonTexts
  import opened JsonCanon
  import opened JsonEquality
  import opened Schemas

  class EvaluationBudget {
    const maxOperations: nat
    var operations: nat
    var exhausted: bool

    constructor (maxOperations: nat)
      ensures this.maxOperations == maxOperations && operations == 0 && !exhausted
    {
      this.maxOperations := maxOperations;
      operations, exhausted := 0, false;
    }

    /** Once refused, always refused. */
    method Consume(cost: nat) returns (ok: bool)
      modifies this
      ensures ok == (!old(exhausted) && old(operations) + cost <= maxOperations) && exhausted == !ok
      ensures operations == if old(exhausted) then old(operations) else old(operations) + cost
    {
      if exhausted {
        return false;
      }
      operations := operations + cost;
      if operations > maxOperations {
        exhausted := true;
        return false;
      }
      ok := true;
    }
  }

  /* ---------- metered comparison and serialization ---------- */

  method DeepEqualWithin(left: Json, right: Json, budget: EvaluationBudget) returns (r: bool)
    modifies budget
    ensures (r ==> !budget.exhausted) && (old(budget.exhausted) ==> budget.exhausted)
    ensures !budget.exhausted ==> r == DeepEqual(left, right)
    decreases left, 1
  {
    var ok := budget.Consume(1);
    if !ok {
      return false;
    }
    match left {
      case Arr(items) =>
        if !right.Arr? || |items| != |right.items| {
          return false;
        }
        r := DeepEqualItemsWithin(items, right.items, budget);
      case Obj(members) =>
        if !right.Obj? {
          return false;
        }
        var leftKeys, rightKeys := Keys(Sort(members)), Keys(Sort(right.members));
        if leftKeys != rightKeys {
          return false;
        }
        r := DeepEqualMembersWithin(members, right.members, budget);
      case _ => r := left == right;
    }
  }

  method DeepEqualItemsWithin(left: seq<Json>, right: seq<Json>, budget: EvaluationBudget) returns (r: bool)
    requires |left| == |right| && !budget.exhausted
    modifies budget
    ensures r ==> !budget.exhausted
    ensures !budget.exhausted ==> r == DeepEqualItems(left, right)
    decreases left, 0
  {
    DeepItemsAt(left, right);
    for index := 0 to |left|
      invariant !budget.exhausted && forall i | 0 <= i < index :: DeepEqual(left[i], right[i])
    {
      var same := DeepEqualWithin(left[index], right[index], budget);
      if !same {
        return false;
      }
    }
    r := true;
  }

  /** The members of the left side, in key order. */
  method DeepEqualMembersWithin(left: seq<Member>, right: seq<Member>, budget: EvaluationBudget) returns (r: bool)
    requires !budget.exhausted && Keys(Sort(left)) == Keys(Sort(right))
    modifies budget
    ensures r ==> !budget.exhausted
    ensures !budget.exhausted ==> r == DeepEqualMembers(left, right)
    decreases left, 0
  {
    var sorted := Sort(left);
    OrderIrrelevant(left, right);
    for index := 0 to |sorted|
      invariant !budget.exhausted && forall i | 0 <= i < index :: DeepMatch(sorted[i], right)
    {
      var m := sorted[index];
      SameKeysFound(left, right, index);
      SortedFrom(left, index);
      var same := DeepEqualWithin(m.value, Lookup(right, m.key), budget);
      if !same {
        assert !budget.exhausted ==> !DeepMatch(m, right);
        return false;
      }
    }
    r := true;
  }

  lemma SortedFrom(ms: seq<Member>, index: nat)
    requires index < |Sort(ms)|
    ensures Sort(ms)[index] in ms
  {
    SortPermutes(ms);
  }

  /** Comparing the members in key order or as they come asks the same questions. */
  lemma OrderIrrelevant(left: seq<Member>, right: seq<Member>)
    ensures DeepEqualMembers(left, right) <==> forall i | 0 <= i < |Sort(left)| :: DeepMatch(Sort(left)[i], right)
  {
    var sorted := Sort(left);
    SortPermutes(left);
    DeepMembersAt(left, right);
    if DeepEqualMembers(left, right) {
      forall i | 0 <= i < |sorted| ensures DeepMatch(sorted[i], right) {
        assert sorted[i] in left;
      }
    }
    if forall i | 0 <= i < |sorted| :: DeepMatch(sorted[i], right) {
      forall i | 0 <= i < |left| ensures DeepMatch(left[i], right) {
        assert left[i] in sorted;
      }
    }
  }

  lemma SameKeysFound(left: seq<Member>, right: seq<Member>, index: nat)
    requires Keys(Sort(left)) == Keys(Sort(right)) && index < |Sort(left)|
    ensures HasKey(right, Sort(left)[index].key)
  {
    KeysCount(Sort(left));
    KeysCount(Sort(right));
    KeysAt(Sort(left), index);
    KeysAt(Sort(right), index);
    SortPermutes(right);
    assert Sort(right)[index] in right;
  }

  /** The canonical text, or nothing when the budget ran out. */
  method CanonicalWithin(value: Json, budget: EvaluationBudget) returns (r: Option<Text>)
    modifies budget
    ensures r.Some? <==> !budget.exhausted
    ensures r.Some? ==> r.value == Canonical(value)
    ensures old(budget.exhausted) ==> budget.exhausted
    decreases Weight(value), 1
  {
    var ok := budget.Consume(1);
    if !ok {
      return None;
    }
    match value {
      case Arr(items) =>
        var inner := CanonicalItemsWithin(items, budget);
        r := if inner.Some? then Some([LBRACKET] + inner.value + [RBRACKET]) else None;
      case Obj(members) =>
        SortWeighs(members);
        var inner := CanonicalMembersWithin(Sort(members), budget);
        r := if inner.Some? then Some([LBRACE] + inner.value + [RBRACE]) else None;
      case _ => r := Some(Serialized(value));
    }
  }

  method CanonicalItemsWithin(items: seq<Json>, budget: EvaluationBudget) returns (r: Option<Text>)
    requires !budget.exhausted
    modifies budget
    ensures r.Some? <==> !budget.exhausted
    ensures r.Some? ==> r.value == CanonicalItems(items)
    decreases WeightOfItems(items), 0
  {
    if items == [] {
      return Some([]);
    }
    var first := CanonicalWithin(items[0], budget);
    if first.None? {
      return None;
    }
    var rest := CanonicalItemsWithin(items[1..], budget);
    r := if rest.Some? then Some(first.value + (if |items| == 1 then [] else [COMMA]) + rest.value) else None;
  }

  method CanonicalMembersWithin(members: seq<Member>, budget: EvaluationBudget) returns (r: Option<Text>)
    requires !budget.exhausted
    modifies budget
    ensures r.Some? <==> !budget.exhausted
    ensures r.Some? ==> r.value == CanonicalMembers(members)
    decreases WeightOfMembers(members), 0
  {
    if members == [] {
      return Some([]);
    }
    var ok := budget.Consume(1);
    if !ok {
      return None;
    }
    var first := CanonicalWithin(members[0].value, budget);
    if first.None? {
      return None;
    }
    var rest := CanonicalMembersWithin(members[1..], budget);
    r := if rest.Some? then
           Some(Quote(members[0].key) + [COLON] + first.value + (if |members| == 1 then [] else [COMMA]) + rest.value)
         else None;
  }

  method TestPattern(c: Context, pattern: Text, value: Text, budget: EvaluationBudget) returns (matched: bool)
    requires !budget.exhausted
    modifies budget
    ensures !budget.exhausted ==> matched == c.matches(pattern, value)
    ensures budget.exhausted ==> !matched
  {
    var ok := budget.Consume(|pattern| + |value| + 1);
    if !ok {
      return false;
    }
    matched := c.matches(pattern, value);
  }

  /* ---------- the keywords that look no deeper ---------- */

  method EnumMatches(value: Json, choices: seq<Json>, budget: EvaluationBudget) returns (r: bool)
    requires !budget.exhausted
    modifies budget
    ensures r ==> !budget.exhausted
    ensures !budget.exhausted ==> r == exists i :: 0 <= i < |choices| && DeepEqual(value, choices[i])
  {
    for index := 0 to |choices|
      invariant !budget.exhausted && forall i | 0 <= i < index :: !DeepEqual(value, choices[i])
    {
      var same := DeepEqualWithin(value, choices[index], budget);
      if same {
        return true;
      }
      if budget.exhausted {
        return false;
      }
    }
    r := false;
  }

  /** These are the canonical texts of the first items. */
  ghost predicate Signed(items: seq<Json>, count: nat, signatures: set<Text>)
    requires count <= |items|
  {
    forall t :: t in signatures <==> exists i :: 0 <= i < count && t == Canonical(items[i])
  }

  /** One item more is either a repetition or keeps all texts different. */
  lemma SignOneMore(items: seq<Json>, count: nat, signatures: set<Text>)
    requires count < |items| && Signed(items, count, signatures) && DistinctTexts(items[..count])
    ensures var text := Canonical(items[count]);
            if text in signatures then !DistinctTexts(items)
            else Signed(items, count + 1, signatures + {text}) && DistinctTexts(items[..count + 1])
  {
    var text := Canonical(items[count]);
    if text in signatures {
      var i :| 0 <= i < count && text == Canonical(items[i]);
    } else {
      var more := items[..count + 1];
      forall i, j | 0 <= i < j < |more| ensures Canonical(more[i]) != Canonical(more[j]) {
        assert j < count ==> items[..count][i] == items[i] && items[..count][j] == items[j];
      }
    }
  }

  method ItemsAreUnique(items: seq<Json>, budget: EvaluationBudget) returns (r: bool)
    requires !budget.exhausted
    modifies budget
    ensures r ==> !budget.exhausted
    ensures !budget.exhausted ==> r == DistinctTexts(items)
  {
    var signatures: set<Text> := {};
    for index := 0 to |items|
      invariant !budget.exhausted
      invariant Signed(items, index, signatures) && DistinctTexts(items[..index])
    {
      var ok := budget.Consume(1);
      if !ok {
        return false;
      }
      var signature := CanonicalWithin(items[index], budget);
      if signature.None? {
        return false;
      }
      SignOneMore(items, index, signatures);
      if signature.value in signatures {
        return false;
      }
      signatures := signatures + {signature.value};
    }
    assert items[..|items|] == items;
    r := true;
  }

  /** type, const, enum, and the bounds that fit the value's type. */
  method PlainKeywords(c: Context, value: Json, s: Schema, budget: EvaluationBudget) returns (r: bool)
    requires s.Rules? && !budget.exhausted
    modifies budget
    ensures r ==> !budget.exhausted
    ensures !budget.exhausted ==> r == PlainValid(c, value, s)
  {
    if s.types.Some? && !exists i :: 0 <= i < |s.types.value| && HasType(value, s.types.value[i]) {
      return false;
    }
    if s.constant.Some? {
      var same := DeepEqualWithin(value, s.constant.value, budget);
      if !same {
        return false;
      }
    }
    if s.choices.Some? {
      var found := EnumMatches(value, s.choices.value, budget);
      if !found {
        return false;
      }
    }
    r := TypedKeywords(c, value, s, budget);
  }

  /** The bounds for one type of value. */
  method TypedKeywords(c: Context, value: Json, s: Schema, budget: EvaluationBudget) returns (r: bool)
    requires s.Rules? && !budget.exhausted
    modifies budget
    ensures r ==> !budget.exhausted
    ensures !budget.exhausted ==> r == PlainValid(c, value, s.(types := None, constant := None, choices := None))
  {
    match value {
      case Num(n) => r := NumberKeywords(n, s.numbers);
      case Str(text) =>
        var length := CountCharacters(text);
        r := WithinBounds(length, s.strings.minLength, s.strings.maxLength);
        if r && s.strings.pattern.Some? {
          r := TestPattern(c, s.strings.pattern.value, text, budget);
        }
      case Arr(items) =>
        r := WithinBounds(|items|, s.arrays.minItems, s.arrays.maxItems);
        if r && s.arrays.uniqueItems {
          r := ItemsAreUnique(items, budget);
        }
      case Obj(members) => r := ObjectKeywords(members, s.objects);
      case _ => r := true;
    }
  }

  /** The quotient, rounded to the nearest whole number and compared. */
  method IsMultiple(n: int, m: int) returns (r: bool)
    requires m > 0
    ensures r == NearMultiple(n, m)
  {
    var below := n / m;
    var nearest := if n % m < m - n % m then below else below + 1;
    var distance := if n % m < m - n % m then n % m else m - n % m;
    r := distance * 1_000_000_000_000 <= m;
    MultiplesAround(n, m);
    if r {
      assert NearTo(n, nearest, m);
    } else {
      forall k: int ensures !NearTo(n, k, m) {
        NoneNearer(n, m, k);
      }
    }
  }

  lemma MultiplesAround(n: int, m: int)
    requires m > 0
    ensures n - (n / m) * m == n % m && n - (n / m + 1) * m == n % m - m && 0 <= n % m < m
  {
    assert (n / m + 1) * m == (n / m) * m + m;
  }

  /** No multiple is nearer than the two around. */
  lemma NoneNearer(n: int, m: int, k: int)
    requires m > 0
    ensures n - k * m >= n % m || k * m - n >= m - n % m
  {
    MultiplesAround(n, m);
    if k <= n / m {
      Multiply(k, n / m, m);
    } else {
      Multiply(n / m + 1, k, m);
    }
  }

  lemma Multiply(a: int, b: int, m: int)
    requires a <= b && m > 0
    ensures a * m <= b * m
  {
  }

  method NumberKeywords(n: int, rules: NumberRules) returns (r: bool)
    ensures r == NumberValid(n, rules)
  {
    if rules.multipleOf.Some? && rules.multipleOf.value > 0 {
      var near := IsMultiple(n, rules.multipleOf.value);
      if !near {
        return false;
      }
    }
    if rules.minimum.Some? && n < rules.minimum.value {
      return false;
    }
    if rules.maximum.Some? && n > rules.maximum.value {
      return false;
    }
    if rules.exclusiveMinimum.Some? && n <= rules.exclusiveMinimum.value {
      return false;
    }
    if rules.exclusiveMaximum.Some? && n >= rules.exclusiveMaximum.value {
      return false;
    }
    r := true;
  }

  method WithinBounds(length: nat, least: Option<nat>, most: Option<nat>) returns (r: bool)
    ensures r == LengthValid(length, least, most)
  {
    if least.Some? && length < least.value {
      return false;
    }
    if most.Some? && length > most.value {
      return false;
    }
    r := true;
  }

  method CountCharacters(s: Text) returns (n: nat)
    ensures n == Characters(s)
  {
    n := 0;
    var index := 0;
    while index < |s|
      invariant index <= |s| && n + Characters(s[index..]) == Characters(s)
    {
      var width := Width(s[index..]);
      assert s[index..][width..] == s[index + width..];
      index := index + width;
      n := n + 1;
    }
  }

  method ObjectKeywords(members: seq<Member>, rules: ObjectRules) returns (r: bool)
    ensures r == (LengthValid(|members|, rules.minProperties, rules.maxProperties)
        && AllPresent(members, rules.required))
  {
    r := WithinBounds(|members|, rules.minProperties, rules.maxProperties);
    if !r {
      return;
    }
    for i := 0 to |rules.required|
      invariant forall k | 0 <= k < i :: HasKey(members, rules.required[k])
    {
      if !HasKey(members, rules.required[i]) {
        return false;
      }
    }
  }

  method DependenciesHold(members: seq<Member>, dependencies: seq<Dependency>) returns (r: bool)
    ensures r == DependenciesPresent(members, dependencies)
  {
    for i := 0 to |dependencies|
      invariant DependenciesPresent(members, dependencies[..i])
    {
      var d := dependencies[i];
      if HasKey(members, d.name) {
        for j := 0 to |d.needs|
          invariant forall k | 0 <= k < j :: HasKey(members, d.needs[k])
        {
          if !HasKey(members, d.needs[j]) {
            return false;
          }
        }
      }
    }
    assert dependencies[..|dependencies|] == dependencies;
    r := true;
  }

  /* ---------- nested evaluation ---------- */

  type ActiveRefs = map<Text, nat>

  /** A reference is followed no more often than there are levels above. */
  ghost predicate RefsFit(refs: ActiveRefs, depth: nat) {
    forall r | r in refs :: refs[r] <= depth
  }

  /** The evaluator. Exhaustion is sticky, a valid answer is never given on an exhausted budget, and any
      other answer is the unmetered one. */
  method MatchesSchema(c: Context, value: Json, s: Schema, depth: nat, refs: ActiveRefs,
      budget: EvaluationBudget) returns (r: bool)
    requires RefsFit(refs, depth)
    modifies budget
    ensures (r ==> !budget.exhausted) && (old(budget.exhausted) ==> budget.exhausted)
    ensures !budget.exhausted ==> r == Eval(c, value, s, depth)
    decreases Room(c, depth), 1
  {
    var ok := budget.Consume(1);
    if !ok {
      return false;
    }
    if depth > c.maxDepth {
      return false;
    }
    if s.Flag? {
      return s.b;
    }
    r := MatchesRules(c, value, s, depth + 1, refs, budget);
  }

  method MatchesRules(c: Context, value: Json, s: Schema, depth: nat, refs: ActiveRefs,
      budget: EvaluationBudget) returns (r: bool)
    requires s.Rules? && 0 < depth <= c.maxDepth + 1 && RefsFit(refs, depth - 1) && !budget.exhausted
    modifies budget
    ensures r ==> !budget.exhausted
    ensures !budget.exhausted ==> r == RulesValid(c, value, s, depth)
    decreases Room(c, depth), 4
  {
    if s.reference.Some? {
      var name := s.reference.value;
      var referenceDepth := if name in refs then refs[name] else 0;
      if referenceDepth >= c.maxDepth {
        // Only a chain of this one reference gets here, and one level on the depth bound says the same.
        return false;
      }
      var target := c.resolve(name);
      if target.None? {
        return false;
      }
      var referenced := MatchesSchema(c, value, target.value, depth, refs[name := referenceDepth + 1], budget);
      if !referenced {
        return false;
      }
    }
    var plain := PlainKeywords(c, value, s, budget);
    if !plain {
      return false;
    }
    if value.Arr? {
      var nested := MatchesArray(c, value.items, s.arrays, depth, refs, budget);
      if !nested {
        return false;
      }
    }
    if value.Obj? {
      var nested := MatchesObject(c, value.members, s.objects, depth, refs, budget);
      if !nested {
        return false;
      }
    }
    r := MatchesLogic(c, value, s, depth, refs, budget);
  }

  /** The loops whose every child must be valid: prefixItems, items, properties, dependentSchemas,
      propertyNames and allOf. */
  method EachMatches(c: Context, pairs: seq<Pair>, depth: nat, refs: ActiveRefs, budget: EvaluationBudget)
      returns (r: bool)
    requires RefsFit(refs, depth) && !budget.exhausted
    modifies budget
    ensures r ==> !budget.exhausted
    ensures !budget.exhausted ==> r == AllValid(c, pairs, depth)
    decreases Room(c, depth), 2
  {
    for index := 0 to |pairs|
      invariant !budget.exhausted
      invariant forall i | 0 <= i < index :: Eval(c, pairs[i].value, pairs[i].schema, depth)
    {
      var child := MatchesSchema(c, pairs[index].value, pairs[index].schema, depth, refs, budget);
      if !child {
        return false;
      }
    }
    r := true;
  }

  /** The loops that count valid children: contains and oneOf. */
  method CountMatches(c: Context, pairs: seq<Pair>, depth: nat, refs: ActiveRefs, budget: EvaluationBudget)
      returns (n: nat)
    requires RefsFit(refs, depth) && !budget.exhausted
    modifies budget
    ensures !budget.exhausted ==> n == CountValid(c, pairs, depth)
    decreases Room(c, depth), 2
  {
    n := 0;
    for index := 0 to |pairs|
      invariant !budget.exhausted
      invariant n + CountValid(c, pairs[index..], depth) == CountValid(c, pairs, depth)
    {
      assert pairs[index..][1..] == pairs[index + 1..];
      var child := MatchesSchema(c, pairs[index].value, pairs[index].schema, depth, refs, budget);
      if child {
        n := n + 1;
      }
      if budget.exhausted {
        return;
      }
    }
  }

  /** The loop that stops at the first valid child: anyOf. */
  method SomeMatches(c: Context, pairs: seq<Pair>, depth: nat, refs: ActiveRefs, budget: EvaluationBudget)
      returns (r: bool)
    requires RefsFit(refs, depth) && !budget.exhausted
    modifies budget
    ensures r ==> !budget.exhausted
    ensures !budget.exhausted ==> r == (CountValid(c, pairs, depth) > 0)
    decreases Room(c, depth), 2
  {
    for index := 0 to |pairs|
      invariant !budget.exhausted
      invariant CountValid(c, pairs[index..], depth) == CountValid(c, pairs, depth)
    {
      assert pairs[index..][1..] == pairs[index + 1..];
      var child := MatchesSchema(c, pairs[index].value, pairs[index].schema, depth, refs, budget);
      if child {
        return true;
      }
      if budget.exhausted {
        return false;
      }
    }
    r := false;
  }

  method MatchesArray(c: Context, items: seq<Json>, rules: ArrayRules, depth: nat, refs: ActiveRefs,
      budget: EvaluationBudget) returns (r: bool)
    requires RefsFit(refs, depth) && !budget.exhausted
    modifies budget
    ensures r ==> !budget.exhausted
    ensures !budget.exhausted ==> r == ArrayValid(c, items, rules, depth)
    decreases Room(c, depth), 3
  {
    var prefix := EachMatches(c, PrefixPairs(items, rules.prefixItems), depth, refs, budget);
    if !prefix {
      return false;
    }
    if rules.items.Some? {
      var rest := EachMatches(c, ItemPairs(Beyond(items, |rules.prefixItems|), rules.items.value), depth, refs, budget);
      if !rest {
        return false;
      }
    }
    r := true;
    if rules.contains.Some? {
      var n := CountMatches(c, ItemPairs(items, rules.contains.value), depth, refs, budget);
      r := !budget.exhausted && LengthValid(n, if rules.minContains.Some? then rules.minContains
          else Some(1), rules.maxContains);
    }
  }

  method MatchesObject(c: Context, members: seq<Member>, rules: ObjectRules, depth: nat, refs: ActiveRefs,
      budget: EvaluationBudget) returns (r: bool)
    requires RefsFit(refs, depth) && !budget.exhausted
    modifies budget
    ensures r ==> !budget.exhausted
    ensures !budget.exhausted ==> r == ObjectValid(c, members, rules, depth)
    decreases Room(c, depth), 3
  {
    var listed := EachMatches(c, PropertyPairs(members, rules.properties), depth, refs, budget);
    if !listed {
      return false;
    }
    var patterned := MatchesPatterns(c, members, rules.patternProperties, depth, refs, budget);
    if !patterned {
      return false;
    }
    if rules.additional.Some? {
      var additional := MatchesAdditional(c, members, rules, rules.additional.value, depth, refs, budget);
      if !additional {
        return false;
      }
    }
    var held := DependenciesHold(members, rules.dependentRequired);
    if !held {
      return false;
    }
    var dependent := EachMatches(c, DependentPairs(members, rules.dependentSchemas), depth, refs, budget);
    if !dependent {
      return false;
    }
    r := true;
    if rules.propertyNames.Some? {
      r := EachMatches(c, NamePairs(members, rules.propertyNames.value), depth, refs, budget);
    }
  }

  method MatchesPatterns(c: Context, members: seq<Member>, patterns: seq<Named>, depth: nat, refs: ActiveRefs,
      budget: EvaluationBudget) returns (r: bool)
    requires RefsFit(refs, depth) && !budget.exhausted
    modifies budget
    ensures r ==> !budget.exhausted
    ensures !budget.exhausted ==> r == PatternsValid(c, members, patterns, depth)
    decreases Room(c, depth), 2
  {
    for p := 0 to |patterns|
      invariant !budget.exhausted && PatternsValid(c, members, patterns[..p], depth)
    {
      for m := 0 to |members|
        invariant !budget.exhausted
        invariant forall k | 0 <= k < m ::
                    c.matches(patterns[p].name, members[k].key) ==> Eval(c, members[k].value, patterns[p].schema, depth)
      {
        var matched := TestPattern(c, patterns[p].name, members[m].key, budget);
        if budget.exhausted {
          return false;
        }
        if matched {
          var child := MatchesSchema(c, members[m].value, patterns[p].schema, depth, refs, budget);
          if !child {
            return false;
          }
        }
      }
    }
    assert patterns[..|patterns|] == patterns;
    r := true;
  }

  /** Whether some pattern matches a key, asked in order. */
  method FindPattern(c: Context, patterns: seq<Named>, key: Text, budget: EvaluationBudget) returns (r: bool)
    requires !budget.exhausted
    modifies budget
    ensures !budget.exhausted ==> r == MatchesSome(c, patterns, key)
  {
    for p := 0 to |patterns|
      invariant !budget.exhausted && forall k | 0 <= k < p :: !c.matches(patterns[k].name, key)
    {
      var matched := TestPattern(c, patterns[p].name, key, budget);
      if budget.exhausted || matched {
        return matched;
      }
    }
    r := false;
  }

  method MatchesAdditional(c: Context, members: seq<Member>, rules: ObjectRules, s: Schema, depth: nat,
      refs: ActiveRefs, budget: EvaluationBudget) returns (r: bool)
    requires RefsFit(refs, depth) && !budget.exhausted
    modifies budget
    ensures r ==> !budget.exhausted
    ensures !budget.exhausted ==> r == AdditionalValid(c, members, rules, s, depth)
    decreases Room(c, depth), 2
  {
    for m := 0 to |members|
      invariant !budget.exhausted
      invariant forall k | 0 <= k < m ::
                  Known(rules.properties, members[k].key) || MatchesSome(c, rules.patternProperties, members[k].key)
                  || Eval(c, members[k].value, s, depth)
    {
      if Known(rules.properties, members[m].key) {
        continue;
      }
      var matched := FindPattern(c, rules.patternProperties, members[m].key, budget);
      if budget.exhausted {
        return false;
      }
      if matched {
        continue;
      }
      if s == Flag(false) {
        assert !Eval(c, members[m].value, s, depth);
        return false;
      }
      var child := MatchesSchema(c, members[m].value, s, depth, refs, budget);
      if !child {
        return false;
      }
    }
    r := true;
  }

  method MatchesLogic(c: Context, value: Json, s: Schema, depth: nat, refs: ActiveRefs,
      budget: EvaluationBudget) returns (r: bool)
    requires s.Rules? && RefsFit(refs, depth) && !budget.exhausted
    modifies budget
    ensures r ==> !budget.exhausted
    ensures !budget.exhausted ==> r == LogicValid(c, value, s, depth)
    decreases Room(c, depth), 3
  {
    var all := EachMatches(c, BranchPairs(value, s.allOf), depth, refs, budget);
    if !all {
      return false;
    }
    if s.anyOf.Some? {
      var some := SomeMatches(c, BranchPairs(value, s.anyOf.value), depth, refs, budget);
      if !some {
        return false;
      }
    }
    if s.oneOf.Some? {
      var n := CountMatches(c, BranchPairs(value, s.oneOf.value), depth, refs, budget);
      if budget.exhausted || n != 1 {
        return false;
      }
    }
    if s.negated.Some? {
      var matches := MatchesSchema(c, value, s.negated.value, depth, refs, budget);
      if budget.exhausted || matches {
        return false;
      }
    }
    r := true;
    if s.condition.Some? {
      var holds := MatchesSchema(c, value, s.condition.value, depth, refs, budget);
      if budget.exhausted {
        return false;
      }
      var branch := if holds then s.consequent else s.alternative;
      if branch.Some? {
        r := MatchesSchema(c, value, branch.value, depth, refs, budget);
      }
    }
  }
}
