/** What the depth bound does to the meaning of a schema: nothing when no evaluation reaches it. */
module SchemaMeaning {
  import opened TaskStates
  import opened JsonValues
  import opened Schemas

  /** Whether evaluating a value against the keywords of a schema may ask for this nested evaluation. */
  ghost predicate Asks(c: Context, v: Json, s: Schema, p: Pair)
    requires s.Rules?
  {
    || (s.reference.Some? && c.resolve(s.reference.value) == Some(p.schema) && p.value == v)
    || (v.Arr? && ArrayAsks(v.items, s.arrays, p))
    || (v.Obj? && ObjectAsks(c, v.members, s.objects, p))
    || LogicAsks(v, s, p)
  }

  ghost predicate ArrayAsks(items: seq<Json>, r: ArrayRules, p: Pair) {
    || p in PrefixPairs(items, r.prefixItems)
    || (r.items.Some? && p in ItemPairs(Beyond(items, |r.prefixItems|), r.items.value))
    || (r.contains.Some? && p in ItemPairs(items, r.contains.value))
  }

  ghost predicate ObjectAsks(c: Context, members: seq<Member>, r: ObjectRules, p: Pair) {
    || p in PropertyPairs(members, r.properties)
    || (exists m, k ::
          0 <= m < |members| && 0 <= k < |r.patternProperties| && c.matches(r.patternProperties[k].name, members[m].key)
          && p == Pair(members[m].value, r.patternProperties[k].schema))
    || (r.additional.Some? && exists m :: 0 <= m < |members| && p == Pair(members[m].value, r.additional.value))
    || p in DependentPairs(members, r.dependentSchemas)
    || (r.propertyNames.Some? && p in NamePairs(members, r.propertyNames.value))
  }

  ghost predicate LogicAsks(v: Json, s: Schema, p: Pair)
    requires s.Rules?
  {
    || p in BranchPairs(v, s.allOf)
    || (s.anyOf.Some? && p in BranchPairs(v, s.anyOf.value))
    || (s.oneOf.Some? && p in BranchPairs(v, s.oneOf.value))
    || (p.value == v && Some(p.schema) in {s.negated, s.condition, s.consequent, s.alternative})
  }

  /** No evaluation that may be asked for, however deep, is cut off by the bound. */
  ghost predicate Settles(c: Context, v: Json, s: Schema, depth: nat)
    decreases Room(c, depth)
  {
    && depth <= c.maxDepth
    && (s.Rules? ==>
          forall p {:trigger Asks(c, v, s, p)} :: Asks(c, v, s, p) ==> Settles(c, p.value, p.schema, depth + 1))
  }

  /** The same schema context with another depth bound. */
  ghost predicate Deeper(c: Context, d: Context) {
    c.maxDepth <= d.maxDepth && d == c.(maxDepth := d.maxDepth)
  }

  ghost predicate Agree(c: Context, d: Context, p: Pair, depth: nat) {
    Eval(c, p.value, p.schema, depth) == Eval(d, p.value, p.schema, depth)
  }

  lemma AllAgree(c: Context, d: Context, pairs: seq<Pair>, depth: nat)
    requires forall p | p in pairs :: Agree(c, d, p, depth)
    ensures AllValid(c, pairs, depth) == AllValid(d, pairs, depth)
  {
    forall i | 0 <= i < |pairs|
      ensures Eval(c, pairs[i].value, pairs[i].schema, depth) == Eval(d, pairs[i].value, pairs[i].schema, depth)
    {
      assert pairs[i] in pairs && Agree(c, d, pairs[i], depth);
    }
  }

  lemma {:induction false} CountAgrees(c: Context, d: Context, pairs: seq<Pair>, depth: nat)
    requires forall p | p in pairs :: Agree(c, d, p, depth)
    ensures CountValid(c, pairs, depth) == CountValid(d, pairs, depth)
    decreases |pairs|
  {
    if pairs != [] {
      assert pairs[0] in pairs && Agree(c, d, pairs[0], depth);
      CountAgrees(c, d, pairs[1..], depth);
    }
  }

  lemma ArraysAgree(c: Context, d: Context, items: seq<Json>, r: ArrayRules, depth: nat)
    requires forall p {:trigger ArrayAsks(items, r, p)} :: ArrayAsks(items, r, p) ==> Agree(c, d, p, depth)
    ensures ArrayValid(c, items, r, depth) == ArrayValid(d, items, r, depth)
  {
    forall p | ArrayAsks(items, r, p) ensures Agree(c, d, p, depth) {
    }
    AllAgree(c, d, PrefixPairs(items, r.prefixItems), depth);
    if r.items.Some? {
      AllAgree(c, d, ItemPairs(Beyond(items, |r.prefixItems|), r.items.value), depth);
    }
    if r.contains.Some? {
      CountAgrees(c, d, ItemPairs(items, r.contains.value), depth);
    }
  }

  lemma ObjectsAgree(c: Context, d: Context, members: seq<Member>, r: ObjectRules, depth: nat)
    requires Deeper(c, d)
    requires forall p {:trigger ObjectAsks(c, members, r, p)} :: ObjectAsks(c, members, r, p) ==> Agree(c, d, p, depth)
    ensures ObjectValid(c, members, r, depth) == ObjectValid(d, members, r, depth)
  {
    forall p | ObjectAsks(c, members, r, p) ensures Agree(c, d, p, depth) {
    }
    AllAgree(c, d, PropertyPairs(members, r.properties), depth);
    AllAgree(c, d, DependentPairs(members, r.dependentSchemas), depth);
    if r.propertyNames.Some? {
      AllAgree(c, d, NamePairs(members, r.propertyNames.value), depth);
    }
    PatternsAgree(c, d, members, r, depth);
    if r.additional.Some? {
      AdditionalAgrees(c, d, members, r, depth);
    }
  }

  lemma PatternsAgree(c: Context, d: Context, members: seq<Member>, r: ObjectRules, depth: nat)
    requires Deeper(c, d)
    requires forall p {:trigger ObjectAsks(c, members, r, p)} :: ObjectAsks(c, members, r, p) ==> Agree(c, d, p, depth)
    ensures PatternsValid(c, members, r.patternProperties, depth)
        == PatternsValid(d, members, r.patternProperties, depth)
  {
    forall k, m | 0 <= k < |r.patternProperties| && 0 <= m < |members|
        && c.matches(r.patternProperties[k].name, members[m].key)
      ensures Eval(c, members[m].value, r.patternProperties[k].schema, depth)
          == Eval(d, members[m].value, r.patternProperties[k].schema, depth)
    {
      assert ObjectAsks(c, members, r, Pair(members[m].value, r.patternProperties[k].schema));
    }
  }

  lemma AdditionalAgrees(c: Context, d: Context, members: seq<Member>, r: ObjectRules, depth: nat)
    requires Deeper(c, d) && r.additional.Some?
    requires forall p {:trigger ObjectAsks(c, members, r, p)} :: ObjectAsks(c, members, r, p) ==> Agree(c, d, p, depth)
    ensures AdditionalValid(c, members, r, r.additional.value, depth)
        == AdditionalValid(d, members, r, r.additional.value, depth)
  {
    forall m | 0 <= m < |members|
      ensures Eval(c, members[m].value, r.additional.value, depth)
          == Eval(d, members[m].value, r.additional.value, depth)
      ensures MatchesSome(c, r.patternProperties, members[m].key) == MatchesSome(d, r.patternProperties, members[m].key)
    {
      assert ObjectAsks(c, members, r, Pair(members[m].value, r.additional.value));
    }
  }

  lemma LogicAgrees(c: Context, d: Context, v: Json, s: Schema, depth: nat)
    requires s.Rules?
    requires forall p {:trigger LogicAsks(v, s, p)} :: LogicAsks(v, s, p) ==> Agree(c, d, p, depth)
    ensures LogicValid(c, v, s, depth) == LogicValid(d, v, s, depth)
  {
    forall p | LogicAsks(v, s, p) ensures Agree(c, d, p, depth) {
    }
    AllAgree(c, d, BranchPairs(v, s.allOf), depth);
    if s.anyOf.Some? {
      CountAgrees(c, d, BranchPairs(v, s.anyOf.value), depth);
    }
    if s.oneOf.Some? {
      CountAgrees(c, d, BranchPairs(v, s.oneOf.value), depth);
    }
    forall t | Some(t) in {s.negated, s.condition, s.consequent, s.alternative} ensures Agree(c, d, Pair(v, t), depth) {
      assert LogicAsks(v, s, Pair(v, t));
    }
    BranchesAgree(c, d, v, s, depth);
  }

  /** The keywords that take one schema: `not` and the three of `if`. */
  lemma BranchesAgree(c: Context, d: Context, v: Json, s: Schema, depth: nat)
    requires s.Rules?
    requires forall t | Some(t) in {s.negated, s.condition, s.consequent, s.alternative} ::
               Agree(c, d, Pair(v, t), depth)
    ensures forall t | Some(t) in {s.negated, s.condition, s.consequent, s.alternative} ::
              Eval(c, v, t, depth) == Eval(d, v, t, depth)
  {
    forall t | Some(t) in {s.negated, s.condition, s.consequent, s.alternative}
      ensures Eval(c, v, t, depth) == Eval(d, v, t, depth)
    {
      assert Agree(c, d, Pair(v, t), depth);
    }
  }

  lemma RulesAgree(c: Context, d: Context, v: Json, s: Schema, depth: nat)
    requires s.Rules? && Deeper(c, d)
    requires forall p {:trigger Asks(c, v, s, p)} :: Asks(c, v, s, p) ==> Agree(c, d, p, depth)
    ensures RulesValid(c, v, s, depth) == RulesValid(d, v, s, depth)
  {
    if s.reference.Some? && c.resolve(s.reference.value).Some? {
      var p := Pair(v, c.resolve(s.reference.value).value);
      assert Asks(c, v, s, p) && Agree(c, d, p, depth);
    }
    if v.Arr? {
      forall p | ArrayAsks(v.items, s.arrays, p) ensures Agree(c, d, p, depth) {
        assert Asks(c, v, s, p);
      }
      ArraysAgree(c, d, v.items, s.arrays, depth);
    }
    if v.Obj? {
      forall p | ObjectAsks(c, v.members, s.objects, p) ensures Agree(c, d, p, depth) {
        assert Asks(c, v, s, p);
      }
      ObjectsAgree(c, d, v.members, s.objects, depth);
    }
    forall p | LogicAsks(v, s, p) ensures Agree(c, d, p, depth) {
      assert Asks(c, v, s, p);
    }
    LogicAgrees(c, d, v, s, depth);
  }

  /** Where no evaluation is cut off, the verdict is the schema's own: no larger bound changes it. */
  lemma {:induction false} VerdictIsStable(c: Context, d: Context, v: Json, s: Schema, depth: nat)
    requires Deeper(c, d) && Settles(c, v, s, depth)
    ensures Eval(c, v, s, depth) == Eval(d, v, s, depth)
    decreases Room(c, depth)
  {
    if s.Rules? {
      forall p | Asks(c, v, s, p) ensures Agree(c, d, p, depth + 1) {
        VerdictIsStable(c, d, p.value, p.schema, depth + 1);
      }
      RulesAgree(c, d, v, s, depth + 1);
    }
  }

  const NO_RULES := Rules(None, None, None, None, NumberRules(None, None, None, None, None),
      StringRules(None, None, None),
                          ArrayRules(None, None, false, [], None, None, None, None),
                          ObjectRules(None, None, [], [], [], None, [], [], None),
                          [], None, None, None, None, None, None)

  /** The schema that says: not this very schema. */
  ghost predicate RefersBack(c: Context, s: Schema, name: Text) {
    s == NO_RULES.(negated := Some(NO_RULES.(reference := Some(name)))) && c.resolve(name) == Some(s)
  }

  /** One turn round the loop: valid here exactly when there is room for the turn and not valid two levels
      deeper, where the reference leads back to the schema. */
  lemma OneTurn(c: Context, v: Json, s: Schema, name: Text, depth: nat)
    requires RefersBack(c, s, name)
    ensures Eval(c, v, s, depth) <==> depth <= c.maxDepth && !(depth < c.maxDepth && Eval(c, v, s, depth + 2))
  {
    Unconstrained(c, v, s, depth + 1);
    Unconstrained(c, v, s.negated.value, depth + 2);
  }

  /** A cut-off under `not` becomes success: whatever the bound, a schema that negates itself is valid at
      some depths and invalid at others, by the bound's distance alone. */
  lemma {:induction false} CutOffUnderNot(c: Context, v: Json, s: Schema, name: Text, depth: nat)
    requires RefersBack(c, s, name)
    ensures Eval(c, v, s, depth) <==> depth <= c.maxDepth && (c.maxDepth - depth) % 4 < 2
    decreases Room(c, depth)
  {
    OneTurn(c, v, s, name, depth);
    if depth < c.maxDepth {
      CutOffUnderNot(c, v, s, name, depth + 2);
    }
  }

  /** So no bound is large enough: two levels more always turn the verdict round. */
  lemma SelfNegationNeverSettles(c: Context, v: Json, s: Schema, name: Text)
    requires RefersBack(c, s, name)
    ensures Eval(c, v, s, 0) <==> !Eval(c.(maxDepth := c.maxDepth + 2), v, s, 0)
    ensures !Settles(c, v, s, 0)
  {
    var d := c.(maxDepth := c.maxDepth + 2);
    CutOffUnderNot(c, v, s, name, 0);
    CutOffUnderNot(d, v, s, name, 0);
    if Settles(c, v, s, 0) {
      VerdictIsStable(c, d, v, s, 0);
    }
  }

  /** Where only `$ref` and `not` constrain, nothing else decides. */
  lemma Unconstrained(c: Context, v: Json, s: Schema, depth: nat)
    requires s.Rules? && s == NO_RULES.(reference := s.reference, negated := s.negated)
    ensures RulesValid(c, v, s, depth) <==>
              && (s.reference.Some? ==>
                    var target := c.resolve(s.reference.value);
                    target.Some? && Eval(c, v, target.value, depth))
              && (s.negated.Some? ==> !Eval(c, v, s.negated.value, depth))
  {
    assert PlainValid(c, v, s);
    if v.Arr? {
      assert PrefixPairs(v.items, []) == [];
      assert ArrayValid(c, v.items, s.arrays, depth);
    }
    if v.Obj? {
      assert PropertyPairs(v.members, []) == [] && DependentPairs(v.members, []) == [];
      assert PatternsValid(c, v.members, [], depth);
      assert ObjectValid(c, v.members, s.objects, depth);
    }
    assert BranchPairs(v, []) == [];
    assert LogicValid(c, v, s, depth) <==> (s.negated.Some? ==> !Eval(c, v, s.negated.value, depth));
  }

  /** A reference that leads to its own schema ends at the bound, and nothing satisfies it. */
  lemma {:induction false} SelfReferenceIsNeverValid(c: Context, v: Json, s: Schema, depth: nat)
    requires s.Rules? && s.reference.Some? && c.resolve(s.reference.value) == Some(s)
    ensures !Eval(c, v, s, depth)
    decreases Room(c, depth)
  {
    if depth <= c.maxDepth {
      SelfReferenceIsNeverValid(c, v, s, depth + 1);
    }
  }
}
