/** What each keyword asks of a value, item by item and member by member, and that the unmetered meaning is
    exactly that. */
module SchemaLaws {
  import opened TaskStates
  import opened JsonValues
  import opened JsonTexts
  import opened JsonCanon
  import opened Schemas

  /* ---------- the laws ---------- */

  /** The item's own schema in `prefixItems` where there is one, `items` beyond it; `contains` counts items. */
  ghost predicate ArrayLaw(c: Context, items: seq<Json>, r: ArrayRules, depth: nat) {
    && (forall i | 0 <= i < |items| && i < |r.prefixItems| :: Eval(c, items[i], r.prefixItems[i], depth))
    && (forall i | |r.prefixItems| <= i < |items| :: r.items.Some? ==> Eval(c, items[i], r.items.value, depth))
    && (r.contains.Some? ==>
          var found := |ValidItems(c, items, r.contains.value, depth)|;
          && (r.minContains.Some? ==> found >= r.minContains.value)
          && (r.minContains.None? ==> found >= 1)
          && (r.maxContains.Some? ==> found <= r.maxContains.value))
  }

  ghost function ValidItems(c: Context, items: seq<Json>, s: Schema, depth: nat): set<nat> {
    set i: nat | 0 <= i < |items| && Eval(c, items[i], s, depth)
  }

  /** A member is checked by every property of its name and every pattern it matches, and by `additionalProperties`
      when there is neither; the whole object by every dependent schema whose key it has; every key as a string. */
  ghost predicate ObjectLaw(c: Context, v: Json, r: ObjectRules, depth: nat)
    requires v.Obj?
  {
    var ms := v.members;
    && (forall p, m | 0 <= p < |r.properties| && 0 <= m < |ms| ::
          r.properties[p].name == ms[m].key ==> Eval(c, ms[m].value, r.properties[p].schema, depth))
    && (forall p, m | 0 <= p < |r.patternProperties| && 0 <= m < |ms| ::
          c.matches(r.patternProperties[p].name, ms[m].key) ==>
            Eval(c, ms[m].value, r.patternProperties[p].schema, depth))
    && (forall m | 0 <= m < |ms| ::
          r.additional.Some?
          && (forall p | 0 <= p < |r.properties| :: r.properties[p].name != ms[m].key)
          && (forall p | 0 <= p < |r.patternProperties| :: !c.matches(r.patternProperties[p].name, ms[m].key)) ==>
            Eval(c, ms[m].value, r.additional.value, depth))
    && (forall d, m | 0 <= d < |r.dependentRequired| && 0 <= m < |ms| && ms[m].key == r.dependentRequired[d].name ::
          forall n | 0 <= n < |r.dependentRequired[d].needs| :: HasMember(ms, r.dependentRequired[d].needs[n]))
    && (forall d, m | 0 <= d < |r.dependentSchemas| && 0 <= m < |ms| ::
          ms[m].key == r.dependentSchemas[d].name ==> Eval(c, v, r.dependentSchemas[d].schema, depth))
    && (forall m | 0 <= m < |ms| :: r.propertyNames.Some? ==> Eval(c, Str(ms[m].key), r.propertyNames.value, depth))
  }

  ghost predicate HasMember(ms: seq<Member>, key: Text) {
    exists m :: 0 <= m < |ms| && ms[m].key == key
  }

  /** Every branch of `allOf`, some branch of `anyOf`, exactly one of `oneOf`, not `not`, and `then` or `else` as
      `if` says. */
  ghost predicate LogicLaw(c: Context, v: Json, s: Schema, depth: nat)
    requires s.Rules?
  {
    && (forall i | 0 <= i < |s.allOf| :: Eval(c, v, s.allOf[i], depth))
    && (s.anyOf.Some? ==> exists i :: 0 <= i < |s.anyOf.value| && Eval(c, v, s.anyOf.value[i], depth))
    && (s.oneOf.Some? ==> exists i :: 0 <= i < |s.oneOf.value| && OnlyOne(c, v, s.oneOf.value, i, depth))
    && (s.negated.Some? ==> !Eval(c, v, s.negated.value, depth))
    && (s.condition.Some? && Eval(c, v, s.condition.value, depth) && s.consequent.Some? ==>
          Eval(c, v, s.consequent.value, depth))
    && (s.condition.Some? && !Eval(c, v, s.condition.value, depth) && s.alternative.Some? ==>
          Eval(c, v, s.alternative.value, depth))
  }

  ghost predicate OnlyOne(c: Context, v: Json, ss: seq<Schema>, i: nat, depth: nat)
    requires i < |ss|
  {
    forall j | 0 <= j < |ss| :: Eval(c, v, ss[j], depth) <==> j == i
  }

  /** Whether a value is of a type; an integer is a number that a double holds exactly. */
  ghost predicate OfType(v: Json, t: TypeName) {
    || (t == NullType && v.Null?)
    || (t == BooleanType && v.Bool?)
    || (t == ObjectType && v.Obj?)
    || (t == ArrayType && v.Arr?)
    || (t == NumberType && v.Num?)
    || (t == IntegerType && v.Num? && -9007199254740991 <= v.n <= 9007199254740991)
    || (t == StringType && v.Str?)
  }

  /** The bounds on a number; a multiple may miss by one part in 10^12 of the divisor. */
  ghost predicate NumberLaw(n: int, r: NumberRules) {
    && (r.multipleOf.Some? && r.multipleOf.value > 0 ==>
          exists k: int :: Near(n, k, r.multipleOf.value))
    && (r.minimum.Some? ==> r.minimum.value <= n) && (r.maximum.Some? ==> n <= r.maximum.value)
    && (r.exclusiveMinimum.Some? ==> r.exclusiveMinimum.value < n)
    && (r.exclusiveMaximum.Some? ==> n < r.exclusiveMaximum.value)
  }

  ghost predicate Near(n: int, k: int, m: int) {
    -m <= (n - k * m) * 1000000000000 && (n - k * m) * 1000000000000 <= m
  }

  /** Code units that begin a character: all but a low surrogate behind a high one. */
  ghost function CodePoints(s: Text): nat {
    if s == [] then 0
    else
      var last := |s| - 1;
      CodePoints(s[..last])
      + (if last > 0 && 0xdc00 <= s[last] <= 0xdfff && 0xd800 <= s[last - 1] <= 0xdbff then 0 else 1)
  }

  /** The keywords that look at the value alone. */
  ghost predicate PlainLaw(c: Context, v: Json, s: Schema)
    requires s.Rules?
  {
    && (s.types.Some? ==> exists i :: 0 <= i < |s.types.value| && OfType(v, s.types.value[i]))
    && (s.constant.Some? ==> DeepEqual(v, s.constant.value))
    && (s.choices.Some? ==> exists i :: 0 <= i < |s.choices.value| && DeepEqual(v, s.choices.value[i]))
    && (v.Num? ==> NumberLaw(v.n, s.numbers))
    && (v.Str? ==>
          && (s.strings.minLength.Some? ==> CodePoints(v.s) >= s.strings.minLength.value)
          && (s.strings.maxLength.Some? ==> CodePoints(v.s) <= s.strings.maxLength.value)
          && (s.strings.pattern.Some? ==> c.matches(s.strings.pattern.value, v.s)))
    && (v.Arr? ==>
          && (s.arrays.minItems.Some? ==> |v.items| >= s.arrays.minItems.value)
          && (s.arrays.maxItems.Some? ==> |v.items| <= s.arrays.maxItems.value)
          && (s.arrays.uniqueItems ==>
                forall i, j | 0 <= i < j < |v.items| :: Canonical(v.items[i]) != Canonical(v.items[j])))
    && (v.Obj? ==>
          && (s.objects.minProperties.Some? ==> |v.members| >= s.objects.minProperties.value)
          && (s.objects.maxProperties.Some? ==> |v.members| <= s.objects.maxProperties.value)
          && (forall k | 0 <= k < |s.objects.required| :: HasMember(v.members, s.objects.required[k])))
  }

  /* ---------- counting ---------- */

  ghost function ValidIndices(c: Context, pairs: seq<Pair>, depth: nat): set<nat> {
    set i: nat | 0 <= i < |pairs| && Eval(c, pairs[i].value, pairs[i].schema, depth)
  }

  lemma {:induction false} ShiftedSize(a: set<nat>, b: set<nat>)
    requires forall i :: i in b <==> i > 0 && i - 1 in a
    ensures |a| == |b|
    decreases a
  {
    if x :| x in a {
      assert x + 1 in b;
      ShiftedSize(a - {x}, b - {x + 1});
    } else {
      assert forall i :: i !in b;
      assert b == {};
    }
  }

  lemma {:induction false} CountIsSize(c: Context, pairs: seq<Pair>, depth: nat)
    ensures CountValid(c, pairs, depth) == |ValidIndices(c, pairs, depth)|
    decreases |pairs|
  {
    var all := ValidIndices(c, pairs, depth);
    if pairs == [] {
      assert all == {};
    } else {
      var rest := ValidIndices(c, pairs[1..], depth);
      CountIsSize(c, pairs[1..], depth);
      forall i | i in all - {0} ensures i - 1 in rest {
        assert pairs[1..][i - 1] == pairs[i];
      }
      forall i | i > 0 && i - 1 in rest ensures i in all - {0} {
        assert pairs[1..][i - 1] == pairs[i];
      }
      ShiftedSize(rest, all - {0});
    }
  }

  /* ---------- arrays ---------- */

  lemma {:induction false} PrefixIs(c: Context, items: seq<Json>, schemas: seq<Schema>)
    ensures |PrefixPairs(items, schemas)| == if |items| < |schemas| then |items| else |schemas|
    ensures forall i | 0 <= i < |PrefixPairs(items, schemas)| ::
              PrefixPairs(items, schemas)[i] == Pair(items[i], schemas[i])
  {
    if items != [] && schemas != [] {
      PrefixIs(c, items[1..], schemas[1..]);
    }
  }

  lemma BeyondIs(items: seq<Json>, prefix: nat)
    ensures |Beyond(items, prefix)| == if prefix <= |items| then |items| - prefix else 0
    ensures forall i | 0 <= i < |Beyond(items, prefix)| :: Beyond(items, prefix)[i] == items[prefix + i]
  {
  }

  lemma ArrayLawHolds(c: Context, items: seq<Json>, r: ArrayRules, depth: nat)
    ensures ArrayValid(c, items, r, depth) <==> ArrayLaw(c, items, r, depth)
  {
    PrefixIs(c, items, r.prefixItems);
    var prefix := PrefixPairs(items, r.prefixItems);
    assert AllValid(c, prefix, depth) <==>
           forall i | 0 <= i < |items| && i < |r.prefixItems| :: Eval(c, items[i], r.prefixItems[i], depth) by {
      forall i | 0 <= i < |items| && i < |r.prefixItems| ensures prefix[i] == Pair(items[i], r.prefixItems[i]) {
      }
    }
    if r.items.Some? {
      RestLaw(c, items, |r.prefixItems|, r.items.value, depth);
    }
    if r.contains.Some? {
      var s := r.contains.value;
      CountIsSize(c, ItemPairs(items, s), depth);
      assert ValidIndices(c, ItemPairs(items, s), depth) == ValidItems(c, items, s, depth);
    }
  }

  lemma RestLaw(c: Context, items: seq<Json>, prefix: nat, s: Schema, depth: nat)
    ensures AllValid(c, ItemPairs(Beyond(items, prefix), s), depth) <==>
              forall i | prefix <= i < |items| :: Eval(c, items[i], s, depth)
  {
    BeyondIs(items, prefix);
    var pairs := ItemPairs(Beyond(items, prefix), s);
    if AllValid(c, pairs, depth) {
      forall i | prefix <= i < |items| ensures Eval(c, items[i], s, depth) {
        assert pairs[i - prefix] == Pair(items[i], s);
      }
    }
    if forall i | prefix <= i < |items| :: Eval(c, items[i], s, depth) {
      forall i | 0 <= i < |pairs| ensures Eval(c, pairs[i].value, pairs[i].schema, depth) {
        assert pairs[i] == Pair(items[prefix + i], s);
      }
    }
  }

  /* ---------- objects ---------- */

  lemma {:induction false} KeyIsMember(ms: seq<Member>, key: Text)
    ensures HasKey(ms, key) <==> HasMember(ms, key)
    ensures HasKey(ms, key) ==> exists m :: 0 <= m < |ms| && ms[m] == Member(key, Lookup(ms, key))
  {
    if ms != [] {
      KeyIsMember(ms[1..], key);
      if HasMember(ms[1..], key) {
        var m :| 0 <= m < |ms[1..]| && ms[1..][m].key == key;
        assert ms[m + 1].key == key;
      }
      if m :| 0 <= m < |ms| && ms[m].key == key {
        assert m > 0 ==> ms[1..][m - 1].key == key;
      }
      if ms[0].key == key {
        assert ms[0] == Member(key, Lookup(ms, key));
      } else if HasKey(ms[1..], key) {
        var m :| 0 <= m < |ms[1..]| && ms[1..][m] == Member(key, Lookup(ms[1..], key));
        assert ms[m + 1] == Member(key, Lookup(ms, key));
      }
    }
  }

  /** What a list of named schemas asks of an object's members. */
  lemma {:induction false} PropertiesAsk(c: Context, ms: seq<Member>, ns: seq<Named>, depth: nat)
    requires DistinctKeys(ms)
    ensures AllValid(c, PropertyPairs(ms, ns), depth) <==>
              forall p, m | 0 <= p < |ns| && 0 <= m < |ms| ::
                ns[p].name == ms[m].key ==> Eval(c, ms[m].value, ns[p].schema, depth)
    decreases |ns|
  {
    if ns != [] {
      var head := if HasKey(ms, ns[0].name) then [Pair(Lookup(ms, ns[0].name), ns[0].schema)] else [];
      var rest := PropertyPairs(ms, ns[1..]);
      PropertiesAsk(c, ms, ns[1..], depth);
      BothValid(c, head, rest, depth);
      HeadAsks(c, ms, ns[0], head, depth);
      assert forall p {:trigger ns[p]} | 1 <= p < |ns| :: ns[1..][p - 1] == ns[p];
    }
  }

  lemma BothValid(c: Context, a: seq<Pair>, b: seq<Pair>, depth: nat)
    ensures AllValid(c, a + b, depth) <==> AllValid(c, a, depth) && AllValid(c, b, depth)
  {
    if AllValid(c, a + b, depth) {
      forall i | 0 <= i < |a| ensures Eval(c, a[i].value, a[i].schema, depth) {
        assert (a + b)[i] == a[i];
      }
      forall i | 0 <= i < |b| ensures Eval(c, b[i].value, b[i].schema, depth) {
        assert (a + b)[|a| + i] == b[i];
      }
    }
  }

  lemma HeadAsks(c: Context, ms: seq<Member>, n: Named, head: seq<Pair>, depth: nat)
    requires DistinctKeys(ms)
    requires head == if HasKey(ms, n.name) then [Pair(Lookup(ms, n.name), n.schema)] else []
    ensures AllValid(c, head, depth) <==>
              forall m | 0 <= m < |ms| :: n.name == ms[m].key ==> Eval(c, ms[m].value, n.schema, depth)
  {
    KeyIsMember(ms, n.name);
    if HasKey(ms, n.name) {
      var m :| 0 <= m < |ms| && ms[m] == Member(n.name, Lookup(ms, n.name));
      assert head[0] == Pair(ms[m].value, n.schema);
    }
  }

  lemma {:induction false} DependentsAsk(c: Context, ms: seq<Member>, ns: seq<Named>, depth: nat)
    ensures AllValid(c, DependentPairs(ms, ns), depth) <==>
              forall d, m | 0 <= d < |ns| && 0 <= m < |ms| ::
                ms[m].key == ns[d].name ==> Eval(c, Obj(ms), ns[d].schema, depth)
    decreases |ns|
  {
    if ns != [] {
      var head := if HasKey(ms, ns[0].name) then [Pair(Obj(ms), ns[0].schema)] else [];
      DependentsAsk(c, ms, ns[1..], depth);
      BothValid(c, head, DependentPairs(ms, ns[1..]), depth);
      KeyIsMember(ms, ns[0].name);
      assert head != [] ==> head[0] == Pair(Obj(ms), ns[0].schema);
      assert forall d {:trigger ns[d]} | 1 <= d < |ns| :: ns[1..][d - 1] == ns[d];
    }
  }

  lemma NamesAsk(c: Context, ms: seq<Member>, s: Schema, depth: nat)
    ensures AllValid(c, NamePairs(ms, s), depth) <==> forall m | 0 <= m < |ms| :: Eval(c, Str(ms[m].key), s, depth)
  {
    var pairs := NamePairs(ms, s);
    forall m | 0 <= m < |ms| ensures pairs[m] == Pair(Str(ms[m].key), s) {
    }
  }

  lemma DependenciesAsk(ms: seq<Member>, ds: seq<Dependency>)
    ensures DependenciesPresent(ms, ds) <==>
              forall d, m | 0 <= d < |ds| && 0 <= m < |ms| && ms[m].key == ds[d].name ::
                forall n | 0 <= n < |ds[d].needs| :: HasMember(ms, ds[d].needs[n])
  {
    forall key ensures HasKey(ms, key) <==> HasMember(ms, key) {
      KeyIsMember(ms, key);
    }
  }

  lemma ObjectLawHolds(c: Context, v: Json, r: ObjectRules, depth: nat)
    requires v.Obj? && DistinctKeys(v.members)
    ensures ObjectValid(c, v.members, r, depth) <==> ObjectLaw(c, v, r, depth)
  {
    PropertiesAsk(c, v.members, r.properties, depth);
    DependentsAsk(c, v.members, r.dependentSchemas, depth);
    DependenciesAsk(v.members, r.dependentRequired);
    if r.propertyNames.Some? {
      NamesAsk(c, v.members, r.propertyNames.value, depth);
    }
  }

  /* ---------- combinators ---------- */

  lemma BranchIs(v: Json, ss: seq<Schema>)
    ensures |BranchPairs(v, ss)| == |ss|
    ensures forall i | 0 <= i < |ss| :: BranchPairs(v, ss)[i] == Pair(v, ss[i])
  {
  }

  lemma BranchesAsk(c: Context, v: Json, ss: seq<Schema>, depth: nat)
    ensures AllValid(c, BranchPairs(v, ss), depth) <==> forall i | 0 <= i < |ss| :: Eval(c, v, ss[i], depth)
    ensures CountValid(c, BranchPairs(v, ss), depth) > 0 <==> exists i :: 0 <= i < |ss| && Eval(c, v, ss[i], depth)
    ensures CountValid(c, BranchPairs(v, ss), depth) == 1 <==>
              exists i :: 0 <= i < |ss| && OnlyOne(c, v, ss, i, depth)
  {
    var pairs := BranchPairs(v, ss);
    BranchIs(v, ss);
    CountIsSize(c, pairs, depth);
    var valid := ValidIndices(c, pairs, depth);
    forall i: nat | i < |ss| ensures i in valid <==> Eval(c, v, ss[i], depth) {
      assert pairs[i] == Pair(v, ss[i]);
    }
    if i :| 0 <= i < |ss| && OnlyOne(c, v, ss, i, depth) {
      assert valid == {i};
    }
    if |valid| == 1 {
      var i :| i in valid;
      OneElement(valid, i);
      assert OnlyOne(c, v, ss, i, depth);
    }
    if exists i :: 0 <= i < |ss| && Eval(c, v, ss[i], depth) {
      var i :| 0 <= i < |ss| && Eval(c, v, ss[i], depth);
      assert i in valid;
    }
  }

  lemma OneElement(a: set<nat>, x: nat)
    requires |a| == 1 && x in a
    ensures a == {x}
  {
    assert |a - {x}| == 0;
  }

  lemma LogicLawHolds(c: Context, v: Json, s: Schema, depth: nat)
    requires s.Rules?
    ensures LogicValid(c, v, s, depth) <==> LogicLaw(c, v, s, depth)
  {
    BranchesAsk(c, v, s.allOf, depth);
    if s.anyOf.Some? {
      BranchesAsk(c, v, s.anyOf.value, depth);
    }
    if s.oneOf.Some? {
      BranchesAsk(c, v, s.oneOf.value, depth);
    }
  }

  /* ---------- the value alone ---------- */

  lemma {:induction false} CodePointsAfter(s: Text, t: Text)
    requires !(s != [] && t != [] && 0xd800 <= s[|s| - 1] <= 0xdbff && 0xdc00 <= t[0] <= 0xdfff)
    ensures CodePoints(s + t) == CodePoints(s) + CodePoints(t)
    decreases |t|
  {
    if t == [] {
      assert s + t == s;
    } else {
      var before := t[..|t| - 1];
      assert (s + t)[..|s + t| - 1] == s + before;
      CodePointsAfter(s, before);
    }
  }

  lemma {:induction false} CharactersAreCodePoints(s: Text)
    ensures Characters(s) == CodePoints(s)
    decreases |s|
  {
    if s != [] {
      var n := Width(s);
      CharactersAreCodePoints(s[n..]);
      assert s == s[..n] + s[n..];
      CodePointsAfter(s[..n], s[n..]);
      FirstCharacter(s);
    }
  }

  lemma FirstCharacter(s: Text)
    requires s != []
    ensures CodePoints(s[..Width(s)]) == 1
  {
    var head := s[..Width(s)];
    assert [s[0]][..0] == [];
    assert CodePoints([s[0]]) == 1;
    if Width(s) == 2 {
      assert head == [s[0], s[1]] && head[..1] == [s[0]];
      assert 0xd800 <= head[0] <= 0xdbff && 0xdc00 <= head[1] <= 0xdfff;
    } else {
      assert head == [s[0]];
    }
  }

  lemma PlainLawHolds(c: Context, v: Json, s: Schema)
    requires s.Rules?
    ensures PlainValid(c, v, s) <==> PlainLaw(c, v, s)
  {
    if v.Str? {
      CharactersAreCodePoints(v.s);
    }
    if v.Obj? {
      forall k | 0 <= k < |s.objects.required|
        ensures HasKey(v.members, s.objects.required[k]) <==> HasMember(v.members, s.objects.required[k])
      {
        KeyIsMember(v.members, s.objects.required[k]);
      }
    }
    if v.Num? {
      NumberLawHolds(v.n, s.numbers);
    }
    forall t: TypeName ensures HasType(v, t) <==> OfType(v, t) {
    }
  }

  lemma NumberLawHolds(n: int, r: NumberRules)
    ensures NumberValid(n, r) <==> NumberLaw(n, r)
  {
    if r.multipleOf.Some? {
      forall k: int ensures NearTo(n, k, r.multipleOf.value) <==> Near(n, k, r.multipleOf.value) {
      }
    }
  }

  /* ---------- all keywords ---------- */

  /** A value is valid against the keywords of a schema exactly when the schema it refers to and every keyword's
      law say so. Members of an object have distinct keys, as JavaScript objects do. */
  lemma KeywordLaws(c: Context, v: Json, s: Schema, depth: nat)
    requires s.Rules? && (v.Obj? ==> DistinctKeys(v.members))
    ensures RulesValid(c, v, s, depth) <==>
              && (s.reference.Some? ==>
                    c.resolve(s.reference.value).Some? && Eval(c, v, c.resolve(s.reference.value).value, depth))
              && PlainLaw(c, v, s)
              && (v.Arr? ==> ArrayLaw(c, v.items, s.arrays, depth))
              && (v.Obj? ==> ObjectLaw(c, v, s.objects, depth))
              && LogicLaw(c, v, s, depth)
  {
    PlainLawHolds(c, v, s);
    if v.Arr? {
      ArrayLawHolds(c, v.items, s.arrays, depth);
    }
    if v.Obj? {
      ObjectLawHolds(c, v, s.objects, depth);
    }
    LogicLawHolds(c, v, s, depth);
  }

  /** Within the depth bound `true` accepts and `false` refuses everything, and other schemas ask their keywords one
      level deeper; beyond the bound nothing is valid. */
  lemma EvaluationLaw(c: Context, v: Json, s: Schema, depth: nat)
    ensures depth > c.maxDepth ==> !Eval(c, v, s, depth)
    ensures depth <= c.maxDepth && s == Flag(true) ==> Eval(c, v, s, depth)
    ensures depth <= c.maxDepth && s == Flag(false) ==> !Eval(c, v, s, depth)
    ensures depth <= c.maxDepth && s.Rules? ==> (Eval(c, v, s, depth) <==> RulesValid(c, v, s, depth + 1))
  {
  }
}
