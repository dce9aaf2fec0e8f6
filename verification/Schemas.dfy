/** JSON schemas as the evaluator reads them, and their meaning when evaluation is not metered: every
    nested evaluation one level deeper, and nothing valid below the depth bound. */
module Schemas {
  import opened TaskStates
  import opened JsonValues
  import opened JsonTexts
  import opened JsonCanon

  datatype TypeName = NullType | BooleanType | ObjectType | ArrayType | NumberType | IntegerType | StringType

  datatype NumberRules = NumberRules(multipleOf: Option<int>, minimum: Option<int>, maximum: Option<int>,
                                     exclusiveMinimum: Option<int>, exclusiveMaximum: Option<int>)

  datatype StringRules = StringRules(minLength: Option<nat>, maxLength: Option<nat>, pattern: Option<Text>)

  datatype ArrayRules = ArrayRules(minItems: Option<nat>, maxItems: Option<nat>, uniqueItems: bool,
                                   prefixItems: seq<Schema>, items: Option<Schema>,
                                   contains: Option<Schema>, minContains: Option<nat>, maxContains: Option<nat>)

  datatype ObjectRules = ObjectRules(minProperties: Option<nat>, maxProperties: Option<nat>, required: seq<Text>,
                                     properties: seq<Named>, patternProperties: seq<Named>, additional: Option<Schema>,
                                     dependentRequired: seq<Dependency>, dependentSchemas: seq<Named>,
                                     propertyNames: Option<Schema>)

  datatype Schema =
    | Flag(b: bool)
    | Rules(reference: Option<Text>, types: Option<seq<TypeName>>, constant: Option<Json>, choices: Option<seq<Json>>,
            numbers: NumberRules, strings: StringRules, arrays: ArrayRules, objects: ObjectRules,
            allOf: seq<Schema>, anyOf: Option<seq<Schema>>, oneOf: Option<seq<Schema>>, negated: Option<Schema>,
            condition: Option<Schema>, consequent: Option<Schema>, alternative: Option<Schema>)

  datatype Named = Named(name: Text, schema: Schema)

  datatype Dependency = Dependency(name: Text, needs: seq<Text>)

  /** What evaluation depends on besides the schema: the depth bound, which subschema a reference names,
      and which strings a pattern matches. */
  datatype Context = Context(maxDepth: nat, resolve: Text -> Option<Schema>, matches: (Text, Text) -> bool)

  /** One nested evaluation. */
  datatype Pair = Pair(value: Json, schema: Schema)

  /* ---------- which nested evaluations a keyword asks for ---------- */

  function PrefixPairs(items: seq<Json>, schemas: seq<Schema>): seq<Pair> {
    if items == [] || schemas == [] then [] else [Pair(items[0], schemas[0])] + PrefixPairs(items[1..], schemas[1..])
  }

  function ItemPairs(items: seq<Json>, schema: Schema): seq<Pair> {
    seq(|items|, i requires 0 <= i < |items| => Pair(items[i], schema))
  }

  /** The items beyond the prefix. */
  function Beyond(items: seq<Json>, prefix: nat): seq<Json> {
    if prefix <= |items| then items[prefix..] else []
  }

  function PropertyPairs(members: seq<Member>, properties: seq<Named>): seq<Pair> {
    if properties == [] then []
    else
      (if HasKey(members, properties[0].name) then [Pair(Lookup(members, properties[0].name), properties[0].schema)]
          else [])
      + PropertyPairs(members, properties[1..])
  }

  function DependentPairs(members: seq<Member>, dependents: seq<Named>): seq<Pair> {
    if dependents == [] then []
    else
      (if HasKey(members, dependents[0].name) then [Pair(Obj(members), dependents[0].schema)] else [])
      + DependentPairs(members, dependents[1..])
  }

  function NamePairs(members: seq<Member>, schema: Schema): seq<Pair> {
    seq(|members|, i requires 0 <= i < |members| => Pair(Str(members[i].key), schema))
  }

  function BranchPairs(value: Json, schemas: seq<Schema>): seq<Pair> {
    seq(|schemas|, i requires 0 <= i < |schemas| => Pair(value, schemas[i]))
  }

  /* ---------- keywords that look no deeper ---------- */

  predicate HasType(value: Json, t: TypeName) {
    match t
    case NullType => value.Null?
    case BooleanType => value.Bool?
    case ObjectType => value.Obj?
    case ArrayType => value.Arr?
    case NumberType => value.Num?
    case IntegerType => value.Num? && -0x1f_ffff_ffff_ffff <= value.n <= 0x1f_ffff_ffff_ffff
    case StringType => value.Str?
  }

  /** The quotient is within 1e-12 of a whole number. */
  ghost predicate NearMultiple(n: int, m: int) {
    m > 0 ==> exists k: int :: NearTo(n, k, m)
  }

  ghost predicate NearTo(n: int, k: int, m: int) {
    -m <= (n - k * m) * 1_000_000_000_000 <= m
  }

  ghost predicate NumberValid(n: int, r: NumberRules) {
    && (r.multipleOf.Some? ==> NearMultiple(n, r.multipleOf.value))
    && (r.minimum.Some? ==> n >= r.minimum.value)
    && (r.maximum.Some? ==> n <= r.maximum.value)
    && (r.exclusiveMinimum.Some? ==> n > r.exclusiveMinimum.value)
    && (r.exclusiveMaximum.Some? ==> n < r.exclusiveMaximum.value)
  }

  /** How many characters a string has, a surrogate pair being one. */
  function Characters(s: Text): nat {
    if s == [] then 0 else 1 + Characters(s[Width(s)..])
  }

  predicate LengthValid(length: nat, least: Option<nat>, most: Option<nat>) {
    (least.Some? ==> length >= least.value) && (most.Some? ==> length <= most.value)
  }

  predicate DistinctTexts(items: seq<Json>) {
    forall i, j | 0 <= i < j < |items| :: Canonical(items[i]) != Canonical(items[j])
  }

  predicate AllPresent(members: seq<Member>, names: seq<Text>) {
    forall i | 0 <= i < |names| :: HasKey(members, names[i])
  }

  predicate DependenciesPresent(members: seq<Member>, dependencies: seq<Dependency>) {
    forall i | 0 <= i < |dependencies| :: HasKey(members, dependencies[i].name)
        ==> AllPresent(members, dependencies[i].needs)
  }

  /** The keywords that need no nested evaluation: type, const, enum, and the bounds of each type. */
  ghost predicate PlainValid(c: Context, value: Json, s: Schema)
    requires s.Rules?
  {
    && (s.types.Some? ==> exists i :: 0 <= i < |s.types.value| && HasType(value, s.types.value[i]))
    && (s.constant.Some? ==> DeepEqual(value, s.constant.value))
    && (s.choices.Some? ==> exists i :: 0 <= i < |s.choices.value| && DeepEqual(value, s.choices.value[i]))
    && (value.Num? ==> NumberValid(value.n, s.numbers))
    && (value.Str? ==>
          && LengthValid(Characters(value.s), s.strings.minLength, s.strings.maxLength)
          && (s.strings.pattern.Some? ==> c.matches(s.strings.pattern.value, value.s)))
    && (value.Arr? ==>
          && LengthValid(|value.items|, s.arrays.minItems, s.arrays.maxItems)
          && (s.arrays.uniqueItems ==> DistinctTexts(value.items)))
    && (value.Obj? ==>
          && LengthValid(|value.members|, s.objects.minProperties, s.objects.maxProperties)
          && AllPresent(value.members, s.objects.required))
  }

  /* ---------- the meaning ---------- */

  /** How many levels are left. */
  function Room(c: Context, depth: nat): nat {
    if depth > c.maxDepth then 0 else c.maxDepth + 1 - depth
  }

  /** Whether a value is valid against a schema, evaluated at this depth. */
  ghost predicate Eval(c: Context, value: Json, s: Schema, depth: nat)
    decreases Room(c, depth), 1
  {
    depth <= c.maxDepth && (if s.Flag? then s.b else RulesValid(c, value, s, depth + 1))
  }

  ghost predicate AllValid(c: Context, pairs: seq<Pair>, depth: nat)
    decreases Room(c, depth), 2
  {
    forall i | 0 <= i < |pairs| :: Eval(c, pairs[i].value, pairs[i].schema, depth)
  }

  ghost function CountValid(c: Context, pairs: seq<Pair>, depth: nat): nat
    decreases Room(c, depth), 2, |pairs|
  {
    if pairs == [] then 0
    else (if Eval(c, pairs[0].value, pairs[0].schema, depth) then 1 else 0) + CountValid(c, pairs[1..], depth)
  }

  /** `depth` is where nested evaluations happen. */
  ghost predicate RulesValid(c: Context, value: Json, s: Schema, depth: nat)
    requires s.Rules?
    decreases Room(c, depth), 4
  {
    && (s.reference.Some? ==>
          var target := c.resolve(s.reference.value);
          target.Some? && Eval(c, value, target.value, depth))
    && PlainValid(c, value, s)
    && (value.Arr? ==> ArrayValid(c, value.items, s.arrays, depth))
    && (value.Obj? ==> ObjectValid(c, value.members, s.objects, depth))
    && LogicValid(c, value, s, depth)
  }

  ghost predicate ArrayValid(c: Context, items: seq<Json>, r: ArrayRules, depth: nat)
    decreases Room(c, depth), 3
  {
    && AllValid(c, PrefixPairs(items, r.prefixItems), depth)
    && (r.items.Some? ==> AllValid(c, ItemPairs(Beyond(items, |r.prefixItems|), r.items.value), depth))
    && (r.contains.Some? ==>
          var n := CountValid(c, ItemPairs(items, r.contains.value), depth);
          LengthValid(n, if r.minContains.Some? then r.minContains else Some(1), r.maxContains))
  }

  ghost predicate ObjectValid(c: Context, members: seq<Member>, r: ObjectRules, depth: nat)
    decreases Room(c, depth), 3
  {
    && AllValid(c, PropertyPairs(members, r.properties), depth)
    && PatternsValid(c, members, r.patternProperties, depth)
    && (r.additional.Some? ==> AdditionalValid(c, members, r, r.additional.value, depth))
    && DependenciesPresent(members, r.dependentRequired)
    && AllValid(c, DependentPairs(members, r.dependentSchemas), depth)
    && (r.propertyNames.Some? ==> AllValid(c, NamePairs(members, r.propertyNames.value), depth))
  }

  /** Every property against every pattern it matches. */
  ghost predicate PatternsValid(c: Context, members: seq<Member>, patterns: seq<Named>, depth: nat)
    decreases Room(c, depth), 2
  {
    forall p, m | 0 <= p < |patterns| && 0 <= m < |members| ::
      c.matches(patterns[p].name, members[m].key) ==> Eval(c, members[m].value, patterns[p].schema, depth)
  }

  predicate Known(properties: seq<Named>, key: Text) {
    exists p :: 0 <= p < |properties| && properties[p].name == key
  }

  predicate MatchesSome(c: Context, patterns: seq<Named>, key: Text) {
    exists p :: 0 <= p < |patterns| && c.matches(patterns[p].name, key)
  }

  /** Every property that is neither listed nor matched by a pattern. */
  ghost predicate AdditionalValid(c: Context, members: seq<Member>, r: ObjectRules, s: Schema, depth: nat)
    decreases Room(c, depth), 2
  {
    forall m | 0 <= m < |members| ::
      Known(r.properties, members[m].key) || MatchesSome(c, r.patternProperties, members[m].key)
          || Eval(c, members[m].value, s, depth)
  }

  ghost predicate LogicValid(c: Context, value: Json, s: Schema, depth: nat)
    requires s.Rules?
    decreases Room(c, depth), 3
  {
    && AllValid(c, BranchPairs(value, s.allOf), depth)
    && (s.anyOf.Some? ==> CountValid(c, BranchPairs(value, s.anyOf.value), depth) > 0)
    && (s.oneOf.Some? ==> CountValid(c, BranchPairs(value, s.oneOf.value), depth) == 1)
    && (s.negated.Some? ==> !Eval(c, value, s.negated.value, depth))
    && (s.condition.Some? ==>
          var branch := if Eval(c, value, s.condition.value, depth) then s.consequent else s.alternative;
          branch.Some? ==> Eval(c, value, branch.value, depth))
  }
}
