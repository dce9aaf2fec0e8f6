/** Which schemas the depth bound cannot cut off, whatever the value: a check on the schema alone. */
module SchemaNesting {
  import opened TaskStates
  import opened JsonValues
  import opened Schemas
  import opened SchemaMeaning

  /** The schemas a schema may hand a nested evaluation to: its own subschemas, and what it refers to. */
  ghost predicate LeadsTo(c: Context, s: Schema, t: Schema)
    requires s.Rules?
  {
    IsSubschema(s, t) || (s.reference.Some? && c.resolve(s.reference.value) == Some(t))
  }

  ghost predicate IsSubschema(s: Schema, t: Schema)
    requires s.Rules?
  {
    || t in s.arrays.prefixItems || Some(t) in {s.arrays.items, s.arrays.contains}
    || IsNamed(s.objects.properties, t) || IsNamed(s.objects.patternProperties, t)
    || IsNamed(s.objects.dependentSchemas, t)
    || Some(t) in {s.objects.additional, s.objects.propertyNames}
    || t in s.allOf || (s.anyOf.Some? && t in s.anyOf.value) || (s.oneOf.Some? && t in s.oneOf.value)
    || Some(t) in {s.negated, s.condition, s.consequent, s.alternative}
  }

  ghost predicate IsNamed(ns: seq<Named>, t: Schema) {
    exists i :: 0 <= i < |ns| && ns[i].schema == t
  }

  /** No chain of subschemas and references is longer than this. */
  ghost predicate Nested(c: Context, s: Schema, levels: nat)
    decreases levels
  {
    s.Rules? ==>
      forall t {:trigger LeadsTo(c, s, t)} :: LeadsTo(c, s, t) ==> levels > 0 && Nested(c, t, levels - 1)
  }

  /* ---------- evaluation follows the schema ---------- */

  lemma {:induction false} PrefixLeads(items: seq<Json>, schemas: seq<Schema>, p: Pair)
    requires p in PrefixPairs(items, schemas)
    ensures p.schema in schemas
  {
    if p != Pair(items[0], schemas[0]) {
      PrefixLeads(items[1..], schemas[1..], p);
    }
  }

  lemma {:induction false} PropertyLeads(members: seq<Member>, ns: seq<Named>, p: Pair)
    requires p in PropertyPairs(members, ns) || p in DependentPairs(members, ns)
    ensures IsNamed(ns, p.schema)
  {
    if p.schema != ns[0].schema {
      PropertyLeads(members, ns[1..], p);
      var i :| 0 <= i < |ns[1..]| && ns[1..][i].schema == p.schema;
      assert ns[i + 1].schema == p.schema;
    }
  }

  lemma ObjectAsksLead(c: Context, members: seq<Member>, r: ObjectRules, p: Pair)
    requires ObjectAsks(c, members, r, p)
    ensures IsNamed(r.properties, p.schema) || IsNamed(r.patternProperties, p.schema)
        || IsNamed(r.dependentSchemas, p.schema)
            || Some(p.schema) in {r.additional, r.propertyNames}
  {
    if p in PropertyPairs(members, r.properties) {
      PropertyLeads(members, r.properties, p);
    } else if p in DependentPairs(members, r.dependentSchemas) {
      PropertyLeads(members, r.dependentSchemas, p);
    }
  }

  /** Every nested evaluation goes to a subschema or to what a reference names. */
  lemma AsksLead(c: Context, v: Json, s: Schema, p: Pair)
    requires s.Rules? && Asks(c, v, s, p)
    ensures LeadsTo(c, s, p.schema)
  {
    if v.Obj? && ObjectAsks(c, v.members, s.objects, p) {
      ObjectAsksLead(c, v.members, s.objects, p);
    } else if v.Arr? && p in PrefixPairs(v.items, s.arrays.prefixItems) {
      PrefixLeads(v.items, s.arrays.prefixItems, p);
    }
  }

  /** A schema nested no deeper than the room left settles on every value: the bound decides nothing. */
  lemma {:induction false} NestedSettles(c: Context, v: Json, s: Schema, depth: nat, levels: nat)
    requires Nested(c, s, levels) && depth + levels <= c.maxDepth
    ensures Settles(c, v, s, depth)
    decreases levels
  {
    if s.Rules? {
      forall p | Asks(c, v, s, p) ensures Settles(c, p.value, p.schema, depth + 1) {
        AsksLead(c, v, s, p);
        NestedSettles(c, p.value, p.schema, depth + 1, levels - 1);
      }
    }
  }

  /* ---------- schemas without references ---------- */

  /** A schema without references that is nested at most so many levels deep. */
  ghost predicate ReferenceFree(s: Schema, levels: nat)
    decreases levels
  {
    s.Rules? ==>
      s.reference.None?
      && forall t {:trigger IsSubschema(s, t)} :: IsSubschema(s, t) ==> levels > 0 && ReferenceFree(t, levels - 1)
  }

  lemma {:induction false} TreesAreNested(c: Context, s: Schema, levels: nat)
    requires ReferenceFree(s, levels)
    ensures Nested(c, s, levels)
    decreases levels
  {
    if s.Rules? {
      forall t | LeadsTo(c, s, t) ensures levels > 0 && Nested(c, t, levels - 1) {
        TreesAreNested(c, t, levels - 1);
      }
    }
  }

  /** Without references, the nesting of the schema is all there is to check: within the bound, its verdict
      on any value is its own, and no larger bound changes it. */
  lemma ReferenceFreeSettles(c: Context, d: Context, v: Json, s: Schema, depth: nat, levels: nat)
    requires ReferenceFree(s, levels) && depth + levels <= c.maxDepth && Deeper(c, d)
    ensures Settles(c, v, s, depth) && Eval(c, v, s, depth) == Eval(d, v, s, depth)
  {
    TreesAreNested(c, s, levels);
    NestedSettles(c, v, s, depth, levels);
    VerdictIsStable(c, d, v, s, depth);
  }

  /* ---------- a chain that is longer than the bound ---------- */

  /** A reference to a reference and so on, `links` times, to the schema that accepts everything. */
  ghost predicate Chain(c: Context, s: Schema, links: nat)
    decreases links
  {
    if links == 0 then s == Flag(true)
    else
      && s.Rules? && s == NO_RULES.(reference := s.reference) && s.reference.Some?
      && var target := c.resolve(s.reference.value); target.Some? && Chain(c, target.value, links - 1)
  }

  /** The chain is valid exactly when its end is within the bound. */
  lemma {:induction false} ChainVerdict(c: Context, v: Json, s: Schema, links: nat, depth: nat)
    requires Chain(c, s, links)
    ensures Eval(c, v, s, depth) <==> depth + links <= c.maxDepth
    decreases links
  {
    if links > 0 {
      Unconstrained(c, v, s, depth + 1);
      ChainVerdict(c, v, c.resolve(s.reference.value).value, links - 1, depth + 1);
    }
  }

  /** Under `not` a chain cut off by the bound becomes success: nothing satisfies the schema, and the evaluator
      accepts every value until the bound reaches the end of the chain. */
  lemma ChainUnderNot(c: Context, v: Json, s: Schema, links: nat, depth: nat)
    requires Chain(c, s, links)
    ensures Eval(c, v, NO_RULES.(negated := Some(s)), depth) <==> depth <= c.maxDepth <= depth + links
  {
    var t := NO_RULES.(negated := Some(s));
    Unconstrained(c, v, t, depth + 1);
    ChainVerdict(c, v, s, links, depth + 1);
  }

  /** One level of bound is the difference, and from there on the verdict is settled. */
  lemma ChainFlipsOnce(c: Context, d: Context, v: Json, s: Schema, links: nat)
    requires Chain(c, s, links) && c.maxDepth == links && Deeper(c, d) && c.maxDepth < d.maxDepth
    ensures var t := NO_RULES.(negated := Some(s));
            Eval(c, v, t, 0) && !Eval(d, v, t, 0) && !Settles(c, v, t, 0) && Settles(d, v, t, 0)
  {
    var t := NO_RULES.(negated := Some(s));
    SameChain(c, d, s, links);
    ChainUnderNot(c, v, s, links, 0);
    ChainUnderNot(d, v, s, links, 0);
    if Settles(c, v, t, 0) {
      VerdictIsStable(c, d, v, t, 0);
    }
    ChainIsNested(d, s, links);
    NestedUnderNot(d, s, links);
    NestedSettles(d, v, t, 0, links + 1);
  }

  lemma {:induction false} SameChain(c: Context, d: Context, s: Schema, links: nat)
    requires Chain(c, s, links) && Deeper(c, d)
    ensures Chain(d, s, links)
    decreases links
  {
    if links > 0 {
      SameChain(c, d, c.resolve(s.reference.value).value, links - 1);
    }
  }

  lemma {:induction false} ChainIsNested(c: Context, s: Schema, links: nat)
    requires Chain(c, s, links)
    ensures Nested(c, s, links)
    decreases links
  {
    if links > 0 {
      ChainIsNested(c, c.resolve(s.reference.value).value, links - 1);
    }
  }

  lemma NestedUnderNot(c: Context, s: Schema, levels: nat)
    requires Nested(c, s, levels)
    ensures Nested(c, NO_RULES.(negated := Some(s)), levels + 1)
  {
  }
}
