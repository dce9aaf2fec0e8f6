/** The canonical serializer and structural equality: they tell exactly the same values apart. */
module JsonCanon {
  import opened JsonValues
  import opened JsonTexts

  /* ---------- weights, for recursion through sorted members ---------- */

  function Weight(j: Json): nat
    decreases j
  {
    match j
    case Arr(items) => 1 + WeightOfItems(items)
    case Obj(members) => 1 + WeightOfMembers(members)
    case _ => 1
  }

  function WeightOfItems(items: seq<Json>): nat
    decreases items
  {
    if items == [] then 0 else 1 + Weight(items[0]) + WeightOfItems(items[1..])
  }

  function WeightOfMembers(members: seq<Member>): nat
    decreases members
  {
    if members == [] then 0 else 1 + Weight(members[0].value) + WeightOfMembers(members[1..])
  }

  lemma {:induction false} InsertWeighs(m: Member, ms: seq<Member>)
    ensures WeightOfMembers(Insert(m, ms)) == 1 + Weight(m.value) + WeightOfMembers(ms)
  {
    if ms == [] || Before(m.key, ms[0].key) {
      assert ([m] + ms)[1..] == ms;
    } else {
      InsertWeighs(m, ms[1..]);
      assert ([ms[0]] + Insert(m, ms[1..]))[1..] == Insert(m, ms[1..]);
    }
  }

  lemma {:induction false} SortWeighs(ms: seq<Member>)
    ensures WeightOfMembers(Sort(ms)) == WeightOfMembers(ms)
  {
    if ms != [] {
      SortWeighs(ms[1..]);
      InsertWeighs(ms[0], Sort(ms[1..]));
    }
  }

  /* ---------- the serializer, the normal form ---------- */

  function Canonical(j: Json): Text
    decreases Weight(j)
  {
    match j
    case Arr(items) => [LBRACKET] + CanonicalItems(items) + [RBRACKET]
    case Obj(members) => SortWeighs(members); [LBRACE] + CanonicalMembers(Sort(members)) + [RBRACE]
    case _ => Serialized(j)
  }

  function CanonicalItems(items: seq<Json>): Text
    decreases WeightOfItems(items)
  {
    if items == [] then []
    else Canonical(items[0]) + (if |items| == 1 then [] else [COMMA]) + CanonicalItems(items[1..])
  }

  function CanonicalMembers(members: seq<Member>): Text
    decreases WeightOfMembers(members)
  {
    if members == [] then []
    else
      Quote(members[0].key) + [COLON] + Canonical(members[0].value) + (if |members| == 1 then [] else [COMMA])
      + CanonicalMembers(members[1..])
  }

  /** The value with the members of every object in key order. */
  function Normal(j: Json): Json
    decreases Weight(j)
  {
    match j
    case Arr(items) => Arr(NormalItems(items))
    case Obj(members) => SortWeighs(members); Obj(NormalMembers(Sort(members)))
    case _ => j
  }

  function NormalItems(items: seq<Json>): (r: seq<Json>)
    ensures |r| == |items|
    decreases WeightOfItems(items)
  {
    if items == [] then [] else [Normal(items[0])] + NormalItems(items[1..])
  }

  function NormalMembers(members: seq<Member>): (r: seq<Member>)
    ensures |r| == |members|
    decreases WeightOfMembers(members)
  {
    if members == [] then [] else [Member(members[0].key, Normal(members[0].value))] + NormalMembers(members[1..])
  }

  /** The canonical text is the plain text of the normal form. */
  lemma {:induction false} CanonicalIsNormalText(j: Json)
    ensures Canonical(j) == Serialized(Normal(j))
    decreases Weight(j)
  {
    match j
    case Arr(items) => CanonicalItemsNormal(items);
    case Obj(members) =>
      SortWeighs(members);
      CanonicalMembersNormal(Sort(members));
    case _ =>
  }

  lemma {:induction false} CanonicalItemsNormal(items: seq<Json>)
    ensures CanonicalItems(items) == Items(NormalItems(items))
    decreases WeightOfItems(items)
  {
    if items != [] {
      CanonicalIsNormalText(items[0]);
      CanonicalItemsNormal(items[1..]);
      assert NormalItems(items)[1..] == NormalItems(items[1..]);
    }
  }

  lemma {:induction false} CanonicalMembersNormal(members: seq<Member>)
    ensures CanonicalMembers(members) == Members(NormalMembers(members))
    decreases WeightOfMembers(members)
  {
    if members != [] {
      CanonicalIsNormalText(members[0].value);
      CanonicalMembersNormal(members[1..]);
      assert NormalMembers(members)[1..] == NormalMembers(members[1..]);
    }
  }

  /* ---------- equality ---------- */

  /** An object lists no key twice. */
  predicate Proper(j: Json)
    decreases j
  {
    match j
    case Arr(items) => forall i | 0 <= i < |items| :: Proper(items[i])
    case Obj(members) =>
      && (forall i, k | 0 <= i < k < |members| :: members[i].key != members[k].key)
      && forall i | 0 <= i < |members| :: Proper(members[i].value)
    case _ => true
  }

  /** The same JSON value up to the order of members. */
  ghost predicate SameValue(a: Json, b: Json)
    decreases a
  {
    match a
    case Arr(items) => b.Arr? && |items| == |b.items| && forall i | 0 <= i < |items| :: SameValue(items[i], b.items[i])
    case Obj(members) =>
      b.Obj? && |members| == |b.members|
      && forall i | 0 <= i < |members| ::
           exists k :: 0 <= k < |b.members| && members[i].key == b.members[k].key
               && SameValue(members[i].value, b.members[k].value)
    case _ => a == b
  }

  function Keys(members: seq<Member>): seq<Text> {
    if members == [] then [] else [members[0].key] + Keys(members[1..])
  }

  function Lookup(members: seq<Member>, key: Text): Json
    requires exists m :: m in members && m.key == key
  {
    if members[0].key == key then members[0].value else Lookup(members[1..], key)
  }

  predicate HasKey(members: seq<Member>, key: Text) {
    exists m :: m in members && m.key == key
  }

  /** Structural equality: sorted keys first, then key by key. */
  predicate DeepEqual(a: Json, b: Json)
    decreases a
  {
    match a
    case Arr(items) => b.Arr? && |items| == |b.items| && DeepEqualItems(items, b.items)
    case Obj(members) => b.Obj? && Keys(Sort(members)) == Keys(Sort(b.members)) && DeepEqualMembers(members, b.members)
    case _ => a == b
  }

  predicate DeepEqualItems(a: seq<Json>, b: seq<Json>)
    requires |a| == |b|
    decreases a
  {
    a != [] ==> DeepEqual(a[0], b[0]) && DeepEqualItems(a[1..], b[1..])
  }

  predicate DeepEqualMembers(a: seq<Member>, b: seq<Member>)
    decreases a
  {
    a != [] ==> HasKey(b, a[0].key) && DeepEqual(a[0].value, Lookup(b, a[0].key)) && DeepEqualMembers(a[1..], b)
  }
}
