/** Canonical texts, normal forms, structural equality and the meaning of a JSON value all agree. */
module JsonEquality {
  import opened JsonValues
  import opened JsonTexts
  import opened JsonCanon

  /* ---------- normal forms and sorting ---------- */

  function NormalMember(m: Member): Member {
    Member(m.key, Normal(m.value))
  }

  lemma {:induction false} NormalAt(ms: seq<Member>, i: nat)
    requires i < |ms|
    ensures NormalMembers(ms)[i] == NormalMember(ms[i])
  {
    if i > 0 {
      NormalAt(ms[1..], i - 1);
    }
  }

  lemma {:induction false} NormalItemAt(items: seq<Json>, i: nat)
    requires i < |items|
    ensures NormalItems(items)[i] == Normal(items[i])
  {
    if i > 0 {
      NormalItemAt(items[1..], i - 1);
    }
  }

  lemma {:induction false} InsertNormal(m: Member, ms: seq<Member>)
    ensures NormalMembers(Insert(m, ms)) == Insert(NormalMember(m), NormalMembers(ms))
  {
    if ms == [] || Before(m.key, ms[0].key) {
      assert ([m] + ms)[1..] == ms;
    } else {
      InsertNormal(m, ms[1..]);
      assert ([ms[0]] + Insert(m, ms[1..]))[1..] == Insert(m, ms[1..]);
      assert NormalMembers(ms)[1..] == NormalMembers(ms[1..]);
    }
  }

  /** Sorting looks at keys only. */
  lemma {:induction false} SortNormal(ms: seq<Member>)
    ensures NormalMembers(Sort(ms)) == Sort(NormalMembers(ms))
  {
    if ms != [] {
      SortNormal(ms[1..]);
      InsertNormal(ms[0], Sort(ms[1..]));
      assert NormalMembers(ms)[1..] == NormalMembers(ms[1..]);
    }
  }

  lemma NormalKeysDistinct(ms: seq<Member>)
    requires DistinctKeys(ms)
    ensures DistinctKeys(NormalMembers(ms))
  {
    var ns := NormalMembers(ms);
    forall i, j | 0 <= i < j < |ns| ensures ns[i].key != ns[j].key {
      NormalAt(ms, i);
      NormalAt(ms, j);
    }
  }

  /* ---------- as many, so all ---------- */

  function Elements(es: seq<Member>): set<Member> {
    set e | e in es
  }

  lemma {:induction false} ElementCount(es: seq<Member>)
    ensures |Elements(es)| <= |es|
    ensures DistinctKeys(es) ==> |Elements(es)| == |es|
  {
    if es != [] {
      ElementCount(es[1..]);
      assert es == [es[0]] + es[1..];
      assert Elements(es) == {es[0]} + Elements(es[1..]);
      if DistinctKeys(es) {
        FirstIsAlone(es);
      }
    } else {
      assert Elements(es) == {};
    }
  }

  /** Distinct elements all found among no more than as many others are all of them. */
  lemma AsManySoAll(es: seq<Member>, fs: seq<Member>)
    requires DistinctKeys(es) && |es| == |fs| && forall e | e in es :: e in fs
    ensures SameElements(es, fs)
  {
    ElementCount(es);
    ElementCount(fs);
    var a, b := Elements(es), Elements(fs);
    assert a <= b && |b - a| == |b| - |a|;
    forall f | f in fs ensures f in es {
      assert f in b - a || f in a;
    }
  }

  /** Every member has a match under its key. */
  ghost predicate Matched(ms: seq<Member>, ns: seq<Member>) {
    |ms| == |ns| && forall i | 0 <= i < |ms| :: MatchAt(ms[i], ns)
  }

  ghost predicate MatchAt(m: Member, ns: seq<Member>) {
    exists k :: 0 <= k < |ns| && m.key == ns[k].key && Normal(m.value) == Normal(ns[k].value)
  }

  lemma MatchIsMembership(m: Member, ns: seq<Member>)
    ensures MatchAt(m, ns) <==> NormalMember(m) in NormalMembers(ns)
  {
    if MatchAt(m, ns) {
      var k :| 0 <= k < |ns| && m.key == ns[k].key && Normal(m.value) == Normal(ns[k].value);
      NormalAt(ns, k);
    }
    if NormalMember(m) in NormalMembers(ns) {
      var k :| 0 <= k < |ns| && NormalMembers(ns)[k] == NormalMember(m);
      NormalAt(ns, k);
    }
  }

  lemma MatchedIffSorted(ms: seq<Member>, ns: seq<Member>)
    requires DistinctKeys(ms) && DistinctKeys(ns)
    ensures Matched(ms, ns) <==> Sort(NormalMembers(ms)) == Sort(NormalMembers(ns))
  {
    var es, fs := NormalMembers(ms), NormalMembers(ns);
    NormalKeysDistinct(ms);
    NormalKeysDistinct(ns);
    SortForgetsOrder(es, fs);
    SortPermutes(es);
    SortPermutes(fs);
    forall i | 0 <= i < |ms| ensures MatchAt(ms[i], ns) <==> es[i] in fs {
      NormalAt(ms, i);
      MatchIsMembership(ms[i], ns);
    }
    if Matched(ms, ns) {
      AsManySoAll(es, fs);
    }
  }

  /* ---------- the theorems ---------- */

  /** Normal forms are equal exactly when the values are the same up to the order of members. */
  lemma {:induction false} NormalIffSame(a: Json, b: Json)
    requires Proper(a) && Proper(b)
    ensures Normal(a) == Normal(b) <==> SameValue(a, b)
    decreases a
  {
    match a {
      case Arr(items) =>
        if b.Arr? && |items| == |b.items| {
          NormalItemsIffSame(items, b.items);
        }
      case Obj(members) =>
        if b.Obj? {
          NormalMembersIffSame(members, b.members);
        }
      case _ =>
    }
  }

  lemma {:induction false} NormalItemsIffSame(a: seq<Json>, b: seq<Json>)
    requires |a| == |b| && (forall i | 0 <= i < |a| :: Proper(a[i])) && (forall i | 0 <= i < |b| :: Proper(b[i]))
    ensures NormalItems(a) == NormalItems(b) <==> forall i | 0 <= i < |a| :: SameValue(a[i], b[i])
    decreases a
  {
    forall i | 0 <= i < |a|
      ensures NormalItems(a)[i] == NormalItems(b)[i] <==> SameValue(a[i], b[i])
    {
      NormalItemAt(a, i);
      NormalItemAt(b, i);
      NormalIffSame(a[i], b[i]);
    }
  }

  lemma {:induction false} NormalMembersIffSame(ms: seq<Member>, ns: seq<Member>)
    requires Proper(Obj(ms)) && Proper(Obj(ns))
    ensures Normal(Obj(ms)) == Normal(Obj(ns)) <==> SameValue(Obj(ms), Obj(ns))
    decreases ms
  {
    SortNormal(ms);
    SortNormal(ns);
    MatchedIffSorted(ms, ns);
    forall i | 0 <= i < |ms|
      ensures MatchAt(ms[i], ns)
         <==> exists k :: 0 <= k < |ns| && ms[i].key == ns[k].key && SameValue(ms[i].value, ns[k].value)
    {
      forall k | 0 <= k < |ns|
        ensures Normal(ms[i].value) == Normal(ns[k].value) <==> SameValue(ms[i].value, ns[k].value)
      {
        NormalIffSame(ms[i].value, ns[k].value);
      }
    }
  }

  /** Canonical texts are equal exactly when the values are the same up to the order of members. */
  lemma CanonicalIffSame(a: Json, b: Json)
    requires Proper(a) && Proper(b)
    ensures Canonical(a) == Canonical(b) <==> SameValue(a, b)
  {
    CanonicalIsNormalText(a);
    CanonicalIsNormalText(b);
    NormalIffSame(a, b);
    var s, t := Serialized(Normal(a)), Serialized(Normal(b));
    assert s + [] == s && t + [] == t;
    if s == t {
      SameText(Normal(a), Normal(b), [], []);
    }
  }

  /* ---------- structural equality ---------- */

  lemma {:induction false} LookupFinds(ms: seq<Member>, k: nat)
    requires DistinctKeys(ms) && k < |ms|
    ensures HasKey(ms, ms[k].key) && Lookup(ms, ms[k].key) == ms[k].value
  {
    assert ms[k] in ms;
    if k > 0 {
      assert ms[0].key != ms[k].key;
      LookupFinds(ms[1..], k - 1);
    }
  }

  lemma {:induction false} KeysAt(ms: seq<Member>, i: nat)
    requires i < |ms|
    ensures |Keys(ms)| == |ms| && Keys(ms)[i] == ms[i].key
  {
    if i > 0 {
      KeysAt(ms[1..], i - 1);
    } else {
      KeysCount(ms);
    }
  }

  lemma {:induction false} KeysCount(ms: seq<Member>)
    ensures |Keys(ms)| == |ms|
  {
    if ms != [] {
      KeysCount(ms[1..]);
    }
  }

  /** Members with their values forgotten. */
  function Bare(ms: seq<Member>): (r: seq<Member>)
    ensures |r| == |ms|
  {
    if ms == [] then [] else [Member(ms[0].key, Null)] + Bare(ms[1..])
  }

  lemma {:induction false} BareAt(ms: seq<Member>, i: nat)
    requires i < |ms|
    ensures Bare(ms)[i] == Member(ms[i].key, Null)
  {
    if i > 0 {
      BareAt(ms[1..], i - 1);
    }
  }

  lemma {:induction false} InsertBare(m: Member, ms: seq<Member>)
    ensures Bare(Insert(m, ms)) == Insert(Member(m.key, Null), Bare(ms))
  {
    if ms == [] || Before(m.key, ms[0].key) {
      assert ([m] + ms)[1..] == ms;
    } else {
      InsertBare(m, ms[1..]);
      assert ([ms[0]] + Insert(m, ms[1..]))[1..] == Insert(m, ms[1..]);
      assert Bare(ms)[1..] == Bare(ms[1..]);
    }
  }

  lemma {:induction false} SortBare(ms: seq<Member>)
    ensures Bare(Sort(ms)) == Sort(Bare(ms))
  {
    if ms != [] {
      SortBare(ms[1..]);
      InsertBare(ms[0], Sort(ms[1..]));
      assert Bare(ms)[1..] == Bare(ms[1..]);
    }
  }

  lemma {:induction false} BareKeys(ms: seq<Member>)
    ensures Keys(Bare(ms)) == Keys(ms)
  {
    if ms != [] {
      BareKeys(ms[1..]);
      assert Bare(ms)[1..] == Bare(ms[1..]);
    }
  }

  /** Members matched key by key have the same sorted keys. */
  lemma MatchedKeys(ms: seq<Member>, ns: seq<Member>)
    requires DistinctKeys(ms) && DistinctKeys(ns) && |ms| == |ns|
    requires forall i | 0 <= i < |ms| :: exists k :: 0 <= k < |ns| && ms[i].key == ns[k].key
    ensures Keys(Sort(ms)) == Keys(Sort(ns))
  {
    var es, fs := Bare(ms), Bare(ns);
    forall i, j | 0 <= i < j < |ms| ensures es[i].key != es[j].key && fs[i].key != fs[j].key {
      BareAt(ms, i);
      BareAt(ms, j);
      BareAt(ns, i);
      BareAt(ns, j);
    }
    forall e | e in es ensures e in fs {
      var i :| 0 <= i < |es| && es[i] == e;
      BareAt(ms, i);
      var k :| 0 <= k < |ns| && ms[i].key == ns[k].key;
      BareAt(ns, k);
    }
    AsManySoAll(es, fs);
    SortForgetsOrder(es, fs);
    SortBare(ms);
    SortBare(ns);
    BareKeys(Sort(ms));
    BareKeys(Sort(ns));
  }

  ghost predicate DeepMatch(m: Member, ns: seq<Member>) {
    HasKey(ns, m.key) && DeepEqual(m.value, Lookup(ns, m.key))
  }

  lemma {:induction false} DeepMembersAt(ms: seq<Member>, ns: seq<Member>)
    ensures DeepEqualMembers(ms, ns) <==> forall i | 0 <= i < |ms| :: DeepMatch(ms[i], ns)
    decreases ms
  {
    if ms != [] {
      DeepMembersAt(ms[1..], ns);
      if forall i | 0 <= i < |ms| :: DeepMatch(ms[i], ns) {
        forall i | 0 <= i < |ms[1..]| ensures DeepMatch(ms[1..][i], ns) {
          assert DeepMatch(ms[i + 1], ns);
        }
        assert DeepMatch(ms[0], ns);
      }
      if DeepEqualMembers(ms, ns) {
        forall i | 0 <= i < |ms| ensures DeepMatch(ms[i], ns) {
          if i > 0 {
            assert DeepMatch(ms[1..][i - 1], ns);
          }
        }
      }
    }
  }

  lemma {:induction false} DeepItemsAt(a: seq<Json>, b: seq<Json>)
    requires |a| == |b|
    ensures DeepEqualItems(a, b) <==> forall i | 0 <= i < |a| :: DeepEqual(a[i], b[i])
    decreases a
  {
    if a != [] {
      DeepItemsAt(a[1..], b[1..]);
      if forall i | 0 <= i < |a| :: DeepEqual(a[i], b[i]) {
        assert DeepEqual(a[0], b[0]);
        forall i | 0 <= i < |a[1..]| ensures DeepEqual(a[1..][i], b[1..][i]) {
          assert DeepEqual(a[i + 1], b[i + 1]);
        }
      }
      if DeepEqualItems(a, b) {
        forall i | 0 <= i < |a| ensures DeepEqual(a[i], b[i]) {
          if i > 0 {
            assert DeepEqual(a[1..][i - 1], b[1..][i - 1]);
          }
        }
      }
    }
  }

  /** Structural equality decides exactly whether two values are the same up to the order of members. */
  lemma {:induction false} DeepEqualIffSame(a: Json, b: Json)
    requires Proper(a) && Proper(b)
    ensures DeepEqual(a, b) <==> SameValue(a, b)
    decreases a
  {
    match a {
      case Arr(items) =>
        if b.Arr? && |items| == |b.items| {
          DeepItemsAt(items, b.items);
          forall i | 0 <= i < |items| ensures DeepEqual(items[i], b.items[i]) <==> SameValue(items[i], b.items[i]) {
            DeepEqualIffSame(items[i], b.items[i]);
          }
        }
      case Obj(members) =>
        if b.Obj? {
          DeepMembersIffSame(members, b.members);
        }
      case _ =>
    }
  }

  lemma {:induction false} DeepMembersIffSame(ms: seq<Member>, ns: seq<Member>)
    requires Proper(Obj(ms)) && Proper(Obj(ns))
    ensures DeepEqual(Obj(ms), Obj(ns)) <==> SameValue(Obj(ms), Obj(ns))
    decreases ms
  {
    DeepMembersAt(ms, ns);
    forall i | 0 <= i < |ms|
      ensures DeepMatch(ms[i], ns)
         <==> exists k :: 0 <= k < |ns| && ms[i].key == ns[k].key && SameValue(ms[i].value, ns[k].value)
    {
      DeepMatchIffSame(ms, ns, i);
    }
    if Keys(Sort(ms)) == Keys(Sort(ns)) {
      SortPermutes(ms);
      SortPermutes(ns);
      KeysCount(Sort(ms));
      KeysCount(Sort(ns));
    }
    if SameValue(Obj(ms), Obj(ns)) {
      MatchedKeys(ms, ns);
    }
  }

  lemma {:induction false} DeepMatchIffSame(ms: seq<Member>, ns: seq<Member>, i: nat)
    requires Proper(Obj(ms)) && Proper(Obj(ns)) && i < |ms|
    ensures DeepMatch(ms[i], ns)
       <==> exists k :: 0 <= k < |ns| && ms[i].key == ns[k].key && SameValue(ms[i].value, ns[k].value)
    decreases ms, 0
  {
    forall k | 0 <= k < |ns| && ms[i].key == ns[k].key
      ensures DeepMatch(ms[i], ns) <==> SameValue(ms[i].value, ns[k].value)
    {
      LookupFinds(ns, k);
      DeepEqualIffSame(ms[i].value, ns[k].value);
    }
    if HasKey(ns, ms[i].key) {
      var m :| m in ns && m.key == ms[i].key;
      var k :| 0 <= k < |ns| && ns[k] == m;
    }
  }

  /** Three ways to ask whether two values are equal, one answer: `uniqueItems`, which compares
      canonical texts, and `enum`, which compares structures, cannot disagree. */
  lemma OneEquality(a: Json, b: Json)
    requires Proper(a) && Proper(b)
    ensures Canonical(a) == Canonical(b) <==> DeepEqual(a, b)
    ensures DeepEqual(a, b) <==> SameValue(a, b)
    ensures SameValue(a, b) <==> SameValue(b, a)
  {
    CanonicalIffSame(a, b);
    CanonicalIffSame(b, a);
    DeepEqualIffSame(a, b);
  }
}
