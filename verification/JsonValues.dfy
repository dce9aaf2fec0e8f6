/** JSON values, and the order `Array.sort` puts the keys of an object in. */
module JsonValues {

  /** A UTF-16 code unit, and what JavaScript strings are made of. */
  type Unit = u: int | 0 <= u < 0x1_0000

  type Text = seq<Unit>

  /** A JSON value as JavaScript holds it; numbers stand for themselves, and the members of an object
      come in the order its keys are listed. */
  datatype Json =
    | Null
    | Bool(b: bool)
    | Num(n: int)
    | Str(s: Text)
    | Arr(items: seq<Json>)
    | Obj(members: seq<Member>)

  datatype Member = Member(key: Text, value: Json)

  /** Code unit by code unit; a proper prefix comes first. */
  predicate Before(a: Text, b: Text) {
    b != [] && (a == [] || a[0] < b[0] || (a[0] == b[0] && Before(a[1..], b[1..])))
  }

  lemma {:induction false} OneComesFirst(a: Text, b: Text)
    ensures a == b || Before(a, b) || Before(b, a)
    ensures !(Before(a, b) && Before(b, a)) && !Before(a, a)
  {
    if a != [] {
      if b != [] {
        OneComesFirst(a[1..], b[1..]);
        assert a == [a[0]] + a[1..] && b == [b[0]] + b[1..];
      }
      OneComesFirst(a[1..], a[1..]);
    }
  }

  lemma {:induction false} BeforeIsTransitive(a: Text, b: Text, c: Text)
    requires Before(a, b) && Before(b, c)
    ensures Before(a, c)
  {
    if a != [] && a[0] == b[0] == c[0] {
      BeforeIsTransitive(a[1..], b[1..], c[1..]);
    }
  }

  function Insert(e: Member, es: seq<Member>): seq<Member> {
    if es == [] || Before(e.key, es[0].key) then [e] + es else [es[0]] + Insert(e, es[1..])
  }

  function Sort(es: seq<Member>): seq<Member> {
    if es == [] then [] else Insert(es[0], Sort(es[1..]))
  }

  /** Whether a key comes before every key of some entries. */
  ghost predicate Leads(key: Text, es: seq<Member>) {
    forall e | e in es :: Before(key, e.key)
  }

  ghost predicate Ascending(es: seq<Member>) {
    es != [] ==> Leads(es[0].key, es[1..]) && Ascending(es[1..])
  }

  ghost predicate DistinctKeys(es: seq<Member>) {
    forall i, j | 0 <= i < j < |es| :: es[i].key != es[j].key
  }

  lemma {:induction false} InsertPermutes(e: Member, es: seq<Member>)
    ensures |Insert(e, es)| == |es| + 1
    ensures forall x :: x in Insert(e, es) <==> x == e || x in es
  {
    if es != [] && !Before(e.key, es[0].key) {
      InsertPermutes(e, es[1..]);
      assert es == [es[0]] + es[1..];
    }
  }

  lemma {:induction false} SortPermutes(es: seq<Member>)
    ensures |Sort(es)| == |es|
    ensures forall x :: x in Sort(es) <==> x in es
  {
    if es != [] {
      SortPermutes(es[1..]);
      InsertPermutes(es[0], Sort(es[1..]));
      assert es == [es[0]] + es[1..];
    }
  }

  lemma PrependAscends(e: Member, es: seq<Member>)
    requires Ascending(es) && Leads(e.key, es)
    ensures Ascending([e] + es)
  {
    assert ([e] + es)[1..] == es;
  }

  lemma LeadsOn(key: Text, es: seq<Member>)
    requires es != [] && Ascending(es) && Before(key, es[0].key)
    ensures Leads(key, es)
  {
    forall x | x in es ensures Before(key, x.key) {
      if x != es[0] {
        assert es == [es[0]] + es[1..];
        BeforeIsTransitive(key, es[0].key, x.key);
      }
    }
  }

  lemma {:induction false} InsertAscends(e: Member, es: seq<Member>)
    requires Ascending(es) && forall x | x in es :: x.key != e.key
    ensures Ascending(Insert(e, es))
  {
    if es == [] {
    } else if Before(e.key, es[0].key) {
      LeadsOn(e.key, es);
      PrependAscends(e, es);
    } else {
      assert es[0] in es && es == [es[0]] + es[1..];
      OneComesFirst(e.key, es[0].key);
      InsertAscends(e, es[1..]);
      InsertPermutes(e, es[1..]);
      PrependAscends(es[0], Insert(e, es[1..]));
    }
  }

  lemma FirstIsAlone(es: seq<Member>)
    requires DistinctKeys(es) && es != []
    ensures DistinctKeys(es[1..]) && forall x | x in es[1..] :: x.key != es[0].key
  {
    forall x | x in es[1..] ensures x.key != es[0].key {
      var j :| 0 <= j < |es[1..]| && es[1..][j] == x;
      assert es[j + 1] == x;
    }
  }

  lemma {:induction false} SortAscends(es: seq<Member>)
    requires DistinctKeys(es)
    ensures Ascending(Sort(es))
  {
    if es != [] {
      FirstIsAlone(es);
      SortAscends(es[1..]);
      SortPermutes(es[1..]);
      forall x | x in Sort(es[1..]) ensures x.key != es[0].key {
        assert x in es[1..];
      }
      InsertAscends(es[0], Sort(es[1..]));
    }
  }

  ghost predicate SameElements(es: seq<Member>, fs: seq<Member>) {
    forall x :: x in es <==> x in fs
  }

  lemma BothEmpty(es: seq<Member>, fs: seq<Member>)
    requires SameElements(es, fs)
    ensures es == [] <==> fs == []
  {
    if es != [] {
      assert es[0] in fs;
    }
    if fs != [] {
      assert fs[0] in es;
    }
  }

  /** An ascending sequence is determined by its elements. */
  lemma {:induction false} AscendingIsUnique(es: seq<Member>, fs: seq<Member>)
    requires Ascending(es) && Ascending(fs) && SameElements(es, fs)
    ensures es == fs
  {
    BothEmpty(es, fs);
    if es != [] {
      assert es[0] in es && es == [es[0]] + es[1..];
      assert fs[0] in fs && fs == [fs[0]] + fs[1..];
      OneComesFirst(es[0].key, fs[0].key);
      assert es[0] == fs[0];
      OneComesFirst(es[0].key, es[0].key);
      forall x ensures x in es[1..] <==> x in fs[1..] {
        assert x in es <==> x in fs;
      }
      AscendingIsUnique(es[1..], fs[1..]);
    }
  }

  /** Sorting forgets the order and nothing else. */
  lemma SortForgetsOrder(es: seq<Member>, fs: seq<Member>)
    requires DistinctKeys(es) && DistinctKeys(fs)
    ensures Sort(es) == Sort(fs) <==> SameElements(es, fs)
  {
    SortPermutes(es);
    SortPermutes(fs);
    if SameElements(es, fs) {
      SortAscends(es);
      SortAscends(fs);
      AscendingIsUnique(Sort(es), Sort(fs));
    }
    if Sort(es) == Sort(fs) {
      assert forall x :: x in Sort(es) <==> x in es;
    }
  }
}
