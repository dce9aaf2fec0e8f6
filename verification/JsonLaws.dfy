/** The written text against the grammar of RFC 8259 and its bytes against RFC 3629, in their own characters. */
module JsonLaws {
  import opened TaskStates
  import opened JsonValues
  import opened JsonTexts
  import opened JsonMeasure

  /* ---------- characters ---------- */

  /** The code units of an ASCII string. */
  function Codes(s: string): Text {
    seq(|s|, i requires 0 <= i < |s| => if s[i] as int < 128 then s[i] as int else 0)
  }

  /** The texts of the items with commas between them. */
  function Joined(texts: seq<Text>): Text {
    if texts == [] then []
    else if |texts| == 1 then texts[0]
    else texts[0] + Codes(",") + Joined(texts[1..])
  }

  /* ---------- section 3 to 7 of RFC 8259 ---------- */

  /** A string literal: between its quotes stands a text that reads as the string. */
  ghost predicate SpellsString(t: Text, s: Text) {
    exists inside: Text ::
      && t == Codes("\"") + inside + Codes("\"")
      && ReadString(inside + Codes("\"")) == Some(StringRead(s, []))
  }

  /** A number without a fraction: a minus sign when it is negative, and digits that do not begin with a zero. */
  ghost predicate SpellsNumber(t: Text, n: int) {
    if n < 0 then exists digits :: t == Codes("-") + digits && IsNumeral(digits, -n) else IsNumeral(t, n)
  }

  ghost predicate IsNumeral(digits: Text, n: nat) {
    && digits != [] && (forall u | u in digits :: '0' as int <= u <= '9' as int)
    && (|digits| > 1 ==> digits[0] != '0' as int)
    && ValueOf(digits) == n
  }

  /** The text spells the value, with nothing between its tokens. */
  ghost predicate Spells(t: Text, j: Json)
    decreases j
  {
    match j
    case Null => t == Codes("null")
    case Bool(b) => t == Codes(if b then "true" else "false")
    case Num(n) => SpellsNumber(t, n)
    case Str(s) => SpellsString(t, s)
    case Arr(items) =>
      exists texts: seq<Text> ::
        && |texts| == |items| && t == Codes("[") + Joined(texts) + Codes("]")
        && forall i | 0 <= i < |items| :: Spells(texts[i], items[i])
    case Obj(members) =>
      exists keys: seq<Text>, values: seq<Text> ::
        && |keys| == |values| == |members| && t == Codes("{") + Joined(Pairs(keys, values)) + Codes("}")
        && forall i | 0 <= i < |members| :: SpellsString(keys[i], members[i].key) && Spells(values[i], members[i].value)
  }

  function Pairs(keys: seq<Text>, values: seq<Text>): seq<Text>
    requires |keys| == |values|
  {
    seq(|keys|, i requires 0 <= i < |keys| => keys[i] + Codes(":") + values[i])
  }

  lemma Punctuation()
    ensures Codes("\"") == [QUOTE] && Codes("\\") == [BACKSLASH] && Codes(",") == [COMMA] && Codes(":") == [COLON]
    ensures Codes("-") == [MINUS] && Codes("[") == [LBRACKET] && Codes("]") == [RBRACKET]
    ensures Codes("{") == [LBRACE] && Codes("}") == [RBRACE]
    ensures Codes("null") == NULL && Codes("true") == TRUE && Codes("false") == FALSE
  {
  }

  lemma QuoteSpells(s: Text)
    ensures SpellsString(Quote(s), s)
  {
    Punctuation();
    StringRoundTrip(s, []);
    assert Escaped(s) + [QUOTE] + [] == Escaped(s) + [QUOTE];
    assert Quote(s) == Codes("\"") + Escaped(s) + Codes("\"");
  }

  lemma {:induction false} NoLeadingZero(n: nat)
    ensures |Digits(n)| > 1 ==> Digits(n)[0] != 0x30
  {
    if n >= 10 {
      NoLeadingZero(n / 10);
      DigitsRoundTrip(n / 10);
      assert Digits(n)[0] == Digits(n / 10)[0];
      if n < 100 {
        assert Digits(n / 10) == [0x30 + n / 10];
      }
    }
  }

  lemma NumberSpells(n: int)
    ensures SpellsNumber(Number(n), n)
  {
    Punctuation();
    var m := if n < 0 then -n else n;
    DigitsRoundTrip(m);
    NoLeadingZero(m);
    assert IsNumeral(Digits(m), m) by {
      assert forall u :: u in Digits(m) ==> IsDigit(u);
    }
    assert Number(n) == (if n < 0 then Codes("-") else []) + Digits(m);
  }

  function TextsOf(items: seq<Json>): seq<Text> {
    seq(|items|, i requires 0 <= i < |items| => Serialized(items[i]))
  }

  lemma {:induction false} ItemsJoin(items: seq<Json>)
    ensures Items(items) == Joined(TextsOf(items))
    decreases |items|
  {
    Punctuation();
    var texts := TextsOf(items);
    if items != [] {
      assert texts[1..] == TextsOf(items[1..]);
      ItemsJoin(items[1..]);
      if |items| == 1 {
        assert Items(items[1..]) == [];
      }
    }
  }

  function KeysOf(members: seq<Member>): seq<Text> {
    seq(|members|, i requires 0 <= i < |members| => Quote(members[i].key))
  }

  function ValuesOf(members: seq<Member>): seq<Text> {
    seq(|members|, i requires 0 <= i < |members| => Serialized(members[i].value))
  }

  lemma {:induction false} MembersJoin(members: seq<Member>)
    ensures Members(members) == Joined(Pairs(KeysOf(members), ValuesOf(members)))
    decreases |members|
  {
    Punctuation();
    var texts := Pairs(KeysOf(members), ValuesOf(members));
    if members != [] {
      var rest := members[1..];
      assert texts[1..] == Pairs(KeysOf(rest), ValuesOf(rest));
      MembersJoin(rest);
      assert texts[0] == Quote(members[0].key) + [COLON] + Serialized(members[0].value);
      if |members| == 1 {
        assert Members(rest) == [];
      }
    }
  }

  /** The compact text of every value is JSON, and says that value. */
  lemma {:induction false} TextIsJson(j: Json)
    ensures Spells(Serialized(j), j)
    decreases j
  {
    Punctuation();
    match j
    case Null =>
    case Bool(b) =>
    case Num(n) => NumberSpells(n);
    case Str(s) => QuoteSpells(s);
    case Arr(items) =>
      ItemsJoin(items);
      forall i | 0 <= i < |items| ensures Spells(TextsOf(items)[i], items[i]) {
        TextIsJson(items[i]);
      }
      assert Serialized(j) == Codes("[") + Joined(TextsOf(items)) + Codes("]");
    case Obj(members) =>
      MembersJoin(members);
      var keys, values := KeysOf(members), ValuesOf(members);
      forall i | 0 <= i < |members|
        ensures SpellsString(keys[i], members[i].key) && Spells(values[i], members[i].value)
      {
        QuoteSpells(members[i].key);
        TextIsJson(members[i].value);
      }
      assert Serialized(j) == Codes("{") + Joined(Pairs(keys, values)) + Codes("}");
  }

  /* ---------- the order of keys ---------- */

  /** Code unit by code unit: the first difference decides, and a proper prefix comes first. */
  ghost predicate Precedes(a: Text, b: Text) {
    exists k: nat :: FirstDifference(a, b, k)
  }

  ghost predicate FirstDifference(a: Text, b: Text, k: nat) {
    k <= |a| && k < |b| && a[..k] == b[..k] && (k == |a| || a[k] < b[k])
  }

  lemma SameStart(a: Text, b: Text, k: nat, i: nat)
    requires k <= |a| && k <= |b| && a[..k] == b[..k] && i < k
    ensures a[i] == b[i]
  {
    assert a[..k][i] == b[..k][i];
  }

  lemma {:induction false} BeforeIsPrecedes(a: Text, b: Text)
    ensures Before(a, b) <==> Precedes(a, b)
  {
    if b != [] && a != [] && a[0] == b[0] {
      BeforeIsPrecedes(a[1..], b[1..]);
      if Before(a, b) {
        var k: nat :| FirstDifference(a[1..], b[1..], k);
        assert a[..k + 1] == [a[0]] + a[1..][..k] && b[..k + 1] == [b[0]] + b[1..][..k];
        assert FirstDifference(a, b, k + 1);
      }
      if k: nat :| FirstDifference(a, b, k) {
        assert a[1..][..k - 1] == a[..k][1..] && b[1..][..k - 1] == b[..k][1..];
        assert FirstDifference(a[1..], b[1..], k - 1);
      }
    } else {
      if Before(a, b) {
        assert FirstDifference(a, b, 0);
      }
      if k: nat :| FirstDifference(a, b, k) {
        if k > 0 {
          SameStart(a, b, k, 0);
        }
      }
    }
  }

  /** The keys of a sorted object come in that order, and its members are the members there were. */
  lemma {:induction false} SortedIsInOrder(es: seq<Member>)
    requires DistinctKeys(es)
    ensures |Sort(es)| == |es| && forall e :: e in Sort(es) <==> e in es
    ensures forall i, j | 0 <= i < j < |es| :: Precedes(Sort(es)[i].key, Sort(es)[j].key)
  {
    SortPermutes(es);
    SortAscends(es);
    AscendingAll(Sort(es));
    forall i, j | 0 <= i < j < |es| ensures Precedes(Sort(es)[i].key, Sort(es)[j].key) {
      BeforeIsPrecedes(Sort(es)[i].key, Sort(es)[j].key);
    }
  }

  lemma {:induction false} AscendingAll(es: seq<Member>)
    requires Ascending(es)
    ensures forall i, j | 0 <= i < j < |es| :: Before(es[i].key, es[j].key)
  {
    if es != [] {
      AscendingAll(es[1..]);
      forall i, j | 0 <= i < j < |es| ensures Before(es[i].key, es[j].key) {
        assert es[j] == es[1..][j - 1];
        if i > 0 {
          assert es[i] == es[1..][i - 1];
        }
      }
    }
  }

  /* ---------- section 3 of RFC 3629 ---------- */

  /** The bytes of one code point. */
  function PointBytes(p: int): seq<int>
    requires 0 <= p
  {
    if p < 0x80 then [p]
    else if p < 0x800 then [0xc0 + p / 64, 0x80 + p % 64]
    else if p < 0x10000 then [0xe0 + p / 64 / 64, 0x80 + p / 64 % 64, 0x80 + p % 64]
    else [0xf0 + p / 64 / 64 / 64, 0x80 + p / 64 / 64 % 64, 0x80 + p / 64 % 64, 0x80 + p % 64]
  }

  /** The bytes of a text: a surrogate pair is one code point beyond the first plane. */
  function Bytes(t: Text): seq<int> {
    if t == [] then []
    else if |t| > 1 && 0xd800 <= t[0] <= 0xdbff && 0xdc00 <= t[1] <= 0xdfff then
      PointBytes(0x10000 + (t[0] as int - 0xd800) * 0x400 + (t[1] as int - 0xdc00)) + Bytes(t[2..])
    else PointBytes(t[0]) + Bytes(t[1..])
  }

  /** The length the measurer bounds is the number of bytes that are sent. */
  lemma {:induction false} Utf8CountsBytes(t: Text)
    ensures Utf8(t) == |Bytes(t)|
  {
    if t != [] {
      if |t| > 1 && 0xd800 <= t[0] <= 0xdbff && 0xdc00 <= t[1] <= 0xdfff {
        Utf8CountsBytes(t[2..]);
        assert Utf8(t) == 4 + Utf8(t[2..]);
      } else {
        Utf8CountsBytes(t[1..]);
      }
    }
  }
}
