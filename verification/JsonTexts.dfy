/** Compact JSON text, as `JSON.stringify` writes it, and why no two values share one. */
module JsonTexts {
  import opened TaskStates
  import opened JsonValues

  const QUOTE: Unit := 0x22
  const BACKSLASH: Unit := 0x5c
  const COMMA: Unit := 0x2c
  const COLON: Unit := 0x3a
  const MINUS: Unit := 0x2d
  const LBRACKET: Unit := 0x5b
  const RBRACKET: Unit := 0x5d
  const LBRACE: Unit := 0x7b
  const RBRACE: Unit := 0x7d

  /* ---------- strings ---------- */

  predicate High(u: Unit) { 0xd800 <= u <= 0xdbff }

  predicate Low(u: Unit) { 0xdc00 <= u <= 0xdfff }

  function HexDigit(v: int): Unit
    requires 0 <= v < 16
  {
    if v < 10 then 0x30 + v else 0x57 + v
  }

  /** `\uXXXX`, in lower case. */
  function UnicodeEscape(u: Unit): Text {
    [BACKSLASH, 0x75, HexDigit(u / 16 / 16 / 16), HexDigit(u / 16 / 16 % 16), HexDigit(u / 16 % 16), HexDigit(u % 16)]
  }

  /** The letter of a two-character escape, or the unit itself when it has none. */
  function ShortEscape(u: Unit): Unit {
    if u == 0x08 then 0x62 else if u == 0x09 then 0x74 else if u == 0x0a then 0x6e
    else if u == 0x0c then 0x66 else if u == 0x0d then 0x72 else u
  }

  predicate HasShortEscape(u: Unit) {
    u in {QUOTE, BACKSLASH, 0x08, 0x09, 0x0a, 0x0c, 0x0d}
  }

  function EscapeUnit(u: Unit): Text {
    if HasShortEscape(u) then [BACKSLASH, ShortEscape(u)]
    else if u <= 0x1f || High(u) || Low(u) then UnicodeEscape(u)
    else [u]
  }

  /** A high surrogate followed by a low one is one character and is written as it is. */
  predicate IsPair(s: Text) {
    |s| >= 2 && High(s[0]) && Low(s[1])
  }

  function Width(s: Text): nat
    requires s != []
    ensures 0 < Width(s) <= |s|
  {
    if IsPair(s) then 2 else 1
  }

  function Piece(s: Text): Text
    requires s != []
  {
    if IsPair(s) then s[..2] else EscapeUnit(s[0])
  }

  function Escaped(s: Text): Text {
    if s == [] then [] else Piece(s) + Escaped(s[Width(s)..])
  }

  function Quote(s: Text): Text {
    [QUOTE] + Escaped(s) + [QUOTE]
  }

  /** How long the piece at the head of a text is, from its first two units. */
  function PieceLength(t: Text): nat
    requires t != []
  {
    if High(t[0]) then 2 else if t[0] != BACKSLASH then 1 else if |t| > 1 && t[1] == 0x75 then 6 else 2
  }

  lemma PieceStarts(s: Text, x: Text)
    requires s != []
    ensures Piece(s) != [] && Piece(s)[0] != QUOTE && PieceLength(Piece(s) + x) == |Piece(s)|
  {
  }

  lemma UnicodeEscapeIsInjective(u: Unit, v: Unit)
    requires UnicodeEscape(u) == UnicodeEscape(v)
    ensures u == v
  {
    var p, q := UnicodeEscape(u), UnicodeEscape(v);
    var a, b := u / 16, v / 16;
    SameHexDigit(a / 16 / 16, b / 16 / 16, p[2], q[2]);
    SameHexDigit(a / 16 % 16, b / 16 % 16, p[3], q[3]);
    SameHexDigit(a % 16, b % 16, p[4], q[4]);
    SameHexDigit(u % 16, v % 16, p[5], q[5]);
    assert a / 16 == b / 16;
    assert a == b;
  }

  lemma SameHexDigit(v: int, w: int, d: Unit, e: Unit)
    requires 0 <= v < 16 && 0 <= w < 16 && d == HexDigit(v) && e == HexDigit(w) && d == e
    ensures v == w
  {
  }

  lemma EscapeIsInjective(u: Unit, v: Unit)
    requires EscapeUnit(u) == EscapeUnit(v)
    ensures u == v
  {
    var p, q := EscapeUnit(u), EscapeUnit(v);
    if |p| == 6 {
      UnicodeEscapeIsInjective(u, v);
    } else if |p| == 2 {
      assert p[1] == q[1];
    }
  }

  /** Equal texts begin with equal pieces, written for equal characters. */
  lemma SamePiece(s: Text, t: Text, x: Text, y: Text)
    requires s != [] && t != [] && Piece(s) + x == Piece(t) + y
    ensures s[..Width(s)] == t[..Width(t)] && x == y
  {
    PieceStarts(s, x);
    PieceStarts(t, y);
    var n := |Piece(s)|;
    assert Piece(s) == (Piece(s) + x)[..n] && Piece(t) == (Piece(t) + y)[..n];
    assert x == (Piece(s) + x)[n..] && y == (Piece(t) + y)[n..];
    assert Piece(s)[0] == Piece(t)[0];
    if !IsPair(s) {
      EscapeIsInjective(s[0], t[0]);
    }
  }

  /** The closing quote can be told from a piece. */
  lemma EndsHere(s: Text, x: Text)
    ensures (Escaped(s) + [QUOTE] + x)[0] == QUOTE <==> s == []
  {
    if s != [] {
      PieceStarts(s, []);
    }
  }

  lemma PieceFirst(s: Text, x: Text)
    requires s != []
    ensures Escaped(s) + [QUOTE] + x == Piece(s) + (Escaped(s[Width(s)..]) + [QUOTE] + x)
  {
  }

  /** A quoted string can be told from what follows it. */
  lemma {:induction false} SameString(s: Text, t: Text, x: Text, y: Text)
    requires Escaped(s) + [QUOTE] + x == Escaped(t) + [QUOTE] + y
    ensures s == t && x == y
    decreases |s|
  {
    EndsHere(s, x);
    EndsHere(t, y);
    if s == [] {
      assert x == (Escaped(s) + [QUOTE] + x)[1..] && y == (Escaped(t) + [QUOTE] + y)[1..];
    } else {
      var u, v := s[Width(s)..], t[Width(t)..];
      PieceFirst(s, x);
      PieceFirst(t, y);
      SamePiece(s, t, Escaped(u) + [QUOTE] + x, Escaped(v) + [QUOTE] + y);
      SameString(u, v, x, y);
      assert s == s[..Width(s)] + u && t == t[..Width(t)] + v;
    }
  }

  /* ---------- reading a string, by section 7 of RFC 8259 ---------- */

  function HexValue(u: Unit): Option<nat> {
    if 0x30 <= u <= 0x39 then Some(u - 0x30)
    else if 0x61 <= u <= 0x66 then Some(u - 0x57)
    else if 0x41 <= u <= 0x46 then Some(u - 0x37)
    else None
  }

  /** The unit four hexadecimal digits stand for. */
  function ReadHex(t: Text): Option<Unit>
    requires |t| >= 4
  {
    var a, b, c, d := HexValue(t[0]), HexValue(t[1]), HexValue(t[2]), HexValue(t[3]);
    if a.None? || b.None? || c.None? || d.None? || a.value > 15 || b.value > 15 || c.value > 15
        || d.value > 15 then None
    else Some(((a.value * 16 + b.value) * 16 + c.value) * 16 + d.value)
  }

  /** The unit a two-character escape stands for. */
  function Meaning(letter: Unit): Option<Unit> {
    if letter == QUOTE then Some(QUOTE)
    else if letter == BACKSLASH then Some(BACKSLASH)
    else if letter == 0x2f then Some(0x2f)
    else if letter == 0x62 then Some(0x08)
    else if letter == 0x66 then Some(0x0c)
    else if letter == 0x6e then Some(0x0a)
    else if letter == 0x72 then Some(0x0d)
    else if letter == 0x74 then Some(0x09)
    else None
  }

  datatype StringRead = StringRead(value: Text, rest: Text)

  /** Reads a string after its opening quote, up to the closing one. */
  function ReadString(t: Text): Option<StringRead> {
    if t == [] || t[0] < 0x20 then None
    else if t[0] == QUOTE then Some(StringRead([], t[1..]))
    else if t[0] != BACKSLASH then Prepend(t[0], ReadString(t[1..]))
    else if |t| == 1 then None
    else if t[1] != 0x75 then (if Meaning(t[1]).Some? then Prepend(Meaning(t[1]).value, ReadString(t[2..])) else None)
    else if |t| < 6 || ReadHex(t[2..]).None? then None
    else Prepend(ReadHex(t[2..]).value, ReadString(t[6..]))
  }

  function Prepend(u: Unit, r: Option<StringRead>): Option<StringRead> {
    if r.Some? then Some(StringRead([u] + r.value.value, r.value.rest)) else None
  }

  lemma HexRoundTrip(u: Unit, x: Text)
    ensures ReadHex((UnicodeEscape(u) + x)[2..]) == Some(u)
  {
    var t := (UnicodeEscape(u) + x)[2..];
    var a := u / 16;
    var b := a / 16;
    assert t[0] == HexDigit(b / 16) && t[1] == HexDigit(b % 16) && t[2] == HexDigit(a % 16) && t[3] == HexDigit(u % 16);
  }

  lemma UnitRoundTrip(u: Unit, x: Text)
    ensures ReadString(EscapeUnit(u) + x) == Prepend(u, ReadString(x))
  {
    var t := EscapeUnit(u) + x;
    if HasShortEscape(u) {
      assert t[2..] == x;
    } else if u <= 0x1f || High(u) || Low(u) {
      HexRoundTrip(u, x);
      assert t[6..] == x;
    } else {
      assert t[1..] == x;
    }
  }

  lemma PairRoundTrip(s: Text, x: Text)
    requires IsPair(s)
    ensures ReadString(s[..2] + x) == Prepend(s[0], Prepend(s[1], ReadString(x)))
  {
    var t := s[..2] + x;
    assert t[1..][1..] == x;
    assert t[1..][0] == s[1];
    assert ReadString(t[1..]) == Prepend(s[1], ReadString(x));
  }

  /** A quoted string reads back as it was, and reading stops behind its closing quote. */
  lemma {:induction false} StringRoundTrip(s: Text, x: Text)
    ensures ReadString(Escaped(s) + [QUOTE] + x) == Some(StringRead(s, x))
    decreases |s|
  {
    if s == [] {
      assert (Escaped(s) + [QUOTE] + x)[1..] == x;
    } else {
      var rest := s[Width(s)..];
      PieceFirst(s, x);
      StringRoundTrip(rest, x);
      if IsPair(s) {
        PairRoundTrip(s, Escaped(rest) + [QUOTE] + x);
        assert s == [s[0]] + ([s[1]] + rest);
      } else {
        UnitRoundTrip(s[0], Escaped(rest) + [QUOTE] + x);
        assert s == [s[0]] + rest;
      }
    }
  }

  /* ---------- numbers ---------- */

  function Digits(n: nat): Text {
    if n < 10 then [0x30 + n] else Digits(n / 10) + [0x30 + n % 10]
  }

  function Number(n: int): Text {
    if n < 0 then [MINUS] + Digits(-n) else Digits(n)
  }

  predicate IsDigit(u: Unit) { 0x30 <= u <= 0x39 }

  function ValueOf(t: Text): int {
    if t == [] then 0 else 10 * ValueOf(t[..|t| - 1]) + (t[|t| - 1] as int - 0x30)
  }

  lemma {:induction false} DigitsRoundTrip(n: nat)
    ensures Digits(n) != [] && (forall u | u in Digits(n) :: IsDigit(u)) && ValueOf(Digits(n)) == n
  {
    if n < 10 {
      assert Digits(n)[..0] == [];
    } else {
      DigitsRoundTrip(n / 10);
      assert Digits(n)[..|Digits(n)| - 1] == Digits(n / 10);
    }
  }

  /** What cannot be taken for more digits of a number before it. */
  predicate Stops(x: Text) {
    x == [] || !IsDigit(x[0])
  }

  /** How many digits a text begins with. */
  function DigitRun(t: Text): nat {
    if Stops(t) then 0 else 1 + DigitRun(t[1..])
  }

  lemma {:induction false} RunEnds(d: Text, x: Text)
    requires (forall u | u in d :: IsDigit(u)) && Stops(x)
    ensures DigitRun(d + x) == |d|
  {
    if d == [] {
      assert d + x == x;
    } else {
      assert d[0] in d && (d + x)[1..] == d[1..] + x;
      RunEnds(d[1..], x);
    }
  }

  lemma SameDigits(m: nat, n: nat, x: Text, y: Text)
    requires Digits(m) + x == Digits(n) + y && Stops(x) && Stops(y)
    ensures m == n && x == y
  {
    DigitsRoundTrip(m);
    DigitsRoundTrip(n);
    RunEnds(Digits(m), x);
    RunEnds(Digits(n), y);
    var l, r := Digits(m) + x, Digits(n) + y;
    assert Digits(m) == l[..|Digits(m)|] && Digits(n) == r[..|Digits(n)|];
    assert x == l[|Digits(m)|..] && y == r[|Digits(n)|..];
  }

  lemma NumberStarts(n: int, x: Text)
    ensures Number(n) != [] && Number(n)[0] == (Number(n) + x)[0]
    ensures if n < 0 then Number(n)[0] == MINUS else IsDigit(Number(n)[0])
    ensures n < 0 ==> (Number(n) + x)[1..] == Digits(-n) + x
  {
    if n < 0 {
      assert Number(n) + x == [MINUS] + (Digits(-n) + x);
    } else {
      DigitsRoundTrip(n);
      assert Digits(n)[0] in Digits(n);
    }
  }

  lemma SameNumber(m: int, n: int, x: Text, y: Text)
    requires Number(m) + x == Number(n) + y && Stops(x) && Stops(y)
    ensures m == n && x == y
  {
    NumberStarts(m, x);
    NumberStarts(n, y);
    if m < 0 {
      SameDigits(-m, -n, x, y);
    } else {
      SameDigits(m, n, x, y);
    }
  }

  /* ---------- values ---------- */

  const NULL: Text := [0x6e, 0x75, 0x6c, 0x6c]
  const TRUE: Text := [0x74, 0x72, 0x75, 0x65]
  const FALSE: Text := [0x66, 0x61, 0x6c, 0x73, 0x65]

  function Serialized(j: Json): Text
    decreases j
  {
    match j
    case Null => NULL
    case Bool(b) => if b then TRUE else FALSE
    case Num(n) => Number(n)
    case Str(s) => Quote(s)
    case Arr(items) => [LBRACKET] + Items(items) + [RBRACKET]
    case Obj(members) => [LBRACE] + Members(members) + [RBRACE]
  }

  function Items(items: seq<Json>): Text
    decreases items
  {
    if items == [] then []
    else Serialized(items[0]) + (if |items| == 1 then [] else [COMMA]) + Items(items[1..])
  }

  function Members(members: seq<Member>): Text
    decreases members
  {
    if members == [] then []
    else
      Quote(members[0].key) + [COLON] + Serialized(members[0].value) + (if |members| == 1 then [] else [COMMA])
      + Members(members[1..])
  }

  /* ---------- reading a text back ---------- */

  /** The kind of a value, and the kind its text begins like. */
  function Kind(j: Json): nat {
    match j
    case Null => 0
    case Bool(b) => if b then 1 else 2
    case Num(_) => 3
    case Str(_) => 4
    case Arr(_) => 5
    case Obj(_) => 6
  }

  function KindOfUnit(u: Unit): nat {
    if u == 0x6e then 0 else if u == 0x74 then 1 else if u == 0x66 then 2
    else if u == QUOTE then 4 else if u == LBRACKET then 5 else if u == LBRACE then 6 else 3
  }

  lemma BeginsAsItsKind(j: Json, x: Text)
    ensures Serialized(j) != [] && Serialized(j)[0] == (Serialized(j) + x)[0]
    ensures KindOfUnit(Serialized(j)[0]) == Kind(j) && Serialized(j)[0] !in {RBRACKET, RBRACE, COMMA}
  {
    if j.Num? {
      NumberStarts(j.n, x);
    }
  }

  lemma Regroup(h: Text, m: Text, r: Text, c: Unit, x: Text)
    ensures h + m + r + [c] + x == h + (m + (r + [c] + x))
  {
  }

  lemma RegroupMember(k: Text, v: Text, m: Text, r: Text, c: Unit, x: Text)
    ensures [QUOTE] + k + [QUOTE] + [COLON] + v + m + r + [c] + x == [QUOTE]
        + (k + [QUOTE] + ([COLON] + (v + (m + (r + [c] + x)))))
  {
  }

  lemma Inside(o: Unit, body: Text, c: Unit, x: Text)
    ensures ([o] + body + [c] + x)[1..] == body + [c] + x
  {
  }

  lemma After(p: Text, x: Text)
    ensures (p + x)[|p|..] == x
  {
  }

  /** What follows the first item of an array, up to and beyond the closing bracket. */
  function AfterItem(items: seq<Json>, x: Text): Text
    requires items != []
  {
    if |items| == 1 then [RBRACKET] + x else [COMMA] + (Items(items[1..]) + [RBRACKET] + x)
  }

  lemma ItemsFirst(items: seq<Json>, x: Text)
    requires items != []
    ensures Items(items) + [RBRACKET] + x == Serialized(items[0]) + AfterItem(items, x)
  {
    var h, r := Serialized(items[0]), Items(items[1..]);
    if |items| == 1 {
      OneItem(items);
      LastOne(h, RBRACKET, x);
    } else {
      Regroup(h, [COMMA], r, RBRACKET, x);
    }
  }

  lemma OneItem(items: seq<Json>)
    requires |items| == 1
    ensures Items(items) == Serialized(items[0])
  {
    assert Items(items[1..]) == [];
  }

  lemma LastOne(h: Text, c: Unit, x: Text)
    ensures h + [c] + x == h + ([c] + x)
  {
  }

  lemma NothingBefore(t: Text)
    ensures [] + t == t && [] + ([] + t) == t
  {
  }

  lemma ItemsUnfold(items: seq<Json>, x: Text)
    ensures var t := Items(items) + [RBRACKET] + x;
            if items == [] then t == [RBRACKET] + x
            else t == Serialized(items[0]) + AfterItem(items, x) && t[0] != RBRACKET
  {
    if items != [] {
      BeginsAsItsKind(items[0], AfterItem(items, x));
      ItemsFirst(items, x);
    }
  }

  function AfterMember(members: seq<Member>, x: Text): Text
    requires members != []
  {
    if |members| == 1 then [RBRACE] + x else [COMMA] + (Members(members[1..]) + [RBRACE] + x)
  }

  /** What follows the opening quote of the first member. */
  function FirstMember(members: seq<Member>, x: Text): Text
    requires members != []
  {
    Escaped(members[0].key) + [QUOTE] + ([COLON] + (Serialized(members[0].value) + AfterMember(members, x)))
  }

  lemma MembersFirst(members: seq<Member>, x: Text)
    requires members != []
    ensures Members(members) + [RBRACE] + x == [QUOTE] + FirstMember(members, x)
  {
    var k, v, r := Escaped(members[0].key), Serialized(members[0].value), Members(members[1..]);
    if |members| == 1 {
      assert Members(members) == [QUOTE] + k + [QUOTE] + [COLON] + v + [] + r && r == [];
      RegroupMember(k, v, [], [], RBRACE, x);
      NothingBefore([RBRACE] + x);
    } else {
      assert Members(members) == [QUOTE] + k + [QUOTE] + [COLON] + v + [COMMA] + r;
      RegroupMember(k, v, [COMMA], r, RBRACE, x);
    }
  }

  lemma MembersUnfold(members: seq<Member>, x: Text)
    ensures var t := Members(members) + [RBRACE] + x;
            if members == [] then t == [RBRACE] + x && t[0] == RBRACE
            else t == [QUOTE] + FirstMember(members, x) && t[0] == QUOTE
  {
    if members != [] {
      MembersFirst(members, x);
    }
  }

  /** A text can be told from what follows it, and it can be read back: values with equal texts are equal. */
  lemma {:induction false} SameText(a: Json, b: Json, x: Text, y: Text)
    requires Serialized(a) + x == Serialized(b) + y && Stops(x) && Stops(y)
    ensures a == b && x == y
    decreases a
  {
    BeginsAsItsKind(a, x);
    BeginsAsItsKind(b, y);
    match a
    case Null => After(NULL, x); After(NULL, y);
    case Bool(v) => After(Serialized(a), x); After(Serialized(a), y);
    case Num(n) => SameNumber(n, b.n, x, y);
    case Str(s) =>
      Inside(QUOTE, Escaped(s), QUOTE, x);
      Inside(QUOTE, Escaped(b.s), QUOTE, y);
      SameString(s, b.s, x, y);
    case Arr(items) =>
      Inside(LBRACKET, Items(items), RBRACKET, x);
      Inside(LBRACKET, Items(b.items), RBRACKET, y);
      SameItems(items, b.items, x, y);
    case Obj(members) =>
      Inside(LBRACE, Members(members), RBRACE, x);
      Inside(LBRACE, Members(b.members), RBRACE, y);
      SameMembers(members, b.members, x, y);
  }

  lemma {:induction false} SameItems(a: seq<Json>, b: seq<Json>, x: Text, y: Text)
    requires Items(a) + [RBRACKET] + x == Items(b) + [RBRACKET] + y
    ensures a == b && x == y
    decreases a
  {
    ItemsUnfold(a, x);
    ItemsUnfold(b, y);
    if a == [] {
      assert x == ([RBRACKET] + x)[1..] && y == ([RBRACKET] + y)[1..];
    } else {
      SameText(a[0], b[0], AfterItem(a, x), AfterItem(b, y));
      assert AfterItem(a, x)[1..] == AfterItem(b, y)[1..] && AfterItem(a, x)[0] == AfterItem(b, y)[0];
      if |a| > 1 {
        SameItems(a[1..], b[1..], x, y);
      }
      assert a == [a[0]] + a[1..] && b == [b[0]] + b[1..];
    }
  }

  /** The same first key, then the same rest. */
  lemma SameKey(a: seq<Member>, b: seq<Member>, x: Text, y: Text)
    requires a != [] && b != [] && FirstMember(a, x) == FirstMember(b, y)
    ensures a[0].key == b[0].key
    ensures Serialized(a[0].value) + AfterMember(a, x) == Serialized(b[0].value) + AfterMember(b, y)
  {
    var v, w := Serialized(a[0].value) + AfterMember(a, x), Serialized(b[0].value) + AfterMember(b, y);
    SameString(a[0].key, b[0].key, [COLON] + v, [COLON] + w);
    After([COLON], v);
    After([COLON], w);
  }

  lemma {:induction false} SameMembers(a: seq<Member>, b: seq<Member>, x: Text, y: Text)
    requires Members(a) + [RBRACE] + x == Members(b) + [RBRACE] + y
    ensures a == b && x == y
    decreases a
  {
    MembersUnfold(a, x);
    MembersUnfold(b, y);
    if a == [] {
      After([RBRACE], x);
      After([RBRACE], y);
    } else {
      SameFirst(a, b, x, y);
      SameText(a[0].value, b[0].value, AfterMember(a, x), AfterMember(b, y));
      AfterTheFirst(a, b, x, y);
      if |a| > 1 {
        SameMembers(a[1..], b[1..], x, y);
      }
      HeadAndTail(a, b);
    }
  }

  lemma SameFirst(a: seq<Member>, b: seq<Member>, x: Text, y: Text)
    requires a != [] && b != [] && [QUOTE] + FirstMember(a, x) == [QUOTE] + FirstMember(b, y)
    ensures a[0].key == b[0].key
    ensures Serialized(a[0].value) + AfterMember(a, x) == Serialized(b[0].value) + AfterMember(b, y)
  {
    After([QUOTE], FirstMember(a, x));
    After([QUOTE], FirstMember(b, y));
    SameKey(a, b, x, y);
  }

  lemma HeadAndTail(a: seq<Member>, b: seq<Member>)
    requires a != [] && b != [] && a[0].key == b[0].key && a[0].value == b[0].value
    requires |a| == 1 <==> |b| == 1
    requires |a| > 1 ==> a[1..] == b[1..]
    ensures a == b
  {
    assert a == [a[0]] + a[1..] && b == [b[0]] + b[1..];
  }

  lemma AfterTheFirst(a: seq<Member>, b: seq<Member>, x: Text, y: Text)
    requires a != [] && b != [] && AfterMember(a, x) == AfterMember(b, y)
    ensures |a| == 1 <==> |b| == 1
    ensures if |a| == 1 then x == y else Members(a[1..]) + [RBRACE] + x == Members(b[1..]) + [RBRACE] + y
  {
    var t := AfterMember(a, x);
    assert t[0] == (if |a| == 1 then RBRACE else COMMA) && t[0] == (if |b| == 1 then RBRACE else COMMA);
    if |a| == 1 {
      After([RBRACE], x);
      After([RBRACE], y);
    } else {
      After([COMMA], Members(a[1..]) + [RBRACE] + x);
      After([COMMA], Members(b[1..]) + [RBRACE] + y);
    }
  }
}
