/** The byte measurer: it counts, without writing it, the UTF-8 text of a value, within three bounds. */
module JsonMeasure {
  import opened JsonValues
  import opened JsonTexts
  import opened JsonCanon

  /* ---------- UTF-8 ---------- */

  /** The UTF-8 length of a text: a surrogate pair takes four bytes. */
  function Utf8(t: Text): nat {
    if t == [] then 0
    else if IsPair(t) then 4 + Utf8(t[2..])
    else (if t[0] <= 0x7f then 1 else if t[0] <= 0x7ff then 2 else 3) + Utf8(t[1..])
  }

  lemma {:induction false} AsciiPrefix(p: Text, x: Text)
    requires forall u | u in p :: u <= 0x7f
    ensures Utf8(p + x) == |p| + Utf8(x)
  {
    if p == [] {
      assert p + x == x;
    } else {
      assert p[0] in p && (p + x)[1..] == p[1..] + x;
      forall u | u in p[1..] ensures u <= 0x7f {
        assert u in p;
      }
      AsciiPrefix(p[1..], x);
    }
  }

  /* ---------- what the measurer adds up ---------- */

  /** The bytes of the piece at the head of a string, as the branches of the measurer count them. */
  function PieceBytes(s: Text): nat
    requires s != []
  {
    var u := s[0];
    if HasShortEscape(u) then 2
    else if u <= 0x1f then 6
    else if High(u) then (if IsPair(s) then 4 else 6)
    else if Low(u) then 6
    else if u <= 0x7f then 1
    else if u <= 0x7ff then 2
    else 3
  }

  function EscapedBytes(s: Text): nat {
    if s == [] then 0 else PieceBytes(s) + EscapedBytes(s[Width(s)..])
  }

  function Size(j: Json): nat
    decreases j
  {
    match j
    case Null => 4
    case Bool(b) => if b then 4 else 5
    case Num(n) => |Number(n)|
    case Str(s) => 2 + EscapedBytes(s)
    case Arr(items) => 2 + SizeOfItems(items)
    case Obj(members) => 2 + SizeOfMembers(members)
  }

  function SizeOfItems(items: seq<Json>): nat
    decreases items
  {
    if items == [] then 0 else Size(items[0]) + (if |items| == 1 then 0 else 1) + SizeOfItems(items[1..])
  }

  function SizeOfMembers(members: seq<Member>): nat
    decreases members
  {
    if members == [] then 0
    else
      2 + EscapedBytes(members[0].key) + 1 + Size(members[0].value) + (if |members| == 1 then 0 else 1)
      + SizeOfMembers(members[1..])
  }

  /** How many values a value holds, itself included. */
  function Count(j: Json): nat
    decreases j
  {
    match j
    case Arr(items) => 1 + CountItems(items)
    case Obj(members) => 1 + CountMembers(members)
    case _ => 1
  }

  function CountItems(items: seq<Json>): nat
    decreases items
  {
    if items == [] then 0 else Count(items[0]) + CountItems(items[1..])
  }

  function CountMembers(members: seq<Member>): nat
    decreases members
  {
    if members == [] then 0 else Count(members[0].value) + CountMembers(members[1..])
  }

  /** How deep a value is nested. */
  function Height(j: Json): nat
    decreases j
  {
    match j
    case Arr(items) => HeightOfItems(items)
    case Obj(members) => HeightOfMembers(members)
    case _ => 0
  }

  function Larger(a: nat, b: nat): nat { if a < b then b else a }

  function HeightOfItems(items: seq<Json>): nat
    decreases items
  {
    if items == [] then 0 else Larger(1 + Height(items[0]), HeightOfItems(items[1..]))
  }

  function HeightOfMembers(members: seq<Member>): nat
    decreases members
  {
    if members == [] then 0 else Larger(1 + Height(members[0].value), HeightOfMembers(members[1..]))
  }

  /* ---------- the measurer ---------- */

  datatype MeasureResult = Measured(bytes: nat) | TooLarge | Invalid

  /** Counts the bytes of a string literal without building it. */
  method JsonStringByteLength(value: Text) returns (bytes: nat)
    ensures bytes == 2 + EscapedBytes(value)
  {
    bytes := 2;
    var index := 0;
    while index < |value|
      invariant index <= |value| && bytes + EscapedBytes(value[index..]) == 2 + EscapedBytes(value)
    {
      ghost var rest := value[index..];
      var code := value[index];
      assert rest[1..] == value[index + 1..];
      if code == 0x22 || code == 0x5c || code == 0x08 || code == 0x09 || code == 0x0a || code == 0x0c || code == 0x0d {
        bytes := bytes + 2;
      } else if code <= 0x1f {
        bytes := bytes + 6;
      } else if 0xd800 <= code <= 0xdbff {
        if index + 1 < |value| && 0xdc00 <= value[index + 1] <= 0xdfff {
          assert rest[2..] == value[index + 2..];
          bytes := bytes + 4;
          index := index + 1;
        } else {
          bytes := bytes + 6;
        }
      } else if 0xdc00 <= code <= 0xdfff {
        bytes := bytes + 6;
      } else {
        if code <= 0x7f {
          bytes := bytes + 1;
        } else if code <= 0x7ff {
          bytes := bytes + 2;
        } else {
          bytes := bytes + 3;
        }
      }
      index := index + 1;
    }
  }

  class MeasureContext {
    const maxBytes: nat
    const maxDepth: nat
    const maxNodes: nat
    var nodes: nat

    constructor (maxBytes: nat, maxDepth: nat, maxNodes: nat)
      ensures this.maxBytes == maxBytes && this.maxDepth == maxDepth && this.maxNodes == maxNodes && nodes == 0
    {
      this.maxBytes, this.maxDepth, this.maxNodes := maxBytes, maxDepth, maxNodes;
      nodes := 0;
    }

    function Add(current: nat, additional: nat): (r: MeasureResult)
      ensures r.Measured? <==> current + additional <= maxBytes
    {
      if current + additional > maxBytes then TooLarge else Measured(current + additional)
    }

    /** Whether a value fits the three bounds from here. */
    ghost predicate Fits(start: nat, count: nat, depth: nat, size: nat) {
      start + count <= maxNodes && depth <= maxDepth && size <= maxBytes
    }

    /** The answer for a value of this count, depth and size, started at `start` nodes. */
    ghost predicate Answer(r: MeasureResult, start: nat, count: nat, depth: nat, size: nat)
      reads this
    {
      && (r.Measured? <==> Fits(start, count, depth, size))
      && (r.Measured? ==> r.bytes == size && nodes == start + count)
      && (r.TooLarge? ==> start + count > maxNodes || size > maxBytes)
      && (r.Invalid? ==> depth > maxDepth)
    }

    /** Measures a value: it succeeds exactly when node count, depth and size are within bounds. */
    method Measure(candidate: Json, depth: nat) returns (r: MeasureResult)
      modifies this
      ensures Answer(r, old(nodes), Count(candidate), depth + Height(candidate), Size(candidate))
      decreases candidate
    {
      nodes := nodes + 1;
      if nodes > maxNodes {
        return TooLarge;
      }
      if depth > maxDepth {
        return Invalid;
      }
      match candidate {
        case Null => r := Add(0, 4);
        case Str(s) =>
          var bytes := JsonStringByteLength(s);
          r := Add(0, bytes);
        case Bool(b) => r := Add(0, if b then 4 else 5);
        case Num(n) => r := Add(0, |Number(n)|);
        case Arr(items) => r := MeasureItems(items, depth);
        case Obj(members) => r := MeasureMembers(members, depth);
      }
    }

    method MeasureItems(items: seq<Json>, depth: nat) returns (r: MeasureResult)
      requires nodes <= maxNodes && depth <= maxDepth
      modifies this
      ensures Answer(r, old(nodes), CountItems(items), depth + HeightOfItems(items), 2 + SizeOfItems(items))
      decreases items, 0
    {
      ghost var start := nodes;
      var bytes: nat := 2;
      var index := 0;
      while index < |items|
        invariant index <= |items|
        invariant nodes + CountItems(items[index..]) == start + CountItems(items) && nodes <= maxNodes
        invariant bytes + SizeOfItems(items[index..]) == 2 + SizeOfItems(items) && (index > 0 ==> bytes <= maxBytes)
        invariant depth + HeightOfItems(items) <= maxDepth <==> depth + HeightOfItems(items[index..]) <= maxDepth
      {
        assert items[index..][1..] == items[index + 1..];
        var child := Measure(items[index], depth + 1);
        if !child.Measured? {
          return child;
        }
        var added := Add(bytes, child.bytes);
        if !added.Measured? {
          return added;
        }
        bytes := added.bytes;
        if index + 1 < |items| {
          var comma := Add(bytes, 1);
          if !comma.Measured? {
            return comma;
          }
          bytes := comma.bytes;
        }
        index := index + 1;
      }
      r := Add(0, bytes);
    }

    method MeasureMembers(members: seq<Member>, depth: nat) returns (r: MeasureResult)
      requires nodes <= maxNodes && depth <= maxDepth
      modifies this
      ensures Answer(r, old(nodes), CountMembers(members), depth + HeightOfMembers(members), 2 + SizeOfMembers(members))
      decreases members, 0
    {
      ghost var start := nodes;
      var bytes: nat := 2;
      var index := 0;
      while index < |members|
        invariant index <= |members|
        invariant nodes + CountMembers(members[index..]) == start + CountMembers(members) && nodes <= maxNodes
        invariant bytes + SizeOfMembers(members[index..]) == 2 + SizeOfMembers(members)
        invariant (index > 0 ==> bytes <= maxBytes)
        invariant depth + HeightOfMembers(members) <= maxDepth
            <==> depth + HeightOfMembers(members[index..]) <= maxDepth
      {
        assert members[index..][1..] == members[index + 1..];
        var child := Measure(members[index].value, depth + 1);
        if !child.Measured? {
          return child;
        }
        var length := JsonStringByteLength(members[index].key);
        var keyBytes := Add(bytes, length);
        if !keyBytes.Measured? {
          return keyBytes;
        }
        var colon := Add(keyBytes.bytes, 1);
        if !colon.Measured? {
          return colon;
        }
        var valueBytes := Add(colon.bytes, child.bytes);
        if !valueBytes.Measured? {
          return valueBytes;
        }
        bytes := valueBytes.bytes;
        if index + 1 < |members| {
          var comma := Add(bytes, 1);
          if !comma.Measured? {
            return comma;
          }
          bytes := comma.bytes;
        }
        index := index + 1;
      }
      r := Add(0, bytes);
    }
  }

  /** Measures a whole value. */
  method MeasureJsonBytes(value: Json, maxBytes: nat, maxDepth: nat, maxNodes: nat) returns (r: MeasureResult)
    ensures r.Measured? <==>
              Count(value) <= maxNodes && Height(value) <= maxDepth && Utf8(Serialized(value)) <= maxBytes
    ensures r.Measured? ==> r.bytes == Utf8(Serialized(value)) == Utf8(Canonical(value))
  {
    var context := new MeasureContext(maxBytes, maxDepth, maxNodes);
    SizeIsExact(value);
    r := context.Measure(value, 0);
  }

  /* ---------- the count is the length of the text ---------- */

  lemma UnicodeEscapeIsAscii(u: Unit)
    ensures forall v | v in UnicodeEscape(u) :: v <= 0x7f
  {
  }

  lemma PieceUtf8(s: Text, x: Text)
    requires s != []
    ensures Utf8(Piece(s) + x) == PieceBytes(s) + Utf8(x)
  {
    if IsPair(s) {
      assert (Piece(s) + x)[2..] == x;
    } else {
      var p := EscapeUnit(s[0]);
      if |p| == 1 {
        assert (p + x)[1..] == x;
      } else {
        UnicodeEscapeIsAscii(s[0]);
        AsciiPrefix(p, x);
      }
    }
  }

  lemma {:induction false} EscapedUtf8(s: Text, x: Text)
    ensures Utf8(Escaped(s) + x) == EscapedBytes(s) + Utf8(x)
    decreases |s|
  {
    if s == [] {
      assert Escaped(s) + x == x;
    } else {
      var rest := s[Width(s)..];
      assert Escaped(s) + x == Piece(s) + (Escaped(rest) + x);
      PieceUtf8(s, Escaped(rest) + x);
      EscapedUtf8(rest, x);
    }
  }

  lemma QuoteUtf8(s: Text, x: Text)
    ensures Utf8(Quote(s) + x) == 2 + EscapedBytes(s) + Utf8(x)
  {
    assert Quote(s) + x == [QUOTE] + (Escaped(s) + ([QUOTE] + x));
    AsciiPrefix([QUOTE], Escaped(s) + ([QUOTE] + x));
    EscapedUtf8(s, [QUOTE] + x);
    AsciiPrefix([QUOTE], x);
  }

  lemma NumberIsAscii(n: int)
    ensures forall u | u in Number(n) :: u <= 0x7f
  {
    DigitsRoundTrip(if n < 0 then -n else n);
  }

  /** The size of a value is the UTF-8 length of its text, whatever follows it. */
  lemma {:induction false} SizeIsLength(j: Json, x: Text)
    ensures Utf8(Serialized(j) + x) == Size(j) + Utf8(x)
    decreases j, 0
  {
    match j
    case Null => AsciiPrefix(NULL, x);
    case Bool(b) => AsciiPrefix(Serialized(j), x);
    case Num(n) =>
      NumberIsAscii(n);
      AsciiPrefix(Number(n), x);
    case Str(s) => QuoteUtf8(s, x);
    case Arr(items) =>
      Wrapped(LBRACKET, Items(items), RBRACKET, x);
      ItemsLength(items, [RBRACKET] + x);
      AsciiPrefix([RBRACKET], x);
    case Obj(members) =>
      Wrapped(LBRACE, Members(members), RBRACE, x);
      MembersLength(members, [RBRACE] + x);
      AsciiPrefix([RBRACE], x);
  }

  lemma Wrapped(o: Unit, body: Text, c: Unit, x: Text)
    requires o <= 0x7f
    ensures Utf8([o] + body + [c] + x) == 1 + Utf8(body + ([c] + x))
  {
    assert [o] + body + [c] + x == [o] + (body + ([c] + x));
    AsciiPrefix([o], body + ([c] + x));
  }

  lemma {:induction false} ItemsLength(items: seq<Json>, x: Text)
    ensures Utf8(Items(items) + x) == SizeOfItems(items) + Utf8(x)
    decreases items
  {
    if items == [] {
      assert Items(items) + x == x;
    } else {
      var h, m, r := Serialized(items[0]), if |items| == 1 then [] else [COMMA], Items(items[1..]);
      assert Items(items) == h + m + r;
      assert h + m + r + x == h + (m + (r + x));
      SizeIsLength(items[0], m + (r + x));
      AsciiPrefix(m, r + x);
      ItemsLength(items[1..], x);
    }
  }

  lemma {:induction false} MembersLength(members: seq<Member>, x: Text)
    ensures Utf8(Members(members) + x) == SizeOfMembers(members) + Utf8(x)
    decreases members
  {
    if members == [] {
      assert Members(members) + x == x;
    } else {
      var k, h := Quote(members[0].key), Serialized(members[0].value);
      var m, r := if |members| == 1 then [] else [COMMA], Members(members[1..]);
      assert Members(members) == k + [COLON] + h + m + r;
      InOrder(k, h, m, r, x);
      QuoteUtf8(members[0].key, [COLON] + (h + (m + (r + x))));
      ValueLength(members[0].value, m, r + x);
      MembersLength(members[1..], x);
    }
  }

  lemma InOrder(k: Text, h: Text, m: Text, r: Text, x: Text)
    ensures k + [COLON] + h + m + r + x == k + ([COLON] + (h + (m + (r + x))))
  {
  }

  lemma {:induction false} ValueLength(j: Json, m: Text, x: Text)
    requires m == [] || m == [COMMA]
    ensures Utf8([COLON] + (Serialized(j) + (m + x))) == 1 + Size(j) + |m| + Utf8(x)
    decreases j, 1
  {
    AsciiPrefix([COLON], Serialized(j) + (m + x));
    SizeIsLength(j, m + x);
    AsciiPrefix(m, x);
  }

  /* ---------- sorting members keeps the length ---------- */

  /** The members' bytes, each with its comma. */
  function MemberSum(members: seq<Member>): nat {
    if members == [] then 0 else EscapedBytes(members[0].key) + Size(members[0].value) + 4 + MemberSum(members[1..])
  }

  lemma {:induction false} SumIsSize(members: seq<Member>)
    ensures MemberSum(members) == SizeOfMembers(members) + if members == [] then 0 else 1
  {
    if members != [] {
      SumIsSize(members[1..]);
    }
  }

  lemma {:induction false} InsertSum(m: Member, ms: seq<Member>)
    ensures MemberSum(Insert(m, ms)) == EscapedBytes(m.key) + Size(m.value) + 4 + MemberSum(ms)
  {
    if ms == [] || Before(m.key, ms[0].key) {
      assert ([m] + ms)[1..] == ms;
    } else {
      InsertSum(m, ms[1..]);
      assert ([ms[0]] + Insert(m, ms[1..]))[1..] == Insert(m, ms[1..]);
    }
  }

  lemma {:induction false} SortSum(ms: seq<Member>)
    ensures MemberSum(Sort(ms)) == MemberSum(ms)
  {
    if ms != [] {
      SortSum(ms[1..]);
      InsertSum(ms[0], Sort(ms[1..]));
    }
  }

  lemma {:induction false} NormalSize(j: Json)
    ensures Size(Normal(j)) == Size(j)
    decreases Weight(j)
  {
    match j
    case Arr(items) => NormalItemsSize(items);
    case Obj(members) =>
      SortWeighs(members);
      SortPermutes(members);
      NormalMembersSum(Sort(members));
      SortSum(members);
      SumIsSize(members);
      SumIsSize(NormalMembers(Sort(members)));
    case _ =>
  }

  lemma {:induction false} NormalItemsSize(items: seq<Json>)
    ensures SizeOfItems(NormalItems(items)) == SizeOfItems(items)
    decreases WeightOfItems(items)
  {
    if items != [] {
      NormalSize(items[0]);
      NormalItemsSize(items[1..]);
      assert NormalItems(items)[1..] == NormalItems(items[1..]);
    }
  }

  lemma {:induction false} NormalMembersSum(members: seq<Member>)
    ensures MemberSum(NormalMembers(members)) == MemberSum(members)
    decreases WeightOfMembers(members)
  {
    if members != [] {
      NormalSize(members[0].value);
      NormalMembersSum(members[1..]);
      assert NormalMembers(members)[1..] == NormalMembers(members[1..]);
    }
  }

  /** What the measurer counts is the length of the compact text, and of the canonical one. */
  lemma SizeIsExact(j: Json)
    ensures Size(j) == Utf8(Serialized(j)) == Utf8(Canonical(j))
  {
    SizeIsLength(j, []);
    assert Serialized(j) + [] == Serialized(j);
    CanonicalIsNormalText(j);
    SizeIsLength(Normal(j), []);
    assert Serialized(Normal(j)) + [] == Serialized(Normal(j));
    NormalSize(j);
  }
}
