/** The canonical text is JSON: literals, escapes, separators and the order of members, as section 7 of RFC 8259 has them. */
module CanonicalTexts {
  import opened Canonical
  import opened CanonicalProofs

  // ---- strings ---------------------------------------------------------------------------------------------------------------

  /** The value of a lower-case hexadecimal digit. */
  predicate HexOf(d: Unit, n: int) { (48 <= d < 58 && n == d - 48) || (97 <= d < 103 && n == d - 87) }

  /** A backslash and a letter stand for the control unit the grammar names. */
  predicate Named(letter: Unit, c: Unit) {
    || (letter == 34 && c == 34) || (letter == 92 && c == 92)  // quotation mark, reverse solidus
    || (letter == 98 && c == 8) || (letter == 102 && c == 12)  // b: backspace, f: form feed
    || (letter == 110 && c == 10) || (letter == 114 && c == 13) || (letter == 116 && c == 9)  // n, r, t: line feed, carriage return, tab
  }

  /** `u` and four digits. */
  predicate Numbered(t: Text, c: Unit) {
    |t| == 6 && t[0] == 92 && t[1] == 117
    && exists a, b, x, y :: 0 <= a < 16 && 0 <= b < 16 && 0 <= x < 16 && 0 <= y < 16
         && HexOf(t[2], a) && HexOf(t[3], b) && HexOf(t[4], x) && HexOf(t[5], y) && c == a * 4096 + b * 256 + x * 16 + y
  }

  /** `t` stands for the unit `c` inside a quoted string. */
  predicate Spells(t: Text, c: Unit) {
    || (t == [c] && c >= 32 && c != 34 && c != 92)
    || (|t| == 2 && t[0] == 92 && Named(t[1], c))
    || Numbered(t, c)
  }

  function Joined(parts: seq<Text>): Text { if |parts| == 0 then [] else parts[0] + Joined(parts[1..]) }

  lemma DigitIs(n: int)
    requires 0 <= n < 16
    ensures HexOf(HexDigit(n), n)
  {}

  /** The four digits add up. */
  lemma DigitsOf(c: int)
    requires 0 <= c < 0x10000
    ensures c == c / 4096 * 4096 + c / 256 % 16 * 256 + c / 16 % 16 * 16 + c % 16
  {
    assert c / 16 == c / 16 / 16 * 16 + c / 16 % 16 && c / 16 / 16 == c / 256;
    assert c / 256 == c / 256 / 16 * 16 + c / 256 % 16 && c / 256 / 16 == c / 4096;
  }

  /** Four hexadecimal digits with these values stand for the unit. */
  lemma DigitsSpell(t: Text, c: Unit, a: int, b: int, x: int, y: int)
    requires |t| == 6 && t[0] == 92 && t[1] == 117 && 0 <= a < 16 && 0 <= b < 16 && 0 <= x < 16 && 0 <= y < 16
    requires HexOf(t[2], a) && HexOf(t[3], b) && HexOf(t[4], x) && HexOf(t[5], y) && c == a * 4096 + b * 256 + x * 16 + y
    ensures Numbered(t, c)
  {
    hide HexOf;
  }

  lemma HexSpells(c: Unit)
    ensures Numbered([92, 117] + Hex4(c), c)
  {
    var a, b, x, y := c / 4096, c / 256 % 16, c / 16 % 16, c % 16;
    DigitsOf(c);
    DigitIs(a);
    DigitIs(b);
    DigitIs(x);
    DigitIs(y);
    hide HexDigit, HexOf, Numbered;
    DigitsSpell([92, 117] + Hex4(c), c, a, b, x, y);
  }

  lemma EscapeSpells(c: Unit)
    ensures Spells(Escape(c), c)
  {
    HexSpells(c);
    hide Hex4, Numbered;
  }

  /** Nothing is escaped that need not be but lone surrogates, and those always are. */
  predicate Plainly(t: Text, s: Text, i: nat)
    requires i < |s|
  {
    var paired := (High(s[i]) && i + 1 < |s| && Low(s[i + 1])) || (Low(s[i]) && i > 0 && High(s[i - 1]));
    t == [s[i]] <==> s[i] >= 32 && s[i] != 34 && s[i] != 92 && ((High(s[i]) || Low(s[i])) ==> paired)
  }

  lemma EscapePlain(c: Unit)
    ensures Escape(c) == [c] <==> c >= 32 && c != 34 && c != 92 && !High(c) && !Low(c)
  {}

  lemma SelfSpells(c: Unit)
    requires c >= 32 && c != 34 && c != 92
    ensures Spells([c], c)
  {}

  lemma JoinedMore(part: Text, rest: seq<Text>)
    ensures Joined([part] + rest) == part + Joined(rest)
  {
    assert ([part] + rest)[1..] == rest;
  }

  lemma BodyStep(s: Text)
    ensures |s| == 0 ==> Body(s) == []
    ensures |s| > 0 ==> Body(s) == if High(s[0]) && |s| > 1 && Low(s[1]) then [s[0]] + ([s[1]] + Body(s[2..])) else Escape(s[0]) + Body(s[1..])
  {
    hide Escape, High, Low;
  }

  /** A quoted string spells its units one by one. */
  lemma {:induction false} BodySpells(s: Text) returns (parts: seq<Text>)
    ensures |parts| == |s| && Body(s) == Joined(parts) && forall i :: 0 <= i < |s| ==> Spells(parts[i], s[i])
    ensures forall i :: 0 <= i < |s| && !(i == 0 && Low(s[0])) ==> Plainly(parts[i], s, i)
    ensures |s| > 0 && Low(s[0]) ==> parts[0] == Escape(s[0])
    decreases |s|
  {
    hide Plainly, Spells, Escape, Body;
    BodyStep(s);
    if |s| == 0 {
      parts := [];
    } else if High(s[0]) && |s| > 1 && Low(s[1]) {
      var rest := BodySpells(s[2..]);
      SelfSpells(s[0]);
      SelfSpells(s[1]);
      parts := [[s[0]], [s[1]]] + rest;
      assert parts == [[s[0]]] + ([[s[1]]] + rest);
      JoinedMore([s[1]], rest);
      JoinedMore([s[0]], [[s[1]]] + rest);
      PairPlain(s, rest, parts);
      hide Joined;
    } else {
      var rest := BodySpells(s[1..]);
      EscapeSpells(s[0]);
      parts := [Escape(s[0])] + rest;
      JoinedMore(Escape(s[0]), rest);
      LonePlain(s, rest, parts);
      hide Joined, High, Low;
    }
  }

  lemma PairPlain(s: Text, rest: seq<Text>, parts: seq<Text>)
    requires |s| > 1 && High(s[0]) && Low(s[1]) && |rest| == |s| - 2 && parts == [[s[0]], [s[1]]] + rest
    requires forall i :: 0 <= i < |rest| && !(i == 0 && Low(s[2])) ==> Plainly(rest[i], s[2..], i)
    requires |rest| > 0 && Low(s[2]) ==> rest[0] == Escape(s[2])
    ensures forall i :: 0 <= i < |s| ==> Plainly(parts[i], s, i)
  {
    forall i | 0 <= i < |s| ensures Plainly(parts[i], s, i) {
      if i == 2 { EscapePlain(s[2]); }
      if i >= 2 && !(i == 2 && Low(s[2])) { assert Plainly(rest[i - 2], s[2..], i - 2); }
    }
  }

  lemma LonePlain(s: Text, rest: seq<Text>, parts: seq<Text>)
    requires |s| > 0 && !(High(s[0]) && |s| > 1 && Low(s[1])) && |rest| == |s| - 1 && parts == [Escape(s[0])] + rest
    requires forall i :: 0 <= i < |rest| && !(i == 0 && Low(s[1])) ==> Plainly(rest[i], s[1..], i)
    requires |rest| > 0 && Low(s[1]) ==> rest[0] == Escape(s[1])
    ensures forall i :: 0 <= i < |s| && !(i == 0 && Low(s[0])) ==> Plainly(parts[i], s, i)
  {
    EscapePlain(s[0]);
    forall i | 0 <= i < |s| && !(i == 0 && Low(s[0])) ensures Plainly(parts[i], s, i) {
      if i == 1 { EscapePlain(s[1]); }
      if i >= 1 && !(i == 1 && Low(s[1])) { assert Plainly(rest[i - 1], s[1..], i - 1); }
    }
  }

  // ---- arrays and objects ------------------------------------------------------------------------------------------------------

  /** Parts with commas between them. */
  function Separated(parts: seq<Text>): Text {
    if |parts| == 0 then [] else if |parts| == 1 then parts[0] else parts[0] + [44] + Separated(parts[1..])
  }

  function Elements(items: Items): seq<Json> {
    match items
    case Nil => []
    case Item(v, rest) => [v] + Elements(rest)
  }

  datatype Member = Member(key: Text, value: Json)

  function MembersOf(fields: Fields): seq<Member> {
    match fields
    case Bare => []
    case Field(k, v, others) => [Member(k, v)] + MembersOf(others)
  }

  lemma {:induction false} ItemsSeparated(items: Items) returns (parts: seq<Text>)
    ensures |parts| == |Elements(items)| && ItemsText(items) == Separated(parts)
    ensures forall i :: 0 <= i < |parts| ==> parts[i] == CanonicalText(Elements(items)[i])
  {
    match items
    case Nil => parts := [];
    case Item(v, rest) =>
      var more := ItemsSeparated(rest);
      parts := [CanonicalText(v)] + more;
      assert parts[1..] == more;
      hide CanonicalText;
  }

  lemma {:induction false} FieldsSeparated(fields: Fields) returns (parts: seq<Text>)
    ensures |parts| == |MembersOf(fields)| && FieldsText(fields) == Separated(parts)
    ensures forall i :: 0 <= i < |parts| ==>
      var m := MembersOf(fields)[i]; parts[i] == [34] + Body(m.key) + [34] + [58] + CanonicalText(m.value)
  {
    match fields
    case Bare => parts := [];
    case Field(k, v, others) =>
      var more := FieldsSeparated(others);
      parts := [Quote(k) + [58] + CanonicalText(v)] + more;
      assert parts[1..] == more;
      hide CanonicalText, Body;
  }

  lemma {:induction false} InsertMembers(key: Text, value: Json, fields: Fields)
    ensures multiset(MembersOf(Insert(key, value, fields))) == multiset(MembersOf(fields)) + multiset{Member(key, value)}
  {
    if fields.Field? && Less(fields.key, key) { InsertMembers(key, value, fields.others); }
  }

  lemma {:induction false} SortMembers(fields: Fields)
    ensures multiset(MembersOf(Sort(fields))) == multiset(MembersOf(fields))
  {
    if fields.Field? {
      SortMembers(fields.others);
      InsertMembers(fields.key, fields.value, Sort(fields.others));
    }
  }

  lemma {:induction false} OrderedMembers(fields: Fields, i: nat)
    requires Ordered(fields) && i + 1 < |MembersOf(fields)|
    ensures Less(MembersOf(fields)[i].key, MembersOf(fields)[i + 1].key)
  {
    if i > 0 { OrderedMembers(fields.others, i - 1); }
  }

  /** The literals, numbers and strings. */
  lemma ScalarTexts(v: Json)
    ensures v.Null? ==> CanonicalText(v) == [110, 117, 108, 108]
    ensures v == Bool(true) ==> CanonicalText(v) == [116, 114, 117, 101]
    ensures v == Bool(false) ==> CanonicalText(v) == [102, 97, 108, 115, 101]
    ensures v.Num? && v.n.Finite? ==> CanonicalText(v) == v.n.text
    ensures v.Str? ==> CanonicalText(v) == [34] + Body(v.s) + [34]
  {}

  /** An array is its elements in order, in brackets, with commas between them. */
  lemma ArrayText(items: Items) returns (parts: seq<Text>)
    ensures CanonicalText(Arr(items)) == [91] + Separated(parts) + [93] && |parts| == |Elements(items)|
    ensures forall i :: 0 <= i < |parts| ==> parts[i] == CanonicalText(Elements(items)[i])
  {
    parts := ItemsSeparated(items);
  }

  /** An object is its own members by rising key, in braces: quoted key, colon, value, with commas between them. */
  lemma ObjectText(fields: Fields) returns (order: seq<Member>, parts: seq<Text>)
    requires ProperFields(fields)
    ensures multiset(order) == multiset(MembersOf(fields)) && |parts| == |order|
    ensures forall i :: 0 <= i < |order| - 1 ==> Less(order[i].key, order[i + 1].key)
    ensures CanonicalText(Obj(fields)) == [123] + Separated(parts) + [125]
    ensures forall i :: 0 <= i < |parts| ==> parts[i] == [34] + Body(order[i].key) + [34] + [58] + CanonicalText(order[i].value)
  {
    order := MembersOf(Sort(fields));
    SortMembers(fields);
    SortOrders(fields);
    parts := FieldsSeparated(Sort(fields));
    forall i | 0 <= i < |order| - 1 ensures Less(order[i].key, order[i + 1].key) { OrderedMembers(Sort(fields), i); }
  }

  lemma FirstAgrees(a: Text, b: Text, i: nat)
    requires 0 < i <= |a| && i <= |b| && a[..i] == b[..i]
    ensures a[0] == b[0]
  {
    assert a[..i][0] == a[0] && b[..i][0] == b[0];
  }

  /** Rising means by the first unit that differs, or by being the shorter beginning. */
  lemma {:induction false} LessMeans(a: Text, b: Text)
    ensures Less(a, b) <==> a < b || exists i :: 0 <= i < |a| && i < |b| && a[..i] == b[..i] && a[i] < b[i]
  {
    if |a| > 0 && |b| > 0 {
      LessMeans(a[1..], b[1..]);
      if a[0] == b[0] {
        if Less(a[1..], b[1..]) && !(a[1..] < b[1..]) {
          var i :| 0 <= i < |a[1..]| && i < |b[1..]| && a[1..][..i] == b[1..][..i] && a[1..][i] < b[1..][i];
          assert a[..i + 1] == [a[0]] + a[1..][..i] && b[..i + 1] == [b[0]] + b[1..][..i];
          assert a[i + 1] < b[i + 1];
        }
        if i :| 0 <= i < |a| && i < |b| && a[..i] == b[..i] && a[i] < b[i] {
          assert i > 0 && a[1..][..i - 1] == a[..i][1..] && b[1..][..i - 1] == b[..i][1..];
          assert a[1..][i - 1] < b[1..][i - 1];
        }
      } else {
        assert a[..0] == b[..0];
        forall i | 0 < i < |a| && i < |b| ensures a[..i] != b[..i] { if a[..i] == b[..i] { FirstAgrees(a, b, i); } }
      }
    }
  }
}
