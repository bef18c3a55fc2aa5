/** The canonical text identifies a JSON value up to the order of its object keys. */
module CanonicalProofs {
  import opened Options
  import opened Canonical

  // ---- strings -------------------------------------------------------------------------------------------------------

  lemma DigitOne(m: int, n: int)
    requires 0 <= m < 16 && 0 <= n < 16 && HexDigit(m) == HexDigit(n)
    ensures m == n
  {}

  lemma HexSplit(c: Unit)
    ensures c == ((c / 4096 * 16 + c / 256 % 16) * 16 + c / 16 % 16) * 16 + c % 16
  {
    assert c / 16 == c / 256 * 16 + c / 16 % 16;
    assert c / 256 == c / 4096 * 16 + c / 256 % 16;
  }

  lemma HexOne(c: Unit, d: Unit)
    requires Hex4(c) == Hex4(d)
    ensures c == d
  {
    var h, k := Hex4(c), Hex4(d);
    assert h[0] == k[0] && h[1] == k[1] && h[2] == k[2] && h[3] == k[3];
    DigitOne(c / 4096, d / 4096);
    DigitOne(c / 256 % 16, d / 256 % 16);
    DigitOne(c / 16 % 16, d / 16 % 16);
    DigitOne(c % 16, d % 16);
    HexSplit(c);
    HexSplit(d);
  }

  lemma Assoc(a: Text, b: Text, c: Text)
    ensures a + b + c == a + (b + c)
  {}

  /** Equal texts that begin with one unit each begin with the same, and go on the same. */
  lemma Peel(c: Unit, d: Unit, x: Text, y: Text)
    requires [c] + x == [d] + y
    ensures c == d && x == y
  {
    assert ([c] + x)[0] == c && ([d] + y)[0] == d;
    assert ([c] + x)[1..] == x && ([d] + y)[1..] == y;
  }

  /** No escaped unit is the beginning of another. */
  lemma EscapeUnique(c: Unit, d: Unit, x: Text, y: Text)
    requires Escape(c) + x == Escape(d) + y
    ensures c == d && x == y
  {
    var u, w := Escape(c) + x, Escape(d) + y;
    assert u[0] == w[0];
    if u[0] == 92 {
      assert u[1] == w[1];
      if u[1] == 117 {
        assert Hex4(c) == u[2..6] && Hex4(d) == w[2..6];
        HexOne(c, d);
      }
    }
    assert c == d;
    assert x == u[|Escape(c)|..] && y == w[|Escape(d)|..];
  }

  /** Quoted strings differ before their closing quotes. */
  lemma {:induction false} BodyUnique(s: Text, t: Text, x: Text, y: Text)
    requires Body(s) + ([34] + x) == Body(t) + ([34] + y)
    ensures s == t && x == y
    decreases |s|
  {
    var z, v := [34] + x, [34] + y;
    BodyHead(s, z);
    BodyHead(t, v);
    assert (Body(s) + z)[0] == (Body(t) + v)[0];
    hide Body, Escape;
    if |s| == 0 || |t| == 0 {
      Nothing(z);
      Nothing(v);
      Peel(34, 34, x, y);
    } else if Paired(s) {
      Peel(s[0], t[0], [s[1]] + (Body(s[2..]) + z), [t[1]] + (Body(t[2..]) + v));
      Peel(s[1], t[1], Body(s[2..]) + z, Body(t[2..]) + v);
      BodyUnique(s[2..], t[2..], x, y);
      assert s == [s[0], s[1]] + s[2..] && t == [t[0], t[1]] + t[2..];
    } else {
      EscapeUnique(s[0], t[0], Body(s[1..]) + z, Body(t[1..]) + v);
      BodyUnique(s[1..], t[1..], x, y);
      assert s == [s[0]] + s[1..] && t == [t[0]] + t[1..];
    }
  }

  lemma Nothing(z: Text)
    ensures Body([]) + z == z
  {}

  predicate Paired(s: Text) { |s| > 1 && High(s[0]) && Low(s[1]) }

  lemma EscapeHead(c: Unit)
    ensures |Escape(c)| > 0 && Escape(c)[0] != 34 && !High(Escape(c)[0])
  {}

  lemma HeadOf(a: Text, z: Text)
    requires |a| > 0
    ensures |a + z| > 0 && (a + z)[0] == a[0]
  {}

  lemma PairedBody(s: Text, z: Text)
    requires Paired(s)
    ensures Body(s) + z == [s[0]] + ([s[1]] + (Body(s[2..]) + z))
  {
    var rest := Body(s[2..]);
    assert Body(s) == [s[0], s[1]] + rest;
    hide Body;
    Assoc([s[0], s[1]], rest, z);
    assert [s[0], s[1]] == [s[0]] + [s[1]];
    Assoc([s[0]], [s[1]], rest + z);
  }

  lemma EscapedBody(s: Text, z: Text)
    requires |s| > 0 && !Paired(s)
    ensures Body(s) + z == Escape(s[0]) + (Body(s[1..]) + z)
  {
    var rest := Body(s[1..]);
    assert Body(s) == Escape(s[0]) + rest;
    hide Body, Escape;
    Assoc(Escape(s[0]), rest, z);
  }

  /** How a body with what follows it begins: by its first escape, or by a pair, and never with a quote unless it is empty. */
  lemma BodyHead(s: Text, z: Text)
    requires |z| > 0 && z[0] == 34
    ensures |Body(s) + z| > 0 && (|s| == 0 <==> (Body(s) + z)[0] == 34) && (High((Body(s) + z)[0]) <==> Paired(s))
    ensures Paired(s) ==> Body(s) + z == [s[0]] + ([s[1]] + (Body(s[2..]) + z))
    ensures |s| > 0 && !Paired(s) ==> Body(s) + z == Escape(s[0]) + (Body(s[1..]) + z)
  {
    hide Body, Escape;
    if Paired(s) {
      PairedBody(s, z);
      HeadOf([s[0]], [s[1]] + (Body(s[2..]) + z));
    } else if |s| > 0 {
      EscapedBody(s, z);
      EscapeHead(s[0]);
      HeadOf(Escape(s[0]), Body(s[1..]) + z);
    } else {
      assert s == [];
      Nothing(z);
    }
  }

  lemma QuoteUnique(s: Text, t: Text, x: Text, y: Text)
    requires Quote(s) + x == Quote(t) + y
    ensures s == t && x == y
  {
    QuoteSplit(s, x);
    QuoteSplit(t, y);
    hide Body, Quote;
    Peel(34, 34, Body(s) + ([34] + x), Body(t) + ([34] + y));
    BodyUnique(s, t, x, y);
  }

  lemma QuoteSplit(s: Text, x: Text)
    ensures Quote(s) + x == [34] + (Body(s) + ([34] + x))
  {
    hide Body;
  }

  // ---- values --------------------------------------------------------------------------------------------------------

  /** What may follow a value inside a text: nothing, a comma, or a closing bracket or brace. */
  predicate Follows(x: Text) { |x| == 0 || x[0] in {44, 93, 125} }

  /** What a value's text starts with says what kind of value it is. */
  function Head(v: Json): Unit
    requires Proper(v)
  {
    match v
    case Null => 110
    case Bool(b) => if b then 116 else 102
    case Num(n) => if n.Finite? then n.text[0] else 110
    case Str(_) => 34
    case Arr(_) => 91
    case Obj(_) => 123
  }

  lemma HeadIs(v: Json)
    requires Proper(v)
    ensures |CanonicalText(v)| > 0 && CanonicalText(v)[0] == Head(v) && Head(v) !in {44, 93, 125}
  {}

  /** Of two splits of one text, the longer front covers what the shorter leaves. */
  lemma Overhang(a: Text, b: Text, x: Text, y: Text)
    requires a + x == b + y && |a| < |b|
    ensures |x| > 0 && x[0] == b[|a|]
  {
    assert (a + x)[|a|] == (b + y)[|a|];
  }

  lemma DigitsUnique(a: Text, b: Text, x: Text, y: Text)
    requires a + x == b + y && Follows(x) && Follows(y) && NumberText(a) && NumberText(b)
    ensures a == b && x == y
  {
    if |a| < |b| {
      Overhang(a, b, x, y);
    } else if |b| < |a| {
      Overhang(b, a, y, x);
    } else {
      assert a == (a + x)[..|a|] && b == (b + y)[..|b|];
      Constants(a, b, x, y);
    }
  }

  lemma Constants(a: Text, b: Text, x: Text, y: Text)
    requires a == b && a + x == b + y
    ensures x == y
  {
    assert x == (a + x)[|a|..] && y == (b + y)[|b|..];
  }

  lemma HeadsAgree(a: Json, b: Json, x: Text, y: Text)
    requires Proper(a) && Proper(b) && CanonicalText(a) + x == CanonicalText(b) + y
    ensures Head(a) == Head(b)
  {
    HeadIs(a);
    HeadIs(b);
    assert (CanonicalText(a) + x)[0] == (CanonicalText(b) + y)[0];
  }

  lemma {:induction false} ValueUnique(a: Json, b: Json, x: Text, y: Text)
    requires Proper(a) && Proper(b) && InRange(a) && InRange(b) && Follows(x) && Follows(y)
    requires CanonicalText(a) + x == CanonicalText(b) + y
    ensures MeaningOf(a) == MeaningOf(b) && x == y
    decreases Size(a), 0
  {
    HeadsAgree(a, b, x, y);
    match a
    case Null => Constants(CanonicalText(a), CanonicalText(b), x, y);
    case Bool(_) => Constants(CanonicalText(a), CanonicalText(b), x, y);
    case Num(n) => DigitsUnique(n.text, b.n.text, x, y);
    case Str(s) => QuoteUnique(s, b.s, x, y);
    case Arr(items) =>
      Bracketed(91, 93, ItemsText(items), x, ItemsText(b.items), y);
      ItemsUnique(items, b.items, x, y);
    case Obj(fields) =>
      SortSize(fields);
      SortKeeps(fields);
      SortKeeps(b.fields);
      Bracketed(123, 125, FieldsText(Sort(fields)), x, FieldsText(Sort(b.fields)), y);
      FieldsUnique(Sort(fields), Sort(b.fields), x, y);
  }

  lemma Bracketed(open: Unit, close: Unit, p: Text, x: Text, q: Text, y: Text)
    requires [open] + p + [close] + x == [open] + q + [close] + y
    ensures p + ([close] + x) == q + ([close] + y)
  {
    assert [open] + p + [close] + x == [open] + (p + ([close] + x));
    assert [open] + q + [close] + y == [open] + (q + ([close] + y));
    Peel(open, open, p + ([close] + x), q + ([close] + y));
  }

  /** What follows the first item of a list: the end, or a comma and the rest. */
  function AfterItem(rest: Items, z: Text): Text { if rest.Nil? then z else [44] + (ItemsText(rest) + z) }
  function AfterField(others: Fields, z: Text): Text { if others.Bare? then z else [44] + (FieldsText(others) + z) }

  lemma ItemsSplit(items: Items, z: Text)
    requires items.Item?
    ensures ItemsText(items) + z == CanonicalText(items.head) + AfterItem(items.rest, z)
  {
    if items.rest.Item? {
      Assoc(CanonicalText(items.head) + [44], ItemsText(items.rest), z);
      Assoc(CanonicalText(items.head), [44], ItemsText(items.rest) + z);
    }
  }

  lemma Joined(k: Text, v: Text, r: Text, z: Text)
    ensures k + [58] + v + z == k + ([58] + (v + z))
    ensures k + [58] + v + [44] + r + z == k + ([58] + (v + ([44] + (r + z))))
  {
    Assoc(k, [58], v);
    Assoc(k, [58] + v, z);
    Assoc([58], v, z);
    Assoc(k + [58] + v, [44], r);
    Assoc(k + [58] + v, [44] + r, z);
    Assoc([44], r, z);
    var w := [44] + (r + z);
    Assoc(k, [58] + v, w);
    Assoc([58], v, w);
  }

  lemma FieldsSplit(fields: Fields, z: Text)
    requires fields.Field?
    ensures FieldsText(fields) + z == Quote(fields.key) + ([58] + (CanonicalText(fields.value) + AfterField(fields.others, z)))
  {
    var k, v, r := Quote(fields.key), CanonicalText(fields.value), FieldsText(fields.others);
    if fields.others.Field? {
      assert FieldsText(fields) == k + [58] + v + [44] + r;
    } else {
      assert FieldsText(fields) == k + [58] + v;
    }
    hide FieldsText, Quote, CanonicalText;
    Joined(k, v, r, z);
  }

  lemma ItemsHead(items: Items, z: Text)
    requires ProperItems(items) && |z| > 0 && z[0] == 93
    ensures (ItemsText(items) + z)[0] == 93 <==> items.Nil?
    ensures Follows(AfterItem(items, z)) && (AfterItem(items, z)[0] == 93 <==> items.Nil?)
  {
    if items.Item? { HeadIs(items.head); }
  }

  lemma FieldsHead(fields: Fields, z: Text)
    requires |z| > 0 && z[0] == 125
    ensures (FieldsText(fields) + z)[0] == 125 <==> fields.Bare?
    ensures Follows(AfterField(fields, z)) && (AfterField(fields, z)[0] == 125 <==> fields.Bare?)
  {}

  lemma {:induction false} ItemsUnique(a: Items, b: Items, x: Text, y: Text)
    requires ProperItems(a) && ProperItems(b) && ItemsInRange(a) && ItemsInRange(b)
    requires ItemsText(a) + ([93] + x) == ItemsText(b) + ([93] + y)
    ensures ItemsMeaning(a) == ItemsMeaning(b) && x == y
    decreases ItemsSize(a), 1
  {
    var z, v := [93] + x, [93] + y;
    ItemsHead(a, z);
    ItemsHead(b, v);
    if a.Nil? {
      assert ItemsText(a) + z == z && ItemsText(b) + v == v;
      Peel(93, 93, x, y);
    } else {
      ItemsSplit(a, z);
      ItemsSplit(b, v);
      ItemsHead(a.rest, z);
      ItemsHead(b.rest, v);
      ValueUnique(a.head, b.head, AfterItem(a.rest, z), AfterItem(b.rest, v));
      if a.rest.Nil? {
        Peel(93, 93, x, y);
      } else {
        Peel(44, 44, ItemsText(a.rest) + z, ItemsText(b.rest) + v);
        ItemsUnique(a.rest, b.rest, x, y);
      }
    }
  }

  lemma {:induction false} FieldsUnique(a: Fields, b: Fields, x: Text, y: Text)
    requires ProperFields(a) && ProperFields(b) && FieldsInRange(a) && FieldsInRange(b)
    requires FieldsText(a) + ([125] + x) == FieldsText(b) + ([125] + y)
    ensures Members(a) == Members(b) && x == y
    decreases FieldsSize(a), 1
  {
    var z, v := [125] + x, [125] + y;
    FieldsHead(a, z);
    FieldsHead(b, v);
    if a.Bare? {
      assert FieldsText(a) + z == z && FieldsText(b) + v == v;
      Peel(125, 125, x, y);
    } else {
      FieldsSplit(a, z);
      FieldsSplit(b, v);
      FieldsHead(a.others, z);
      FieldsHead(b.others, v);
      hide Quote;
      var p, q := AfterField(a.others, z), AfterField(b.others, v);
      QuoteUnique(a.key, b.key, [58] + (CanonicalText(a.value) + p), [58] + (CanonicalText(b.value) + q));
      Peel(58, 58, CanonicalText(a.value) + p, CanonicalText(b.value) + q);
      ValueUnique(a.value, b.value, p, q);
      if a.others.Bare? {
        Peel(125, 125, x, y);
      } else {
        Peel(44, 44, FieldsText(a.others) + z, FieldsText(b.others) + v);
        FieldsUnique(a.others, b.others, x, y);
      }
    }
  }

  // ---- sorting ---------------------------------------------------------------------------------------------------------

  lemma {:induction false} LessOrder(a: Text, b: Text)
    ensures Less(a, b) ==> !Less(b, a) && a != b
    ensures Less(a, b) || Less(b, a) || a == b
  {
    if |a| > 0 && |b| > 0 && a[0] == b[0] {
      LessOrder(a[1..], b[1..]);
      assert a == [a[0]] + a[1..] && b == [b[0]] + b[1..];
    }
  }

  lemma {:induction false} LessTrans(a: Text, b: Text, c: Text)
    requires Less(a, b) && Less(b, c)
    ensures Less(a, c)
  {
    if |a| > 0 && a[0] == b[0] == c[0] { LessTrans(a[1..], b[1..], c[1..]); }
  }

  lemma {:induction false} InsertKeeps(key: Text, value: Json, fields: Fields)
    ensures Members(Insert(key, value, fields)) == Members(fields)[key := MeaningOf(value)]
    ensures forall k :: HasKey(Insert(key, value, fields), k) <==> k == key || HasKey(fields, k)
    ensures InRange(value) && FieldsInRange(fields) ==> FieldsInRange(Insert(key, value, fields))
    ensures Proper(value) && ProperFields(fields) && !HasKey(fields, key) ==> ProperFields(Insert(key, value, fields))
  {
    if fields.Field? && Less(fields.key, key) {
      LessOrder(fields.key, key);
      InsertKeeps(key, value, fields.others);
    }
  }

  lemma {:induction false} SortKeeps(fields: Fields)
    ensures Members(Sort(fields)) == Members(fields)
    ensures forall k :: HasKey(Sort(fields), k) <==> HasKey(fields, k)
    ensures FieldsInRange(fields) ==> FieldsInRange(Sort(fields))
    ensures ProperFields(fields) ==> ProperFields(Sort(fields))
  {
    if fields.Field? {
      SortKeeps(fields.others);
      InsertKeeps(fields.key, fields.value, Sort(fields.others));
    }
  }

  /** Strictly increasing keys. */
  predicate Ordered(fields: Fields) {
    fields.Field? ==> Ordered(fields.others) && (fields.others.Field? ==> Less(fields.key, fields.others.key))
  }

  lemma {:induction false} InsertOrders(key: Text, value: Json, fields: Fields)
    requires Ordered(fields) && !HasKey(fields, key)
    ensures Ordered(Insert(key, value, fields))
    ensures Insert(key, value, fields).Field? && (Insert(key, value, fields).key == key || (fields.Field? && Insert(key, value, fields).key == fields.key))
  {
    if fields.Field? {
      LessOrder(fields.key, key);
      if Less(fields.key, key) { InsertOrders(key, value, fields.others); }
    }
  }

  lemma {:induction false} SortOrders(fields: Fields)
    requires ProperFields(fields)
    ensures Ordered(Sort(fields))
  {
    if fields.Field? {
      SortOrders(fields.others);
      SortKeeps(fields.others);
      InsertOrders(fields.key, fields.value, Sort(fields.others));
    }
  }

  lemma {:induction false} FirstIsLeast(fields: Fields, k: Text)
    requires Ordered(fields) && HasKey(fields, k)
    ensures k == fields.key || Less(fields.key, k)
  {
    if k != fields.key {
      FirstIsLeast(fields.others, k);
      if k != fields.others.key { LessTrans(fields.key, fields.others.key, k); }
    }
  }

  lemma {:induction false} MembersHave(fields: Fields, k: Text)
    ensures k in Members(fields) <==> HasKey(fields, k)
  { if fields.Field? { MembersHave(fields.others, k); } }

  lemma NotBelow(fields: Fields)
    requires Ordered(fields) && fields.Field?
    ensures !HasKey(fields.others, fields.key)
  {
    if HasKey(fields.others, fields.key) {
      FirstIsLeast(fields.others, fields.key);
      LessOrder(fields.key, fields.others.key);
    }
  }

  // ---- equal meaning, equal text ---------------------------------------------------------------------------------------

  lemma {:induction false} SameText(a: Json, b: Json)
    requires Proper(a) && Proper(b) && MeaningOf(a) == MeaningOf(b)
    ensures CanonicalText(a) == CanonicalText(b)
    decreases Size(a), 0
  {
    match a
    case Arr(items) => SameItems(items, b.items);
    case Obj(fields) =>
      SortSize(fields);
      SortKeeps(fields);
      SortKeeps(b.fields);
      SortOrders(fields);
      SortOrders(b.fields);
      SameFields(Sort(fields), Sort(b.fields));
    case _ =>
  }

  lemma {:induction false} SameItems(a: Items, b: Items)
    requires ProperItems(a) && ProperItems(b) && ItemsMeaning(a) == ItemsMeaning(b)
    ensures ItemsText(a) == ItemsText(b) && (a.Nil? <==> b.Nil?)
    decreases ItemsSize(a), 1
  {
    if a.Item? && b.Item? {
      assert ItemsMeaning(a)[0] == ItemsMeaning(b)[0];
      assert ItemsMeaning(a)[1..] == ItemsMeaning(a.rest) && ItemsMeaning(b)[1..] == ItemsMeaning(b.rest);
      SameText(a.head, b.head);
      SameItems(a.rest, b.rest);
    }
  }

  lemma FirstSame(a: Fields, b: Fields)
    requires Ordered(a) && Ordered(b) && Members(a) == Members(b) && a.Field?
    ensures b.Field? && a.key == b.key && MeaningOf(a.value) == MeaningOf(b.value) && Members(a.others) == Members(b.others)
  {
    MembersHave(a, a.key);
    MembersHave(b, a.key);
    MembersHave(b, b.key);
    MembersHave(a, b.key);
    FirstIsLeast(b, a.key);
    FirstIsLeast(a, b.key);
    LessOrder(a.key, b.key);
    NotBelow(a);
    NotBelow(b);
    MembersHave(a.others, a.key);
    MembersHave(b.others, a.key);
    assert Members(a.others) == map k | k in Members(a) && k != a.key :: Members(a)[k];
    assert Members(b.others) == map k | k in Members(b) && k != b.key :: Members(b)[k];
  }

  lemma {:induction false} SameFields(a: Fields, b: Fields)
    requires ProperFields(a) && ProperFields(b) && Ordered(a) && Ordered(b) && Members(a) == Members(b)
    ensures FieldsText(a) == FieldsText(b) && (a.Bare? <==> b.Bare?)
    decreases FieldsSize(a), 1
  {
    if a.Field? {
      FirstSame(a, b);
      SameText(a.value, b.value);
      SameFields(a.others, b.others);
    } else if b.Field? {
      MembersHave(b, b.key);
    }
  }

  // ---- numbers beyond the range of a double ------------------------------------------------------------------------------

  lemma {:induction false} ClipInsert(key: Text, value: Json, fields: Fields)
    ensures ClipFields(Insert(key, value, fields)) == Insert(key, Clip(value), ClipFields(fields))
  { if fields.Field? && Less(fields.key, key) { ClipInsert(key, value, fields.others); } }

  lemma {:induction false} ClipSort(fields: Fields)
    ensures ClipFields(Sort(fields)) == Sort(ClipFields(fields))
  {
    if fields.Field? {
      ClipSort(fields.others);
      ClipInsert(fields.key, fields.value, Sort(fields.others));
    }
  }

  lemma {:induction false} ClipHasKey(fields: Fields, key: Text)
    ensures HasKey(ClipFields(fields), key) <==> HasKey(fields, key)
  { if fields.Field? { ClipHasKey(fields.others, key); } }

  /** Clipping keeps a value proper, brings it in range and leaves its text as it is. */
  lemma {:induction false} ClipKeeps(v: Json)
    requires Proper(v)
    ensures Proper(Clip(v)) && InRange(Clip(v)) && CanonicalText(Clip(v)) == CanonicalText(v) && (InRange(v) ==> Clip(v) == v)
    decreases Size(v), 0
  {
    match v
    case Arr(items) => ClipItemsKeeps(items);
    case Obj(fields) =>
      ClipFieldsKeeps(fields);
      SortSize(fields);
      SortKeeps(fields);
      ClipFieldsKeeps(Sort(fields));
      ClipSort(fields);
    case _ =>
  }

  lemma {:induction false} ClipItemsKeeps(items: Items)
    requires ProperItems(items)
    ensures ProperItems(ClipItems(items)) && ItemsInRange(ClipItems(items)) && ItemsText(ClipItems(items)) == ItemsText(items)
    ensures ItemsInRange(items) ==> ClipItems(items) == items
    decreases ItemsSize(items), 1
  {
    if items.Item? {
      ClipKeeps(items.head);
      ClipItemsKeeps(items.rest);
    }
  }

  lemma {:induction false} ClipFieldsKeeps(fields: Fields)
    requires ProperFields(fields)
    ensures ProperFields(ClipFields(fields)) && FieldsInRange(ClipFields(fields)) && FieldsText(ClipFields(fields)) == FieldsText(fields)
    ensures FieldsInRange(fields) ==> ClipFields(fields) == fields
    decreases FieldsSize(fields), 1
  {
    if fields.Field? {
      ClipKeeps(fields.value);
      ClipFieldsKeeps(fields.others);
      ClipHasKey(fields.others, fields.key);
    }
  }

  /** Two parsed values have one canonical text exactly when what is written of them is the same JSON value, key order aside. */
  lemma TextIff(a: Json, b: Json)
    requires Proper(a) && Proper(b)
    ensures CanonicalText(a) == CanonicalText(b) <==> MeaningOf(Clip(a)) == MeaningOf(Clip(b))
  {
    ClipKeeps(a);
    ClipKeeps(b);
    if CanonicalText(a) == CanonicalText(b) { ValueUnique(Clip(a), Clip(b), [], []); }
    if MeaningOf(Clip(a)) == MeaningOf(Clip(b)) { SameText(Clip(a), Clip(b)); }
  }

  /** In range, as every validated number is: one text exactly when they are the same JSON value. */
  lemma TextIffInRange(a: Json, b: Json)
    requires Proper(a) && Proper(b) && InRange(a) && InRange(b)
    ensures CanonicalText(a) == CanonicalText(b) <==> MeaningOf(a) == MeaningOf(b)
  {
    TextIff(a, b);
    ClipKeeps(a);
    ClipKeeps(b);
  }

  /** Of the helper by itself: a literal beyond the range of a double reads as infinity, which is written as `null` is. */
  lemma OverflowCollides()
    ensures Proper(Num(Overflow)) && CanonicalText(Num(Overflow)) == CanonicalText(Null) && MeaningOf(Num(Overflow)) != MeaningOf(Null)
  {}

  predicate Repeats(items: seq<Json>, n: nat)
    requires n < |items|
  {
    exists i :: 0 <= i < n && CanonicalText(items[i]) == CanonicalText(items[n])
  }

  /** The `uniqueItems` loop: the position of the first item whose text repeats an earlier one's, if any. */
  method FirstRepeat(items: seq<Json>) returns (repeat: Option<nat>)
    ensures repeat.None? ==> forall n :: 0 <= n < |items| ==> !Repeats(items, n)
    ensures repeat.Some? ==> repeat.value < |items| && Repeats(items, repeat.value) && forall n :: 0 <= n < repeat.value ==> !Repeats(items, n)
    ensures (forall i :: 0 <= i < |items| ==> Proper(items[i])) ==>
      (repeat.None? <==> forall i, j :: 0 <= i < j < |items| ==> MeaningOf(Clip(items[i])) != MeaningOf(Clip(items[j])))
  {
    UniqueIff(items);
    var seen: set<Text> := {};
    for n := 0 to |items|
      invariant forall t :: t in seen <==> exists i :: 0 <= i < n && CanonicalText(items[i]) == t
      invariant forall k :: 0 <= k < n ==> !Repeats(items, k)
    {
      var key := CanonicalText(items[n]);
      if key in seen { return Some(n); }
      seen := seen + {key};
    }
    return None;
  }

  /** Lists of proper values: no text repeats exactly when no value, as it is written, does. */
  lemma UniqueIff(items: seq<Json>)
    ensures (forall i :: 0 <= i < |items| ==> Proper(items[i])) ==>
      ((forall n :: 0 <= n < |items| ==> !Repeats(items, n)) <==>
       (forall i, j :: 0 <= i < j < |items| ==> MeaningOf(Clip(items[i])) != MeaningOf(Clip(items[j]))))
  {
    if forall i :: 0 <= i < |items| ==> Proper(items[i]) {
      forall i, j | 0 <= i < j < |items|
        ensures CanonicalText(items[i]) == CanonicalText(items[j]) <==> MeaningOf(Clip(items[i])) == MeaningOf(Clip(items[j]))
      {
        TextIff(items[i], items[j]);
      }
      forall i, j | 0 <= i < j < |items| && MeaningOf(Clip(items[i])) == MeaningOf(Clip(items[j])) ensures Repeats(items, j) {}
    }
  }

  /** The promise of `uniqueItems`, for the lists validation lets through to the check: no two items are equal JSON values. */
  lemma ValidatedUnique(items: seq<Json>)
    requires forall i :: 0 <= i < |items| ==> Proper(items[i]) && InRange(items[i])
    ensures (forall n :: 0 <= n < |items| ==> !Repeats(items, n)) <==>
            (forall i, j :: 0 <= i < j < |items| ==> MeaningOf(items[i]) != MeaningOf(items[j]))
  {
    UniqueIff(items);
    forall i | 0 <= i < |items| ensures Clip(items[i]) == items[i] { ClipKeeps(items[i]); }
  }
}
