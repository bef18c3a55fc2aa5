/** The canonical text of a JSON value and the uniqueness check built on it. */
module Canonical {
  /** A UTF-16 code unit; strings and texts are sequences of them, as the program compares and sorts them. */
  type Unit = n: int | 0 <= n < 0x10000
  type Text = seq<Unit>

  /** A parsed number: the shortest decimal that reads back as it, or a literal beyond the range of a double. */
  datatype Number = Finite(text: Text) | Overflow

  datatype Json = Null | Bool(b: bool) | Num(n: Number) | Str(s: Text) | Arr(items: Items) | Obj(fields: Fields)
  datatype Items = Nil | Item(head: Json, rest: Items)
  datatype Fields = Bare | Field(key: Text, value: Json, others: Fields)

  // ---- the text --------------------------------------------------------------------------------------------------

  predicate High(c: Unit) { 0xD800 <= c < 0xDC00 }
  predicate Low(c: Unit) { 0xDC00 <= c < 0xE000 }

  function HexDigit(n: int): Unit
    requires 0 <= n < 16
  {
    if n < 10 then 48 + n else 87 + n
  }

  function Hex4(c: Unit): Text { [HexDigit(c / 4096), HexDigit(c / 256 % 16), HexDigit(c / 16 % 16), HexDigit(c % 16)] }

  function Escape(c: Unit): Text {
    if c == 34 then [92, 34]
    else if c == 92 then [92, 92]
    else if c == 8 then [92, 98]
    else if c == 12 then [92, 102]
    else if c == 10 then [92, 110]
    else if c == 13 then [92, 114]
    else if c == 9 then [92, 116]
    else if c < 32 || High(c) || Low(c) then [92, 117] + Hex4(c)
    else [c]
  }

  /** The inside of a quoted string; a surrogate pair stands as it is, a lone surrogate is escaped. */
  function Body(s: Text): Text {
    if |s| == 0 then []
    else if High(s[0]) && |s| > 1 && Low(s[1]) then [s[0], s[1]] + Body(s[2..])
    else Escape(s[0]) + Body(s[1..])
  }

  function Quote(s: Text): Text { [34] + Body(s) + [34] }

  const NULL: Text := [110, 117, 108, 108]
  const TRUE: Text := [116, 114, 117, 101]
  const FALSE: Text := [102, 97, 108, 115, 101]

  /** Code-unit order of keys. */
  predicate Less(a: Text, b: Text) {
    |b| > 0 && (|a| == 0 || a[0] < b[0] || (a[0] == b[0] && Less(a[1..], b[1..])))
  }

  function Insert(key: Text, value: Json, fields: Fields): Fields {
    match fields
    case Bare => Field(key, value, Bare)
    case Field(k, v, others) => if Less(k, key) then Field(k, v, Insert(key, value, others)) else Field(key, value, fields)
  }

  function Sort(fields: Fields): Fields {
    match fields
    case Bare => Bare
    case Field(k, v, others) => Insert(k, v, Sort(others))
  }

  /** `canonical`: objects by sorted keys, arrays in order, no white space. */
  function CanonicalText(v: Json): Text
    decreases Size(v), 0
  {
    match v
    case Null => NULL
    case Bool(b) => if b then TRUE else FALSE
    case Num(n) => if n.Finite? then n.text else NULL
    case Str(s) => Quote(s)
    case Arr(items) => [91] + ItemsText(items) + [93]
    case Obj(fields) => SortSize(fields); [123] + FieldsText(Sort(fields)) + [125]
  }

  function ItemsText(items: Items): Text
    decreases ItemsSize(items), 1
  {
    match items
    case Nil => []
    case Item(v, rest) => if rest.Nil? then CanonicalText(v) else CanonicalText(v) + [44] + ItemsText(rest)
  }

  function FieldsText(fields: Fields): Text
    decreases FieldsSize(fields), 1
  {
    match fields
    case Bare => []
    case Field(k, v, others) =>
      var first := Quote(k) + [58] + CanonicalText(v);
      if others.Bare? then first else first + [44] + FieldsText(others)
  }

  // ---- sizes, for termination --------------------------------------------------------------------------------------

  function Size(v: Json): nat {
    match v
    case Arr(items) => 1 + ItemsSize(items)
    case Obj(fields) => 1 + FieldsSize(fields)
    case _ => 1
  }

  function ItemsSize(items: Items): nat {
    match items
    case Nil => 0
    case Item(v, rest) => 1 + Size(v) + ItemsSize(rest)
  }

  function FieldsSize(fields: Fields): nat {
    match fields
    case Bare => 0
    case Field(_, v, others) => 1 + Size(v) + FieldsSize(others)
  }

  lemma {:induction false} InsertSize(key: Text, value: Json, fields: Fields)
    ensures FieldsSize(Insert(key, value, fields)) == 1 + Size(value) + FieldsSize(fields)
  { if fields.Field? && Less(fields.key, key) { InsertSize(key, value, fields.others); } }

  lemma {:induction false} SortSize(fields: Fields)
    ensures FieldsSize(Sort(fields)) == FieldsSize(fields)
  {
    if fields.Field? {
      SortSize(fields.others);
      InsertSize(fields.key, fields.value, Sort(fields.others));
    }
  }

  // ---- what a value means --------------------------------------------------------------------------------------------

  /** The JSON data model: an object is an unordered collection of members. */
  datatype Meaning = NullM | BoolM(b: bool) | NumM(n: Number) | StrM(s: Text) | ArrM(items: seq<Meaning>) | ObjM(members: map<Text, Meaning>)

  function MeaningOf(v: Json): Meaning {
    match v
    case Null => NullM
    case Bool(b) => BoolM(b)
    case Num(n) => NumM(n)
    case Str(s) => StrM(s)
    case Arr(items) => ArrM(ItemsMeaning(items))
    case Obj(fields) => ObjM(Members(fields))
  }

  function ItemsMeaning(items: Items): seq<Meaning> {
    match items
    case Nil => []
    case Item(v, rest) => [MeaningOf(v)] + ItemsMeaning(rest)
  }

  function Members(fields: Fields): map<Text, Meaning> {
    match fields
    case Bare => map[]
    case Field(k, v, others) => Members(others)[k := MeaningOf(v)]
  }

  predicate HasKey(fields: Fields, key: Text) { fields.Field? && (fields.key == key || HasKey(fields.others, key)) }

  predicate IsDigit(c: Unit) { 48 <= c < 58 }

  /** The characters a decimal number is written with. */
  predicate NumberText(t: Text) {
    |t| > 0 && (IsDigit(t[0]) || t[0] == 45) && forall i :: 0 <= i < |t| ==> IsDigit(t[i]) || t[i] in {43, 45, 46, 101}
  }

  /** What every parsed value satisfies: decimal numbers, no key twice in an object. */
  predicate Proper(v: Json) {
    match v
    case Num(n) => n.Finite? ==> NumberText(n.text)
    case Arr(items) => ProperItems(items)
    case Obj(fields) => ProperFields(fields)
    case _ => true
  }

  predicate ProperItems(items: Items) { items.Item? ==> Proper(items.head) && ProperItems(items.rest) }

  predicate ProperFields(fields: Fields) {
    fields.Field? ==> Proper(fields.value) && !HasKey(fields.others, fields.key) && ProperFields(fields.others)
  }

  /** No number beyond the range of a double. */
  predicate InRange(v: Json) {
    match v
    case Num(n) => n.Finite?
    case Arr(items) => ItemsInRange(items)
    case Obj(fields) => FieldsInRange(fields)
    case _ => true
  }

  predicate ItemsInRange(items: Items) { items.Item? ==> InRange(items.head) && ItemsInRange(items.rest) }
  predicate FieldsInRange(fields: Fields) { fields.Field? ==> InRange(fields.value) && FieldsInRange(fields.others) }

  // ---- what is written of a value ----------------------------------------------------------------------------------------

  /** A number beyond the range of a double is written as `null` is. */
  function Clip(v: Json): Json {
    match v
    case Num(n) => if n.Finite? then v else Null
    case Arr(items) => Arr(ClipItems(items))
    case Obj(fields) => Obj(ClipFields(fields))
    case _ => v
  }

  function ClipItems(items: Items): Items {
    match items
    case Nil => Nil
    case Item(v, rest) => Item(Clip(v), ClipItems(rest))
  }

  function ClipFields(fields: Fields): Fields {
    match fields
    case Bare => Bare
    case Field(k, v, others) => Field(k, Clip(v), ClipFields(others))
  }
}
