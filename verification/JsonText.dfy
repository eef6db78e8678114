/** JSON texts as concrete syntax (RFC 8259): every space, escape and digit is kept,
    so `Text` ranges over all the spellings of a value, not just one printed form. */
module JsonText {
  import opened Outcomes

  /** One unit of a string body: a plain character or a backslash escape (section 7). */
  datatype StringUnit = Plain(c: char) | Escape(code: string)

  /** A number: optional minus, integer digits, optional fraction, optional exponent (section 6). */
  datatype Number = Number(minus: bool, digits: string, fraction: Option<string>, exponent: Option<Exponent>)
  datatype Exponent = Exponent(mark: char, sign: string, digits: string)

  datatype Json =
    | True | False | Null
    | Num(number: Number)
    | Str(units: seq<StringUnit>)
    | Arr(gap: string, items: Items)
    | Obj(gap: string, members: Members)

  datatype Items = NoItems | Item(before: string, value: Json, after: string, rest: Items)

  datatype Members =
    | NoMembers
    | Member(before: string, key: seq<StringUnit>, mid: string, lead: string, value: Json, after: string, rest: Members)

  // ----- well-formedness -----

  predicate Space(s: string) {
    forall i :: 0 <= i < |s| ==> s[i] in " \t\n\r"
  }

  predicate Digits(s: string) {
    s != [] && forall i :: 0 <= i < |s| ==> '0' <= s[i] <= '9'
  }

  predicate HexDigit(c: char) {
    '0' <= c <= '9' || 'a' <= c <= 'f' || 'A' <= c <= 'F'
  }

  predicate UnitOk(u: StringUnit) {
    match u
    case Plain(c) => c >= ' ' && c != '"' && c != '\\'
    case Escape(code) =>
      || (|code| == 1 && code[0] in "\"\\/bfnrt")
      || (|code| == 5 && code[0] == 'u' && forall i :: 1 <= i < 5 ==> HexDigit(code[i]))
  }

  predicate UnitsOk(us: seq<StringUnit>) {
    forall i :: 0 <= i < |us| ==> UnitOk(us[i])
  }

  predicate NumberOk(n: Number) {
    && Digits(n.digits) && (n.digits[0] == '0' ==> |n.digits| == 1)
    && (n.fraction.Some? ==> Digits(n.fraction.value))
    && (n.exponent.Some? ==>
          && n.exponent.value.mark in "eE"
          && n.exponent.value.sign in ["", "+", "-"]
          && Digits(n.exponent.value.digits))
  }

  predicate WellFormed(v: Json) {
    match v
    case True | False | Null => true
    case Num(n) => NumberOk(n)
    case Str(us) => UnitsOk(us)
    case Arr(gap, items) => Space(gap) && ItemsOk(items)
    case Obj(gap, members) => Space(gap) && MembersOk(members)
  }

  predicate ItemsOk(items: Items) {
    match items
    case NoItems => true
    case Item(b, v, a, rest) => Space(b) && WellFormed(v) && Space(a) && ItemsOk(rest)
  }

  predicate MembersOk(members: Members) {
    match members
    case NoMembers => true
    case Member(b, key, m, l, v, a, rest) =>
      Space(b) && UnitsOk(key) && Space(m) && Space(l) && WellFormed(v) && Space(a) && MembersOk(rest)
  }

  // ----- text -----

  function UnitText(u: StringUnit): string {
    match u
    case Plain(c) => [c]
    case Escape(code) => "\\" + code
  }

  function UnitsText(us: seq<StringUnit>): string {
    if us == [] then "" else UnitText(us[0]) + UnitsText(us[1..])
  }

  function StringText(us: seq<StringUnit>): string {
    "\"" + UnitsText(us) + "\""
  }

  function NumberText(n: Number): string {
    (if n.minus then "-" else "")
    + n.digits
    + (if n.fraction.Some? then "." + n.fraction.value else "")
    + (if n.exponent.Some?
       then [n.exponent.value.mark] + n.exponent.value.sign + n.exponent.value.digits
       else "")
  }

  function Text(v: Json): string {
    match v
    case True => "true"
    case False => "false"
    case Null => "null"
    case Num(n) => NumberText(n)
    case Str(us) => StringText(us)
    case Arr(gap, items) => "[" + gap + ItemsText(items) + "]"
    case Obj(gap, members) => "{" + gap + MembersText(members) + "}"
  }

  function ItemsText(items: Items): string {
    match items
    case NoItems => ""
    case Item(b, v, a, rest) => b + Text(v) + a + (if rest.NoItems? then "" else "," + ItemsText(rest))
  }

  function MembersText(members: Members): string {
    match members
    case NoMembers => ""
    case Member(b, key, m, l, v, a, rest) =>
      b + StringText(key) + m + ":" + l + Text(v) + a + (if rest.NoMembers? then "" else "," + MembersText(rest))
  }
}
