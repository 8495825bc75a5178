/** JSON texts as RFC 8259 builds them (sections 2 to 7), said without a parser: a text is one if it is what some
    syntax tree spells out, and means what the tree means. */
module JsonGrammar {
  import opened Wrappers
  import opened Json

  /** A character of a string as it is written: itself, a backslash and a letter, or a backslash, a `u` and four digits. */
  datatype Character = Plain(c: char) | Short(letter: char) | Unicode(hex: string)

  datatype Exponent = Exponent(mark: char, sign: string, digits: string)

  datatype Tree =
    | TNull
    | TTrue
    | TFalse
    | TNumber(minus: bool, whole: string, fraction: Option<string>, exponent: Option<Exponent>)
    | TString(cs: seq<Character>)
    | TArray(gap: string, items: seq<Item>)
    | TObject(gap: string, members: seq<Pair>)

  /** With the white space around it. */
  datatype Item = Item(lead: string, tree: Tree, trail: string)
  datatype Pair = Pair(lead: string, key: seq<Character>, colonLead: string, colonTrail: string, tree: Tree, trail: string)

  // -------------------------------------------------------------------------------------------
  // What a tree spells.

  function CharacterText(c: Character): string {
    match c
    case Plain(c) => [c]
    case Short(letter) => ['\\', letter]
    case Unicode(hex) => ['\\', 'u'] + hex
  }

  function Body(cs: seq<Character>): string {
    if cs == [] then "" else CharacterText(cs[0]) + Body(cs[1..])
  }

  function FractionText(fraction: Option<string>): string {
    if fraction.Some? then "." + fraction.value else ""
  }

  function ExponentText(exponent: Option<Exponent>): string {
    if exponent.Some? then [exponent.value.mark] + (exponent.value.sign + exponent.value.digits) else ""
  }

  function NumberText(minus: bool, whole: string, fraction: Option<string>, exponent: Option<Exponent>): string {
    (if minus then "-" else "") + (whole + (FractionText(fraction) + ExponentText(exponent)))
  }

  function Text(t: Tree): string
    decreases t, 1
  {
    match t
    case TNull => "null"
    case TTrue => "true"
    case TFalse => "false"
    case TNumber(minus, whole, fraction, exponent) => NumberText(minus, whole, fraction, exponent)
    case TString(cs) => "\"" + (Body(cs) + "\"")
    case TArray(gap, items) => "[" + (if items == [] then gap + "]" else ItemsSpelled(items, "]"))
    case TObject(gap, members) => "{" + (if members == [] then gap + "}" else PairsSpelled(members, "}"))
  }

  /** The items with commas between them, and what follows the last. */
  function ItemsSpelled(items: seq<Item>, end: string): string
    requires items != []
    decreases items, 0
  {
    items[0].lead + (Text(items[0].tree) + (items[0].trail
      + if |items| == 1 then end else "," + ItemsSpelled(items[1..], end)))
  }

  function PairSpelled(p: Pair, end: string): string
    decreases p, 0
  {
    "\"" + (Body(p.key) + ("\"" + (p.colonLead + (":" + (p.colonTrail + (Text(p.tree) + (p.trail + end)))))))
  }

  function PairsSpelled(members: seq<Pair>, end: string): string
    requires members != []
    decreases members, 0
  {
    members[0].lead + PairSpelled(members[0], if |members| == 1 then end else "," + PairsSpelled(members[1..], end))
  }

  // -------------------------------------------------------------------------------------------
  // Which trees there are.

  predicate Blank(s: string) {
    forall c | c in s :: c in {' ', '\t', '\n', '\r'}
  }

  predicate AllDigits(s: string) {
    forall i | 0 <= i < |s| :: '0' <= s[i] <= '9'
  }

  predicate Numerals(s: string) {
    s != "" && AllDigits(s)
  }

  predicate IsHex(c: char) {
    '0' <= c <= '9' || 'a' <= c <= 'f' || 'A' <= c <= 'F'
  }

  predicate IsCharacter(c: Character) {
    match c
    case Plain(c) => c >= ' ' && c != '"' && c != '\\'
    case Short(letter) => letter in {'"', '\\', '/', 'b', 'f', 'n', 'r', 't'}
    case Unicode(hex) => |hex| == 4 && forall c | c in hex :: IsHex(c)
  }

  predicate AreCharacters(cs: seq<Character>) {
    forall c | c in cs :: IsCharacter(c)
  }

  predicate IsExponent(e: Exponent) {
    e.mark in {'e', 'E'} && e.sign in {"", "+", "-"} && Numerals(e.digits)
  }

  predicate IsTree(t: Tree) {
    match t
    case TNumber(_, whole, fraction, exponent) =>
      && Numerals(whole) && (whole[0] == '0' ==> whole == "0")
      && (fraction.Some? ==> Numerals(fraction.value))
      && (exponent.Some? ==> IsExponent(exponent.value))
    case TString(cs) => AreCharacters(cs)
    case TArray(gap, items) =>
      Blank(gap) && forall i | 0 <= i < |items| :: Blank(items[i].lead) && IsTree(items[i].tree) && Blank(items[i].trail)
    case TObject(gap, members) =>
      Blank(gap) && forall i | 0 <= i < |members| ::
        && Blank(members[i].lead) && AreCharacters(members[i].key) && Blank(members[i].colonLead)
        && Blank(members[i].colonTrail) && IsTree(members[i].tree) && Blank(members[i].trail)
    case _ => true
  }

  predicate AreItems(items: seq<Item>) {
    forall i | 0 <= i < |items| :: Blank(items[i].lead) && IsTree(items[i].tree) && Blank(items[i].trail)
  }

  predicate IsPair(p: Pair) {
    Blank(p.lead) && AreCharacters(p.key) && Blank(p.colonLead) && Blank(p.colonTrail) && IsTree(p.tree) && Blank(p.trail)
  }

  predicate ArePairs(members: seq<Pair>) {
    forall i | 0 <= i < |members| :: IsPair(members[i])
  }

  // -------------------------------------------------------------------------------------------
  // What a tree means.

  function HexOf(c: char): nat
    requires IsHex(c)
  {
    if c <= '9' then (c - '0') as nat else if c <= 'F' then (c - 'A') as nat + 10 else (c - 'a') as nat + 10
  }

  function Unit(hex: string): nat
    requires |hex| == 4 && forall c | c in hex :: IsHex(c)
  {
    ((HexOf(hex[0]) * 16 + HexOf(hex[1])) * 16 + HexOf(hex[2])) * 16 + HexOf(hex[3])
  }

  predicate HighUnit(c: Character)
    requires IsCharacter(c)
  {
    c.Unicode? && 0xD800 <= Unit(c.hex) < 0xDC00
  }

  predicate LowUnit(c: Character)
    requires IsCharacter(c)
  {
    c.Unicode? && 0xDC00 <= Unit(c.hex) < 0xE000
  }

  function LetterMeaning(letter: char): char {
    match letter
    case 'b' => 8 as char
    case 'f' => 12 as char
    case 'n' => '\n'
    case 'r' => '\r'
    case 't' => '\t'
    case _ => letter
  }

  lemma UnitBound(hex: string)
    requires |hex| == 4 && forall c | c in hex :: IsHex(c)
    ensures Unit(hex) < 0x1_0000
  {
    assert hex[0] in hex && hex[1] in hex && hex[2] in hex && hex[3] in hex;
  }

  function BodyMeaning(cs: seq<Character>): string
    requires AreCharacters(cs)
  {
    if cs == [] then ""
    else
      assert cs[0] in cs && forall c | c in cs[1..] :: c in cs;
      match cs[0]
      case Plain(c) => [c] + BodyMeaning(cs[1..])
      case Short(letter) => [LetterMeaning(letter)] + BodyMeaning(cs[1..])
      case Unicode(hex) =>
        UnitBound(hex);
        if HighUnit(cs[0]) && |cs| > 1 && LowUnit(cs[1]) then
          assert cs[1] in cs && forall c | c in cs[2..] :: c in cs;
          [(0x1_0000 + (Unit(hex) - 0xD800) * 0x400 + (Unit(cs[1].hex) - 0xDC00)) as char] + BodyMeaning(cs[2..])
        else if HighUnit(cs[0]) || LowUnit(cs[0]) then [0xFFFD as char] + BodyMeaning(cs[1..])
        else [Unit(hex) as char] + BodyMeaning(cs[1..])
  }

  function TenTo(n: nat): nat {
    if n == 0 then 1 else 10 * TenTo(n - 1)
  }

  /** Each digit counts ten times what the next does. */
  function NumeralValue(ds: string): nat
    requires AllDigits(ds)
  {
    if ds == "" then 0 else (ds[0] - '0') as nat * TenTo(|ds| - 1) + NumeralValue(ds[1..])
  }

  /** A key given again keeps its place and takes the later value. */
  function Assigned(members: seq<Member>, m: Member): seq<Member> {
    if members == [] then [m]
    else if members[0].key == m.key then [m] + members[1..]
    else [members[0]] + Assigned(members[1..], m)
  }

  /** One assignment after another. */
  function Collected(members: seq<Member>): seq<Member> {
    if members == [] then [] else Assigned(Collected(members[..|members| - 1]), members[|members| - 1])
  }

  function Meaning(t: Tree): Value
    requires IsTree(t)
    decreases t, 1
  {
    match t
    case TNull => Null
    case TTrue => Bool(true)
    case TFalse => Bool(false)
    case TNumber(minus, whole, fraction, exponent) =>
      if fraction.Some? || exponent.Some? then Decimal(Text(t))
      else Num(if minus then 0 - NumeralValue(whole) else NumeralValue(whole))
    case TString(cs) => Str(BodyMeaning(cs))
    case TArray(_, items) => Arr(ItemsMeaning(items))
    case TObject(_, members) => Obj(Collected(PairsMeaning(members)))
  }

  function ItemsMeaning(items: seq<Item>): seq<Value>
    requires AreItems(items)
    decreases items, 0
  {
    if items == [] then [] else [Meaning(items[0].tree)] + ItemsMeaning(items[1..])
  }

  function PairsMeaning(members: seq<Pair>): seq<Member>
    requires ArePairs(members)
    decreases members, 0
  {
    if members == [] then []
    else
      assert IsPair(members[0]);
      [Member(BodyMeaning(members[0].key), Meaning(members[0].tree))] + PairsMeaning(members[1..])
  }

  /** The text is JSON for this value. */
  ghost predicate IsJson(text: string, v: Value) {
    exists lead, t, trail :: Blank(lead) && Blank(trail) && IsTree(t) && text == lead + Text(t) + trail && Meaning(t) == v
  }
}
