/** JSON texts (RFC 8259), as `JSON.stringify` writes and `JSON.parse` reads them. */
module Json {
  import opened Wrappers

  datatype Member = Member(key: string, value: Value)

  /** A number without fraction or exponent is an integer; any other is kept as its text. */
  datatype Value =
    | Null
    | Bool(b: bool)
    | Num(n: int)
    | Decimal(text: string)
    | Str(s: string)
    | Arr(items: seq<Value>)
    | Obj(members: seq<Member>)

  // -------------------------------------------------------------------------------------------
  // Writing.

  function Digit(d: nat): char
    requires d < 10
  {
    '0' + d as char
  }

  function Digits(n: nat): string {
    if n < 10 then [Digit(n)] else Digits(n / 10) + [Digit(n % 10)]
  }

  function IntText(n: int): string {
    if n < 0 then "-" + Digits(-n) else Digits(n)
  }

  function HexDigit(d: nat): char
    requires d < 16
  {
    if d < 10 then '0' + d as char else 'a' + (d - 10) as char
  }

  const BACKSPACE := 8 as char
  const FORM_FEED := 12 as char

  function Escape(c: char): string {
    if c == '"' then "\\\""
    else if c == '\\' then "\\\\"
    else if c == BACKSPACE then "\\b"
    else if c == FORM_FEED then "\\f"
    else if c == '\n' then "\\n"
    else if c == '\r' then "\\r"
    else if c == '\t' then "\\t"
    else if c < ' ' then "\\u00" + [HexDigit(c as int / 16), HexDigit(c as int % 16)]
    else [c]
  }

  function Escapes(s: string): string {
    if s == "" then "" else Escape(s[0]) + Escapes(s[1..])
  }

  function Quote(s: string): string {
    "\"" + Escapes(s) + "\""
  }

  function Print(v: Value): string
    decreases v, 1
  {
    match v
    case Null => "null"
    case Bool(b) => if b then "true" else "false"
    case Num(n) => IntText(n)
    case Decimal(text) => text
    case Str(s) => Quote(s)
    case Arr(items) => if items == [] then "[]" else "[" + PrintItems(items)
    case Obj(members) => if members == [] then "{}" else "{" + PrintMembers(members)
  }

  /** The items with commas between them and the closing bracket. */
  function PrintItems(items: seq<Value>): string
    requires items != []
    decreases items, 0
  {
    Print(items[0]) + if |items| == 1 then "]" else "," + PrintItems(items[1..])
  }

  function PrintMembers(members: seq<Member>): string
    requires members != []
    decreases members, 0
  {
    Quote(members[0].key) + (":" + (Print(members[0].value)
      + if |members| == 1 then "}" else "," + PrintMembers(members[1..])))
  }

  // -------------------------------------------------------------------------------------------
  // Reading. Each reader takes a text and gives what it read and the text that follows.

  datatype Read<+T> = Fail | Got(value: T, rest: string)

  predicate IsSpace(c: char) {
    c == ' ' || c == '\t' || c == '\n' || c == '\r'
  }

  function Skip(s: string): (r: string)
    ensures |r| <= |s|
  {
    if s != "" && IsSpace(s[0]) then Skip(s[1..]) else s
  }

  predicate IsDigit(c: char) {
    '0' <= c <= '9'
  }

  /** The longest run of digits at the front. */
  function TakeDigits(s: string): (r: (string, string))
    ensures r.0 + r.1 == s
  {
    if s != "" && IsDigit(s[0]) then
      var more := TakeDigits(s[1..]);
      ([s[0]] + more.0, more.1)
    else ("", s)
  }

  function DigitsValue(ds: string): nat
    requires forall c | c in ds :: IsDigit(c)
  {
    if ds == "" then 0
    else
      assert ds[|ds| - 1] in ds && IsDigit(ds[|ds| - 1]);
      DigitsValue(ds[..|ds| - 1]) * 10 + (ds[|ds| - 1] as int - '0' as int)
  }

  function ReadInteger(s: string): (r: Read<string>)
    ensures r.Got? ==> r.value != "" && r.value + r.rest == s && forall c | c in r.value :: IsDigit(c)
  {
    if s == "" || !IsDigit(s[0]) then Fail
    else if s[0] == '0' then Got("0", s[1..])
    else
      var d := TakeDigits(s);
      TakenAreDigits(s);
      Got(d.0, d.1)
  }

  lemma TakenAreDigits(s: string)
    ensures forall c | c in TakeDigits(s).0 :: IsDigit(c)
  {
  }

  function ReadFraction(s: string): (r: Read<string>)
    ensures r.Got? ==> r.value + r.rest == s
  {
    if s == "" || s[0] != '.' then Got("", s)
    else
      var d := TakeDigits(s[1..]);
      if d.0 == "" then Fail else Got("." + d.0, d.1)
  }

  /** At least one digit, after a sign or none. */
  function ReadPower(s: string): (r: Read<string>)
    ensures r.Got? ==> r.value + r.rest == s
  {
    var sign := if s != "" && s[0] in "+-" then [s[0]] else "";
    var d := TakeDigits(s[|sign|..]);
    if d.0 == "" then Fail else Got(sign + d.0, d.1)
  }

  function ReadExponent(s: string): (r: Read<string>)
    ensures r.Got? ==> r.value + r.rest == s
  {
    if s == "" || s[0] !in "eE" then Got("", s)
    else
      var power := ReadPower(s[1..]);
      if power.Fail? then Fail else Got([s[0]] + power.value, power.rest)
  }

  /** The sign at the front of a number. */
  function Sign(s: string): (sign: string)
    ensures |sign| <= |s| && (sign == "" || sign == "-")
  {
    if s != "" && s[0] == '-' then "-" else ""
  }

  function ReadNumber(s: string): (r: Read<Value>)
    ensures r.Got? ==> |r.rest| < |s| && !r.value.Str?
  {
    var sign := Sign(s);
    var whole := ReadInteger(s[|sign|..]);
    if whole.Fail? then Fail else AfterInteger(sign, whole.value, whole.rest)
  }

  function AfterInteger(sign: string, whole: string, s: string): (r: Read<Value>)
    requires forall c | c in whole :: IsDigit(c)
    ensures r.Got? ==> |r.rest| <= |s| && !r.value.Str?
  {
    var fraction := ReadFraction(s);
    if fraction.Fail? then Fail else AfterFraction(sign, whole, fraction.value, fraction.rest)
  }

  function AfterFraction(sign: string, whole: string, fraction: string, s: string): (r: Read<Value>)
    requires forall c | c in whole :: IsDigit(c)
    ensures r.Got? ==> |r.rest| <= |s| && !r.value.Str?
  {
    var exponent := ReadExponent(s);
    if exponent.Fail? then Fail
    else if fraction == "" && exponent.value == "" then
      Got(Num(if sign == "-" then 0 - DigitsValue(whole) else DigitsValue(whole)), exponent.rest)
    else
      Got(Decimal(sign + whole + fraction + exponent.value), exponent.rest)
  }

  function HexValue(c: char): Option<nat> {
    if '0' <= c <= '9' then Some((c - '0') as nat)
    else if 'a' <= c <= 'f' then Some((c - 'a') as nat + 10)
    else if 'A' <= c <= 'F' then Some((c - 'A') as nat + 10)
    else None
  }

  /** The code unit of the four hexadecimal digits at the front. */
  function HexUnit(s: string): (r: Option<nat>)
    ensures r.Some? ==> |s| >= 4 && r.value < 0x1_0000
  {
    if |s| < 4 then None
    else
      var a, b, c, d := HexValue(s[0]), HexValue(s[1]), HexValue(s[2]), HexValue(s[3]);
      if a.Some? && b.Some? && c.Some? && d.Some?
         && a.value < 16 && b.value < 16 && c.value < 16 && d.value < 16
      then Some(a.value * 4096 + b.value * 256 + c.value * 16 + d.value)
      else None
  }

  const REPLACEMENT := 0xFFFD as char

  /** One `\u` escape, after its `\u`: two of them for a surrogate pair. A lone surrogate, which no Unicode
      string holds, is read as U+FFFD. */
  function ReadUnicode(s: string): (r: Read<char>)
    ensures r.Got? ==> |r.rest| + 4 <= |s|
  {
    var u := HexUnit(s);
    if u.None? then Fail
    else if 0xD800 <= u.value < 0xDC00 then
      if |s| >= 6 && s[4..6] == "\\u" && HexUnit(s[6..]).Some? && 0xDC00 <= HexUnit(s[6..]).value < 0xE000 then
        Got((0x1_0000 + (u.value - 0xD800) * 0x400 + (HexUnit(s[6..]).value - 0xDC00)) as char, s[10..])
      else Got(REPLACEMENT, s[4..])
    else if 0xDC00 <= u.value < 0xE000 then Got(REPLACEMENT, s[4..])
    else Got(u.value as char, s[4..])
  }

  /** One escape, after its backslash. */
  function ReadEscape(s: string): (r: Read<char>)
    ensures r.Got? ==> |r.rest| < |s|
  {
    if s == "" then Fail
    else match s[0]
      case '"' => Got('"', s[1..])
      case '\\' => Got('\\', s[1..])
      case '/' => Got('/', s[1..])
      case 'b' => Got(BACKSPACE, s[1..])
      case 'f' => Got(FORM_FEED, s[1..])
      case 'n' => Got('\n', s[1..])
      case 'r' => Got('\r', s[1..])
      case 't' => Got('\t', s[1..])
      case 'u' => ReadUnicode(s[1..])
      case _ => Fail
  }

  /** The rest of a string, after its opening quote. What it holds is shorter than what was read. */
  function ReadString(s: string): (r: Read<string>)
    ensures r.Got? ==> |r.value| + 1 + |r.rest| <= |s|
    decreases |s|
  {
    if s == "" then Fail
    else if s[0] == '"' then Got("", s[1..])
    else if s[0] == '\\' then
      var c := ReadEscape(s[1..]);
      if c.Fail? then Fail
      else
        var more := ReadString(c.rest);
        if more.Fail? then Fail else Got([c.value] + more.value, more.rest)
    else if s[0] < ' ' then Fail
    else
      var more := ReadString(s[1..]);
      if more.Fail? then Fail else Got([s[0]] + more.value, more.rest)
  }

  predicate Starts(s: string, c: char) {
    s != "" && s[0] == c
  }

  function ReadValue(s: string): (r: Read<Value>)
    ensures r.Got? ==> |r.rest| < |s|
    ensures r.Got? && r.value.Str? ==> |r.value.s| + 2 + |r.rest| <= |s|
    decreases |s|, 0
  {
    if "null" <= s then Got(Null, s[4..])
    else if "true" <= s then Got(Bool(true), s[4..])
    else if "false" <= s then Got(Bool(false), s[5..])
    else if Starts(s, '"') then
      var string_ := ReadString(s[1..]);
      if string_.Fail? then Fail else Got(Str(string_.value), string_.rest)
    else if Starts(s, '[') then
      var t := Skip(s[1..]);
      if Starts(t, ']') then Got(Arr([]), t[1..])
      else
        var items := ReadItems(t);
        if items.Fail? then Fail else Got(Arr(items.value), items.rest)
    else if Starts(s, '{') then
      var t := Skip(s[1..]);
      if Starts(t, '}') then Got(Obj([]), t[1..])
      else
        var members := ReadMembers(t);
        if members.Fail? then Fail else Got(Obj(members.value), members.rest)
    else ReadNumber(s)
  }

  function ReadItems(s: string): (r: Read<seq<Value>>)
    ensures r.Got? ==> |r.rest| < |s|
    decreases |s|, 1
  {
    var first := ReadValue(s);
    if first.Fail? then Fail
    else
      var t := Skip(first.rest);
      if Starts(t, ']') then Got([first.value], t[1..])
      else if Starts(t, ',') then
        var more := ReadItems(Skip(t[1..]));
        if more.Fail? then Fail else Got([first.value] + more.value, more.rest)
      else Fail
  }

  function ReadMember(s: string): (r: Read<Member>)
    ensures r.Got? ==> |r.rest| < |s|
    decreases |s|, 1
  {
    if !Starts(s, '"') then Fail
    else
      var key := ReadString(s[1..]);
      if key.Fail? then Fail
      else
        var t := Skip(key.rest);
        if !Starts(t, ':') then Fail
        else
          var v := ReadValue(Skip(t[1..]));
          if v.Fail? then Fail else Got(Member(key.value, v.value), v.rest)
  }

  function ReadMembers(s: string): (r: Read<seq<Member>>)
    ensures r.Got? ==> |r.rest| < |s|
    decreases |s|, 2
  {
    var first := ReadMember(s);
    if first.Fail? then Fail
    else
      var t := Skip(first.rest);
      if Starts(t, '}') then Got([first.value], t[1..])
      else if Starts(t, ',') then
        var more := ReadMembers(Skip(t[1..]));
        if more.Fail? then Fail else Got(Prepend(first.value, more.value), more.rest)
      else Fail
  }

  /** A key given again later keeps its place and takes the later value. */
  function Prepend(m: Member, later: seq<Member>): seq<Member> {
    if exists i | 0 <= i < |later| :: later[i].key == m.key
    then [Member(m.key, Lookup(later, m.key))] + Without(later, m.key)
    else [m] + later
  }

  function Lookup(members: seq<Member>, key: string): Value
    requires exists i | 0 <= i < |members| :: members[i].key == key
  {
    if members[0].key == key then members[0].value else Lookup(members[1..], key)
  }

  function Without(members: seq<Member>, key: string): seq<Member> {
    if members == [] then []
    else (if members[0].key == key then [] else [members[0]]) + Without(members[1..], key)
  }

  function Parse(text: string): Option<Value> {
    var r := ReadValue(Skip(text));
    if r.Got? && Skip(r.rest) == "" then Some(r.value) else None
  }

  // -------------------------------------------------------------------------------------------
  // The cache codec of RedisService.

  /** What `set` stores: a string as it is, anything else as JSON. */
  function Encode(v: Value): string {
    if v.Str? then v.s else Print(v)
  }

  /** What `get` makes of a stored text: JSON if it can be, the text itself otherwise. */
  function Decode(text: string): Value {
    match Parse(text)
    case Some(v) => v
    case None => Str(text)
  }
}
